/** `wazo_webhookd/plugins/subscription/service.py`: the subscription table together with the index that its
    synchronous publications keep up to date. */
module Service {
  import opened Rows
  import opened Models
  import opened Store
  import opened SubscriptionIndex
  import Consumers

  datatype Fault = NoSuchSubscription | IntegrityError | KeyError

  /** Subscription rows, the bus index, and the supply of callback identities. */
  datatype System = System(rows: seq<Row>, ix: Index, token: nat)

  datatype Step = Step(next: System, fault: Option<Fault>)

  function Position(rows: seq<Row>, uuid: string): (p: nat)
    ensures p <= |rows|
    ensures p < |rows| ==> rows[p].uuid == uuid
    ensures forall i :: 0 <= i < p ==> rows[i].uuid != uuid
  {
    if rows == [] then 0 else if rows[0].uuid == uuid then 0 else 1 + Position(rows[1..], uuid)
  }

  /** `_get`: where the row is, unless it is missing or outside the caller's filters. */
  function Get(rows: seq<Row>, uuid: string, tenants: seq<string>, owner: Option<string>): Option<nat> {
    var p := Position(rows, uuid);
    if p < |rows| && (tenants == [] || rows[p].ownerTenant in tenants) && (Truthy(owner) ==> rows[p].ownerUser == owner)
    then Some(p) else None
  }

  /** The constraints the flush enforces: a new key, an owner tenant, each event once. */
  predicate Insertable(rows: seq<Row>, uuid: string, schema: Schema) {
    Position(rows, uuid) == |rows| && schema.ownerTenant.Given? && Distinct(schema.events)
  }

  function Created(s: System, uuid: string, schema: Schema, master: string): Step {
    var row := Filled(Blank(uuid), schema);
    if !Insertable(s.rows, uuid, schema) then Step(s, Some(IntegrityError))
    else Step(System(s.rows + [row], Register(s.ix, row, Consumers.Hook(s.token, row), master), s.token + 1), None)
  }

  function Modified(s: System, uuid: string, schema: Schema, tenants: seq<string>, owner: Option<string>,
                    order: seq<string>, master: string): Step {
    match Get(s.rows, uuid, tenants, owner)
    case None => Step(s, Some(NoSuchSubscription))
    case Some(p) =>
      var row := Filled(Cleared(s.rows[p]), schema);
      if !Distinct(schema.events) then Step(s, Some(IntegrityError))
      else if row.uuid !in s.ix.callbacks then Step(s.(token := s.token + 1), Some(KeyError))
      else Step(System(s.rows[p := row], Update(s.ix, row, Consumers.Hook(s.token, row), order, master), s.token + 1),
                None)
  }

  function Deleted(s: System, uuid: string, tenants: seq<string>, owner: Option<string>): Step {
    match Get(s.rows, uuid, tenants, owner)
    case None => Step(s, Some(NoSuchSubscription))
    case Some(p) => Step(System(s.rows[..p] + s.rows[p + 1..], Unregister(s.ix, uuid), s.token), None)
  }

  /** Unfiltered deletions one after the other, a missing row being passed over. */
  function DeleteAll(s: System, uuids: seq<string>): System {
    if uuids == [] then s
    else Deleted(DeleteAll(s, uuids[..|uuids| - 1]), uuids[|uuids| - 1], [], None).next
  }

  function Uuids(rows: seq<Row>): seq<string> {
    seq(|rows|, i requires 0 <= i < |rows| => rows[i].uuid)
  }

  /** The rows a deleted user concerns, as owner or as the user whose events are watched. */
  function UserRows(rows: seq<Row>, user: string): seq<Row> {
    List(rows, [], Some(user), None, []) + List(rows, [], None, Some(user), [])
  }

  class SubscriptionService {
    const handler: SubscriptionBusEventHandler
    var rows: seq<Row>

    constructor (handler: SubscriptionBusEventHandler, rows: seq<Row>)
      ensures this.handler == handler && this.rows == rows
    {
      this.handler, this.rows := handler, rows;
    }

    ghost predicate Valid() {
      handler.Valid()
    }

    function State(): System
      reads this, handler, handler.bus, handler.bus.broker, handler.bus.exchange
    {
      System(rows, handler.State(), handler.token)
    }

    /** `uuid` is the key the database generates. */
    method Create(uuid: string, schema: Schema) returns (fault: Option<Fault>)
      requires Valid()
      modifies this, handler, handler.bus, handler.bus.broker, handler.bus.exchange
      ensures Step(State(), fault) == Created(old(State()), uuid, schema, handler.master)
    {
      var subscription := new Models.Subscription(Blank(uuid));
      subscription.FromSchema(schema);
      var row := subscription.Value();
      if !Insertable(rows, uuid, schema) { return Some(IntegrityError); }
      rows := rows + [row];
      handler.OnCreated(row);
      return None;
    }

    method Modify(uuid: string, schema: Schema, tenants: seq<string>, owner: Option<string>)
      returns (fault: Option<Fault>, order: seq<string>)
      requires Valid()
      modifies this, handler, handler.bus, handler.bus.broker, handler.bus.exchange
      ensures Step(State(), fault) == Modified(old(State()), uuid, schema, tenants, owner, order, handler.master)
      ensures fault == None ==>
        uuid in old(handler.callbacks) && IterationOrder(order, schema.events, old(handler.callbacks)[uuid].events)
    {
      order := [];
      var found := Get(rows, uuid, tenants, owner);
      if found.None? { return Some(NoSuchSubscription), order; }
      var subscription := new Models.Subscription(rows[found.value]);
      subscription.ClearRelations();
      subscription.FromSchema(schema);
      var row := subscription.Value();
      if !Distinct(schema.events) { return Some(IntegrityError), order; }
      assert row.events == schema.events;
      var former := rows;
      rows := rows[found.value := row];
      var known;
      known, order := handler.OnUpdated(row);
      if !known {
        rows := former;
        return Some(KeyError), order;
      }
      return None, order;
    }

    method Delete(uuid: string, tenants: seq<string>, owner: Option<string>) returns (fault: Option<Fault>)
      requires Valid()
      modifies this, handler, handler.bus, handler.bus.broker, handler.bus.exchange
      ensures Step(State(), fault) == Deleted(old(State()), uuid, tenants, owner)
    {
      var found := Get(rows, uuid, tenants, owner);
      if found.None? { return Some(NoSuchSubscription); }
      var p := found.value;
      handler.OnDeleted(uuid);
      rows := rows[..p] + rows[p + 1..];
      return None;
    }

    /** The set of uuids is iterated in some order, which is returned. */
    method RemoveUser(user: string) returns (order: seq<string>)
      requires Valid()
      modifies this, handler, handler.bus, handler.bus.broker, handler.bus.exchange
      ensures State() == DeleteAll(old(State()), order)
      ensures Distinct(order)
      ensures forall u :: u in order <==> exists row :: row in UserRows(old(rows), user) && row.uuid == u
    {
      var uuids := set row | row in UserRows(rows, user) :: row.uuid;
      var rest := uuids;
      order := [];
      while rest != {}
        invariant State() == DeleteAll(old(State()), order)
        invariant rest <= uuids && Distinct(order) && forall u :: u in order <==> u in uuids && u !in rest
        decreases rest
      {
        var u :| u in rest;
        rest := rest - {u};
        assert (order + [u])[..|order|] == order;
        var _ := Delete(u, [], None);
        order := order + [u];
      }
    }

    method RemoveTenant(tenant: string)
      requires Valid()
      modifies this, handler, handler.bus, handler.bus.broker, handler.bus.exchange
      ensures State() == DeleteAll(old(State()), Uuids(List(old(rows), [tenant], None, None, [])))
    {
      var subscriptions := List(rows, [tenant], None, None, []);
      var uuids := Uuids(subscriptions);
      for i := 0 to |subscriptions|
        invariant State() == DeleteAll(old(State()), uuids[..i])
      {
        assert uuids[..i + 1][..i] == uuids[..i];
        var _ := Delete(subscriptions[i].uuid, [], None);
      }
      assert uuids[..|subscriptions|] == uuids;
    }
  }

  // ----- when each operation succeeds, and what it leaves

  ghost predicate Repeated(events: seq<string>) {
    exists i, j :: 0 <= i < j < |events| && events[i] == events[j]
  }

  /** The row is the one asked for, and within the caller's tenants and owner if any are given. */
  predicate Within(row: Row, uuid: string, tenants: seq<string>, owner: Option<string>) {
    && row.uuid == uuid
    && (tenants != [] ==> row.ownerTenant in tenants)
    && (owner.Some? && owner.value != "" ==> row.ownerUser == owner)
  }

  lemma GetIff(rows: seq<Row>, uuid: string, tenants: seq<string>, owner: Option<string>)
    requires UniqueUuids(rows)
    ensures Get(rows, uuid, tenants, owner).Some? <==> exists row :: row in rows && Within(row, uuid, tenants, owner)
    ensures var p := Get(rows, uuid, tenants, owner);
            p.Some? ==> p.value < |rows| && Within(rows[p.value], uuid, tenants, owner)
  {
    var p := Position(rows, uuid);
    forall row | row in rows && row.uuid == uuid ensures p < |rows| && row == rows[p] {
      SameRow(rows, row, rows[p]);
    }
    if Get(rows, uuid, tenants, owner).Some? {
      assert rows[p] in rows && Within(rows[p], uuid, tenants, owner);
    }
  }

  /** A creation succeeds iff the key is new, an owner tenant is given and no event is repeated: then one row comes
      last, with the payload's content and nothing in the fields left out. Otherwise nothing changes. */
  lemma CreatedIff(s: System, uuid: string, schema: Schema, master: string)
    ensures var step := Created(s, uuid, schema, master);
            && (step.fault == None
                <==> (forall row :: row in s.rows ==> row.uuid != uuid) && schema.ownerTenant != NotSet
                     && !Repeated(schema.events))
            && (step.fault != None ==> step == Step(s, Some(IntegrityError)))
            && (step.fault == None ==>
                  && |step.next.rows| == |s.rows| + 1 && step.next.rows[..|s.rows|] == s.rows
                  && AsGiven(step.next.rows[|s.rows|], uuid, schema))
  {
    var p := Position(s.rows, uuid);
    if p < |s.rows| {
      assert s.rows[p] in s.rows;
    }
    NotRepeated(schema.events);
  }

  lemma NotRepeated(events: seq<string>)
    ensures Distinct(events) <==> !Repeated(events)
  {
  }

  /** A new row holds what the payload says. */
  ghost predicate AsGiven(row: Row, uuid: string, schema: Schema) {
    && row.uuid == uuid && row.name == schema.name && row.service == schema.service
    && row.options == schema.config && row.events == schema.events
    && row.metadata == (if schema.metadata == None then [] else schema.metadata.value)
    && row.eventsUser == (if schema.eventsUser == NotSet then None else schema.eventsUser.value)
    && row.eventsWazo == (if schema.eventsWazo == NotSet then None else schema.eventsWazo.value)
    && row.ownerUser == (if schema.ownerUser == NotSet then None else schema.ownerUser.value)
    && (schema.ownerTenant != NotSet ==> row.ownerTenant == schema.ownerTenant.value)
  }

  /** A replacement: the row must be within the caller's filters, and no event repeated; then that row alone
      changes, in its place, to what `ReplaceRoundTrip` says. */
  lemma ModifiedIff(s: System, uuid: string, schema: Schema, tenants: seq<string>, owner: Option<string>,
                    order: seq<string>, master: string)
    requires UniqueUuids(s.rows)
    ensures var step := Modified(s, uuid, schema, tenants, owner, order, master);
            var found := exists row :: row in s.rows && Within(row, uuid, tenants, owner);
            && (step.fault == Some(NoSuchSubscription) <==> !found)
            && (step.fault == Some(IntegrityError) <==> found && Repeated(schema.events))
            && (step.fault == Some(KeyError) <==> found && !Repeated(schema.events) && uuid !in s.ix.callbacks)
            && (step.fault != None ==> step.next.rows == s.rows && step.next.ix == s.ix)
            && (step.fault == None ==> exists p: nat ::
                  && p < |s.rows| && Within(s.rows[p], uuid, tenants, owner)
                  && step.next.rows == s.rows[p := Filled(Cleared(s.rows[p]), schema)])
  {
    GetIff(s.rows, uuid, tenants, owner);
    NotRepeated(schema.events);
  }

  /** A deletion: the row must be within the caller's filters, and is then the only one to go. */
  lemma DeletedIff(s: System, uuid: string, tenants: seq<string>, owner: Option<string>)
    requires UniqueUuids(s.rows)
    ensures var step := Deleted(s, uuid, tenants, owner);
            && (step.fault == None <==> exists row :: row in s.rows && Within(row, uuid, tenants, owner))
            && (step.fault != None ==> step == Step(s, Some(NoSuchSubscription)))
            && (step.fault == None ==> exists p: nat ::
                  && p < |s.rows| && Within(s.rows[p], uuid, tenants, owner)
                  && step.next.rows == s.rows[..p] + s.rows[p + 1..])
  {
    GetIff(s.rows, uuid, tenants, owner);
  }
}
