/** `wazo_webhookd/services/mobile/plugin.py`: one mobile subscription per user, following the external
    authentication events of the user. */
module Mobile {
  import opened Rows
  import opened Models
  import opened Store
  import opened Service
  import opened Runs
  import opened Cleanup
  import opened Headers
  import opened Agreement
  import opened Delivery
  import opened Replacements

  const SEARCH: Dict := [Pair("mobile", Some("true"))]

  function MobileSchema(user: string, tenant: string): Schema {
    Schema("Push notification mobile for user " + tenant + "/" + user, "mobile", [],
           ["chatd_user_room_message_created", "call_push_notification", "call_cancel_push_notification",
            "user_voicemail_message_created", "global_voicemail_message_created", "user_missed_call"],
           Some(SEARCH), NotSet, Given(Some(user)), Given(Some(user)), Given(tenant))
  }

  function MobileRows(rows: seq<Row>, user: string, tenant: string): seq<Row> {
    List(rows, [tenant], Some(user), None, SEARCH)
  }

  function Ensured(s: System, user: string, tenant: string, uuid: string, master: string): Step {
    var found := MobileRows(s.rows, user, tenant);
    if |found| == 0 then Created(s, uuid, MobileSchema(user, tenant), master)
    else Step(DeleteAll(s, Uuids(found[1..])), None)
  }

  function Removed(s: System, user: string, tenant: string): System {
    DeleteAll(s, Uuids(MobileRows(s.rows, user, tenant)))
  }

  lemma DeleteNext(s: System, uuids: seq<string>, i: nat)
    requires i < |uuids|
    ensures DeleteAll(s, uuids[..i + 1]) == Deleted(DeleteAll(s, uuids[..i]), uuids[i], [], None).next
  {
    assert uuids[..i + 1][..i] == uuids[..i];
  }

  /** Among rows deleted one by one, the next is there to be deleted. */
  lemma StillThere(s: System, part: seq<Row>, uuids: seq<string>, i: nat, here: System)
    requires UniqueUuids(s.rows) && UniqueUuids(part) && forall row :: row in part ==> row in s.rows
    requires uuids == Uuids(part) && i < |part| && here == DeleteAll(s, uuids[..i])
    ensures Get(here.rows, part[i].uuid, [], None).Some?
  {
    DeleteAllRows(s, uuids[..i]);
    assert part[i] in s.rows && part[i].uuid !in uuids[..i];
    WhereMember(s.rows, NotAmong(uuids[..i]), part[i]);
    PositionFound(here.rows, part[i].uuid);
  }

  class MobileService {
    const service: SubscriptionService

    constructor (service: SubscriptionService)
      ensures this.service == service
    {
      this.service := service;
    }

    ghost predicate Valid()
      reads service
    {
      service.Valid() && UniqueUuids(service.rows)
    }

    method OnExternalAuthAdded(authName: string, user: string, tenant: string, uuid: string)
      returns (fault: Option<Fault>)
      requires Valid()
      modifies service, service.handler, service.handler.bus, service.handler.bus.broker, service.handler.bus.exchange
      ensures Valid()
      ensures authName == "mobile" ==>
        Step(service.State(), fault) == Ensured(old(service.State()), user, tenant, uuid, service.handler.master)
      ensures authName != "mobile" ==> service.State() == old(service.State()) && fault == None
    {
      if authName != "mobile" { return None; }
      fault := EnsureMobileSubscription(user, tenant, uuid);
    }

    method OnExternalAuthUpdated(authName: string, user: string, tenant: string, uuid: string)
      returns (fault: Option<Fault>)
      requires Valid()
      modifies service, service.handler, service.handler.bus, service.handler.bus.broker, service.handler.bus.exchange
      ensures Valid()
      ensures authName == "mobile" ==>
        Step(service.State(), fault) == Ensured(old(service.State()), user, tenant, uuid, service.handler.master)
      ensures authName != "mobile" ==> service.State() == old(service.State()) && fault == None
    {
      if authName != "mobile" { return None; }
      fault := EnsureMobileSubscription(user, tenant, uuid);
    }

    method OnExternalAuthDeleted(authName: string, user: string, tenant: string) returns (fault: Option<Fault>)
      requires Valid()
      modifies service, service.handler, service.handler.bus, service.handler.bus.broker, service.handler.bus.exchange
      ensures Valid()
      ensures service.State()
           == if authName == "mobile" then Removed(old(service.State()), user, tenant) else old(service.State())
      ensures fault == None
    {
      if authName != "mobile" { return None; }
      var subscriptions := MobileRows(service.rows, user, tenant);
      WhereUnique(service.rows, Criteria(MetadatumTable(service.rows), [tenant], Some(user), None, SEARCH));
      MobileRowsFound(service.rows, user, tenant);
      fault := DeleteEach(subscriptions);
    }

    /** Deletes rows known to be there; none of the deletions fails. */
    method DeleteEach(subscriptions: seq<Row>) returns (fault: Option<Fault>)
      requires Valid() && UniqueUuids(subscriptions) && forall row :: row in subscriptions ==> row in service.rows
      modifies service, service.handler, service.handler.bus, service.handler.bus.broker, service.handler.bus.exchange
      ensures Valid()
      ensures service.State() == DeleteAll(old(service.State()), Uuids(subscriptions))
      ensures fault == None
    {
      var uuids := Uuids(subscriptions);
      ghost var s := service.State();
      DeleteAllRows(s, uuids);
      for i := 0 to |subscriptions|
        invariant service.State() == DeleteAll(s, uuids[..i])
      {
        DeleteNext(s, uuids, i);
        StillThere(s, subscriptions, uuids, i, service.State());
        fault := service.Delete(subscriptions[i].uuid, [], None);
        if fault.Some? { return; }
      }
      assert uuids[..|subscriptions|] == uuids;
      return None;
    }

    method EnsureMobileSubscription(user: string, tenant: string, uuid: string) returns (fault: Option<Fault>)
      requires Valid()
      modifies service, service.handler, service.handler.bus, service.handler.bus.broker, service.handler.bus.exchange
      ensures Valid()
      ensures Step(service.State(), fault) == Ensured(old(service.State()), user, tenant, uuid, service.handler.master)
    {
      var subscriptions := MobileRows(service.rows, user, tenant);
      if |subscriptions| == 1 {
        assert Uuids(subscriptions[1..]) == [];
        return None;
      }
      if |subscriptions| > 1 {
        WhereUnique(service.rows, Criteria(MetadatumTable(service.rows), [tenant], Some(user), None, SEARCH));
        MobileRowsFound(service.rows, user, tenant);
        fault := DeleteEach(subscriptions[1..]);
        return;
      }
      fault := service.Create(uuid, MobileSchema(user, tenant));
    }
  }

  // ----- rows

  predicate OfPair(row: Row, user: string, tenant: string) {
    row.ownerUser == Some(user) && row.ownerTenant == tenant && SEARCH[0] in row.metadata
  }

  function MobileOf(user: string, tenant: string): Row -> bool {
    (row: Row) => OfPair(row, user, tenant)
  }

  function NotMobileOf(user: string, tenant: string): Row -> bool {
    (row: Row) => !OfPair(row, user, tenant)
  }

  predicate TenantMobile(row: Row, tenant: string) {
    row.ownerTenant == tenant && SEARCH[0] in row.metadata
  }

  function MobileIn(tenant: string): Row -> bool {
    (row: Row) => TenantMobile(row, tenant)
  }

  /** What the query for a user's mobile subscriptions finds. With an empty user it leaves the owner out. */
  predicate Queried(row: Row, user: string, tenant: string) {
    TenantMobile(row, tenant) && (user != "" ==> row.ownerUser == Some(user))
  }

  function Found(user: string, tenant: string): Row -> bool {
    (row: Row) => Queried(row, user, tenant)
  }

  function NotFound(user: string, tenant: string): Row -> bool {
    (row: Row) => !Queried(row, user, tenant)
  }

  lemma MobileRowsFound(rows: seq<Row>, user: string, tenant: string)
    requires UniqueUuids(rows)
    ensures MobileRows(rows, user, tenant) == Where(rows, Found(user, tenant))
    ensures forall row :: row in MobileRows(rows, user, tenant) <==> row in rows && Queried(row, user, tenant)
  {
    var criteria := Criteria(MetadatumTable(rows), [tenant], Some(user), None, SEARCH);
    forall row ensures row in MobileRows(rows, user, tenant) <==> row in rows && Queried(row, user, tenant) {
      ListMeaning(rows, [tenant], Some(user), None, SEARCH, row);
    }
    forall row | row in rows ensures criteria(row) == Queried(row, user, tenant) {
      WhereMember(rows, criteria, row);
    }
    WhereCongruent(rows, criteria, Found(user, tenant));
  }

  /** The row created satisfies the very query that looks for it. */
  lemma CreatedIsFound(uuid: string, user: string, tenant: string)
    ensures OfPair(Filled(Blank(uuid), MobileSchema(user, tenant)), user, tenant)
    ensures Queried(Filled(Blank(uuid), MobileSchema(user, tenant)), user, tenant)
    ensures Distinct(MobileSchema(user, tenant).events)
  {
    var row := Filled(Blank(uuid), MobileSchema(user, tenant));
    assert row.metadata == [] + SEARCH;
    assert row.metadata[0] == SEARCH[0];
    var events := MobileSchema(user, tenant).events;
    assert |events[0]| == 31 && |events[1]| == 22 && |events[2]| == 29;
    assert |events[3]| == 30 && |events[4]| == 32 && |events[5]| == 16;
  }

  lemma WhereCommutes(rows: seq<Row>, p: Row -> bool, q: Row -> bool)
    ensures Where(Where(rows, p), q) == Where(Where(rows, q), p)
  {
    var both := (row: Row) => p(row) && q(row);
    WhereTwice(rows, p, q, both);
    WhereTwice(rows, q, p, both);
  }

  lemma NoneAmong(rows: seq<Row>)
    ensures Where(rows, NotAmong(Uuids(rows))) == []
  {
    UuidsMember(rows);
    WhereCongruent(rows, NotAmong(Uuids(rows)), (row: Row) => false);
    WhereNone(rows);
  }

  lemma KeepFirst(found: seq<Row>, from: nat)
    requires UniqueUuids(found) && from <= |found| && from <= 1
    ensures Where(found, NotAmong(Uuids(found[from..]))) == found[..from]
  {
    if from == 0 {
      assert found[0..] == found;
      NoneAmong(found);
    } else {
      var x, rest := found[0], found[1..];
      OthersApart(found, 0);
      UuidsMember(rest);
      NoneAmong(rest);
      assert found == [x] + rest && found[..1] == [x];
      WhereCons(x, rest, NotAmong(Uuids(rest)));
    }
  }

  /** Deleting the rows the query finds from some place on keeps those before it and every other row. */
  lemma QueryTrimmed(s: System, user: string, tenant: string, from: nat)
    requires UniqueUuids(s.rows)
    requires from <= 1 && from <= |MobileRows(s.rows, user, tenant)|
    ensures var found := MobileRows(s.rows, user, tenant);
            var rows' := DeleteAll(s, Uuids(found[from..])).rows;
            && UniqueUuids(rows')
            && Where(rows', Found(user, tenant)) == found[..from]
            && Where(rows', NotFound(user, tenant)) == Where(s.rows, NotFound(user, tenant))
  {
    var found := MobileRows(s.rows, user, tenant);
    var gone := Uuids(found[from..]);
    MobileRowsFound(s.rows, user, tenant);
    WhereUnique(s.rows, Found(user, tenant));
    DeleteAllRows(s, gone);
    WhereCommutes(s.rows, NotAmong(gone), Found(user, tenant));
    KeepFirst(found, from);
    WhereCommutes(s.rows, NotAmong(gone), NotFound(user, tenant));
    var others := Where(s.rows, NotFound(user, tenant));
    UuidsMember(found[from..]);
    forall row | row in others ensures NotAmong(gone)(row) {
      WhereMember(s.rows, NotFound(user, tenant), row);
      if row.uuid in gone {
        var r :| r in found[from..] && r.uuid == row.uuid;
        assert r in found;
        SameRow(s.rows, r, row);
      }
    }
    WhereCongruent(others, NotAmong(gone), (row: Row) => true);
    WhereAll(others);
  }

  lemma QueryCreated(rows: seq<Row>, uuid: string, user: string, tenant: string)
    requires UniqueUuids(rows) && Position(rows, uuid) == |rows|
    requires Where(rows, Found(user, tenant)) == []
    ensures var row := Filled(Blank(uuid), MobileSchema(user, tenant));
            && UniqueUuids(rows + [row])
            && Where(rows + [row], Found(user, tenant)) == [row]
            && Where(rows + [row], NotFound(user, tenant)) == Where(rows, NotFound(user, tenant))
  {
    var row := Filled(Blank(uuid), MobileSchema(user, tenant));
    CreatedIsFound(uuid, user, tenant);
    WhereSplit(rows, [row], Found(user, tenant));
    WhereSplit(rows, [row], NotFound(user, tenant));
    assert [row][1..] == [];
  }

  // ----- runs of external authentication events

  /** An added or an updated mobile authentication, with the key a creation would be given; or a deleted one. */
  datatype AuthEvent = Linked(user: string, tenant: string, uuid: string) | Unlinked(user: string, tenant: string)

  function Handle(s: System, ev: AuthEvent, master: string): System {
    match ev
    case Linked(user, tenant, uuid) => Ensured(s, user, tenant, uuid, master).next
    case Unlinked(user, tenant) => Removed(s, user, tenant)
  }

  function HandleAll(s: System, events: seq<AuthEvent>, master: string): System {
    if events == [] then s else Handle(HandleAll(s, events[..|events| - 1], master), events[|events| - 1], master)
  }

  /** The database gives each creation a key no row has. */
  ghost predicate FreshKey(s: System, ev: AuthEvent) {
    ev.Linked? ==> Position(s.rows, ev.uuid) == |s.rows|
  }

  ghost predicate FreshKeys(s: System, events: seq<AuthEvent>, master: string) {
    forall i :: 0 <= i < |events| ==> FreshKey(HandleAll(s, events[..i], master), events[i])
  }

  /** What one event makes of the rows its query finds. */
  function Fate(found: seq<Row>, ev: AuthEvent): seq<Row> {
    match ev
    case Unlinked(_, _) => []
    case Linked(user, tenant, uuid) =>
      if found == [] then [Filled(Blank(uuid), MobileSchema(user, tenant))] else [found[0]]
  }

  /** An event leaves the rows its query finds as `Fate` says and every other row untouched, in order. */
  lemma HandleExact(s: System, ev: AuthEvent, s': System, master: string)
    requires UniqueUuids(s.rows) && FreshKey(s, ev) && s' == Handle(s, ev, master)
    ensures UniqueUuids(s'.rows)
    ensures Where(s'.rows, Found(ev.user, ev.tenant)) == Fate(Where(s.rows, Found(ev.user, ev.tenant)), ev)
    ensures Where(s'.rows, NotFound(ev.user, ev.tenant)) == Where(s.rows, NotFound(ev.user, ev.tenant))
  {
    var found := MobileRows(s.rows, ev.user, ev.tenant);
    MobileRowsFound(s.rows, ev.user, ev.tenant);
    match ev {
      case Unlinked(user, tenant) =>
        assert found[0..] == found;
        QueryTrimmed(s, user, tenant, 0);
      case Linked(user, tenant, uuid) =>
        if found == [] {
          CreatedIsFound(uuid, user, tenant);
          QueryCreated(s.rows, uuid, user, tenant);
        } else {
          QueryTrimmed(s, user, tenant, 1);
          assert found[..1] == [found[0]];
        }
    }
  }

  /** Rows chosen by any criterion that leaves out what the query finds are the same before and after. */
  lemma HandleFrame(s: System, ev: AuthEvent, s': System, master: string, keep: Row -> bool)
    requires UniqueUuids(s.rows) && FreshKey(s, ev) && s' == Handle(s, ev, master)
    requires forall row :: keep(row) ==> !Queried(row, ev.user, ev.tenant)
    ensures Where(s'.rows, keep) == Where(s.rows, keep)
  {
    HandleExact(s, ev, s', master);
    WhereTwice(s.rows, NotFound(ev.user, ev.tenant), keep, keep);
    WhereTwice(s'.rows, NotFound(ev.user, ev.tenant), keep, keep);
  }

  // ----- against what an event should do to its own pair

  /** The query finds no one else's mobile subscriptions. */
  ghost predicate PairOnly(rows: seq<Row>, user: string, tenant: string) {
    user != "" || forall row :: row in rows && TenantMobile(row, tenant) ==> row.ownerUser == Some("")
  }

  /** The event leaves its pair as `Fate` says and every row of no or another pair untouched, in order. */
  ghost predicate Exact(s: System, ev: AuthEvent, s': System) {
    && Where(s'.rows, MobileOf(ev.user, ev.tenant)) == Fate(Where(s.rows, MobileOf(ev.user, ev.tenant)), ev)
    && Where(s'.rows, NotMobileOf(ev.user, ev.tenant)) == Where(s.rows, NotMobileOf(ev.user, ev.tenant))
  }

  lemma PairIsQuery(rows: seq<Row>, user: string, tenant: string)
    requires PairOnly(rows, user, tenant)
    ensures Where(rows, Found(user, tenant)) == Where(rows, MobileOf(user, tenant))
    ensures Where(rows, NotFound(user, tenant)) == Where(rows, NotMobileOf(user, tenant))
  {
    WhereCongruent(rows, Found(user, tenant), MobileOf(user, tenant));
    WhereCongruent(rows, NotFound(user, tenant), NotMobileOf(user, tenant));
  }

  lemma StaysPairOnly(s: System, ev: AuthEvent, s': System, master: string)
    requires UniqueUuids(s.rows) && FreshKey(s, ev) && s' == Handle(s, ev, master)
    requires PairOnly(s.rows, ev.user, ev.tenant)
    ensures PairOnly(s'.rows, ev.user, ev.tenant)
  {
    HandleExact(s, ev, s', master);
    var found := Where(s.rows, Found(ev.user, ev.tenant));
    if ev.Linked? {
      CreatedIsFound(ev.uuid, ev.user, ev.tenant);
    }
    forall row | ev.user == "" && row in s'.rows && TenantMobile(row, ev.tenant) ensures row.ownerUser == Some("") {
      WhereMember(s'.rows, Found(ev.user, ev.tenant), row);
      if found != [] {
        WhereMember(s.rows, Found(ev.user, ev.tenant), found[0]);
      }
    }
  }

  /** A row the query finds and the event removes, although it is not the pair's. */
  lemma OtherRemoved(s: System, ev: AuthEvent, s': System, row: Row)
    requires row in s.rows && row !in s'.rows && !OfPair(row, ev.user, ev.tenant)
    ensures !Exact(s, ev, s')
  {
    WhereMember(s.rows, NotMobileOf(ev.user, ev.tenant), row);
    WhereMember(s'.rows, NotMobileOf(ev.user, ev.tenant), row);
  }

  /** The only row the query still finds is not the pair's: the pair is left without any. */
  lemma OtherKept(s: System, ev: AuthEvent, s': System, row: Row)
    requires ev.Linked? && ev.user == "" && Where(s'.rows, Found("", ev.tenant)) == [row]
    requires !OfPair(row, "", ev.tenant)
    ensures !Exact(s, ev, s')
  {
    forall r | r in s'.rows ensures !OfPair(r, "", ev.tenant) {
      WhereMember(s'.rows, Found("", ev.tenant), r);
    }
    WhereCongruent(s'.rows, MobileOf("", ev.tenant), (r: Row) => false);
    WhereNone(s'.rows);
  }

  /** An event does exactly what it should to its own pair and nothing to others if and only if the query finds
      the pair's rows only: the user is not empty, or the tenant has no other mobile subscription. */
  lemma HandleExactIff(s: System, ev: AuthEvent, s': System, master: string)
    requires UniqueUuids(s.rows) && FreshKey(s, ev) && s' == Handle(s, ev, master)
    ensures Exact(s, ev, s') <==> PairOnly(s.rows, ev.user, ev.tenant)
  {
    HandleExact(s, ev, s', master);
    if PairOnly(s.rows, ev.user, ev.tenant) {
      StaysPairOnly(s, ev, s', master);
      PairIsQuery(s.rows, ev.user, ev.tenant);
      PairIsQuery(s'.rows, ev.user, ev.tenant);
    } else {
      var found := Where(s.rows, Found("", ev.tenant));
      var row :| row in s.rows && TenantMobile(row, ev.tenant) && row.ownerUser != Some("");
      WhereMember(s.rows, Found("", ev.tenant), row);
      WhereMember(s'.rows, Found("", ev.tenant), row);
      if ev.Linked? && row == found[0] {
        OtherKept(s, ev, s', row);
      } else {
        OtherRemoved(s, ev, s', row);
      }
    }
  }

  // ----- whole runs, empty users included

  lemma FreshPrefix(s: System, events: seq<AuthEvent>, n: nat, master: string)
    requires FreshKeys(s, events, master) && n <= |events|
    ensures FreshKeys(s, events[..n], master)
  {
    forall i | 0 <= i < n ensures FreshKey(HandleAll(s, events[..n][..i], master), events[..n][i]) {
      assert events[..n][..i] == events[..i];
    }
  }

  /** What one event makes of the mobile rows of its tenant: those its query finds go, but for the first of them
      if it links; and if it links and finds none, a new one comes last. */
  function TenantFate(rows: seq<Row>, ev: AuthEvent): seq<Row> {
    var found := Where(rows, Found(ev.user, ev.tenant));
    if ev.Linked? && found == [] then rows + [Filled(Blank(ev.uuid), MobileSchema(ev.user, ev.tenant))]
    else Where(rows, (row: Row) => !Queried(row, ev.user, ev.tenant) || (ev.Linked? && row == found[0]))
  }

  /** What a run makes of the mobile rows of a tenant: only that tenant's events and rows count. */
  function TenantFates(rows: seq<Row>, events: seq<AuthEvent>, tenant: string): seq<Row> {
    if events == [] then rows
    else
      var before := TenantFates(rows, events[..|events| - 1], tenant);
      var ev := events[|events| - 1];
      if ev.tenant == tenant then TenantFate(before, ev) else before
  }

  lemma TenantTrimmed(s: System, ev: AuthEvent, s': System)
    requires UniqueUuids(s.rows)
    requires var found := MobileRows(s.rows, ev.user, ev.tenant);
             && (ev.Linked? ==> found != [])
             && s' == DeleteAll(s, Uuids(if ev.Linked? then found[1..] else found))
    ensures Where(s'.rows, MobileIn(ev.tenant)) == TenantFate(Where(s.rows, MobileIn(ev.tenant)), ev)
  {
    var found := MobileRows(s.rows, ev.user, ev.tenant);
    var part := if ev.Linked? then found[1..] else found;
    var all := Where(s.rows, MobileIn(ev.tenant));
    var stays := (row: Row) => !Queried(row, ev.user, ev.tenant) || (ev.Linked? && row == found[0]);
    MobileRowsFound(s.rows, ev.user, ev.tenant);
    WhereTwice(s.rows, MobileIn(ev.tenant), Found(ev.user, ev.tenant), Found(ev.user, ev.tenant));
    DeleteAllRows(s, Uuids(part));
    WhereCommutes(s.rows, NotAmong(Uuids(part)), MobileIn(ev.tenant));
    WhereUnique(s.rows, Found(ev.user, ev.tenant));
    forall row | row in all ensures NotAmong(Uuids(part))(row) == stays(row) {
      WhereMember(s.rows, MobileIn(ev.tenant), row);
      PartByUuid(s.rows, found, ev.Linked?, row);
    }
    WhereCongruent(all, NotAmong(Uuids(part)), stays);
    WhereCongruent(all, stays, (row: Row) => !Queried(row, ev.user, ev.tenant)
                                             || (ev.Linked? && row == Where(all, Found(ev.user, ev.tenant))[0]));
  }

  lemma PartByUuid(rows: seq<Row>, found: seq<Row>, first: bool, row: Row)
    requires UniqueUuids(rows) && UniqueUuids(found) && (forall r :: r in found ==> r in rows) && row in rows
    requires first ==> found != []
    ensures row.uuid in Uuids(if first then found[1..] else found) <==> row in found && !(first && row == found[0])
  {
    var part := if first then found[1..] else found;
    UuidsMember(part);
    if row.uuid in Uuids(part) {
      var r :| r in part && r.uuid == row.uuid;
      assert r in found;
      SameRow(rows, r, row);
      if first { OthersApart(found, 0); }
    }
    if row in found && !(first && row == found[0]) {
      assert row in part;
    }
  }

  lemma TenantCreated(rows: seq<Row>, ev: AuthEvent, rows': seq<Row>)
    requires ev.Linked? && Where(rows, Found(ev.user, ev.tenant)) == []
    requires rows' == rows + [Filled(Blank(ev.uuid), MobileSchema(ev.user, ev.tenant))]
    ensures Where(rows', MobileIn(ev.tenant)) == TenantFate(Where(rows, MobileIn(ev.tenant)), ev)
  {
    var row := Filled(Blank(ev.uuid), MobileSchema(ev.user, ev.tenant));
    CreatedIsFound(ev.uuid, ev.user, ev.tenant);
    WhereTwice(rows, MobileIn(ev.tenant), Found(ev.user, ev.tenant), Found(ev.user, ev.tenant));
    WhereSplit(rows, [row], MobileIn(ev.tenant));
    WhereCons(row, [], MobileIn(ev.tenant));
    assert [row] + [] == [row];
  }

  lemma HandleTenant(s: System, ev: AuthEvent, s': System, tenant: string, master: string)
    requires UniqueUuids(s.rows) && FreshKey(s, ev) && s' == Handle(s, ev, master)
    ensures UniqueUuids(s'.rows)
    ensures Where(s'.rows, MobileIn(tenant))
         == if ev.tenant == tenant then TenantFate(Where(s.rows, MobileIn(tenant)), ev)
            else Where(s.rows, MobileIn(tenant))
  {
    HandleExact(s, ev, s', master);
    if ev.tenant != tenant {
      HandleFrame(s, ev, s', master, MobileIn(tenant));
    } else {
      MobileRowsFound(s.rows, ev.user, tenant);
      if ev.Linked? && MobileRows(s.rows, ev.user, tenant) == [] {
        CreatedIsFound(ev.uuid, ev.user, tenant);
        TenantCreated(s.rows, ev, s'.rows);
      } else {
        TenantTrimmed(s, ev, s');
      }
    }
  }

  /** Over any run, what becomes of the mobile rows of a tenant depends on that tenant's rows and events alone. */
  lemma {:induction false} RunExact(s: System, events: seq<AuthEvent>, end: System, tenant: string, master: string)
    requires UniqueUuids(s.rows) && FreshKeys(s, events, master) && end == HandleAll(s, events, master)
    ensures UniqueUuids(end.rows)
    ensures Where(end.rows, MobileIn(tenant)) == TenantFates(Where(s.rows, MobileIn(tenant)), events, tenant)
  {
    if events != [] {
      var n := |events| - 1;
      var here := HandleAll(s, events[..n], master);
      FreshPrefix(s, events, n, master);
      RunExact(s, events[..n], here, tenant, master);
      HandleTenant(here, events[n], end, tenant, master);
    }
  }

  /** The event's query takes in the pair's mobile subscriptions. */
  predicate Touches(ev: AuthEvent, user: string, tenant: string) {
    ev.tenant == tenant && (ev.user == user || ev.user == "")
  }

  lemma {:induction false} WhereShorter(rows: seq<Row>, keep: Row -> bool)
    ensures |Where(rows, keep)| <= |rows|
  {
    if rows != [] {
      WhereShorter(rows[1..], keep);
    }
  }

  /** What one event makes of the mobile rows of a pair. */
  ghost predicate PairFate(before: seq<Row>, ev: AuthEvent, after: seq<Row>, user: string, tenant: string) {
    if !Touches(ev, user, tenant) then after == before
    else if ev.Unlinked? then after == []
    else if ev.user != "" then after == Fate(before, ev)
    else |after| <= 1
  }

  lemma HandlePair(s: System, ev: AuthEvent, s': System, user: string, tenant: string, master: string)
    requires UniqueUuids(s.rows) && FreshKey(s, ev) && s' == Handle(s, ev, master)
    ensures UniqueUuids(s'.rows)
    ensures PairFate(Where(s.rows, MobileOf(user, tenant)), ev, Where(s'.rows, MobileOf(user, tenant)), user, tenant)
  {
    HandleExact(s, ev, s', master);
    if !Touches(ev, user, tenant) {
      HandleFrame(s, ev, s', master, MobileOf(user, tenant));
    } else {
      var found := Where(s'.rows, Found(ev.user, tenant));
      WhereTwice(s'.rows, Found(ev.user, tenant), MobileOf(user, tenant), MobileOf(user, tenant));
      WhereShorter(found, MobileOf(user, tenant));
      if ev.user != "" {
        PairIsQuery(s.rows, user, tenant);
        PairIsQuery(s'.rows, user, tenant);
      }
    }
  }

  ghost predicate OnlyLinked(events: seq<AuthEvent>, user: string, tenant: string) {
    forall i :: 0 <= i < |events| && Touches(events[i], user, tenant) ==> events[i].Linked? && events[i].user != ""
  }

  /** Linked last by its own user, the pair has exactly one mobile subscription, the first it had if it was only
      ever linked; unlinked by its own or the empty user, none; linked by the empty user, at most one; not touched
      at all, what it had. */
  ghost predicate Decided(before: seq<Row>, after: seq<Row>, events: seq<AuthEvent>, user: string, tenant: string,
                          last: int)
    requires -1 <= last < |events|
  {
    && (last == -1 ==> after == before)
    && (last >= 0 ==> |after| <= 1)
    && (last >= 0 && events[last].Linked? && events[last].user != "" ==> |after| == 1)
    && (last >= 0 && events[last].Unlinked? ==> after == [])
    && (before != [] && OnlyLinked(events, user, tenant) ==> after != [] && after[0] == before[0])
  }

  /** `last` is the last event that touches the pair, or -1. */
  ghost predicate LastTouch(events: seq<AuthEvent>, user: string, tenant: string, last: int) {
    && -1 <= last < |events|
    && (last >= 0 ==> Touches(events[last], user, tenant))
    && forall i :: last < i < |events| ==> !Touches(events[i], user, tenant)
  }

  lemma DecidedStep(before: seq<Row>, mid: seq<Row>, after: seq<Row>, events: seq<AuthEvent>, user: string,
                    tenant: string, earlier: int, last: int)
    requires events != [] && LastTouch(events, user, tenant, last)
    requires var n := |events| - 1;
             && -1 <= earlier < n && (last < n ==> earlier == last)
             && Decided(before, mid, events[..n], user, tenant, earlier)
             && PairFate(mid, events[n], after, user, tenant)
    ensures Decided(before, after, events, user, tenant, last)
  {
    var n := |events| - 1;
    if OnlyLinked(events, user, tenant) {
      assert OnlyLinked(events[..n], user, tenant);
    }
  }

  /** Over any run from any rows the last event that touches a pair decides. */
  lemma {:induction false} LastEventDecides(s: System, events: seq<AuthEvent>, end: System, user: string,
                                            tenant: string, last: int, master: string)
    requires UniqueUuids(s.rows) && FreshKeys(s, events, master) && end == HandleAll(s, events, master)
    requires LastTouch(events, user, tenant, last)
    ensures UniqueUuids(end.rows)
    ensures Decided(Where(s.rows, MobileOf(user, tenant)), Where(end.rows, MobileOf(user, tenant)),
                    events, user, tenant, last)
  {
    if events != [] {
      var n := |events| - 1;
      var init := events[..n];
      var here := HandleAll(s, init, master);
      var earlier := if last < n then last else LastBefore(init, user, tenant);
      FreshPrefix(s, events, n, master);
      LastEventDecides(s, init, here, user, tenant, earlier, master);
      HandlePair(here, events[n], end, user, tenant, master);
      DecidedStep(Where(s.rows, MobileOf(user, tenant)), Where(here.rows, MobileOf(user, tenant)),
                  Where(end.rows, MobileOf(user, tenant)), events, user, tenant, earlier, last);
    }
  }

  function LastBefore(events: seq<AuthEvent>, user: string, tenant: string): (last: int)
    ensures LastTouch(events, user, tenant, last)
  {
    if events == [] then -1
    else if Touches(events[|events| - 1], user, tenant) then |events| - 1
    else LastBefore(events[..|events| - 1], user, tenant)
  }

  /** Rows no event's query finds are never touched, whatever the run: other tenants' and other users', and all
      that are no mobile subscriptions. */
  lemma {:induction false} OtherRowsUntouched(s: System, events: seq<AuthEvent>, end: System, keep: Row -> bool,
                                              master: string)
    requires UniqueUuids(s.rows) && FreshKeys(s, events, master) && end == HandleAll(s, events, master)
    requires forall row, ev :: keep(row) && ev in events ==> !Queried(row, ev.user, ev.tenant)
    ensures UniqueUuids(end.rows)
    ensures Where(end.rows, keep) == Where(s.rows, keep)
  {
    if events != [] {
      var n := |events| - 1;
      var here := HandleAll(s, events[..n], master);
      FreshPrefix(s, events, n, master);
      OtherRowsUntouched(s, events[..n], here, keep, master);
      HandleExact(here, events[n], end, master);
      HandleFrame(here, events[n], end, master, keep);
    }
  }

  /** Each event keeps rows, callbacks, table and broker one state. */
  lemma HandleKeepsInv(s: System, ls: Listening, ev: AuthEvent, master: string)
    requires Inv(s, ls, master)
    ensures exists ls' :: Inv(Handle(s, ev, master), ls', master)
  {
    var found := MobileRows(s.rows, ev.user, ev.tenant);
    if ev.Linked? && found == [] {
      var op := Create(ev.uuid, MobileSchema(ev.user, ev.tenant));
      StepKeepsInv(s, ls, op, master);
      assert Inv(Handle(s, ev, master), ListenStep(s, ls, op, master), master);
    } else {
      var gone := Uuids(if ev.Linked? then found[1..] else found);
      DeleteAllExact(s, ls, gone, DeleteAll(s, gone), master);
      assert Inv(Handle(s, ev, master), Without(ls, gone), master);
    }
  }

  // ----- the subscription created

  /** The mobile subscription of a user, field by field. */
  ghost predicate MobileRow(row: Row, uuid: string, user: string, tenant: string) {
    && row.uuid == uuid && row.service == "mobile"
    && row.name == "Push notification mobile for user " + tenant + "/" + user
    && row.eventsUser == Some(user) && row.eventsWazo == None
    && row.ownerUser == Some(user) && row.ownerTenant == tenant
    && row.options == [] && row.metadata == [Pair("mobile", Some("true"))]
    && row.events == ["chatd_user_room_message_created", "call_push_notification", "call_cancel_push_notification",
                      "user_voicemail_message_created", "global_voicemail_message_created", "user_missed_call"]
  }

  /** An event that links a user whose query finds nothing adds exactly that row, at the end. */
  lemma LinkCreates(s: System, ev: AuthEvent, s': System, master: string)
    requires UniqueUuids(s.rows) && FreshKey(s, ev) && s' == Handle(s, ev, master)
    requires ev.Linked? && Where(s.rows, Found(ev.user, ev.tenant)) == []
    ensures |s'.rows| == |s.rows| + 1 && s'.rows[..|s.rows|] == s.rows
    ensures MobileRow(s'.rows[|s.rows|], ev.uuid, ev.user, ev.tenant)
  {
    MobileRowsFound(s.rows, ev.user, ev.tenant);
    CreatedIsFound(ev.uuid, ev.user, ev.tenant);
    CreatedIff(s, ev.uuid, MobileSchema(ev.user, ev.tenant), master);
  }

  predicate MobileEvent(event: string) {
    || event == "chatd_user_room_message_created" || event == "call_push_notification"
    || event == "call_cancel_push_notification" || event == "user_voicemail_message_created"
    || event == "global_voicemail_message_created" || event == "user_missed_call"
  }

  /** A message for the user's mobile: one of the six events, of the tenant, addressed to the user; the global
      voicemail event to all users. */
  ghost predicate ForMobile(m: Headers, user: string, tenant: string, master: string) {
    && "name" in m && m["name"].Text? && MobileEvent(m["name"].text)
    && (tenant != master ==> Has(m, "tenant_uuid", Text(tenant)))
    && (if m["name"].text == "global_voicemail_message_created" then Has(m, "user_uuid:*", Flag(true))
        else user != "" ==> Has(m, "user_uuid:" + user, Flag(true)))
  }

  lemma MobileRowWants(row: Row, uuid: string, user: string, tenant: string, master: string, m: Headers)
    requires MobileRow(row, uuid, user, tenant)
    ensures Wants(row, master, m) <==> ForMobile(m, user, tenant, master)
  {
    if NameOf(m).Some? {
      assert NameOf(m).value in row.events <==> MobileEvent(NameOf(m).value);
    }
  }

  /** From a connected state in order, linking a user who has no mobile subscription yet makes every such message,
      and no other, trigger the user's hook, once. */
  lemma LinkedIsHeard(s: System, ls: Listening, ev: AuthEvent, s': System, row: Row, m: Headers, master: string)
    requires Inv(s, ls, master) && Clean(ls, master) && s.ix.consumer.connected
    requires FreshKey(s, ev) && s' == Handle(s, ev, master)
    requires ev.Linked? && Where(s.rows, Found(ev.user, ev.tenant)) == []
    requires |s'.rows| > |s.rows| && row == s'.rows[|s.rows|]
    ensures Triggered(Delivered(s'.ix.consumer, m), row) == if ForMobile(m, ev.user, ev.tenant, master) then 1 else 0
  {
    var op := Create(ev.uuid, MobileSchema(ev.user, ev.tenant));
    var ls' := ListenStep(s, ls, op, master);
    LinkCreates(s, ev, s', master);
    MobileRowsFound(s.rows, ev.user, ev.tenant);
    StepKeepsInv(s, ls, op, master);
    StepCleanIff(s, ls, op, ls', master);
    CreateConnected(s, ls, op, s', master);
    CleanDelivery(s', ls', master);
    MobileRowWants(row, ev.uuid, ev.user, ev.tenant, master, m);
  }

  lemma CreateConnected(s: System, ls: Listening, op: Op, next: System, master: string)
    requires Inv(s, ls, master) && op.Create? && Apply(s, op, master) == Step(next, None)
    ensures next.ix.consumer.connected == s.ix.consumer.connected
  {
    var row := Filled(Blank(op.uuid), op.schema);
    PositionFound(s.rows, op.uuid);
    CreatedIff(s, op.uuid, op.schema, master);
    assert op.uuid in ls ==> ls[op.uuid].row in s.rows;
    AddRow(s, ls, row, Consumers.Hook(s.token, row), s.token + 1, master);
  }
}
