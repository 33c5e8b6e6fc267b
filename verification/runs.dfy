/** Whole runs of the service: rows, callbacks, handler table and broker bindings stay one state. */
module Runs {
  import opened Rows
  import opened Headers
  import opened Models
  import opened Store
  import opened Consumers
  import opened SubscriptionIndex
  import opened Listeners
  import opened Service

  /** An operation on a subscription, another handler subscribed by a plugin or by the service itself, or a
      change of the connection. */
  datatype Op =
    | Create(uuid: string, schema: Schema)
    | Modify(uuid: string, schema: Schema, tenants: seq<string>, owner: Option<string>, order: seq<string>)
    | Delete(uuid: string, tenants: seq<string>, owner: Option<string>)
    | Attach(event: string, id: nat, headers: Headers)
    | Disconnect
    | Reconnect

  function Apply(s: System, op: Op, master: string): Step {
    match op
    case Create(uuid, schema) => Created(s, uuid, schema, master)
    case Modify(uuid, schema, tenants, owner, order) => Modified(s, uuid, schema, tenants, owner, order, master)
    case Delete(uuid, tenants, owner) => Deleted(s, uuid, tenants, owner)
    case Attach(event, id, headers) =>
      Step(s.(ix := s.ix.(consumer := Consumers.Subscribe(s.ix.consumer, event, Foreign(id), headers))), None)
    case Disconnect => Step(s.(ix := s.ix.(consumer := Consumers.Disconnect(s.ix.consumer))), None)
    case Reconnect => Step(s.(ix := s.ix.(consumer := Redeclare(s.ix.consumer))), None)
  }

  /** The recorded iteration order is one the set of events could have been iterated in, and the mark of a
      subscription is used by subscriptions only. */
  ghost predicate Possible(s: System, op: Op) {
    && (op.Modify? && op.uuid in s.ix.callbacks ==>
          IterationOrder(op.order, op.schema.events, s.ix.callbacks[op.uuid].events))
    && (op.Attach? ==> "x-subscription" !in op.headers)
  }

  function Run(s: System, ops: seq<Op>, master: string): System {
    if ops == [] then s
    else Apply(Run(s, ops[..|ops| - 1], master), ops[|ops| - 1], master).next
  }

  ghost predicate PossibleRun(s: System, ops: seq<Op>, master: string) {
    forall i :: 0 <= i < |ops| ==> Possible(Run(s, ops[..i], master), ops[i])
  }

  /** The entries of other subscribers of the consumer, such as the service's own handlers. */
  ghost predicate SameForeign(c: Consumer, c': Consumer) {
    forall e :: Owned(Entries(c, e), None) == Owned(Entries(c', e), None)
  }

  lemma SameKeepsForeign(ix: Index, ix': Index)
    requires Same(ix, ix', None) && Proper(ix.consumer) && ForeignBound(ix.consumer)
    ensures SameForeign(ix.consumer, ix'.consumer) && ForeignBound(ix'.consumer)
  {
    var c, c' := ix.consumer, ix'.consumer;
    forall e ensures Owned(Entries(c, e), None) == Owned(Entries(c', e), None) {
      assert CellOf(c, None, e) == CellOf(c', None, e);
    }
    forall e, x | c.connected && x in Entries(c', e) && x.handler.Foreign? ensures x.binding in c'.bound {
      OwnedMember(Entries(c, e), None);
      OwnedMember(Entries(c', e), None);
      assert CellOf(c, None, e) == CellOf(c', None, e);
      assert ProperEntry(x, e);
      assert x.binding in CellOf(c, None, e).bound;
      assert x.binding in CellOf(c', None, e).bound;
    }
  }

  /** A handler that belongs to no subscription keeps its own binding and those of its like, and touches no
      subscription. */
  lemma ForeignSubscribed(c: Consumer, event: string, id: nat, headers: Headers, c': Consumer)
    requires Proper(c) && ForeignBound(c) && "x-subscription" !in headers
    requires c' == Consumers.Subscribe(c, event, Foreign(id), headers)
    ensures Proper(c') && ForeignBound(c') && c'.connected == c.connected
    ensures forall u, e :: CellOf(c', Some(u), e) == CellOf(c, Some(u), e)
  {
    assert ProperEntry(Entry(Foreign(id), Arguments(event, headers, true)), event);
    SubscribeCell(c, event, Foreign(id), headers, None, event);
    forall u, e ensures CellOf(c', Some(u), e) == CellOf(c, Some(u), e) {
      SubscribeCell(c, event, Foreign(id), headers, Some(u), e);
    }
    forall e, x | c.connected && x in Entries(c', e) && x.handler.Foreign? ensures x.binding in c'.bound {
      if x !in Entries(c, e) {
        assert x == Entry(Foreign(id), Arguments(event, headers, true));
      }
    }
  }

  // ----- the listeners of a run

  type Listening = map<string, Listener>

  function Lookup(ls: Listening, u: string): Option<Listener> {
    if u in ls then Some(ls[u]) else None
  }

  function AllLive(l: Listener): Listener {
    l.(slots := map e | e in l.slots :: l.slots[e].(live := true))
  }

  ghost function ListenStep(s: System, ls: Listening, op: Op, master: string): Listening {
    if Apply(s, op, master).fault.Some? then ls
    else
      match op
      case Create(uuid, schema) =>
        var row := Filled(Blank(uuid), schema);
        ls[uuid := Fresh(row, Hook(s.token, row), master)]
      case Modify(uuid, schema, _, _, order) =>
        if uuid !in ls then ls
        else
          var row := Filled(Cleared(ls[uuid].row), schema);
          ls[uuid := Replaced(ls[uuid], row, Hook(s.token, row), order, master, s.ix.consumer.connected)]
      case Delete(uuid, _, _) => ls - {uuid}
      case Attach(_, _, _) => ls
      case _ => map u | u in ls :: AllLive(ls[u])
  }

  ghost function ListenRun(s: System, ls: Listening, ops: seq<Op>, master: string): Listening {
    if ops == [] then ls
    else
      var init := ops[..|ops| - 1];
      ListenStep(Run(s, init, master), ListenRun(s, ls, init, master), ops[|ops| - 1], master)
  }

  /** Every row has its listener, every listener its row, and the index follows the listeners exactly. */
  ghost predicate Inv(s: System, ls: Listening, master: string) {
    && UniqueUuids(s.rows)
    && Proper(s.ix.consumer) && ForeignBound(s.ix.consumer)
    && (forall row :: row in s.rows ==> row.uuid in ls && ls[row.uuid].row == row)
    && (forall u :: u in ls ==> ls[u].row in s.rows && ls[u].row.uuid == u)
    && (forall u :: Follows(s.ix, u, Lookup(ls, u), master))
  }

  lemma PositionFound(rows: seq<Row>, uuid: string)
    requires UniqueUuids(rows)
    ensures Position(rows, uuid) < |rows| <==> exists row :: row in rows && row.uuid == uuid
    ensures var p := Position(rows, uuid);
            p < |rows| ==> forall row :: row in rows && row.uuid == uuid ==> row == rows[p]
  {
    forall row | row in rows && row.uuid == uuid
      ensures Position(rows, uuid) < |rows| && row == rows[Position(rows, uuid)]
    {
      var i :| 0 <= i < |rows| && rows[i] == row;
      SameRow(rows, row, rows[Position(rows, uuid)]);
    }
  }

  /** Subscriptions an operation does not concern keep following their listeners. */
  lemma OthersFollow(ix: Index, ix': Index, ls: Listening, ls': Listening, uuid: string, master: string)
    requires forall u :: Follows(ix, u, Lookup(ls, u), master)
    requires forall o :: o != Some(uuid) ==> Same(ix, ix', o)
    requires Follows(ix', uuid, Lookup(ls', uuid), master)
    requires forall u :: u != uuid ==> Lookup(ls', u) == Lookup(ls, u)
    ensures forall u :: Follows(ix', u, Lookup(ls', u), master)
  {
    forall u ensures Follows(ix', u, Lookup(ls', u), master) {
      if u != uuid {
        assert Same(ix, ix', Some(u)) && Follows(ix, u, Lookup(ls, u), master);
        SameFollows(ix, ix', u, Lookup(ls, u), master);
      }
    }
  }

  lemma AddRow(s: System, ls: Listening, row: Row, fn: Handler, token: nat, master: string)
    requires Inv(s, ls, master) && row.uuid !in ls
    requires fn.Hook? && fn.data == row && Distinct(row.events)
    ensures Inv(System(s.rows + [row], Register(s.ix, row, fn, master), token), ls[row.uuid := Fresh(row, fn, master)],
                master)
    ensures Register(s.ix, row, fn, master).consumer.connected == s.ix.consumer.connected
    ensures forall e :: CellOf(Register(s.ix, row, fn, master).consumer, None, e) == CellOf(s.ix.consumer, None, e)
    ensures SameForeign(s.ix.consumer, Register(s.ix, row, fn, master).consumer)
  {
    var ix' := Register(s.ix, row, fn, master);
    assert Follows(s.ix, row.uuid, Lookup(ls, row.uuid), master);
    RegisterFollows(s.ix, row, fn, master);
    OthersFollow(s.ix, ix', ls, ls[row.uuid := Fresh(row, fn, master)], row.uuid, master);
    assert Same(s.ix, ix', None);
    SameKeepsForeign(s.ix, ix');
  }

  lemma CreateStep(s: System, ls: Listening, op: Op, master: string)
    requires Inv(s, ls, master) && op.Create? && Apply(s, op, master).fault == None
    ensures Inv(Apply(s, op, master).next, ListenStep(s, ls, op, master), master)
    ensures SameForeign(s.ix.consumer, Apply(s, op, master).next.ix.consumer)
  {
    var row := Filled(Blank(op.uuid), op.schema);
    PositionFound(s.rows, op.uuid);
    assert [] + op.schema.events == op.schema.events;
    AddRow(s, ls, row, Hook(s.token, row), s.token + 1, master);
  }

  lemma ModifyStep(s: System, ls: Listening, op: Op, master: string)
    requires Inv(s, ls, master) && op.Modify? && Apply(s, op, master).fault == None && Possible(s, op)
    ensures Inv(Apply(s, op, master).next, ListenStep(s, ls, op, master), master)
    ensures SameForeign(s.ix.consumer, Apply(s, op, master).next.ix.consumer)
  {
    var p := Position(s.rows, op.uuid);
    assert s.rows[p] in s.rows && ls[op.uuid].row == s.rows[p];
    var row := Filled(Cleared(s.rows[p]), op.schema);
    assert [] + op.schema.events == op.schema.events;
    assert Follows(s.ix, op.uuid, Lookup(ls, op.uuid), master);
    ReplaceRow(s, ls, ls[op.uuid], p, row, op.order, master);
  }

  lemma ReplaceRow(s: System, ls: Listening, l: Listener, p: nat, row: Row, order: seq<string>, master: string)
    requires Inv(s, ls, master) && p < |s.rows| && row.uuid == s.rows[p].uuid && Lookup(ls, row.uuid) == Some(l)
    requires Distinct(row.events) && IterationOrder(order, row.events, l.row.events)
    ensures row.uuid in s.ix.callbacks
    ensures var fn := Hook(s.token, row);
            var l' := Replaced(l, row, fn, order, master, s.ix.consumer.connected);
            Inv(System(s.rows[p := row], Update(s.ix, row, fn, order, master), s.token + 1), ls[row.uuid := l'], master)
    ensures SameForeign(s.ix.consumer, Update(s.ix, row, Hook(s.token, row), order, master).consumer)
  {
    var fn := Hook(s.token, row);
    var ls' := ls[row.uuid := Replaced(l, row, fn, order, master, s.ix.consumer.connected)];
    assert Follows(s.ix, row.uuid, Lookup(ls, row.uuid), master);
    UpdateFollows(s.ix, l, row, fn, order, master);
    OthersFollow(s.ix, Update(s.ix, row, fn, order, master), ls, ls', row.uuid, master);
    ReplaceAt(s.rows, p, row);
    SameKeepsForeign(s.ix, Update(s.ix, row, fn, order, master));
  }

  lemma ReplaceAt(rows: seq<Row>, p: nat, row: Row)
    requires UniqueUuids(rows) && p < |rows| && row.uuid == rows[p].uuid
    ensures UniqueUuids(rows[p := row])
    ensures forall r :: r in rows[p := row] <==> r == row || (r in rows && r.uuid != row.uuid)
  {
    var rest := rows[p := row];
    forall r ensures r in rest <==> r == row || (r in rows && r.uuid != row.uuid) {
      if r in rows && r.uuid != row.uuid {
        var i :| 0 <= i < |rows| && rows[i] == r;
        assert rest[i] == r;
      }
      if r in rest {
        var i :| 0 <= i < |rest| && rest[i] == r;
        assert i != p ==> r == rows[i];
      }
      assert rest[p] == row;
    }
  }

  lemma DeleteStep(s: System, ls: Listening, op: Op, master: string)
    requires Inv(s, ls, master) && op.Delete? && Apply(s, op, master).fault == None
    ensures Inv(Apply(s, op, master).next, ListenStep(s, ls, op, master), master)
    ensures SameForeign(s.ix.consumer, Apply(s, op, master).next.ix.consumer)
  {
    var p := Position(s.rows, op.uuid);
    DropRow(s, ls, p, s.rows[..p] + s.rows[p + 1..], Unregister(s.ix, op.uuid), ls - {op.uuid}, master);
  }

  lemma DropRow(s: System, ls: Listening, p: nat, rows: seq<Row>, ix: Index, ls': Listening, master: string)
    requires Inv(s, ls, master) && p < |s.rows|
    requires rows == s.rows[..p] + s.rows[p + 1..] && ix == Unregister(s.ix, s.rows[p].uuid)
       && ls' == ls - {s.rows[p].uuid}
    ensures Inv(System(rows, ix, s.token), ls', master)
    ensures SameForeign(s.ix.consumer, ix.consumer)
  {
    var u := s.rows[p].uuid;
    RemoveAt(s.rows, p, rows);
    assert Follows(s.ix, u, Lookup(ls, u), master);
    UnregisterFollows(s.ix, u, Lookup(ls, u), master);
    OthersFollow(s.ix, ix, ls, ls', u, master);
    SameKeepsForeign(s.ix, ix);
  }

  lemma RemoveAt(rows: seq<Row>, p: nat, rest: seq<Row>)
    requires UniqueUuids(rows) && p < |rows| && rest == rows[..p] + rows[p + 1..]
    ensures UniqueUuids(rest)
    ensures forall row :: row in rest <==> row in rows && row.uuid != rows[p].uuid
  {
    forall row ensures row in rest <==> row in rows && row.uuid != rows[p].uuid {
      if row in rows && row.uuid != rows[p].uuid {
        var i :| 0 <= i < |rows| && rows[i] == row;
        assert row == if i < p then rest[i] else rest[i - 1];
      }
      if row in rest {
        var i :| 0 <= i < |rest| && rest[i] == row;
        assert row == rows[if i < p then i else i + 1];
      }
    }
  }

  lemma LinkCell(c: Consumer, c': Consumer, l: Option<Listener>, u: string, e: string)
    requires Proper(c) && (c' == Consumers.Disconnect(c) || c' == Redeclare(c))
    requires CellOf(c, Some(u), e) == CellFor(l, e, c.connected)
    ensures CellOf(c', Some(u), e) == CellFor(if l.Some? then Some(AllLive(l.value)) else None, e, c'.connected)
  {
    RedeclareCell(c, Some(u), e);
    DisconnectCell(c, Some(u), e);
    var cell := CellFor(l, e, c.connected);
    if l.Some? && e in l.value.slots {
      assert (set x | x in cell.entries :: x.binding) == {cell.entries[0].binding};
    } else {
      assert (set x | x in cell.entries :: x.binding) == {};
    }
  }

  lemma RedeclareBindsForeign(c: Consumer)
    ensures ForeignBound(Redeclare(c))
  {
    var c' := Redeclare(c);
    forall e, x | x in Entries(c', e) ensures x.binding in c'.bound {
      assert e in c.table && x in c.table[e];
    }
  }

  lemma LinkStep(s: System, ls: Listening, op: Op, master: string)
    requires Inv(s, ls, master) && (op.Disconnect? || op.Reconnect?)
    ensures Inv(Apply(s, op, master).next, ListenStep(s, ls, op, master), master)
    ensures SameForeign(s.ix.consumer, Apply(s, op, master).next.ix.consumer)
  {
    var s' := Apply(s, op, master).next;
    var ls' := ListenStep(s, ls, op, master);
    RedeclareCell(s.ix.consumer, None, "");
    DisconnectCell(s.ix.consumer, None, "");
    assert forall e :: Entries(s'.ix.consumer, e) == Entries(s.ix.consumer, e);
    RedeclareBindsForeign(s.ix.consumer);
    forall u ensures Follows(s'.ix, u, Lookup(ls', u), master) {
      assert Follows(s.ix, u, Lookup(ls, u), master);
      forall e ensures CellOf(s'.ix.consumer, Some(u), e) == CellFor(Lookup(ls', u), e, s'.ix.consumer.connected) {
        LinkCell(s.ix.consumer, s'.ix.consumer, Lookup(ls, u), u, e);
      }
    }
  }

  lemma AttachStep(s: System, ls: Listening, op: Op, next: System, master: string)
    requires Inv(s, ls, master) && op.Attach? && Possible(s, op) && next == Apply(s, op, master).next
    ensures Inv(next, ls, master)
  {
    ForeignSubscribed(s.ix.consumer, op.event, op.id, op.headers, next.ix.consumer);
    forall u ensures Follows(next.ix, u, Lookup(ls, u), master) {
      assert Follows(s.ix, u, Lookup(ls, u), master);
      SameFollows(s.ix, next.ix, u, Lookup(ls, u), master);
    }
  }

  /** One operation, whatever it does to rows, callbacks, table and broker, keeps them one state and
      leaves the other subscribers' entries and bindings alone; an operation that fails changes no row and
      nothing on the bus; and an update never misses its callback. */
  lemma StepKeepsInv(s: System, ls: Listening, op: Op, master: string)
    requires Inv(s, ls, master) && Possible(s, op)
    ensures Inv(Apply(s, op, master).next, ListenStep(s, ls, op, master), master)
    ensures !op.Attach? ==> SameForeign(s.ix.consumer, Apply(s, op, master).next.ix.consumer)
    ensures Apply(s, op, master).fault != Some(KeyError)
    ensures Apply(s, op, master).fault.Some? ==> Apply(s, op, master).next == s
  {
    if op.Modify? {
      PositionFound(s.rows, op.uuid);
      assert Follows(s.ix, op.uuid, Lookup(ls, op.uuid), master);
      if Get(s.rows, op.uuid, op.tenants, op.owner).Some? {
        assert s.rows[Position(s.rows, op.uuid)] in s.rows;
      }
    }
    if Apply(s, op, master).fault == None {
      match op {
        case Create(_, _) => CreateStep(s, ls, op, master);
        case Modify(_, _, _, _, _) => ModifyStep(s, ls, op, master);
        case Delete(_, _, _) => DeleteStep(s, ls, op, master);
        case Attach(_, _, _) => AttachStep(s, ls, op, Apply(s, op, master).next, master);
        case _ => LinkStep(s, ls, op, master);
      }
    }
  }

  lemma StepTo(s: System, ls: Listening, op: Op, s': System, ls': Listening, master: string)
    requires Inv(s, ls, master) && Possible(s, op)
    requires s' == Apply(s, op, master).next && ls' == ListenStep(s, ls, op, master)
    ensures Inv(s', ls', master) && (!op.Attach? ==> SameForeign(s.ix.consumer, s'.ix.consumer))
  {
    StepKeepsInv(s, ls, op, master);
  }

  /** Any run from a state of the invariant ends in one. */
  lemma {:induction false} RunKeepsInv(s: System, ls: Listening, ops: seq<Op>, end: System, listening: Listening,
                                       master: string)
    requires Inv(s, ls, master) && PossibleRun(s, ops, master)
    requires end == Run(s, ops, master) && listening == ListenRun(s, ls, ops, master)
    ensures Inv(end, listening, master)
    ensures (forall op :: op in ops ==> !op.Attach?) ==> SameForeign(s.ix.consumer, end.ix.consumer)
  {
    if ops != [] {
      var n := |ops| - 1;
      var init := ops[..n];
      forall i | 0 <= i < n ensures Possible(Run(s, init[..i], master), init[i]) {
        assert init[..i] == ops[..i];
      }
      var here, heard := Run(s, init, master), ListenRun(s, ls, init, master);
      RunKeepsInv(s, ls, init, here, heard, master);
      StepTo(here, heard, ops[n], end, listening, master);
    }
  }
}
