/** What the invariant of a run gives: the index is what a restart would build from the rows, and the broker
    holds what the table says exactly when no update lost a binding. */
module Agreement {
  import opened Rows
  import opened Headers
  import opened Store
  import opened Consumers
  import opened SubscriptionIndex
  import opened Listeners
  import opened Service
  import opened Runs

  // ----- startup: `subscribe` over the listed rows

  ghost predicate NoHooks(c: Consumer) {
    forall u, e :: CellOf(c, Some(u), e) == Cell([], {})
  }

  /** A consumer to which nothing or other handlers than hooks have been subscribed, connected or not. */
  ghost predicate Startable(c: Consumer) {
    Proper(c) && NoHooks(c) && ForeignBound(c)
  }

  lemma StartableWithHandlers(c: Consumer, event: string, id: nat, headers: Headers)
    requires Startable(c) && "x-subscription" !in headers
    ensures Startable(IDLE) && Startable(Consumers.Subscribe(c, event, Foreign(id), headers))
  {
    ForeignSubscribed(c, event, id, headers, Consumers.Subscribe(c, event, Foreign(id), headers));
  }

  function FreshAll(rows: seq<Row>, token: nat, master: string): Listening {
    if rows == [] then map[]
    else
      var n := |rows| - 1;
      FreshAll(rows[..n], token, master)[rows[n].uuid := Fresh(rows[n], Hook(token + n, rows[n]), master)]
  }

  function Started(c: Consumer, rows: seq<Row>, token: nat, master: string): System {
    System(rows, RegisterAll(Index(map[], c), rows, token, master), token + |rows|)
  }

  /** The unique constraints of the tables. */
  ghost predicate Stored(rows: seq<Row>) {
    UniqueUuids(rows) && forall row :: row in rows ==> Distinct(row.events)
  }

  lemma StoredPrefix(rows: seq<Row>, n: nat)
    requires Stored(rows) && n < |rows|
    ensures Stored(rows[..n]) && Distinct(rows[n].events)
    ensures forall row :: row in rows[..n] ==> row.uuid != rows[n].uuid
  {
    forall row | row in rows[..n] ensures row in rows && row.uuid != rows[n].uuid {
      var i :| 0 <= i < n && rows[i] == row;
    }
  }

  lemma StartedLast(c: Consumer, rows: seq<Row>, n: nat, token: nat, master: string)
    requires |rows| == n + 1
    ensures var s := Started(c, rows[..n], token, master);
            var fn := Hook(token + n, rows[n]);
            && Started(c, rows, token, master)
               == System(s.rows + [rows[n]], Register(s.ix, rows[n], fn, master), token + |rows|)
            && FreshAll(rows, token, master)
               == FreshAll(rows[..n], token, master)[rows[n].uuid := Fresh(rows[n], fn, master)]
  {
    assert rows == rows[..n] + [rows[n]];
  }

  /** The first registrations: every stored row followed, everything foreign left alone. */
  ghost predicate Begun(c: Consumer, s: System, ls: Listening, master: string) {
    && Inv(s, ls, master)
    && s.ix.consumer.connected == c.connected
    && forall e :: CellOf(s.ix.consumer, None, e) == CellOf(c, None, e)
  }

  lemma BegunStep(c: Consumer, s: System, ls: Listening, row: Row, fn: Handler, s': System, ls': Listening,
                  master: string)
    requires Begun(c, s, ls, master) && (forall r :: r in s.rows ==> r.uuid != row.uuid)
    requires fn.Hook? && fn.data == row && Distinct(row.events)
    requires s' == System(s.rows + [row], Register(s.ix, row, fn, master), s'.token)
    requires ls' == ls[row.uuid := Fresh(row, fn, master)]
    ensures Begun(c, s', ls', master)
  {
    AddRow(s, ls, row, fn, s'.token, master);
  }

  lemma {:induction false} StartupInv(c: Consumer, rows: seq<Row>, token: nat, master: string)
    requires Startable(c) && Stored(rows)
    ensures Begun(c, Started(c, rows, token, master), FreshAll(rows, token, master), master)
  {
    if rows == [] {
      NothingRegistered(c, token, master);
    } else {
      var n := |rows| - 1;
      StoredPrefix(rows, n);
      StartupInv(c, rows[..n], token, master);
      StartedLast(c, rows, n, token, master);
      BegunStep(c, Started(c, rows[..n], token, master), FreshAll(rows[..n], token, master), rows[n],
                Hook(token + n, rows[n]), Started(c, rows, token, master), FreshAll(rows, token, master), master);
    }
  }

  lemma NothingRegistered(c: Consumer, token: nat, master: string)
    requires Startable(c)
    ensures Begun(c, System([], Index(map[], c), token), map[], master)
  {
  }

  lemma {:induction false} StartupClean(rows: seq<Row>, token: nat, master: string)
    ensures Clean(FreshAll(rows, token, master), master)
  {
    if rows != [] {
      StartupClean(rows[..|rows| - 1], token, master);
    }
  }

  // ----- the table against the rows

  function HookRows(es: seq<Entry>): multiset<Row> {
    if es == [] then multiset{}
    else (if es[0].handler.Hook? then multiset{es[0].handler.data} else multiset{}) + HookRows(es[1..])
  }

  function HookView(es: seq<Entry>): multiset<(Row, Binding)> {
    if es == [] then multiset{}
    else (if es[0].handler.Hook? then multiset{(es[0].handler.data, es[0].binding)} else multiset{}) + HookView(es[1..])
  }

  lemma ViewCons(x: Entry, rest: seq<Entry>)
    ensures HookRows([x] + rest) == (if x.handler.Hook? then multiset{x.handler.data} else multiset{}) + HookRows(rest)
    ensures HookView([x] + rest)
         == (if x.handler.Hook? then multiset{(x.handler.data, x.binding)} else multiset{}) + HookView(rest)
  {
    assert ([x] + rest)[1..] == rest;
  }

  lemma {:induction false} ViewByOwner(es: seq<Entry>, row: Row, b: Binding)
    ensures HookRows(es)[row] == HookRows(Owned(es, Some(row.uuid)))[row]
    ensures HookView(es)[(row, b)] == HookView(Owned(es, Some(row.uuid)))[(row, b)]
  {
    if es != [] {
      var x, rest := es[0], es[1..];
      var tail := Owned(rest, Some(row.uuid));
      ViewByOwner(rest, row, b);
      assert es == [x] + rest;
      ConsRemove(x, rest, Some(row.uuid), x.handler);
      ViewCons(x, rest);
      ViewCons(x, tail);
      assert [] + tail == tail;
    }
  }

  /** For every event, each row listening to it has exactly one callback, carrying that row as it is now;
      there is no other callback. */
  lemma TableMatchesRows(s: System, ls: Listening, master: string, e: string, row: Row, b: Binding)
    requires Inv(s, ls, master)
    ensures HookRows(Entries(s.ix.consumer, e))[row] == if row in s.rows && e in row.events then 1 else 0
    ensures HookView(Entries(s.ix.consumer, e))[(row, b)]
         == if && row in s.rows && e in row.events && e in ls[row.uuid].slots
               && b == Arguments(e, ls[row.uuid].slots[e].headers, true)
            then 1 else 0
  {
    var u := row.uuid;
    ViewByOwner(Entries(s.ix.consumer, e), row, b);
    assert Follows(s.ix, u, Lookup(ls, u), master);
    assert CellOf(s.ix.consumer, Some(u), e) == CellFor(Lookup(ls, u), e, s.ix.consumer.connected);
  }

  ghost predicate Clean(ls: Listening, master: string) {
    forall u :: u in ls ==> ls[u] == Fresh(ls[u].row, ls[u].fn, master)
  }

  /** The same subscriptions have callbacks, carrying the same rows and for the same events, and every event
      has the same handlers. */
  ghost predicate SameHooks(ix: Index, ix': Index) {
    && (forall e :: HookRows(Entries(ix.consumer, e)) == HookRows(Entries(ix'.consumer, e)))
    && ix.callbacks.Keys == ix'.callbacks.Keys
    && (forall u :: u in ix.callbacks ==>
          && ix.callbacks[u].fn.Hook? && ix'.callbacks[u].fn.Hook?
          && ix.callbacks[u].fn.data == ix'.callbacks[u].fn.data
          && ix.callbacks[u].events == ix'.callbacks[u].events)
  }

  /** And they are bound with the same headers, which are also the stored ones. */
  ghost predicate SameBindings(ix: Index, ix': Index) {
    && (forall e :: HookView(Entries(ix.consumer, e)) == HookView(Entries(ix'.consumer, e)))
    && (forall u :: u in ix.callbacks && u in ix'.callbacks ==> ix.callbacks[u].headers == ix'.callbacks[u].headers)
  }

  lemma SameRowsSameHooks(s: System, ls: Listening, r: System, ls': Listening, master: string)
    requires Inv(s, ls, master) && Inv(r, ls', master) && r.rows == s.rows
    ensures SameHooks(s.ix, r.ix)
  {
    forall e ensures HookRows(Entries(s.ix.consumer, e)) == HookRows(Entries(r.ix.consumer, e)) {
      forall row ensures HookRows(Entries(s.ix.consumer, e))[row] == HookRows(Entries(r.ix.consumer, e))[row] {
        TableMatchesRows(s, ls, master, e, row, map[]);
        TableMatchesRows(r, ls', master, e, row, map[]);
      }
    }
    SameListeners(s, ls, r, ls', master);
  }

  lemma SameListeners(s: System, ls: Listening, r: System, ls': Listening, master: string)
    requires Inv(s, ls, master) && Inv(r, ls', master) && r.rows == s.rows
    ensures forall u :: u in ls <==> u in ls'
    ensures forall u :: u in ls ==> ls[u].row == ls'[u].row
    ensures forall u {:trigger u in s.ix.callbacks} :: u in s.ix.callbacks <==> u in ls
    ensures forall u {:trigger u in r.ix.callbacks} :: u in r.ix.callbacks <==> u in ls
    ensures forall u :: u in ls ==>
              && s.ix.callbacks[u] == Callback(ls[u].fn, ls[u].row.events, ls[u].stored)
              && r.ix.callbacks[u] == Callback(ls'[u].fn, ls'[u].row.events, ls'[u].stored)
              && Sound(ls[u], master) && Sound(ls'[u], master)
  {
    forall u
      ensures u in ls <==> u in ls'
      ensures u in ls ==> ls[u].row == ls'[u].row
      ensures Follows(s.ix, u, Lookup(ls, u), master) && Follows(r.ix, u, Lookup(ls', u), master)
    {
      if u in ls { assert ls[u].row in s.rows; }
      if u in ls' { assert ls'[u].row in r.rows; }
    }
  }

  lemma SameRowsSameBindings(s: System, ls: Listening, r: System, ls': Listening, master: string)
    requires Inv(s, ls, master) && Inv(r, ls', master) && r.rows == s.rows
    requires Clean(ls, master) && Clean(ls', master)
    ensures SameBindings(s.ix, r.ix)
  {
    SameListeners(s, ls, r, ls', master);
    forall e ensures HookView(Entries(s.ix.consumer, e)) == HookView(Entries(r.ix.consumer, e)) {
      forall x: (Row, Binding)
        ensures HookView(Entries(s.ix.consumer, e))[x] == HookView(Entries(r.ix.consumer, e))[x]
      {
        TableMatchesRows(s, ls, master, e, x.0, x.1);
        TableMatchesRows(r, ls', master, e, x.0, x.1);
      }
    }
  }

  /** The callbacks and the handler table, maintained one operation at a time, are those a restart builds
      from the rows; when every listener is clean so are the bound headers. */
  lemma IndexEqualsRebuild(s: System, ls: Listening, master: string, c: Consumer, token: nat)
    requires Inv(s, ls, master) && Startable(c)
    ensures SameHooks(s.ix, Started(c, s.rows, token, master).ix)
    ensures Clean(ls, master) ==> SameBindings(s.ix, Started(c, s.rows, token, master).ix)
  {
    forall row | row in s.rows ensures Distinct(row.events) {
      assert Follows(s.ix, row.uuid, Lookup(ls, row.uuid), master);
    }
    StartupInv(c, s.rows, token, master);
    var r := Started(c, s.rows, token, master);
    SameRowsSameHooks(s, ls, r, FreshAll(s.rows, token, master), master);
    if Clean(ls, master) {
      StartupClean(s.rows, token, master);
      SameRowsSameBindings(s, ls, r, FreshAll(s.rows, token, master), master);
    }
  }

  // ----- `subscribe` over an index that already follows subscriptions

  lemma {:induction false} HookRowsAppend(a: seq<Entry>, b: seq<Entry>)
    ensures HookRows(a + b) == HookRows(a) + HookRows(b)
  {
    if a == [] {
      assert a + b == b;
    } else {
      assert (a + b)[1..] == a[1..] + b;
      HookRowsAppend(a[1..], b);
    }
  }

  lemma HookRowsOne(x: Entry, row: Row)
    ensures HookRows([x])[row] == if x.handler.Hook? && x.handler.data == row then 1 else 0
  {
    assert [x][1..] == [];
  }

  function OwnRows(c: Consumer, e: string, row: Row): nat {
    HookRows(Owned(Entries(c, e), Some(row.uuid)))[row]
  }

  lemma RegisterCounts(ix: Index, r: Row, fn: Handler, master: string, e: string, row: Row, end: Index)
    requires Proper(ix.consumer) && Distinct(r.events) && fn.Hook? && fn.data == r
    requires end == Register(ix, r, fn, master)
    ensures Proper(end.consumer)
    ensures OwnRows(end.consumer, e, row) == OwnRows(ix.consumer, e, row) + if r == row && e in r.events then 1 else 0
  {
    SubscribeAllCell(ix.consumer, r.events, fn, r, master, Some(row.uuid), e);
    var x := Entry(fn, Arguments(e, Rewritten(e, BaseHeaders(r, master)), true));
    HookRowsAppend(Owned(Entries(ix.consumer, e), Some(row.uuid)), [x]);
    HookRowsOne(x, row);
  }

  lemma OneMoreRow(rows: seq<Row>, n: nat, row: Row)
    requires Stored(rows) && |rows| == n + 1
    ensures row in rows <==> row in rows[..n] || row == rows[n]
    ensures row in rows[..n] ==> row != rows[n]
  {
    StoredPrefix(rows, n);
    assert rows == rows[..n] + [rows[n]];
  }

  /** Whatever the index holds, each listed row gets one more callback for each of its events. */
  lemma {:induction false} RegisterAllCounts(ix: Index, rows: seq<Row>, token: nat, master: string, e: string, row: Row,
                                             end: Index)
    requires Proper(ix.consumer) && Stored(rows) && end == RegisterAll(ix, rows, token, master)
    ensures Proper(end.consumer)
    ensures OwnRows(end.consumer, e, row)
         == OwnRows(ix.consumer, e, row) + if row in rows && e in row.events then 1 else 0
  {
    if rows != [] {
      var n := |rows| - 1;
      var mid := RegisterAll(ix, rows[..n], token, master);
      StoredPrefix(rows, n);
      RegisterAllCounts(ix, rows[..n], token, master, e, row, mid);
      RegisterCounts(mid, rows[n], Hook(token + n, rows[n]), master, e, row, end);
      OneMoreRow(rows, n, row);
    }
  }

  lemma FollowedCounts(ix: Index, l: Option<Listener>, master: string, e: string, row: Row)
    requires Follows(ix, row.uuid, l, master)
    ensures OwnRows(ix.consumer, e, row) == if l.Some? && l.value.row == row && e in row.events then 1 else 0
  {
    assert CellOf(ix.consumer, Some(row.uuid), e) == CellFor(l, e, ix.consumer.connected);
    if l.Some? && e in l.value.slots {
      HookRowsOne(Entry(l.value.fn, Arguments(e, l.value.slots[e].headers, true)), row);
    }
  }

  predicate Registered(ls: Listening, row: Row) {
    row.uuid in ls && ls[row.uuid].row == row
  }

  lemma LateStartupCount(ix: Index, ls: Listening, rows: seq<Row>, token: nat, master: string, row: Row, e: string)
    requires Proper(ix.consumer) && (forall u :: Follows(ix, u, Lookup(ls, u), master)) && Stored(rows)
    requires row in rows && e in row.events
    ensures HookRows(Entries(RegisterAll(ix, rows, token, master).consumer, e))[row]
         == if Registered(ls, row) then 2 else 1
  {
    var end := RegisterAll(ix, rows, token, master);
    RegisterAllCounts(ix, rows, token, master, e, row, end);
    assert Follows(ix, row.uuid, Lookup(ls, row.uuid), master);
    FollowedCounts(ix, Lookup(ls, row.uuid), master, e, row);
    ViewByOwner(Entries(end.consumer, e), row, map[]);
  }

  ghost predicate OneCallbackEach(c: Consumer, rows: seq<Row>) {
    forall row, e :: row in rows && e in row.events ==> HookRows(Entries(c, e))[row] == 1
  }

  /** `subscribe` waits for the first token, while creations may register before: it leaves one callback per listed
      row and event exactly when no listed row with an event was registered before; such a row has two. */
  lemma LateStartupIff(ix: Index, ls: Listening, rows: seq<Row>, token: nat, master: string)
    requires Proper(ix.consumer) && (forall u :: Follows(ix, u, Lookup(ls, u), master)) && Stored(rows)
    ensures OneCallbackEach(RegisterAll(ix, rows, token, master).consumer, rows)
       <==> forall row :: row in rows && row.events != [] ==> !Registered(ls, row)
    ensures forall row, e | row in rows && e in row.events && Registered(ls, row) ::
              HookRows(Entries(RegisterAll(ix, rows, token, master).consumer, e))[row] == 2
  {
    var c := RegisterAll(ix, rows, token, master).consumer;
    forall row, e | row in rows && e in row.events
      ensures HookRows(Entries(c, e))[row] == if Registered(ls, row) then 2 else 1
    {
      LateStartupCount(ix, ls, rows, token, master, row, e);
    }
    forall row | row in rows && row.events != [] && Registered(ls, row) ensures !OneCallbackEach(c, rows) {
      assert row.events[0] in row.events;
      assert HookRows(Entries(c, row.events[0]))[row] == 2;
    }
  }

  // ----- the broker against the table

  ghost predicate AllSlotsLive(ls: Listening) {
    forall u, e :: u in ls && e in ls[u].slots ==> ls[u].slots[e].live
  }

  ghost predicate HookBinding(c: Consumer, b: Binding) {
    exists e, x :: x in Entries(c, e) && x.handler.Hook? && x.binding == b
  }

  lemma BoundByCell(s: System, ls: Listening, master: string, u: string, e: string, b: Binding)
    requires Inv(s, ls, master) && s.ix.consumer.connected
    requires OwnerOf(b) == Some(u) && NameOf(b) == Some(e)
    ensures b in s.ix.consumer.bound
       <==> u in ls && e in ls[u].slots && ls[u].slots[e].live && b == Arguments(e, ls[u].slots[e].headers, true)
    ensures HookBinding(s.ix.consumer, b)
       <==> u in ls && e in ls[u].slots && b == Arguments(e, ls[u].slots[e].headers, true)
  {
    var c := s.ix.consumer;
    assert Follows(s.ix, u, Lookup(ls, u), master);
    var cell := CellOf(c, Some(u), e);
    assert cell == CellFor(Lookup(ls, u), e, c.connected);
    assert b in c.bound <==> b in cell.bound;
    OwnedMember(Entries(c, e), Some(u));
    if HookBinding(c, b) {
      var e', x :| x in Entries(c, e') && x.handler.Hook? && x.binding == b;
      assert ProperEntry(x, e');
      assert x in cell.entries;
    }
    if u in ls && e in ls[u].slots && b == Arguments(e, ls[u].slots[e].headers, true) {
      assert cell.entries[0] in cell.entries;
    }
  }

  /** While connected, the broker holds exactly the bindings of the callbacks in the table if and only if
      the last registration or update of every subscription kept every binding. It never holds another. */
  lemma BrokerAgreesIff(s: System, ls: Listening, master: string)
    requires Inv(s, ls, master) && s.ix.consumer.connected
    ensures (forall b :: OwnerOf(b).Some? ==> (b in s.ix.consumer.bound <==> HookBinding(s.ix.consumer, b)))
       <==> AllSlotsLive(ls)
    ensures forall b :: OwnerOf(b).Some? && b in s.ix.consumer.bound ==> HookBinding(s.ix.consumer, b)
  {
    var c := s.ix.consumer;
    forall b | OwnerOf(b).Some?
      ensures b in c.bound ==> HookBinding(c, b)
      ensures AllSlotsLive(ls) ==> (b in c.bound <==> HookBinding(c, b))
    {
      forall e, x | x in Entries(c, e) && x.binding == b ensures NameOf(b).Some? {
        assert ProperEntry(x, e);
      }
      if NameOf(b).Some? {
        BoundByCell(s, ls, master, OwnerOf(b).value, NameOf(b).value, b);
      }
    }
    forall u, e | u in ls && e in ls[u].slots && !ls[u].slots[e].live
      ensures exists b :: OwnerOf(b).Some? && HookBinding(c, b) && b !in c.bound
    {
      assert Follows(s.ix, u, Lookup(ls, u), master);
      var h := ls[u].slots[e].headers;
      OwnIsMarked(ls[u].row, master, h);
      ArgumentsIdentity(e, h, h, u);
      BoundByCell(s, ls, master, u, e, Arguments(e, h, true));
    }
  }

  // ----- when an update leaves what a restart would build

  /** The update does not go through the voicemail event (or the row addresses the wildcard user anyway),
      and no kept event is bound already with headers that differ from the stored ones. */
  ghost predicate UpdatesCleanly(l: Listener, row: Row, master: string, connected: bool) {
    && ((VOICEMAIL !in row.events && VOICEMAIL !in l.row.events) || row.eventsUser == Some("*"))
    && (connected ==> forall e :: e in row.events ==> !Loses(l, e, BaseHeaders(row, master)))
  }

  /** An update leaves a subscription exactly as registering its new row would, if and only if it runs cleanly. */
  lemma UpdateEqualsRegisterIff(l: Listener, row: Row, fn: Handler, order: seq<string>, master: string, connected: bool)
    requires IterationOrder(order, row.events, l.row.events)
    ensures Replaced(l, row, fn, order, master, connected) == Fresh(row, fn, master)
       <==> UpdatesCleanly(l, row, master, connected)
  {
    var base := BaseHeaders(row, master);
    var l' := Replaced(l, row, fn, order, master, connected);
    var f := Fresh(row, fn, master);
    LoopCarriedHeaders(order, base);
    WidenedIsBase(row, master);
    assert VOICEMAIL in order <==> VOICEMAIL in row.events || VOICEMAIL in l.row.events;
    assert l'.stored == base <==> VOICEMAIL !in order || Widened(base) == base;
    if VOICEMAIL !in order || Widened(base) == base {
      forall e | e in row.events
        ensures HeadersAt(order, e, base) == base && Rewritten(e, base) == base
        ensures l'.slots[e] == f.slots[e] <==> (connected ==> !Loses(l, e, base))
      {
      }
      if l' == f {
        forall e | e in row.events ensures connected ==> !Loses(l, e, base) {
          assert l'.slots[e] == f.slots[e];
        }
      }
      if connected ==> forall e :: e in row.events ==> !Loses(l, e, base) {
        assert l'.slots == f.slots;
      }
    }
  }

  ghost predicate OnlyLivenessDiffers(l: Listener, l': Listener, e: string) {
    && e in l.slots && e in l'.slots
    && l.slots[e].headers == l'.slots[e].headers && l.slots[e].live != l'.slots[e].live
  }

  lemma FollowersAgree(a: Index, b: Index, u: string, l: Listener, l': Listener, master: string)
    requires a.consumer.connected == b.consumer.connected
    requires Follows(a, u, Some(l), master) && Follows(b, u, Some(l'), master)
    ensures l == l' ==> Same(a, b, Some(u))
    ensures l.stored != l'.stored ==> !Equivalent(a, b)
    ensures forall e | a.consumer.connected && OnlyLivenessDiffers(l, l', e) :: !Equivalent(a, b)
  {
    forall e | a.consumer.connected && OnlyLivenessDiffers(l, l', e)
      ensures !Equivalent(a, b)
    {
      assert CellOf(a.consumer, Some(u), e) == SlotCell(l, e, true);
      assert CellOf(b.consumer, Some(u), e) == SlotCell(l', e, true);
      assert CellOf(a.consumer, Some(u), e).bound != CellOf(b.consumer, Some(u), e).bound by {
        var x := Arguments(e, l.slots[e].headers, true);
        assert x in SlotCell(l, e, true).bound <==> x !in SlotCell(l', e, true).bound;
      }
    }
  }

  /** An update does to the whole index what unregistering and registering again would, up to the order of
      handlers in a list, exactly when it runs cleanly. */
  lemma UpdateRefinesReregisterIff(ix: Index, l: Listener, row: Row, fn: Handler, order: seq<string>, master: string)
    requires Proper(ix.consumer) && Follows(ix, row.uuid, Some(l), master)
    requires fn.Hook? && fn.data == row && Distinct(row.events) && IterationOrder(order, row.events, l.row.events)
    ensures Equivalent(Update(ix, row, fn, order, master), Register(Unregister(ix, row.uuid), row, fn, master))
       <==> UpdatesCleanly(l, row, master, ix.consumer.connected)
  {
    var u := row.uuid;
    var a, b := Update(ix, row, fn, order, master), Register(Unregister(ix, u), row, fn, master);
    var connected := ix.consumer.connected;
    var l', f := Replaced(l, row, fn, order, master, connected), Fresh(row, fn, master);
    UpdateFollows(ix, l, row, fn, order, master);
    UnregisterFollows(ix, u, Some(l), master);
    RegisterFollows(Unregister(ix, u), row, fn, master);
    UpdateEqualsRegisterIff(l, row, fn, order, master, connected);
    FollowersAgree(a, b, u, l', f, master);
    if UpdatesCleanly(l, row, master, connected) {
      SameNames(ix, row, fn, order, master);
      forall o ensures Same(a, b, o) {
        if o != Some(u) {
          assert Same(ix, a, o) && Same(ix, Unregister(ix, u), o) && Same(Unregister(ix, u), b, o);
        }
      }
      SameForAllIsEquivalent(a, b);
    } else {
      NotCleanDiffers(l, row, fn, order, master, connected);
    }
  }

  lemma NotCleanDiffers(l: Listener, row: Row, fn: Handler, order: seq<string>, master: string, connected: bool)
    requires IterationOrder(order, row.events, l.row.events) && !UpdatesCleanly(l, row, master, connected)
    ensures var l', f := Replaced(l, row, fn, order, master, connected), Fresh(row, fn, master);
            l'.stored != f.stored || (connected && exists e :: e in row.events && OnlyLivenessDiffers(l', f, e))
  {
    var base := BaseHeaders(row, master);
    LoopCarriedHeaders(order, base);
    WidenedIsBase(row, master);
    var l', f := Replaced(l, row, fn, order, master, connected), Fresh(row, fn, master);
    if l'.stored == base {
      var e :| e in row.events && Loses(l, e, base);
      assert HeadersAt(order, e, base) == base && Rewritten(e, base) == base;
      assert OnlyLivenessDiffers(l', f, e);
    }
  }

  /** Rows that put the same tenant and origin conditions on a message. */
  predicate SameScope(a: Row, b: Row) {
    && a.ownerTenant == b.ownerTenant
    && (if Truthy(a.eventsWazo) then a.eventsWazo == b.eventsWazo else !Truthy(b.eventsWazo))
  }

  lemma WidenedAgree(h: Headers, h': Headers)
    ensures Widened(h) == Widened(h')
       <==> forall k :: !UserKey(k) ==> (k in h <==> k in h') && (k in h ==> h[k] == h'[k])
  {
    WidenedMeaning(h);
    WidenedMeaning(h');
    var w, w' := Widened(h), Widened(h');
    if forall k :: !UserKey(k) ==> (k in h <==> k in h') && (k in h ==> h[k] == h'[k]) {
      forall k ensures (k in w <==> k in w') && (k in w ==> w[k] == w'[k]) {
        if !UserKey(k) {
          assert k in w <==> k in h;
        }
      }
      assert w == w';
    }
  }

  lemma SameScopeIff(a: Row, b: Row, master: string)
    requires a.uuid == b.uuid
    ensures Widened(BaseHeaders(a, master)) == Widened(BaseHeaders(b, master)) <==> SameScope(a, b)
  {
    var ha, hb := BaseHeaders(a, master), BaseHeaders(b, master);
    WidenedAgree(ha, hb);
    BaseEntries(a, master);
    BaseEntries(b, master);
    KeysApart("");
  }

  /** The first update after a registration loses a binding exactly when the voicemail event is kept and the
      tenant and origin are unchanged; what it loses is the voicemail binding and no other. */
  lemma FirstUpdateLosesIff(l: Listener, row: Row, fn: Handler, order: seq<string>, master: string, e: string)
    requires l == Fresh(l.row, l.fn, master) && row.uuid == l.row.uuid
    requires IterationOrder(order, row.events, l.row.events) && e in row.events
    ensures !Replaced(l, row, fn, order, master, true).slots[e].live
       <==> e == VOICEMAIL && VOICEMAIL in l.row.events && l.row.eventsUser != Some("*") && SameScope(l.row, row)
  {
    var base, h := BaseHeaders(l.row, master), HeadersAt(order, e, BaseHeaders(row, master));
    WidenedIsBase(l.row, master);
    SameScopeIff(l.row, row, master);
    if e == VOICEMAIL {
      var j :| 0 <= j < |order| && order[j] == e;
      assert VoicemailBy(order, e);
      assert h == Widened(BaseHeaders(row, master));
      assert e in l.slots ==> l.slots[e].headers == Widened(base);
    } else {
      assert e in l.slots ==> l.slots[e].headers == l.stored;
    }
  }

  /** What a caller can check: neither version lists the voicemail event; or the new one addresses the wildcard
      user, and either the old one did too, or tenant or origin change, or the event is not kept, or there is
      no connection. */
  predicate CleanReplacement(former: Row, row: Row, connected: bool) {
    || (VOICEMAIL !in former.events && VOICEMAIL !in row.events)
    || (row.eventsUser == Some("*")
        && !(connected && VOICEMAIL in former.events && VOICEMAIL in row.events && former.eventsUser != Some("*")
             && SameScope(former, row)))
  }

  /** Right after a registration, whether an update runs cleanly is a matter of the two rows alone. */
  lemma CleanReplacementIff(l: Listener, row: Row, fn: Handler, order: seq<string>, master: string, connected: bool)
    requires l == Fresh(l.row, l.fn, master) && row.uuid == l.row.uuid
       && IterationOrder(order, row.events, l.row.events)
    ensures Replaced(l, row, fn, order, master, connected) == Fresh(row, fn, master)
       <==> CleanReplacement(l.row, row, connected)
  {
    var base := BaseHeaders(row, master);
    UpdateEqualsRegisterIff(l, row, fn, order, master, connected);
    WidenedIsBase(row, master);
    if row.eventsUser == Some("*") {
      forall e | e in row.events
        ensures Loses(l, e, base)
           <==> e == VOICEMAIL && VOICEMAIL in l.row.events && l.row.eventsUser != Some("*") && SameScope(l.row, row)
      {
        FirstUpdateLosesIff(l, row, fn, order, master, e);
        assert HeadersAt(order, e, base) == base;
      }
    } else if VOICEMAIL !in l.row.events && VOICEMAIL !in row.events {
      assert forall e :: e in l.slots ==> l.slots[e].headers == l.stored;
    }
  }
}
