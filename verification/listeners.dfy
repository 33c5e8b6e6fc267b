/** What the index amounts to, subscription by subscription: for each event listened to, the headers its
    entry is bound with and whether the broker still holds that binding. */
module Listeners {
  import opened Rows
  import opened Headers
  import opened Consumers
  import opened SubscriptionIndex

  datatype Slot = Slot(headers: Headers, live: bool)

  datatype Listener = Listener(row: Row, fn: Handler, stored: Headers, slots: map<string, Slot>)

  function SlotCell(l: Listener, event: string, connected: bool): Cell {
    if event !in l.slots then Cell([], {})
    else
      var b := Arguments(event, l.slots[event].headers, true);
      Cell([Entry(l.fn, b)], if connected && l.slots[event].live then {b} else {})
  }

  function CellFor(l: Option<Listener>, event: string, connected: bool): Cell {
    if l.None? then Cell([], {}) else SlotCell(l.value, event, connected)
  }

  ghost predicate Own(row: Row, master: string, h: Headers) {
    h == BaseHeaders(row, master) || h == Widened(BaseHeaders(row, master))
  }

  ghost predicate Sound(l: Listener, master: string) {
    && l.fn.Hook? && l.fn.data == l.row && Distinct(l.row.events)
    && (forall e :: e in l.slots <==> e in l.row.events)
    && Own(l.row, master, l.stored)
    && (forall e :: e in l.slots ==> Own(l.row, master, l.slots[e].headers))
    && (VOICEMAIL in l.slots ==> l.slots[VOICEMAIL].headers == Widened(BaseHeaders(l.row, master)))
  }

  /** The index holds, for subscription `u`, exactly what `l` says: one entry per slot and nothing else. */
  ghost predicate Follows(ix: Index, u: string, l: Option<Listener>, master: string) {
    && (forall e :: CellOf(ix.consumer, Some(u), e) == CellFor(l, e, ix.consumer.connected))
    && (l.None? ==> u !in ix.callbacks)
    && (l.Some? ==>
      && u in ix.callbacks && ix.callbacks[u] == Callback(l.value.fn, l.value.row.events, l.value.stored)
      && l.value.row.uuid == u && Sound(l.value, master))
  }

  function CallbackOf(ix: Index, u: string): Option<Callback> {
    if u in ix.callbacks then Some(ix.callbacks[u]) else None
  }

  /** Nothing that belongs to `o` differs between the two indexes. */
  ghost predicate Same(ix: Index, ix': Index, o: Option<string>) {
    && ix.consumer.connected == ix'.consumer.connected
    && (o.Some? ==> CallbackOf(ix, o.value) == CallbackOf(ix', o.value))
    && forall e :: CellOf(ix.consumer, o, e) == CellOf(ix'.consumer, o, e)
  }

  function Fresh(row: Row, fn: Handler, master: string): Listener {
    var base := BaseHeaders(row, master);
    Listener(row, fn, base, map e | e in row.events :: Slot(Rewritten(e, base), true))
  }

  // ----- headers carried by the loop

  ghost predicate VoicemailBy(order: seq<string>, event: string) {
    exists i, j :: 0 <= i <= j < |order| && order[i] == VOICEMAIL && order[j] == event
  }

  /** The headers in force when `event` is processed. */
  ghost function HeadersAt(order: seq<string>, event: string, base: Headers): Headers {
    if VoicemailBy(order, event) then Widened(base) else base
  }

  lemma {:induction false} LoopCarriedHeaders(order: seq<string>, base: Headers)
    ensures HeadersAfter(order, base) == if VOICEMAIL in order then Widened(base) else base
  {
    if order != [] {
      var n := |order| - 1;
      LoopCarriedHeaders(order[..n], base);
      WidenedMeaning(base);
      assert order == order[..n] + [order[n]];
    }
  }

  /** At every step, for every order: the base headers until the voicemail event has come, widened from then on. */
  lemma HeadersAtStep(order: seq<string>, j: nat, base: Headers)
    requires Distinct(order) && j < |order|
    ensures HeadersAfter(order[..j + 1], base) == HeadersAt(order, order[j], base)
  {
    LoopCarriedHeaders(order[..j + 1], base);
    if VOICEMAIL in order[..j + 1] {
      var i :| 0 <= i < j + 1 && order[..j + 1][i] == VOICEMAIL;
      assert order[i] == VOICEMAIL;
    } else {
      assert forall i :: 0 <= i <= j ==> order[i] == order[..j + 1][i];
    }
  }

  // ----- one update

  /** The subscribe-first branch is taken although the entry is already bound with the new headers:
      the binding just confirmed is then removed together with the old entry. */
  predicate Loses(l: Listener, event: string, headers: Headers) {
    event in l.slots && headers != l.stored && headers == l.slots[event].headers
  }

  ghost function Replaced(l: Listener, row: Row, fn: Handler, order: seq<string>, master: string,
                          connected: bool): Listener {
    var base := BaseHeaders(row, master);
    Listener(row, fn, HeadersAfter(order, base),
             map e | e in row.events ::
               Slot(HeadersAt(order, e, base), connected ==> !Loses(l, e, HeadersAt(order, e, base))))
  }

  function CellStep(cell: Cell, connected: bool, event: string, headers: Headers, events: seq<string>, prev: Callback,
                    fn: Handler): Cell {
    var b := Arguments(event, headers, true);
    if event !in events then CellUnsubscribe(cell, connected, prev.fn)
    else if event !in prev.events then CellSubscribe(cell, connected, fn, b)
    else if headers != prev.headers then CellUnsubscribe(CellSubscribe(cell, connected, fn, b), connected, prev.fn)
    else CellSubscribe(CellUnsubscribe(cell, connected, prev.fn), connected, fn, b)
  }

  lemma BoundThenDropped(c: Consumer, event: string, headers: Headers, prev: Handler, fn: Handler, u: string,
                         o: Option<string>, e: string, mid: Consumer, end: Consumer)
    requires Proper(c) && MarkedFor(u, headers) && Owner(fn) == Some(u) && Owner(prev) == Some(u)
    requires mid == Consumers.Subscribe(c, event, fn, headers) && end == Consumers.Unsubscribe(mid, event, prev)
    ensures Proper(mid) && Proper(end) && mid.connected == c.connected && end.connected == c.connected
    ensures var bound := CellSubscribe(CellOf(c, o, e), c.connected, fn, Arguments(event, headers, true));
            if o == Some(u) && e == event
            then CellOf(mid, o, e) == bound && CellOf(end, o, e) == CellUnsubscribe(bound, c.connected, prev)
            else CellOf(mid, o, e) == CellOf(c, o, e) && CellOf(end, o, e) == CellOf(c, o, e)
  {
    ArgumentsIdentity(event, headers, headers, u);
    SubscribeCell(c, event, fn, headers, o, e);
    UnsubscribeCell(mid, event, prev, o, e);
  }

  lemma DroppedThenBound(c: Consumer, event: string, headers: Headers, prev: Handler, fn: Handler, u: string,
                         o: Option<string>, e: string, mid: Consumer, end: Consumer)
    requires Proper(c) && MarkedFor(u, headers) && Owner(fn) == Some(u) && Owner(prev) == Some(u)
    requires mid == Consumers.Unsubscribe(c, event, prev) && end == Consumers.Subscribe(mid, event, fn, headers)
    ensures Proper(mid) && Proper(end) && mid.connected == c.connected && end.connected == c.connected
    ensures var dropped := CellUnsubscribe(CellOf(c, o, e), c.connected, prev);
            if o == Some(u) && e == event
            then CellOf(mid, o, e) == dropped
              && CellOf(end, o, e) == CellSubscribe(dropped, c.connected, fn, Arguments(event, headers, true))
            else CellOf(mid, o, e) == CellOf(c, o, e) && CellOf(end, o, e) == CellOf(c, o, e)
  {
    ArgumentsIdentity(event, headers, headers, u);
    UnsubscribeCell(c, event, prev, o, e);
    SubscribeCell(mid, event, fn, headers, o, e);
  }

  lemma UpdateStepCell(c: Consumer, event: string, headers: Headers, events: seq<string>, prev: Callback, fn: Handler,
                       u: string, o: Option<string>, e: string, c': Consumer)
    requires Proper(c) && MarkedFor(u, headers) && Owner(fn) == Some(u) && Owner(prev.fn) == Some(u)
    requires c' == UpdateStep(c, event, headers, events, prev, fn)
    ensures Proper(c') && c'.connected == c.connected
    ensures CellOf(c', o, e) == if o == Some(u) && e == event
                                then CellStep(CellOf(c, o, e), c.connected, event, headers, events, prev, fn)
                                else CellOf(c, o, e)
  {
    var bound, dropped := Consumers.Subscribe(c, event, fn, headers), Consumers.Unsubscribe(c, event, prev.fn);
    if event in events && (event !in prev.events || headers != prev.headers) {
      BoundThenDropped(c, event, headers, prev.fn, fn, u, o, e, bound, Consumers.Unsubscribe(bound, event, prev.fn));
    } else {
      DroppedThenBound(c, event, headers, prev.fn, fn, u, o, e, dropped,
                       Consumers.Subscribe(dropped, event, fn, headers));
    }
  }

  /** The update loop processes every cell of its subscription at most once, and no other cell. */
  lemma {:induction false} UpdateAllCell(c: Consumer, order: seq<string>, row: Row, master: string, prev: Callback,
                                         fn: Handler,
                                         o: Option<string>, e: string)
    requires Proper(c) && Distinct(order) && Owner(fn) == Some(row.uuid) && Owner(prev.fn) == Some(row.uuid)
    ensures var base := BaseHeaders(row, master);
            var c' := UpdateAll(c, order, base, row.events, prev, fn);
            && Proper(c') && c'.connected == c.connected
            && CellOf(c', o, e) == if o == Some(row.uuid) && e in order
                                   then CellStep(CellOf(c, o, e), c.connected, e, HeadersAt(order, e, base), row.events,
                                                 prev, fn)
                                   else CellOf(c, o, e)
  {
    if order != [] {
      var n := |order| - 1;
      var base := BaseHeaders(row, master);
      var init := order[..n];
      UpdateAllCell(c, init, row, master, prev, fn, o, e);
      LoopCarriedHeaders(order, base);
      SubscriptionHeadersAreMarked(row, master);
      UpdateStepCell(UpdateAll(c, init, base, row.events, prev, fn), order[n], HeadersAfter(order, base),
                     row.events, prev, fn, row.uuid, o, e, UpdateAll(c, order, base, row.events, prev, fn));
      assert order[..n + 1] == order;
      HeadersAtStep(order, n, base);
      assert order == init + [order[n]];
      if e in init {
        VoicemailByPrefix(order, n, e);
        assert e != order[n];
      }
    }
  }

  lemma VoicemailByPrefix(order: seq<string>, n: nat, e: string)
    requires Distinct(order) && n <= |order| && e in order[..n]
    ensures VoicemailBy(order[..n], e) <==> VoicemailBy(order, e)
  {
    var k :| 0 <= k < n && order[..n][k] == e;
    if VoicemailBy(order, e) {
      var i, j :| 0 <= i <= j < |order| && order[i] == VOICEMAIL && order[j] == e;
      assert j == k && order[..n][i] == VOICEMAIL;
    }
    if VoicemailBy(order[..n], e) {
      var i, j :| 0 <= i <= j < n && order[..n][i] == VOICEMAIL && order[..n][j] == e;
      assert order[i] == VOICEMAIL && order[j] == e;
    }
  }

  lemma OwnHeaders(row: Row, master: string, order: seq<string>, e: string)
    ensures var base := BaseHeaders(row, master);
            Own(row, master, HeadersAt(order, e, base)) && Own(row, master, HeadersAfter(order, base))
            && Own(row, master, Rewritten(e, base))
  {
    LoopCarriedHeaders(order, BaseHeaders(row, master));
  }

  lemma OwnIsMarked(row: Row, master: string, h: Headers)
    requires Own(row, master, h)
    ensures MarkedFor(row.uuid, h)
  {
    SubscriptionHeadersAreMarked(row, master);
  }

  lemma OneEntryCell(x: Entry, y: Entry, s: set<Binding>, connected: bool)
    ensures CellUnsubscribe(Cell([x], s), connected, x.handler) == Cell([], if connected then s - {x.binding} else s)
    ensures CellSubscribe(Cell([], s), connected, y.handler, y.binding)
       == Cell([y], if connected then s + {y.binding} else s)
    ensures CellUnsubscribe(CellSubscribe(Cell([x], s), connected, y.handler, y.binding), connected, x.handler)
         == Cell([y], if connected then s + {y.binding} - {x.binding} else s)
  {
    ConsRemove(x, [], None, x.handler);
    ConsRemove(x, [y], None, x.handler);
    assert [x] + [] == [x];
    assert [] + [y] == [y];
  }

  /** Every branch leaves one entry with the new callback on a wanted event and none on a dropped one;
      the binding survives unless the subscribe-first branch removes it again. */
  lemma CellStepOutcome(l: Listener, events: seq<string>, fn: Handler, e: string, h: Headers, connected: bool)
    requires e in l.slots <==> e in l.row.events
    requires e in events || e in l.row.events
    requires MarkedFor(l.row.uuid, h) && (e in l.slots ==> MarkedFor(l.row.uuid, l.slots[e].headers))
    ensures var b := Arguments(e, h, true);
            CellStep(SlotCell(l, e, connected), connected, e, h, events, Callback(l.fn, l.row.events, l.stored), fn)
            == if e !in events then Cell([], {})
               else Cell([Entry(fn, b)], if connected && !Loses(l, e, h) then {b} else {})
  {
    var y := Entry(fn, Arguments(e, h, true));
    if e in l.slots {
      ArgumentsIdentity(e, h, l.slots[e].headers, l.row.uuid);
      OneEntryCell(Entry(l.fn, Arguments(e, l.slots[e].headers, true)), y, SlotCell(l, e, connected).bound, connected);
    } else {
      OneEntryCell(y, y, {}, connected);
    }
  }

  /** Update: the subscription it concerns ends as `Replaced` says, every other one is untouched. */
  lemma UpdateFollows(ix: Index, l: Listener, row: Row, fn: Handler, order: seq<string>, master: string)
    requires Proper(ix.consumer) && Follows(ix, row.uuid, Some(l), master)
    requires fn.Hook? && fn.data == row && Distinct(row.events) && IterationOrder(order, row.events, l.row.events)
    ensures var ix' := Update(ix, row, fn, order, master);
            && Proper(ix'.consumer) && ix'.consumer.connected == ix.consumer.connected
            && Follows(ix', row.uuid, Some(Replaced(l, row, fn, order, master, ix.consumer.connected)), master)
            && forall o :: o != Some(row.uuid) ==> Same(ix, ix', o)
  {
    var ix' := Update(ix, row, fn, order, master);
    var prev := ix.callbacks[row.uuid];
    var l' := Replaced(l, row, fn, order, master, ix.consumer.connected);
    UpdateAllCell(ix.consumer, order, row, master, prev, fn, None, "");
    forall e ensures CellOf(ix'.consumer, Some(row.uuid), e) == SlotCell(l', e, ix.consumer.connected) {
      UpdateAllCell(ix.consumer, order, row, master, prev, fn, Some(row.uuid), e);
      if e in order {
        var h := HeadersAt(order, e, BaseHeaders(row, master));
        OwnHeaders(row, master, order, e);
        OwnIsMarked(row, master, h);
        if e in l.slots {
          OwnIsMarked(l.row, master, l.slots[e].headers);
        }
        CellStepOutcome(l, row.events, fn, e, h, ix.consumer.connected);
      }
    }
    forall e ensures Own(row, master, HeadersAt(order, e, BaseHeaders(row, master))) && Own(row, master, l'.stored) {
      OwnHeaders(row, master, order, e);
    }
    if VOICEMAIL in row.events {
      var j :| 0 <= j < |order| && order[j] == VOICEMAIL;
      assert VoicemailBy(order, VOICEMAIL);
    }
    forall o | o != Some(row.uuid) ensures Same(ix, ix', o) {
      forall e ensures CellOf(ix'.consumer, o, e) == CellOf(ix.consumer, o, e) {
        UpdateAllCell(ix.consumer, order, row, master, prev, fn, o, e);
      }
    }
  }

  // ----- registering and unregistering

  lemma SubscribeStepCell(c: Consumer, end: Consumer, event: string, fn: Handler, row: Row, master: string,
                          o: Option<string>, e: string)
    requires Proper(c) && Owner(fn) == Some(row.uuid)
    requires end == Consumers.Subscribe(c, event, fn, Rewritten(event, BaseHeaders(row, master)))
    ensures Proper(end) && end.connected == c.connected
    ensures CellOf(end, o, e) == if o == Some(row.uuid) && e == event
              then CellSubscribe(CellOf(c, o, e), c.connected, fn,
                                 Arguments(e, Rewritten(e, BaseHeaders(row, master)), true))
              else CellOf(c, o, e)
  {
    var h := Rewritten(event, BaseHeaders(row, master));
    SubscriptionHeadersAreMarked(row, master);
    ArgumentsIdentity(event, h, h, row.uuid);
    SubscribeCell(c, event, fn, h, o, e);
  }

  lemma {:induction false} SubscribeAllCell(c: Consumer, events: seq<string>, fn: Handler, row: Row, master: string,
                                            o: Option<string>, e: string)
    requires Proper(c) && Distinct(events) && Owner(fn) == Some(row.uuid)
    ensures var base := BaseHeaders(row, master);
            var c' := SubscribeAll(c, events, fn, base);
            && Proper(c') && c'.connected == c.connected
            && CellOf(c', o, e) == if o == Some(row.uuid) && e in events
                                   then CellSubscribe(CellOf(c, o, e), c.connected, fn,
                                                      Arguments(e, Rewritten(e, base), true))
                                   else CellOf(c, o, e)
  {
    if events != [] {
      var n := |events| - 1;
      var base := BaseHeaders(row, master);
      SubscribeAllCell(c, events[..n], fn, row, master, o, e);
      SubscribeStepCell(SubscribeAll(c, events[..n], fn, base), SubscribeAll(c, events, fn, base), events[n], fn, row,
                        master, o, e);
      assert events == events[..n] + [events[n]];
      assert e in events[..n] ==> e != events[n];
    }
  }

  lemma {:induction false} UnsubscribeAllCell(c: Consumer, events: seq<string>, fn: Handler, o: Option<string>,
                                              e: string)
    requires Proper(c) && Distinct(events)
    ensures var c' := UnsubscribeAll(c, events, fn);
            && Proper(c') && c'.connected == c.connected
            && CellOf(c', o, e) == if o == Owner(fn) && e in events
                                   then CellUnsubscribe(CellOf(c, o, e), c.connected, fn)
                                   else CellOf(c, o, e)
  {
    if events != [] {
      var n := |events| - 1;
      UnsubscribeAllCell(c, events[..n], fn, o, e);
      UnsubscribeCell(UnsubscribeAll(c, events[..n], fn), events[n], fn, o, e);
      assert events == events[..n] + [events[n]];
      assert e in events[..n] ==> e != events[n];
    }
  }

  lemma FreshIsSound(row: Row, fn: Handler, master: string)
    requires fn.Hook? && fn.data == row && Distinct(row.events)
    ensures Sound(Fresh(row, fn, master), master)
  {
  }

  lemma FreshSlotCell(row: Row, fn: Handler, master: string, e: string, connected: bool)
    ensures SlotCell(Fresh(row, fn, master), e, connected)
         == if e in row.events
            then CellSubscribe(Cell([], {}), connected, fn, Arguments(e, Rewritten(e, BaseHeaders(row, master)), true))
            else Cell([], {})
  {
    var x := Entry(fn, Arguments(e, Rewritten(e, BaseHeaders(row, master)), true));
    assert [] + [x] == [x];
  }

  lemma RegisterFollows(ix: Index, row: Row, fn: Handler, master: string)
    requires Proper(ix.consumer) && Follows(ix, row.uuid, None, master)
    requires fn.Hook? && fn.data == row && Distinct(row.events)
    ensures var ix' := Register(ix, row, fn, master);
            && Proper(ix'.consumer) && ix'.consumer.connected == ix.consumer.connected
            && Follows(ix', row.uuid, Some(Fresh(row, fn, master)), master)
            && forall o :: o != Some(row.uuid) ==> Same(ix, ix', o)
  {
    var ix' := Register(ix, row, fn, master);
    SubscribeAllCell(ix.consumer, row.events, fn, row, master, None, "");
    forall e
      ensures CellOf(ix'.consumer, Some(row.uuid), e) == SlotCell(Fresh(row, fn, master), e, ix.consumer.connected)
    {
      SubscribeAllCell(ix.consumer, row.events, fn, row, master, Some(row.uuid), e);
      FreshSlotCell(row, fn, master, e, ix.consumer.connected);
    }
    FreshIsSound(row, fn, master);
    forall o | o != Some(row.uuid) ensures Same(ix, ix', o) {
      forall e ensures CellOf(ix'.consumer, o, e) == CellOf(ix.consumer, o, e) {
        SubscribeAllCell(ix.consumer, row.events, fn, row, master, o, e);
      }
    }
  }

  lemma UnregisterFollows(ix: Index, u: string, l: Option<Listener>, master: string)
    requires Proper(ix.consumer) && Follows(ix, u, l, master)
    ensures var ix' := Unregister(ix, u);
            && Proper(ix'.consumer) && ix'.consumer.connected == ix.consumer.connected
            && Follows(ix', u, None, master)
            && forall o :: o != Some(u) ==> Same(ix, ix', o)
  {
    if l.Some? {
      var ix' := Unregister(ix, u);
      var cb := ix.callbacks[u];
      UnsubscribeAllCell(ix.consumer, cb.events, cb.fn, None, "");
      forall e ensures CellOf(ix'.consumer, Some(u), e) == Cell([], {}) {
        UnsubscribeAllCell(ix.consumer, cb.events, cb.fn, Some(u), e);
        if e in l.value.slots {
          var x := Entry(cb.fn, Arguments(e, l.value.slots[e].headers, true));
          assert SlotCell(l.value, e, ix.consumer.connected).entries == [x];
          assert [x] + [] == [x];
          ConsRemove(x, [], None, cb.fn);
        }
      }
      forall o | o != Some(u) ensures Same(ix, ix', o) {
        forall e ensures CellOf(ix'.consumer, o, e) == CellOf(ix.consumer, o, e) {
          UnsubscribeAllCell(ix.consumer, cb.events, cb.fn, o, e);
        }
      }
    }
  }

  /** What belongs to a subscription decides what it follows. */
  lemma SameFollows(ix: Index, ix': Index, u: string, l: Option<Listener>, master: string)
    requires Same(ix, ix', Some(u)) && Follows(ix, u, l, master)
    ensures Follows(ix', u, l, master)
  {
  }

  // ----- equality up to the order inside each handler list

  ghost predicate Equivalent(ix: Index, ix': Index) {
    && ix.callbacks == ix'.callbacks
    && ix.consumer.connected == ix'.consumer.connected
    && ix.consumer.bound == ix'.consumer.bound
    && ix.consumer.names == ix'.consumer.names
    && ix.consumer.upstream == ix'.consumer.upstream
    && forall e :: multiset(Entries(ix.consumer, e)) == multiset(Entries(ix'.consumer, e))
  }

  lemma {:induction false} CountByOwner(es: seq<Entry>, x: Entry)
    ensures multiset(es)[x] == multiset(Owned(es, Owner(x.handler)))[x]
  {
    if es != [] {
      CountByOwner(es[1..], x);
      assert es == [es[0]] + es[1..];
    }
  }

  lemma SameForAllIsEquivalent(ix: Index, ix': Index)
    requires Proper(ix.consumer) && Proper(ix'.consumer) && forall o :: Same(ix, ix', o)
    requires ix.consumer.names == ix'.consumer.names
    ensures Equivalent(ix, ix')
  {
    assert Same(ix, ix', None);
    forall u ensures CallbackOf(ix, u) == CallbackOf(ix', u) {
      assert Same(ix, ix', Some(u));
    }
    forall u ensures u in ix.callbacks <==> u in ix'.callbacks
             ensures u in ix.callbacks ==> ix.callbacks[u] == ix'.callbacks[u] {
      assert CallbackOf(ix, u) == CallbackOf(ix', u);
    }
    forall e, x ensures multiset(Entries(ix.consumer, e))[x] == multiset(Entries(ix'.consumer, e))[x] {
      CountByOwner(Entries(ix.consumer, e), x);
      CountByOwner(Entries(ix'.consumer, e), x);
      assert Same(ix, ix', Owner(x.handler));
      assert CellOf(ix.consumer, Owner(x.handler), e) == CellOf(ix'.consumer, Owner(x.handler), e);
    }
    forall e ensures multiset(Entries(ix.consumer, e)) == multiset(Entries(ix'.consumer, e)) {
      assert forall x :: multiset(Entries(ix.consumer, e))[x] == multiset(Entries(ix'.consumer, e))[x];
    }
    forall b ensures b in ix.consumer.bound <==> b in ix'.consumer.bound {
      if NameOf(b).Some? {
        var o, e := OwnerOf(b), NameOf(b).value;
        assert Same(ix, ix', o);
        assert CellOf(ix.consumer, o, e) == CellOf(ix'.consumer, o, e);
        assert b in ix.consumer.bound <==> b in CellOf(ix.consumer, o, e).bound;
        assert b in ix'.consumer.bound <==> b in CellOf(ix'.consumer, o, e).bound;
      }
    }
  }
}
