/** End to end: through the upstream binding, the queue bindings and the local filter, which callbacks a
    published message triggers. */
module Delivery {
  import opened Rows
  import opened Headers
  import opened Consumers
  import opened Listeners
  import opened Service
  import opened Runs
  import opened Agreement
  import Bus

  /** The exchange gets the message, and some binding of the shared queue accepts it. */
  ghost predicate Reaches(c: Consumer, m: Headers) {
    && c.connected && NameOf(m).Some? && NameOf(m).value in c.upstream
    && exists b :: b in c.bound && Matches(b, m)
  }

  ghost function Delivered(c: Consumer, m: Headers): seq<Handler> {
    if Reaches(c, m) then Bus.Selected(Entries(c, NameOf(m).value), m) else []
  }

  /** How often the hook of a row is triggered by a series of calls. */
  function Triggered(calls: seq<Handler>, row: Row): nat {
    if calls == [] then 0
    else Triggered(calls[..|calls| - 1], row) + Once(calls[|calls| - 1], row)
  }

  function Once(h: Handler, row: Row): nat {
    if h.Hook? && h.data == row then 1 else 0
  }

  /** A message calls a handler exactly when it passes all three stages: its event is bound upstream, some binding
      of the shared queue accepts it, and so does the handler's own binding, listed under that event. */
  lemma DeliveredThrough(c: Consumer, m: Headers, handler: Handler)
    ensures handler in Delivered(c, m)
       <==> && c.connected && "name" in m && m["name"].Text? && m["name"].text in c.upstream
            && (exists b :: b in c.bound && Matches(b, m))
            && (exists x :: x in Entries(c, m["name"].text) && x.handler == handler && Matches(x.binding, m))
  {
    if Reaches(c, m) {
      SelectedMember(Entries(c, NameOf(m).value), m, handler);
    }
  }

  lemma {:induction false} SelectedMember(es: seq<Entry>, m: Headers, handler: Handler)
    ensures handler in Bus.Selected(es, m) <==> exists x :: x in es && x.handler == handler && Matches(x.binding, m)
  {
    if es != [] {
      var n := |es| - 1;
      SelectedMember(es[..n], m, handler);
      LocalFilterIsBrokerRule(m, es[n].binding);
      assert es == es[..n] + [es[n]];
    }
  }

  // ----- from calls to rows

  lemma {:induction false} TriggeredAppend(a: seq<Handler>, b: seq<Handler>, row: Row)
    ensures Triggered(a + b, row) == Triggered(a, row) + Triggered(b, row)
  {
    if b == [] {
      assert a + b == a;
    } else {
      var n := |b| - 1;
      TriggeredAppend(a, b[..n], row);
      assert (a + b)[..|a + b| - 1] == a + b[..n];
    }
  }

  lemma SelectedOne(x: Entry, m: Headers)
    ensures Bus.Selected([x], m) == if Matches(x.binding, m) then [x.handler] else []
  {
    LocalFilterIsBrokerRule(m, x.binding);
    assert [x][..0] == [];
  }

  lemma {:induction false} SelectedAppend(a: seq<Entry>, b: seq<Entry>, m: Headers)
    ensures Bus.Selected(a + b, m) == Bus.Selected(a, m) + Bus.Selected(b, m)
  {
    if b == [] {
      assert a + b == a;
    } else {
      var n := |b| - 1;
      SelectedAppend(a, b[..n], m);
      assert (a + b)[..|a + b| - 1] == a + b[..n];
    }
  }

  lemma TriggeredCons(x: Entry, rest: seq<Entry>, m: Headers, row: Row)
    ensures Triggered(Bus.Selected([x] + rest, m), row)
         == (if Matches(x.binding, m) then Once(x.handler, row) else 0) + Triggered(Bus.Selected(rest, m), row)
  {
    SelectedAppend([x], rest, m);
    SelectedOne(x, m);
    TriggeredAppend(Bus.Selected([x], m), Bus.Selected(rest, m), row);
    assert [x.handler][..0] == [];
  }

  lemma {:induction false} TriggeredByOwner(es: seq<Entry>, m: Headers, row: Row)
    ensures Triggered(Bus.Selected(es, m), row) == Triggered(Bus.Selected(Owned(es, Some(row.uuid)), m), row)
  {
    if es != [] {
      var x, rest := es[0], es[1..];
      var tail := Owned(rest, Some(row.uuid));
      TriggeredByOwner(rest, m, row);
      assert es == [x] + rest;
      ConsRemove(x, rest, Some(row.uuid), x.handler);
      TriggeredCons(x, rest, m, row);
      TriggeredCons(x, tail, m, row);
      assert [] + tail == tail;
    }
  }

  /** A message triggers the hook of a row exactly once if the row listens to it with headers that match and
      the message reaches the shared queue at all; otherwise it does not. */
  lemma TriggeredExactly(s: System, ls: Listening, master: string, m: Headers, e: string, row: Row)
    requires Inv(s, ls, master) && NameOf(m) == Some(e)
    ensures Triggered(Delivered(s.ix.consumer, m), row)
         == if && row in s.rows && e in ls[row.uuid].slots && Reaches(s.ix.consumer, m)
               && Matches(Arguments(e, ls[row.uuid].slots[e].headers, true), m)
            then 1 else 0
  {
    var c, u := s.ix.consumer, row.uuid;
    if Reaches(c, m) {
      TriggeredByOwner(Entries(c, e), m, row);
      assert Follows(s.ix, u, Lookup(ls, u), master);
      assert CellOf(c, Some(u), e) == CellFor(Lookup(ls, u), e, c.connected);
      if u in ls && e in ls[u].slots {
        var x := Entry(ls[u].fn, Arguments(e, ls[u].slots[e].headers, true));
        SelectedOne(x, m);
        assert [x.handler][..0] == [];
      }
    }
  }

  /** A live binding that matches is enough for the message to get through. */
  lemma LiveReaches(s: System, ls: Listening, master: string, m: Headers, e: string, u: string)
    requires Inv(s, ls, master) && s.ix.consumer.connected && NameOf(m) == Some(e)
    requires u in ls && e in ls[u].slots && ls[u].slots[e].live
    requires Matches(Arguments(e, ls[u].slots[e].headers, true), m)
    ensures Reaches(s.ix.consumer, m)
  {
    var c, h := s.ix.consumer, ls[u].slots[e].headers;
    assert Follows(s.ix, u, Lookup(ls, u), master);
    OwnIsMarked(ls[u].row, master, h);
    ArgumentsIdentity(e, h, h, u);
    BoundByCell(s, ls, master, u, e, Arguments(e, h, true));
    assert CellOf(c, Some(u), e) == CellFor(Lookup(ls, u), e, c.connected);
    assert Entries(c, e) != [];
  }

  // ----- in terms of the rows alone

  /** What a subscription asks for. */
  ghost predicate Wants(row: Row, master: string, m: Headers) {
    && NameOf(m).Some? && NameOf(m).value in row.events
    && SameOrigin(row, master, m)
    && (if NameOf(m).value == VOICEMAIL then Has(m, WILDCARD, Flag(true)) else Addressed(row, m))
  }

  lemma NamedMessage(m: Headers, e: string)
    ensures NameOf(m) == Some(e) <==> Has(m, "name", Text(e))
  {
  }

  /** A callback bound as a registration binds it accepts exactly what its row asks for. */
  lemma RewrittenBindingMeaning(row: Row, master: string, e: string, m: Headers)
    requires e in row.events
    ensures Matches(Arguments(e, Rewritten(e, BaseHeaders(row, master)), true), m)
       <==> NameOf(m) == Some(e) && Wants(row, master, m)
  {
    NamedMessage(m, e);
    BaseBindingMeaning(row, master, e, m);
    WidenedBindingMeaning(row, master, e, m);
  }

  // ----- the least message of a binding

  /** What a message must carry to match all of a binding, and nothing else. */
  function Least(b: Binding): Headers {
    map k | k in b && !Ignored(k) :: b[k]
  }

  lemma LeastMatches(b: Binding, m: Headers)
    requires MatchAll(b)
    ensures Matches(b, Least(b))
    ensures Matches(b, m) <==> forall k :: k in Least(b) ==> Has(m, k, Least(b)[k])
  {
  }

  lemma MoreReaches(c: Consumer, less: Headers, m: Headers)
    requires Reaches(c, less) && forall k :: k in less ==> Has(m, k, less[k])
    ensures Reaches(c, m)
  {
    assert "name" in less;
    var b :| b in c.bound && Matches(b, less);
    assert Matches(b, m);
  }

  /** Every message a binding accepts gets through to the shared queue, by whatever binding, exactly when the
      least of them does. */
  lemma ServedIff(c: Consumer, b: Binding)
    requires MatchAll(b)
    ensures Reaches(c, Least(b)) <==> forall m :: Matches(b, m) ==> Reaches(c, m)
  {
    LeastMatches(b, Least(b));
    if Reaches(c, Least(b)) {
      forall m | Matches(b, m) ensures Reaches(c, m) {
        LeastMatches(b, m);
        MoreReaches(c, Least(b), m);
      }
    }
  }

  lemma ArgumentsLeast(e: string, h: Headers)
    ensures var b := Arguments(e, h, true);
            && MatchAll(b) && NameOf(Least(b)) == Some(e) && Matches(b, Least(b))
            && forall k :: k in Least(b) <==> k == "name" || (k in h && !Ignored(k))
  {
    KeysApart("");
    LeastMatches(Arguments(e, h, true), map[]);
  }

  // ----- hooks missed

  /** A hook bound with the wildcard user in place of its own misses a message its row asks for. */
  lemma WidenedMisses(row: Row, master: string, e: string)
    requires e in row.events && e != VOICEMAIL && row.eventsUser != Some("*")
    ensures var m := Least(Arguments(e, BaseHeaders(row, master), true));
            NameOf(m) == Some(e) && Wants(row, master, m)
            && !Matches(Arguments(e, Widened(BaseHeaders(row, master)), true), m)
  {
    var h := BaseHeaders(row, master);
    var m := Least(Arguments(e, h, true));
    ArgumentsLeast(e, h);
    RewrittenBindingMeaning(row, master, e, m);
    WidenedBindingMeaning(row, master, e, m);
    WidenedIsBase(row, master);
    WidenedMeaning(h);
    BaseEntries(row, master);
    KeysApart("");
    assert WILDCARD !in h;
  }

  /** In any state, connected or not: a wanted message is missed although the binding may be live. */
  lemma WidenedSlotMisses(s: System, ls: Listening, master: string, u: string, e: string)
    requires Inv(s, ls, master) && u in ls && e in ls[u].slots && e != VOICEMAIL
    requires ls[u].row.eventsUser != Some("*")
    requires ls[u].slots[e].headers == Widened(BaseHeaders(ls[u].row, master))
    ensures var row := ls[u].row;
            var m := Least(Arguments(e, BaseHeaders(row, master), true));
            row in s.rows && Wants(row, master, m) && Triggered(Delivered(s.ix.consumer, m), row) == 0
  {
    var row := ls[u].row;
    assert Follows(s.ix, u, Lookup(ls, u), master);
    WidenedMisses(row, master, e);
    TriggeredExactly(s, ls, master, Least(Arguments(e, BaseHeaders(row, master), true)), e, row);
  }

  // ----- exact delivery

  /** Whatever the message: the hooks of the rows that want it, once each, and no others. */
  ghost predicate DeliversExactly(s: System, master: string) {
    forall m, row ::
      Triggered(Delivered(s.ix.consumer, m), row) == if row in s.rows && Wants(row, master, m) then 1 else 0
  }

  /** The entry has the binding a registration gives it, and its least message gets through. */
  ghost predicate WellBound(c: Consumer, e: string, x: Entry, master: string) {
    && x.handler.Hook?
    && x.binding == Arguments(e, Rewritten(e, BaseHeaders(x.handler.data, master)), true)
    && Reaches(c, Least(x.binding))
  }

  ghost predicate HooksWellBound(c: Consumer, master: string) {
    forall e, x :: x in Entries(c, e) && x.handler.Hook? ==> WellBound(c, e, x, master)
  }

  function SlotEntry(l: Listener, e: string): Entry
    requires e in l.slots
  {
    Entry(l.fn, Arguments(e, l.slots[e].headers, true))
  }

  /** Entries of hooks and slots of listeners are the same thing. */
  lemma HookEntries(s: System, ls: Listening, master: string, e: string, x: Entry)
    requires Inv(s, ls, master)
    ensures x in Entries(s.ix.consumer, e) && x.handler.Hook?
       <==> exists u :: u in ls && e in ls[u].slots && x == SlotEntry(ls[u], e)
  {
    var c := s.ix.consumer;
    if x in Entries(c, e) && x.handler.Hook? {
      var u := x.handler.data.uuid;
      assert Follows(s.ix, u, Lookup(ls, u), master);
      OwnedMember(Entries(c, e), Some(u));
      var cell := CellOf(c, Some(u), e);
      assert cell == CellFor(Lookup(ls, u), e, c.connected);
      assert x in cell.entries;
    }
    if exists u :: u in ls && e in ls[u].slots && x == SlotEntry(ls[u], e) {
      var u :| u in ls && e in ls[u].slots && x == SlotEntry(ls[u], e);
      assert Follows(s.ix, u, Lookup(ls, u), master);
      OwnedMember(Entries(c, e), Some(u));
      var cell := CellOf(c, Some(u), e);
      assert cell == CellFor(Lookup(ls, u), e, c.connected);
      assert cell.entries[0] == x;
      assert x in cell.entries;
    }
  }

  ghost predicate SlotWellBound(c: Consumer, l: Listener, e: string, master: string)
    requires e in l.slots
  {
    && l.slots[e].headers == Rewritten(e, BaseHeaders(l.row, master))
    && Reaches(c, Least(SlotEntry(l, e).binding))
  }

  lemma SlotIsWellBound(s: System, ls: Listening, master: string, u: string, e: string)
    requires Inv(s, ls, master) && u in ls && e in ls[u].slots
    ensures SlotWellBound(s.ix.consumer, ls[u], e, master) <==> WellBound(s.ix.consumer, e, SlotEntry(ls[u], e), master)
    ensures ls[u].row in s.rows && e in ls[u].row.events && ls[u].row.uuid == u
  {
    var l := ls[u];
    assert Follows(s.ix, u, Lookup(ls, u), master);
    var r := Rewritten(e, BaseHeaders(l.row, master));
    assert Own(l.row, master, r);
    OwnIsMarked(l.row, master, r);
    OwnIsMarked(l.row, master, l.slots[e].headers);
    ArgumentsIdentity(e, l.slots[e].headers, r, u);
  }

  /** A slot not well bound misses a message; the two ways are a wrong binding and a binding not served. */
  lemma IllBoundMisses(s: System, ls: Listening, master: string, u: string, e: string)
    requires Inv(s, ls, master) && u in ls && e in ls[u].slots && !SlotWellBound(s.ix.consumer, ls[u], e, master)
    ensures !DeliversExactly(s, master)
  {
    var l := ls[u];
    var base := BaseHeaders(l.row, master);
    assert Follows(s.ix, u, Lookup(ls, u), master);
    if l.slots[e].headers != Rewritten(e, base) {
      WidenedIsBase(l.row, master);
      WidenedSlotMisses(s, ls, master, u, e);
    } else {
      var b := SlotEntry(l, e).binding;
      ArgumentsLeast(e, l.slots[e].headers);
      RewrittenBindingMeaning(l.row, master, e, Least(b));
      assert Delivered(s.ix.consumer, Least(b)) == [];
      assert Triggered([], l.row) == 0;
    }
  }

  lemma WellBoundTriggers(s: System, ls: Listening, master: string, m: Headers, row: Row)
    requires Inv(s, ls, master) && HooksWellBound(s.ix.consumer, master)
    ensures Triggered(Delivered(s.ix.consumer, m), row) == if row in s.rows && Wants(row, master, m) then 1 else 0
  {
    if NameOf(m).Some? {
      var e, u := NameOf(m).value, row.uuid;
      TriggeredExactly(s, ls, master, m, e, row);
      if row in s.rows {
        assert Follows(s.ix, u, Lookup(ls, u), master);
        if e in row.events {
          HookEntries(s, ls, master, e, SlotEntry(ls[u], e));
          SlotIsWellBound(s, ls, master, u, e);
          RewrittenBindingMeaning(row, master, e, m);
          ArgumentsLeast(e, ls[u].slots[e].headers);
          ServedIff(s.ix.consumer, SlotEntry(ls[u], e).binding);
        }
      }
    }
  }

  /** Exactly when delivery is exact: every callback has the binding a registration would give it, and the
      least message that binding accepts gets through. */
  lemma ExactDeliveryIff(s: System, ls: Listening, master: string)
    requires Inv(s, ls, master)
    ensures DeliversExactly(s, master) <==> HooksWellBound(s.ix.consumer, master)
  {
    var c := s.ix.consumer;
    if HooksWellBound(c, master) {
      forall m, row
        ensures Triggered(Delivered(c, m), row) == if row in s.rows && Wants(row, master, m) then 1 else 0
      {
        WellBoundTriggers(s, ls, master, m, row);
      }
    } else {
      var e, x :| x in Entries(c, e) && x.handler.Hook? && !WellBound(c, e, x, master);
      HookEntries(s, ls, master, e, x);
      var u :| u in ls && e in ls[u].slots && x == SlotEntry(ls[u], e);
      SlotIsWellBound(s, ls, master, u, e);
      IllBoundMisses(s, ls, master, u, e);
    }
  }

  /** With clean listeners a connected consumer delivers exactly. */
  lemma CleanDelivery(s: System, ls: Listening, master: string)
    requires Inv(s, ls, master) && Clean(ls, master) && s.ix.consumer.connected
    ensures HooksWellBound(s.ix.consumer, master) && DeliversExactly(s, master)
  {
    var c := s.ix.consumer;
    forall e, x | x in Entries(c, e) && x.handler.Hook? ensures WellBound(c, e, x, master) {
      HookEntries(s, ls, master, e, x);
      var u :| u in ls && e in ls[u].slots && x == SlotEntry(ls[u], e);
      assert ls[u] == Fresh(ls[u].row, ls[u].fn, master);
      LiveSlotReaches(s, ls, master, u, e);
      SlotIsWellBound(s, ls, master, u, e);
    }
    ExactDeliveryIff(s, ls, master);
  }

  lemma LiveSlotReaches(s: System, ls: Listening, master: string, u: string, e: string)
    requires Inv(s, ls, master) && s.ix.consumer.connected && u in ls && e in ls[u].slots && ls[u].slots[e].live
    ensures Reaches(s.ix.consumer, Least(SlotEntry(ls[u], e).binding))
  {
    ArgumentsLeast(e, ls[u].slots[e].headers);
    LiveReaches(s, ls, master, Least(SlotEntry(ls[u], e).binding), e, u);
  }
}
