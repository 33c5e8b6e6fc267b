/** Which replacements leave delivery exact, from any state: a condition on the listeners, the two rows and the
    bindings of others before the call. */
module Updates {
  import opened Rows
  import opened Headers
  import opened Models
  import opened Consumers
  import opened SubscriptionIndex
  import opened Listeners
  import opened Service
  import opened Runs
  import opened Agreement
  import opened Delivery

  // ----- the conditions

  /** The binding a registration gives an event of a row. */
  function OwnBinding(row: Row, e: string, master: string): Binding {
    Arguments(e, Rewritten(e, BaseHeaders(row, master)), true)
  }

  /** Some binding that is not the subscription's own accepts the message. */
  ghost predicate ServedByOthers(c: Consumer, u: string, m: Headers) {
    exists b :: b in c.bound && OwnerOf(b) != Some(u) && Matches(b, m)
  }

  /** No other event is gone through after the voicemail event, or the row watches the wildcard user anyway. */
  ghost predicate KeepsHeaders(order: seq<string>, row: Row) {
    row.eventsUser == Some("*") || forall e :: e in row.events && e != VOICEMAIL ==> !VoicemailBy(order, e)
  }

  /** The same for every order. */
  predicate KeepsHeadersInAnyOrder(former: Row, row: Row) {
    || row.eventsUser == Some("*")
    || (VOICEMAIL !in former.events && VOICEMAIL !in row.events)
    || (forall e :: e in row.events ==> e == VOICEMAIL)
  }

  /** The update confirms the binding of the event and then removes it with the former entry. */
  predicate Drops(l: Listener, row: Row, e: string, master: string) {
    Loses(l, e, Rewritten(e, BaseHeaders(row, master)))
  }

  ghost predicate KeepsOwnBindings(c: Consumer, l: Listener, row: Row, master: string) {
    forall e :: e in row.events && Drops(l, row, e, master)
      ==> ServedByOthers(c, row.uuid, Least(OwnBinding(row, e, master)))
  }

  /** A binding of others or one the update leaves accepts the message. */
  ghost predicate ServedAfter(c: Consumer, l: Listener, row: Row, m: Headers, master: string) {
    || ServedByOthers(c, row.uuid, m)
    || exists e :: e in row.events && !Drops(l, row, e, master) && Matches(OwnBinding(row, e, master), m)
  }

  /** The other subscriptions' events have their own headers and remain served, be it by the updated one. */
  ghost predicate OthersServed(c: Consumer, ls: Listening, row: Row, master: string)
    requires row.uuid in ls
  {
    forall v, e | v in ls && v != row.uuid && e in ls[v].slots ::
      && ls[v].slots[e].headers == Rewritten(e, BaseHeaders(ls[v].row, master))
      && ServedAfter(c, ls[row.uuid], row, Least(SlotEntry(ls[v], e).binding), master)
  }

  // ----- before and after

  /** `next` and `ls'` are what an update of a connected state makes of `s` and `ls`. */
  ghost predicate Updated(s: System, ls: Listening, row: Row, order: seq<string>, next: System, ls': Listening,
                          master: string) {
    && Inv(s, ls, master) && s.ix.consumer.connected && row.uuid in ls
    && IterationOrder(order, row.events, ls[row.uuid].row.events)
    && ls' == ls[row.uuid := Replaced(ls[row.uuid], row, Hook(s.token, row), order, master, true)]
    && Inv(next, ls', master) && next.ix.consumer.connected
    && forall o :: o != Some(row.uuid) ==> Same(s.ix, next.ix, o)
  }

  /** A subscription's binding in the broker belongs to a live slot of the event the messages name. */
  lemma OwnBindingNames(s: System, ls: Listening, u: string, b: Binding, m: Headers, master: string)
    requires Inv(s, ls, master) && s.ix.consumer.connected
    requires b in s.ix.consumer.bound && OwnerOf(b) == Some(u) && Matches(b, m)
    ensures NameOf(m).Some? && u in ls && NameOf(m).value in ls[u].slots && ls[u].slots[NameOf(m).value].live
  {
    var e := NameOf(b).value;
    BoundByCell(s, ls, master, u, e, b);
    var h := ls[u].slots[e].headers;
    ArgumentsLeast(e, h);
    LeastMatches(b, m);
    assert Has(m, "name", Least(b)["name"]);
  }

  lemma WellBoundBySlots(s: System, ls: Listening, master: string)
    requires Inv(s, ls, master)
    ensures HooksWellBound(s.ix.consumer, master)
       <==> forall u, e :: u in ls && e in ls[u].slots ==> SlotWellBound(s.ix.consumer, ls[u], e, master)
  {
    var c := s.ix.consumer;
    if HooksWellBound(c, master) {
      forall u, e | u in ls && e in ls[u].slots ensures SlotWellBound(c, ls[u], e, master) {
        HookEntries(s, ls, master, e, SlotEntry(ls[u], e));
        SlotIsWellBound(s, ls, master, u, e);
      }
    }
    if forall u, e :: u in ls && e in ls[u].slots ==> SlotWellBound(c, ls[u], e, master) {
      forall e, x | x in Entries(c, e) && x.handler.Hook? ensures WellBound(c, e, x, master) {
        HookEntries(s, ls, master, e, x);
        var u :| u in ls && e in ls[u].slots && x == SlotEntry(ls[u], e);
        SlotIsWellBound(s, ls, master, u, e);
      }
    }
  }

  lemma ReplacedSlot(l: Listener, row: Row, fn: Handler, order: seq<string>, master: string, e: string)
    requires IterationOrder(order, row.events, l.row.events) && e in row.events
    ensures var slot := Replaced(l, row, fn, order, master, true).slots[e];
            && (slot.headers == Rewritten(e, BaseHeaders(row, master))
                <==> e == VOICEMAIL || row.eventsUser == Some("*") || !VoicemailBy(order, e))
            && (KeepsHeaders(order, row) ==> (slot.live <==> !Drops(l, row, e, master)))
  {
    WidenedIsBase(row, master);
    if e == VOICEMAIL {
      var j :| 0 <= j < |order| && order[j] == e;
      assert VoicemailBy(order, e);
    }
  }

  lemma OthersBound(s: System, ls: Listening, row: Row, order: seq<string>, next: System, ls': Listening,
                    master: string, b: Binding)
    requires Updated(s, ls, row, order, next, ls', master) && OwnerOf(b) != Some(row.uuid)
    ensures b in s.ix.consumer.bound <==> b in next.ix.consumer.bound
  {
    var c, c' := s.ix.consumer, next.ix.consumer;
    if NameOf(b).Some? {
      assert Same(s.ix, next.ix, OwnerOf(b));
      var e := NameOf(b).value;
      assert CellOf(c, OwnerOf(b), e) == CellOf(c', OwnerOf(b), e);
      assert b in c.bound <==> b in CellOf(c, OwnerOf(b), e).bound;
      assert b in c'.bound <==> b in CellOf(c', OwnerOf(b), e).bound;
    }
  }

  /** The subscription's own bindings once its headers are kept. */
  lemma OwnBound(s: System, ls: Listening, row: Row, order: seq<string>, next: System, ls': Listening,
                 master: string, b: Binding)
    requires Updated(s, ls, row, order, next, ls', master) && KeepsHeaders(order, row)
    requires OwnerOf(b) == Some(row.uuid)
    ensures b in next.ix.consumer.bound
       <==> exists e :: e in row.events && !Drops(ls[row.uuid], row, e, master) && b == OwnBinding(row, e, master)
  {
    var u := row.uuid;
    var l, l' := ls[u], ls'[u];
    forall e | e in row.events
      ensures l'.slots[e].headers == Rewritten(e, BaseHeaders(row, master))
      ensures l'.slots[e].live <==> !Drops(l, row, e, master)
      ensures OwnerOf(OwnBinding(row, e, master)) == Some(u) && NameOf(OwnBinding(row, e, master)) == Some(e)
    {
      ReplacedSlot(l, row, Hook(s.token, row), order, master, e);
      var h := Rewritten(e, BaseHeaders(row, master));
      SubscriptionHeadersAreMarked(row, master);
      ArgumentsIdentity(e, h, h, u);
    }
    if NameOf(b).Some? {
      BoundByCell(next, ls', master, u, NameOf(b).value, b);
    }
  }

  lemma ReachesAfter(s: System, ls: Listening, row: Row, order: seq<string>, next: System, ls': Listening,
                     master: string, m: Headers, e: string)
    requires Updated(s, ls, row, order, next, ls', master) && KeepsHeaders(order, row)
    requires NameOf(m) == Some(e) && Entries(next.ix.consumer, e) != []
    ensures Reaches(next.ix.consumer, m) <==> ServedAfter(s.ix.consumer, ls[row.uuid], row, m, master)
  {
    var c' := next.ix.consumer;
    forall b
      ensures OwnerOf(b) != Some(row.uuid) ==> (b in s.ix.consumer.bound <==> b in c'.bound)
      ensures OwnerOf(b) == Some(row.uuid) ==>
                (b in c'.bound <==> exists e' :: e' in row.events && !Drops(ls[row.uuid], row, e', master)
                                                 && b == OwnBinding(row, e', master))
    {
      if OwnerOf(b) == Some(row.uuid) {
        OwnBound(s, ls, row, order, next, ls', master, b);
      } else {
        OthersBound(s, ls, row, order, next, ls', master, b);
      }
    }
    forall e' | e' in row.events ensures OwnerOf(OwnBinding(row, e', master)) == Some(row.uuid) {
      var h := Rewritten(e', BaseHeaders(row, master));
      SubscriptionHeadersAreMarked(row, master);
      ArgumentsIdentity(e', h, h, row.uuid);
    }
  }

  /** An event of the updated subscription itself. */
  lemma OwnSlotAfter(s: System, ls: Listening, row: Row, order: seq<string>, next: System, ls': Listening,
                     master: string, e: string)
    requires Updated(s, ls, row, order, next, ls', master) && KeepsHeaders(order, row) && e in row.events
    ensures SlotWellBound(next.ix.consumer, ls'[row.uuid], e, master)
       <==> (Drops(ls[row.uuid], row, e, master)
             ==> ServedByOthers(s.ix.consumer, row.uuid, Least(OwnBinding(row, e, master))))
  {
    var u := row.uuid;
    ReplacedSlot(ls[u], row, Hook(s.token, row), order, master, e);
    if ls'[u].slots[e].live {
      LiveSlotReaches(next, ls', master, u, e);
    } else {
      var x := SlotEntry(ls'[u], e);
      var m := Least(x.binding);
      ArgumentsLeast(e, ls'[u].slots[e].headers);
      HookEntries(next, ls', master, e, x);
      assert Entries(next.ix.consumer, e) != [];
      forall b | b in next.ix.consumer.bound && Matches(b, m) ensures OwnerOf(b) != Some(u) {
        if OwnerOf(b) == Some(u) {
          OwnBindingNames(next, ls', u, b, m, master);
        }
      }
      forall b | OwnerOf(b) != Some(u) ensures b in s.ix.consumer.bound <==> b in next.ix.consumer.bound {
        OthersBound(s, ls, row, order, next, ls', master, b);
      }
    }
  }

  /** An event of another subscription. */
  lemma OtherSlotAfter(s: System, ls: Listening, row: Row, order: seq<string>, next: System, ls': Listening,
                       master: string, v: string, e: string)
    requires Updated(s, ls, row, order, next, ls', master) && KeepsHeaders(order, row)
    requires v in ls && v != row.uuid && e in ls[v].slots
    ensures SlotWellBound(next.ix.consumer, ls'[v], e, master)
       <==> && ls[v].slots[e].headers == Rewritten(e, BaseHeaders(ls[v].row, master))
            && ServedAfter(s.ix.consumer, ls[row.uuid], row, Least(SlotEntry(ls[v], e).binding), master)
  {
    var x := SlotEntry(ls'[v], e);
    ArgumentsLeast(e, ls[v].slots[e].headers);
    HookEntries(next, ls', master, e, x);
    ReachesAfter(s, ls, row, order, next, ls', master, Least(x.binding), e);
  }

  lemma AfterReplacement(s: System, ls: Listening, row: Row, order: seq<string>, next: System, ls': Listening,
                         master: string)
    requires Updated(s, ls, row, order, next, ls', master)
    ensures DeliversExactly(next, master)
       <==> && KeepsHeaders(order, row)
            && KeepsOwnBindings(s.ix.consumer, ls[row.uuid], row, master)
            && OthersServed(s.ix.consumer, ls, row, master)
  {
    var u, c, c' := row.uuid, s.ix.consumer, next.ix.consumer;
    ExactDeliveryIff(next, ls', master);
    WellBoundBySlots(next, ls', master);
    assert forall e :: e in ls'[u].slots <==> e in row.events;
    if !KeepsHeaders(order, row) {
      var e :| e in row.events && e != VOICEMAIL && VoicemailBy(order, e);
      ReplacedSlot(ls[u], row, Hook(s.token, row), order, master, e);
      assert !SlotWellBound(c', ls'[u], e, master);
    } else {
      forall e | e in row.events
        ensures SlotWellBound(c', ls'[u], e, master)
           <==> (Drops(ls[u], row, e, master) ==> ServedByOthers(c, u, Least(OwnBinding(row, e, master))))
      {
        OwnSlotAfter(s, ls, row, order, next, ls', master, e);
      }
      forall v, e | v in ls && v != u && e in ls[v].slots
        ensures SlotWellBound(c', ls'[v], e, master)
           <==> && ls[v].slots[e].headers == Rewritten(e, BaseHeaders(ls[v].row, master))
                && ServedAfter(c, ls[u], row, Least(SlotEntry(ls[v], e).binding), master)
      {
        OtherSlotAfter(s, ls, row, order, next, ls', master, v, e);
      }
      AllSlotsAfter(c, ls, row, c', ls', master);
    }
  }

  lemma AllSlotsAfter(c: Consumer, ls: Listening, row: Row, c': Consumer, ls': Listening, master: string)
    requires row.uuid in ls && row.uuid in ls' && ls' == ls[row.uuid := ls'[row.uuid]]
    requires forall e :: e in ls'[row.uuid].slots <==> e in row.events
    requires forall e | e in row.events ::
               SlotWellBound(c', ls'[row.uuid], e, master)
               <==> (Drops(ls[row.uuid], row, e, master)
                     ==> ServedByOthers(c, row.uuid, Least(OwnBinding(row, e, master))))
    requires forall v, e | v in ls && v != row.uuid && e in ls[v].slots ::
               SlotWellBound(c', ls'[v], e, master)
               <==> && ls[v].slots[e].headers == Rewritten(e, BaseHeaders(ls[v].row, master))
                    && ServedAfter(c, ls[row.uuid], row, Least(SlotEntry(ls[v], e).binding), master)
    ensures (forall v, e :: v in ls' && e in ls'[v].slots ==> SlotWellBound(c', ls'[v], e, master))
       <==> KeepsOwnBindings(c, ls[row.uuid], row, master) && OthersServed(c, ls, row, master)
  {
    var u := row.uuid;
    if forall v, e :: v in ls' && e in ls'[v].slots ==> SlotWellBound(c', ls'[v], e, master) {
      forall e | e in row.events && Drops(ls[u], row, e, master)
        ensures ServedByOthers(c, u, Least(OwnBinding(row, e, master)))
      {
        assert SlotWellBound(c', ls'[u], e, master);
      }
      forall v, e | v in ls && v != u && e in ls[v].slots
        ensures ls[v].slots[e].headers == Rewritten(e, BaseHeaders(ls[v].row, master))
        ensures ServedAfter(c, ls[u], row, Least(SlotEntry(ls[v], e).binding), master)
      {
        assert SlotWellBound(c', ls'[v], e, master);
      }
    }
  }

  lemma ModifyConnected(s: System, ls: Listening, op: Op, next: System, master: string)
    requires Inv(s, ls, master) && Possible(s, op) && op.Modify? && Apply(s, op, master) == Step(next, None)
    ensures next.ix.consumer.connected == s.ix.consumer.connected
    ensures op.uuid in ls && forall o :: o != Some(op.uuid) ==> Same(s.ix, next.ix, o)
  {
    PositionFound(s.rows, op.uuid);
    assert s.rows[Position(s.rows, op.uuid)] in s.rows;
    assert Follows(s.ix, op.uuid, Lookup(ls, op.uuid), master);
    var row := Filled(Cleared(ls[op.uuid].row), op.schema);
    assert row.events == op.schema.events;
    UpdateFollows(s.ix, ls[op.uuid], row, Hook(s.token, row), op.order, master);
  }

  /** From any connected state: what a replacement leaves delivers exactly if and only if no event is bound with
      headers carried over from the voicemail event, every binding it drops is made up for by others, and the
      other subscriptions' events have their own headers and remain served. */
  lemma ReplacementDeliversIff(s: System, ls: Listening, op: Op, former: Row, row: Row, next: System, master: string)
    requires Inv(s, ls, master) && s.ix.consumer.connected
    requires Possible(s, op) && op.Modify? && Apply(s, op, master) == Step(next, None)
    requires former in s.rows && former.uuid == op.uuid && row == Filled(Cleared(former), op.schema)
    ensures op.uuid in ls && ls[op.uuid].row == former
    ensures DeliversExactly(next, master)
       <==> && KeepsHeaders(op.order, row)
            && KeepsOwnBindings(s.ix.consumer, ls[op.uuid], row, master)
            && OthersServed(s.ix.consumer, ls, row, master)
  {
    PositionFound(s.rows, op.uuid);
    assert row.events == op.schema.events;
    assert Follows(s.ix, op.uuid, Lookup(ls, op.uuid), master);
    StepKeepsInv(s, ls, op, master);
    ModifyConnected(s, ls, op, next, master);
    AfterReplacement(s, ls, row, op.order, next, ListenStep(s, ls, op, master), master);
  }

  /** While the other subscriptions' bindings are in place, as far as the updated one is concerned nothing else
      is asked. */
  lemma OthersInPlace(s: System, ls: Listening, row: Row, master: string)
    requires Inv(s, ls, master) && s.ix.consumer.connected && row.uuid in ls
    requires forall v, e | v in ls && v != row.uuid && e in ls[v].slots ::
               ls[v].slots[e] == Slot(Rewritten(e, BaseHeaders(ls[v].row, master)), true)
    ensures OthersServed(s.ix.consumer, ls, row, master)
  {
    forall v, e | v in ls && v != row.uuid && e in ls[v].slots
      ensures ServedByOthers(s.ix.consumer, row.uuid, Least(SlotEntry(ls[v], e).binding))
    {
      var h := ls[v].slots[e].headers;
      assert Follows(s.ix, v, Lookup(ls, v), master);
      OwnIsMarked(ls[v].row, master, h);
      ArgumentsIdentity(e, h, h, v);
      ArgumentsLeast(e, h);
      BoundByCell(s, ls, master, v, e, Arguments(e, h, true));
    }
  }

  // ----- which bindings are dropped, in terms of the rows

  /** Rows that put the same tenant, origin and user conditions on a message. */
  predicate SameAddress(a: Row, b: Row) {
    && SameScope(a, b)
    && (if Truthy(a.eventsUser) then a.eventsUser == b.eventsUser else !Truthy(b.eventsUser))
  }

  lemma SameBaseIff(a: Row, b: Row, master: string)
    requires a.uuid == b.uuid
    ensures BaseHeaders(a, master) == BaseHeaders(b, master) <==> SameAddress(a, b)
  {
    if BaseHeaders(a, master) == BaseHeaders(b, master) {
      SameScopeIff(a, b, master);
      if Truthy(a.eventsUser) {
        SameUser(a, b, master);
      }
      if Truthy(b.eventsUser) {
        SameUser(b, a, master);
      }
    }
  }

  lemma SameUser(a: Row, b: Row, master: string)
    requires BaseHeaders(a, master) == BaseHeaders(b, master) && Truthy(a.eventsUser)
    ensures b.eventsUser == a.eventsUser
  {
    BaseEntries(a, master);
    BaseEntries(b, master);
    var key := "user_uuid:" + a.eventsUser.value;
    KeysApart(a.eventsUser.value);
    assert key in BaseHeaders(b, master);
    assert key == "user_uuid:" + b.eventsUser.value;
    assert a.eventsUser.value == key[10..] == b.eventsUser.value;
  }

  /** An update of a subscription whose events have their own headers drops the voicemail binding exactly when
      the plain headers are stored, as after a registration, and tenant and origin stay; and any other event's
      binding exactly when the widened headers are stored, as after an update through the voicemail event, and
      tenant, origin and user stay. Neither happens if the former row watched the wildcard user. */
  lemma DropsIff(l: Listener, row: Row, master: string, e: string)
    requires Sound(l, master) && row.uuid == l.row.uuid
    requires e in l.slots ==> l.slots[e].headers == Rewritten(e, BaseHeaders(l.row, master))
    ensures Drops(l, row, e, master)
       <==> && e in l.row.events && l.row.eventsUser != Some("*")
            && (if e == VOICEMAIL
                then SameScope(l.row, row) && l.stored == BaseHeaders(l.row, master)
                else SameAddress(l.row, row) && l.stored == Widened(BaseHeaders(l.row, master)))
  {
    WidenedIsBase(l.row, master);
    SameScopeIff(l.row, row, master);
    SameBaseIff(l.row, row, master);
  }

  lemma {:induction false} Enumeration(events: set<string>) returns (order: seq<string>)
    ensures Enumerates(order, events)
  {
    order := [];
    if events != {} {
      var e :| e in events;
      order := Enumeration(events - {e});
      OneMore(order, events - {e}, e, events);
      order := order + [e];
    }
  }

  /** Any two events of the union may be gone through one before the other. */
  lemma OrderWith(first: string, later: string, events: seq<string>, former: seq<string>) returns (order: seq<string>)
    requires first != later && (first in events || first in former) && (later in events || later in former)
    ensures IterationOrder(order, events, former)
    ensures exists i, j :: 0 <= i <= j < |order| && order[i] == first && order[j] == later
  {
    var all := (set e | e in events) + (set e | e in former);
    var rest := Enumeration(all - {first, later});
    order := [first, later] + rest;
    assert order[0] == first && order[1] == later;
    forall i, j | 0 <= i < j < |order| ensures order[i] != order[j] {
      assert order[j] == if j == 1 then later else rest[j - 2];
      assert i >= 2 ==> order[i] == rest[i - 2];
    }
    forall e ensures e in order <==> e in events || e in former {
      assert e in order <==> e == first || e == later || e in rest;
    }
  }

  /** An event other than the voicemail event keeps its own headers whatever the order exactly when neither list
      has the voicemail event, or the row watches the wildcard user anyway. */
  lemma EveryOrderKeepsHeadersIff(l: Listener, row: Row, fn: Handler, master: string, connected: bool, e: string)
    requires e in row.events && e != VOICEMAIL
    ensures (forall order | IterationOrder(order, row.events, l.row.events) ::
               Replaced(l, row, fn, order, master, connected).slots[e].headers == BaseHeaders(row, master))
       <==> (VOICEMAIL !in row.events && VOICEMAIL !in l.row.events) || row.eventsUser == Some("*")
  {
    WidenedIsBase(row, master);
    if VOICEMAIL in row.events || VOICEMAIL in l.row.events {
      var order := OrderWith(VOICEMAIL, e, row.events, l.row.events);
      assert VoicemailBy(order, e);
      assert Replaced(l, row, fn, order, master, connected).slots[e].headers == Widened(BaseHeaders(row, master));
    }
  }

  lemma OrdersKeepHeaders(former: Row, row: Row)
    ensures KeepsHeadersInAnyOrder(former, row)
       <==> forall order :: IterationOrder(order, row.events, former.events) ==> KeepsHeaders(order, row)
  {
    if !KeepsHeadersInAnyOrder(former, row) {
      var e :| e in row.events && e != VOICEMAIL;
      var order := OrderWith(VOICEMAIL, e, row.events, former.events);
      assert VoicemailBy(order, e);
    }
  }

  lemma SomeOrder(events: seq<string>, former: seq<string>) returns (order: seq<string>)
    ensures IterationOrder(order, events, former)
  {
    order := Enumeration((set e | e in events) + (set e | e in former));
  }

  /** What a caller can check beforehand: the replacement delivers exactly afterwards, however the set of events
      is iterated, if and only if the rows keep their headers in any order, dropped bindings are made up for by
      others, and the other subscriptions are in order and remain served. */
  lemma AnyOrderDeliversIff(s: System, ls: Listening, op: Op, former: Row, row: Row, master: string)
    requires Inv(s, ls, master) && s.ix.consumer.connected
    requires Possible(s, op) && op.Modify? && Apply(s, op, master).fault == None
    requires former in s.rows && former.uuid == op.uuid && row == Filled(Cleared(former), op.schema)
    ensures op.uuid in ls
    ensures (forall order | IterationOrder(order, row.events, former.events) ::
               DeliversExactly(Apply(s, op.(order := order), master).next, master))
       <==> && KeepsHeadersInAnyOrder(former, row)
            && KeepsOwnBindings(s.ix.consumer, ls[op.uuid], row, master)
            && OthersServed(s.ix.consumer, ls, row, master)
  {
    assert row.events == op.schema.events;
    ReplacementDeliversIff(s, ls, op, former, row, Apply(s, op, master).next, master);
    assert Follows(s.ix, op.uuid, Lookup(ls, op.uuid), master);
    forall order | IterationOrder(order, row.events, former.events)
      ensures DeliversExactly(Apply(s, op.(order := order), master).next, master)
         <==> && KeepsHeaders(order, row)
              && KeepsOwnBindings(s.ix.consumer, ls[op.uuid], row, master)
              && OthersServed(s.ix.consumer, ls, row, master)
    {
      var again := op.(order := order);
      ReplacementDeliversIff(s, ls, again, former, row, Apply(s, again, master).next, master);
    }
    OrdersKeepHeaders(former, row);
    var order := SomeOrder(row.events, former.events);
  }
}
