/** Three runs in which a replacement mutes a subscription: messages its row wants no longer trigger its hook. */
module Muting {
  import opened Rows
  import opened Headers
  import opened Models
  import opened Consumers
  import opened SubscriptionIndex
  import opened Listeners
  import opened Service
  import opened Runs
  import opened Agreement
  import opened Delivery
  import opened Updates

  // ----- a replacement that changes nothing, and silences the voicemail event

  const NIGHT_ROW := Row("s1", "night", "http", None, None, None, "t1", [], [VOICEMAIL], [])
  const NIGHT_SCHEMA := Schema("night", "http", [], [VOICEMAIL], None, NotSet, NotSet, NotSet, NotSet)
  const NIGHT_MESSAGE: Headers := map["name" := Text(VOICEMAIL), "tenant_uuid" := Text("t1"), WILDCARD := Flag(true)]
  const NIGHT_UPDATE := Modify("s1", NIGHT_SCHEMA, [], None, [VOICEMAIL])

  ghost predicate NightListens(s: System, ls: Listening, master: string) {
    && Begun(IDLE.(connected := true), s, ls, master) && s.rows == [NIGHT_ROW]
    && "s1" in ls && ls["s1"] == Fresh(NIGHT_ROW, ls["s1"].fn, master) && forall u :: u in ls ==> u == "s1"
  }

  lemma NightStarts(master: string)
    ensures NightListens(Started(IDLE.(connected := true), [NIGHT_ROW], 0, master), FreshAll([NIGHT_ROW], 0, master),
                         master)
  {
    var c := IDLE.(connected := true);
    assert Startable(c) && Stored([NIGHT_ROW]);
    StartupInv(c, [NIGHT_ROW], 0, master);
    StartupClean([NIGHT_ROW], 0, master);
    var ls := FreshAll([NIGHT_ROW], 0, master);
    assert NIGHT_ROW in [NIGHT_ROW];
    forall u | u in ls ensures u == "s1" {
      assert ls[u].row in [NIGHT_ROW];
    }
  }

  lemma NightUpdate(s: System, ls: Listening, master: string)
    requires NightListens(s, ls, master)
    ensures Possible(s, NIGHT_UPDATE) && NIGHT_ROW.uuid in s.ix.callbacks
    ensures Apply(s, NIGHT_UPDATE, master)
         == Step(System(s.rows, Update(s.ix, NIGHT_ROW, Hook(s.token, NIGHT_ROW), [VOICEMAIL], master), s.token + 1),
                 None)
  {
    assert Follows(s.ix, "s1", Lookup(ls, "s1"), master);
    assert Filled(Cleared(NIGHT_ROW), NIGHT_SCHEMA) == NIGHT_ROW;
    assert Position(s.rows, "s1") == 0;
  }

  lemma NightLoses(s: System, ls: Listening, fn: Handler, ix: Index, o: Option<string>, e: string, master: string)
    requires NightListens(s, ls, master) && fn.Hook? && fn.data == NIGHT_ROW
    requires "s1" in s.ix.callbacks && ix == Update(s.ix, NIGHT_ROW, fn, [VOICEMAIL], master)
    ensures Proper(ix.consumer) && CellOf(ix.consumer, o, e).bound == {}
  {
    var l := ls["s1"];
    assert Follows(s.ix, "s1", Lookup(ls, "s1"), master);
    UpdateFollows(s.ix, l, NIGHT_ROW, fn, [VOICEMAIL], master);
    if o == Some("s1") {
      FirstUpdateLosesIff(l, NIGHT_ROW, fn, [VOICEMAIL], master, VOICEMAIL);
    } else {
      assert Same(s.ix, ix, o);
      assert CellOf(ix.consumer, o, e) == CellOf(s.ix.consumer, o, e);
      assert o.Some? ==> Follows(s.ix, o.value, Lookup(ls, o.value), master);
    }
  }

  lemma NightMuted(s: System, ls: Listening, fn: Handler, master: string)
    requires NightListens(s, ls, master) && fn.Hook? && fn.data == NIGHT_ROW
    requires "s1" in s.ix.callbacks
    ensures Delivered(Update(s.ix, NIGHT_ROW, fn, [VOICEMAIL], master).consumer, NIGHT_MESSAGE) == []
  {
    var ix := Update(s.ix, NIGHT_ROW, fn, [VOICEMAIL], master);
    NightLoses(s, ls, fn, ix, None, "", master);
    forall b ensures b !in ix.consumer.bound {
      if NameOf(b).Some? {
        NightLoses(s, ls, fn, ix, OwnerOf(b), NameOf(b).value, master);
        assert b in ix.consumer.bound <==> b in CellOf(ix.consumer, OwnerOf(b), NameOf(b).value).bound;
      }
    }
  }

  lemma NightHeard(s: System, ls: Listening, master: string)
    requires NightListens(s, ls, master)
    ensures Wants(NIGHT_ROW, master, NIGHT_MESSAGE)
    ensures Triggered(Delivered(s.ix.consumer, NIGHT_MESSAGE), NIGHT_ROW) == 1
  {
    CleanDelivery(s, ls, master);
  }

  /** The subscription is stored, connected and wants the message; replacing it with its own content succeeds
      and changes no row, and from then on the message does not even reach the queue. */
  lemma UnchangedUpdateMutesVoicemail(master: string)
    requires master != "t1"
    ensures var s := Started(IDLE.(connected := true), [NIGHT_ROW], 0, master);
            var step := Apply(s, NIGHT_UPDATE, master);
            && Possible(s, NIGHT_UPDATE) && step.fault == None && step.next.rows == s.rows
            && Wants(NIGHT_ROW, master, NIGHT_MESSAGE)
            && Triggered(Delivered(s.ix.consumer, NIGHT_MESSAGE), NIGHT_ROW) == 1
            && Delivered(step.next.ix.consumer, NIGHT_MESSAGE) == []
  {
    var s, ls := Started(IDLE.(connected := true), [NIGHT_ROW], 0, master), FreshAll([NIGHT_ROW], 0, master);
    NightStarts(master);
    NightUpdate(s, ls, master);
    NightHeard(s, ls, master);
    NightMuted(s, ls, Hook(s.token, NIGHT_ROW), master);
  }

  // ----- a replacement that adds the voicemail event, and mutes another one with every binding in place

  const CALL := "call_created"
  const CALL_ROW := Row("s1", "calls", "http", Some("u1"), None, None, "t1", [], [CALL], [])
  const CALL_SCHEMA := Schema("calls", "http", [], [VOICEMAIL, CALL], None, NotSet, NotSet, NotSet, NotSet)
  const CALL_UPDATE := Modify("s1", CALL_SCHEMA, [], None, [VOICEMAIL, CALL])
  const CALL_MESSAGE: Headers :=
    map["name" := Text(CALL), "tenant_uuid" := Text("t1"), "user_uuid:u1" := Flag(true)]

  lemma CallStarts(master: string)
    ensures var s := Started(IDLE.(connected := true), [CALL_ROW], 0, master);
            var ls := FreshAll([CALL_ROW], 0, master);
            && Inv(s, ls, master) && Clean(ls, master) && s.ix.consumer.connected && s.rows == [CALL_ROW]
            && CALL_ROW.uuid in ls && ls[CALL_ROW.uuid].row == CALL_ROW && forall u :: u in ls ==> u == "s1"
  {
    var ls := FreshAll([CALL_ROW], 0, master);
    assert Startable(IDLE.(connected := true)) && Stored([CALL_ROW]);
    StartupInv(IDLE.(connected := true), [CALL_ROW], 0, master);
    StartupClean([CALL_ROW], 0, master);
    assert CALL_ROW in [CALL_ROW];
    forall u | u in ls ensures u == "s1" {
      assert ls[u].row in [CALL_ROW];
    }
  }

  lemma CallLeast(row: Row, master: string, user: string)
    requires row.ownerTenant != master && user != "" && row.eventsUser == Some(user) && row.eventsWazo == None
    ensures Least(Arguments(CALL, BaseHeaders(row, master), true))
         == map["name" := Text(CALL), "tenant_uuid" := Text(row.ownerTenant), "user_uuid:" + user := Flag(true)]
  {
    KeysApart(user);
  }

  lemma CallMessage(events: seq<string>, master: string)
    requires master != "t1" && CALL in events && CALL != VOICEMAIL
    ensures var row := CALL_ROW.(events := events);
            Wants(row, master, CALL_MESSAGE) && CALL_MESSAGE == Least(Arguments(CALL, BaseHeaders(row, master), true))
  {
    var row := CALL_ROW.(events := events);
    assert "user_uuid:" + "u1" == "user_uuid:u1";
    CallLeast(row, master, "u1");
    ArgumentsLeast(CALL, BaseHeaders(row, master));
    RewrittenBindingMeaning(row, master, CALL, CALL_MESSAGE);
  }

  lemma CallUpdate(s: System, ls: Listening, master: string)
    requires Inv(s, ls, master) && s.rows == [CALL_ROW] && "s1" in ls && ls["s1"].row == CALL_ROW
    ensures Possible(s, CALL_UPDATE) && Apply(s, CALL_UPDATE, master).fault == None
    ensures Apply(s, CALL_UPDATE, master).next.rows == [CALL_ROW.(events := [VOICEMAIL, CALL])]
  {
    assert Follows(s.ix, "s1", Lookup(ls, "s1"), master);
    assert Filled(Cleared(CALL_ROW), CALL_SCHEMA) == CALL_ROW.(events := [VOICEMAIL, CALL]);
    assert Position(s.rows, "s1") == 0;
    NotVoicemail();
  }

  /** The listener the replacement leaves: every binding live, the other event's a widened one. */
  lemma CallListener(l: Listener, fn: Handler, master: string, l': Listener)
    requires l == Fresh(CALL_ROW, l.fn, master)
    requires l' == Replaced(l, CALL_ROW.(events := [VOICEMAIL, CALL]), fn, [VOICEMAIL, CALL], master, true)
    ensures forall e :: e in l'.slots ==> l'.slots[e].live
    ensures CALL in l'.slots && l'.slots[CALL].headers == Widened(BaseHeaders(l'.row, master))
  {
    var row, order := CALL_ROW.(events := [VOICEMAIL, CALL]), [VOICEMAIL, CALL];
    NotVoicemail();
    assert order[0] == VOICEMAIL && order[1] == CALL;
    assert VoicemailBy(order, CALL);
    forall e | e in l'.slots ensures l'.slots[e].live {
      FirstUpdateLosesIff(l, row, fn, order, master, e);
    }
  }

  lemma MutedButBound(s: System, ls: Listening, row: Row, master: string)
    requires Inv(s, ls, master) && s.ix.consumer.connected && AllSlotsLive(ls) && master != "t1"
    requires "s1" in ls && ls["s1"].row == row && row == CALL_ROW.(events := [VOICEMAIL, CALL])
    requires CALL in ls["s1"].slots && ls["s1"].slots[CALL].headers == Widened(BaseHeaders(row, master))
    ensures Triggered(Delivered(s.ix.consumer, CALL_MESSAGE), row) == 0
    ensures forall b :: OwnerOf(b).Some? ==> (b in s.ix.consumer.bound <==> HookBinding(s.ix.consumer, b))
  {
    NotVoicemail();
    CallMessage([VOICEMAIL, CALL], master);
    WidenedSlotMisses(s, ls, master, "s1", CALL);
    BrokerAgreesIff(s, ls, master);
  }

  lemma CallAfter(s: System, ls: Listening, next: System, ls': Listening, master: string)
    requires Inv(s, ls, master) && Clean(ls, master) && s.ix.consumer.connected && s.rows == [CALL_ROW]
    requires "s1" in ls && ls["s1"].row == CALL_ROW && (forall u :: u in ls ==> u == "s1")
    requires Possible(s, CALL_UPDATE) && Apply(s, CALL_UPDATE, master).fault == None
    requires next == Apply(s, CALL_UPDATE, master).next && ls' == ListenStep(s, ls, CALL_UPDATE, master)
    ensures Inv(next, ls', master) && next.ix.consumer.connected && AllSlotsLive(ls')
    ensures "s1" in ls' && ls'["s1"].row == CALL_ROW.(events := [VOICEMAIL, CALL])
    ensures CALL in ls'["s1"].slots && ls'["s1"].slots[CALL].headers == Widened(BaseHeaders(ls'["s1"].row, master))
  {
    var row := CALL_ROW.(events := [VOICEMAIL, CALL]);
    assert Filled(Cleared(CALL_ROW), CALL_SCHEMA) == row;
    CallListener(ls["s1"], Hook(s.token, row), master, ls'["s1"]);
    StepTo(s, ls, CALL_UPDATE, next, ls', master);
    ModifyConnected(s, ls, CALL_UPDATE, next, master);
  }

  lemma NotVoicemail()
    ensures CALL != VOICEMAIL
  {
    assert |VOICEMAIL| != |CALL|;
  }

  /** A subscription is given the voicemail event besides the one it has, which is gone through afterwards: the
      broker holds every binding, and a message the row wants, as it did before, no longer triggers its hook. */
  lemma AddedVoicemailMutesOthers(master: string)
    requires master != "t1"
    ensures var s := Started(IDLE.(connected := true), [CALL_ROW], 0, master);
            var step := Apply(s, CALL_UPDATE, master);
            var row := CALL_ROW.(events := [VOICEMAIL, CALL]);
            && Possible(s, CALL_UPDATE) && step.fault == None && step.next.rows == [row]
            && Wants(CALL_ROW, master, CALL_MESSAGE) && Wants(row, master, CALL_MESSAGE)
            && Triggered(Delivered(s.ix.consumer, CALL_MESSAGE), CALL_ROW) == 1
            && Triggered(Delivered(step.next.ix.consumer, CALL_MESSAGE), row) == 0
            && (forall b :: OwnerOf(b).Some? ==>
                  (b in step.next.ix.consumer.bound <==> HookBinding(step.next.ix.consumer, b)))
  {
    var s, ls := Started(IDLE.(connected := true), [CALL_ROW], 0, master), FreshAll([CALL_ROW], 0, master);
    var row := CALL_ROW.(events := [VOICEMAIL, CALL]);
    CallStarts(master);
    CallUpdate(s, ls, master);
    NotVoicemail();
    CallMessage([CALL], master);
    CallMessage([VOICEMAIL, CALL], master);
    CleanDelivery(s, ls, master);
    CallAfter(s, ls, Apply(s, CALL_UPDATE, master).next, ListenStep(s, ls, CALL_UPDATE, master), master);
    MutedButBound(Apply(s, CALL_UPDATE, master).next, ListenStep(s, ls, CALL_UPDATE, master), row, master);
  }

  // ----- two replacements that change nothing, the second of which mutes an ordinary event

  const TWICE_ROW := CALL_ROW.(events := [CALL, VOICEMAIL])
  const TWICE_SCHEMA := Schema("calls", "http", [], [CALL, VOICEMAIL], None, NotSet, NotSet, NotSet, NotSet)
  const TWICE_UPDATE := Modify("s1", TWICE_SCHEMA, [], None, [CALL, VOICEMAIL])

  /** The only subscription is followed by `l`, and the broker holds no binding of anyone else. */
  ghost predicate TwiceListens(s: System, ls: Listening, l: Listener, master: string) {
    && Inv(s, ls, master) && s.ix.consumer.connected && s.rows == [TWICE_ROW]
    && ls == map["s1" := l] && l.row == TWICE_ROW
    && forall o, e :: o != Some("s1") ==> CellOf(s.ix.consumer, o, e).bound == {}
  }

  lemma TwiceFollowed(master: string)
    ensures FreshAll([TWICE_ROW], 0, master) == map["s1" := Fresh(TWICE_ROW, Hook(0, TWICE_ROW), master)]
  {
    assert [TWICE_ROW][..0] == [];
  }

  lemma BegunUnbound(c: Consumer, s: System, ls: Listening, master: string)
    requires Begun(c, s, ls, master) && c.bound == {} && forall u :: u in ls ==> u == "s1"
    ensures forall o, e :: o != Some("s1") ==> CellOf(s.ix.consumer, o, e).bound == {}
  {
    forall o, e | o != Some("s1") ensures CellOf(s.ix.consumer, o, e).bound == {} {
      if o == None {
        assert CellOf(s.ix.consumer, None, e) == CellOf(c, None, e);
      } else {
        assert Follows(s.ix, o.value, Lookup(ls, o.value), master);
      }
    }
  }

  lemma TwiceStarts(master: string)
    ensures var s := Started(IDLE.(connected := true), [TWICE_ROW], 0, master);
            TwiceListens(s, FreshAll([TWICE_ROW], 0, master), Fresh(TWICE_ROW, Hook(0, TWICE_ROW), master), master)
  {
    var c := IDLE.(connected := true);
    NotVoicemail();
    assert Startable(c) && Stored([TWICE_ROW]);
    StartupInv(c, [TWICE_ROW], 0, master);
    TwiceFollowed(master);
    BegunUnbound(c, Started(c, [TWICE_ROW], 0, master), FreshAll([TWICE_ROW], 0, master), master);
  }

  lemma TwiceApplies(s: System, ls: Listening, l: Listener, next: System, ls': Listening, master: string)
    requires TwiceListens(s, ls, l, master) && next == Apply(s, TWICE_UPDATE, master).next
    requires ls' == ListenStep(s, ls, TWICE_UPDATE, master)
    ensures Possible(s, TWICE_UPDATE) && Apply(s, TWICE_UPDATE, master).fault == None && next.rows == [TWICE_ROW]
    ensures ls'.Keys == {"s1"}
    ensures ls'["s1"] == Replaced(l, TWICE_ROW, Hook(s.token, TWICE_ROW), [CALL, VOICEMAIL], master, true)
  {
    NotVoicemail();
    assert Follows(s.ix, "s1", Lookup(ls, "s1"), master);
    assert Filled(Cleared(TWICE_ROW), TWICE_SCHEMA) == TWICE_ROW;
    assert Position(s.rows, "s1") == 0;
  }

  /** One replacement of the subscription with its own content. */
  lemma TwiceStep(s: System, ls: Listening, l: Listener, next: System, l': Listener, master: string)
    requires TwiceListens(s, ls, l, master) && next == Apply(s, TWICE_UPDATE, master).next
    requires l' == Replaced(l, TWICE_ROW, Hook(s.token, TWICE_ROW), [CALL, VOICEMAIL], master, true)
    ensures Possible(s, TWICE_UPDATE) && Apply(s, TWICE_UPDATE, master).fault == None
    ensures TwiceListens(next, map["s1" := l'], l', master)
  {
    var ls' := ListenStep(s, ls, TWICE_UPDATE, master);
    TwiceApplies(s, ls, l, next, ls', master);
    assert ls' == map["s1" := l'];
    StepTo(s, ls, TWICE_UPDATE, next, ls', master);
    ModifyConnected(s, ls, TWICE_UPDATE, next, master);
    OthersUnbound(s, next);
  }

  lemma OthersUnbound(s: System, next: System)
    requires forall o, e :: o != Some("s1") ==> CellOf(s.ix.consumer, o, e).bound == {}
    requires forall o :: o != Some("s1") ==> Same(s.ix, next.ix, o)
    ensures forall o, e :: o != Some("s1") ==> CellOf(next.ix.consumer, o, e).bound == {}
  {
    forall o, e | o != Some("s1") ensures CellOf(next.ix.consumer, o, e).bound == {} {
      assert Same(s.ix, next.ix, o);
      assert CellOf(next.ix.consumer, o, e) == CellOf(s.ix.consumer, o, e);
    }
  }

  /** What the listener is before, between and after: the first replacement drops the voicemail binding and
      stores the widened headers, the second drops the other one. */
  lemma TwiceListeners(l0: Listener, fn1: Handler, l1: Listener, fn2: Handler, l2: Listener, master: string)
    requires l0 == Fresh(TWICE_ROW, l0.fn, master)
    requires l1 == Replaced(l0, TWICE_ROW, fn1, [CALL, VOICEMAIL], master, true)
    requires l2 == Replaced(l1, TWICE_ROW, fn2, [CALL, VOICEMAIL], master, true)
    ensures var base := BaseHeaders(TWICE_ROW, master);
            && l1.slots[CALL] == Slot(base, true) && l1.slots[VOICEMAIL] == Slot(Widened(base), false)
            && l2.slots[CALL] == Slot(base, false) && l2.slots[VOICEMAIL] == Slot(Widened(base), true)
  {
    var order := [CALL, VOICEMAIL];
    NotVoicemail();
    assert order[0] == CALL && order[1] == VOICEMAIL;
    assert VoicemailBy(order, VOICEMAIL) && !VoicemailBy(order, CALL);
    LoopCarriedHeaders(order, BaseHeaders(TWICE_ROW, master));
    WidenedIsBase(TWICE_ROW, master);
  }

  lemma TwiceHeard(s: System, ls: Listening, l: Listener, master: string)
    requires TwiceListens(s, ls, l, master) && master != "t1"
    requires CALL in l.slots && l.slots[CALL] == Slot(BaseHeaders(TWICE_ROW, master), true)
    ensures Triggered(Delivered(s.ix.consumer, CALL_MESSAGE), TWICE_ROW) == 1
  {
    NotVoicemail();
    CallMessage([CALL, VOICEMAIL], master);
    LiveSlotReaches(s, ls, master, "s1", CALL);
    ArgumentsLeast(CALL, BaseHeaders(TWICE_ROW, master));
    TriggeredExactly(s, ls, master, CALL_MESSAGE, CALL, TWICE_ROW);
  }

  lemma TwiceMuted(s: System, ls: Listening, l: Listener, master: string)
    requires TwiceListens(s, ls, l, master) && master != "t1"
    requires CALL in l.slots && !l.slots[CALL].live
    ensures Delivered(s.ix.consumer, CALL_MESSAGE) == []
    ensures forall b :: b in s.ix.consumer.bound ==> !(OwnerOf(b) == Some("s1") && NameOf(b) == Some(CALL))
  {
    var c := s.ix.consumer;
    assert NameOf(CALL_MESSAGE) == Some(CALL);
    forall b | b in c.bound
      ensures OwnerOf(b) == Some("s1") && NameOf(b) != Some(CALL) && !Matches(b, CALL_MESSAGE)
    {
      var e := NameOf(b).value;
      assert b in CellOf(c, OwnerOf(b), e).bound;
      BoundByCell(s, ls, master, "s1", e, b);
      if Matches(b, CALL_MESSAGE) {
        OwnBindingNames(s, ls, "s1", b, CALL_MESSAGE, master);
      }
    }
  }

  /** A subscription to an ordinary event and the voicemail event is replaced twice with its own content, the
      voicemail event being gone through last: both succeed, no row changes, and after the second the broker has
      no binding for the ordinary event any more. */
  lemma SecondUnchangedUpdateMutesOthers(master: string)
    requires master != "t1"
    ensures var s := Started(IDLE.(connected := true), [TWICE_ROW], 0, master);
            var first := Apply(s, TWICE_UPDATE, master);
            var second := Apply(first.next, TWICE_UPDATE, master);
            && Possible(s, TWICE_UPDATE) && first.fault == None && first.next.rows == s.rows
            && Possible(first.next, TWICE_UPDATE) && second.fault == None && second.next.rows == s.rows
            && Wants(TWICE_ROW, master, CALL_MESSAGE)
            && Triggered(Delivered(s.ix.consumer, CALL_MESSAGE), TWICE_ROW) == 1
            && Triggered(Delivered(first.next.ix.consumer, CALL_MESSAGE), TWICE_ROW) == 1
            && Delivered(second.next.ix.consumer, CALL_MESSAGE) == []
            && (forall b :: b in second.next.ix.consumer.bound
                  ==> !(OwnerOf(b) == Some("s1") && NameOf(b) == Some(CALL)))
  {
    var s, ls := Started(IDLE.(connected := true), [TWICE_ROW], 0, master), FreshAll([TWICE_ROW], 0, master);
    var next := Apply(s, TWICE_UPDATE, master).next;
    var last := Apply(next, TWICE_UPDATE, master).next;
    var l0 := Fresh(TWICE_ROW, Hook(0, TWICE_ROW), master);
    var l1 := Replaced(l0, TWICE_ROW, Hook(s.token, TWICE_ROW), [CALL, VOICEMAIL], master, true);
    var l2 := Replaced(l1, TWICE_ROW, Hook(next.token, TWICE_ROW), [CALL, VOICEMAIL], master, true);
    NotVoicemail();
    CallMessage([CALL, VOICEMAIL], master);
    TwiceStarts(master);
    TwiceStep(s, ls, l0, next, l1, master);
    TwiceStep(next, map["s1" := l1], l1, last, l2, master);
    TwiceListeners(l0, Hook(s.token, TWICE_ROW), l1, Hook(next.token, TWICE_ROW), l2, master);
    TwiceHeard(s, ls, l0, master);
    TwiceHeard(next, map["s1" := l1], l1, master);
    TwiceMuted(last, map["s1" := l2], l2, master);
  }
}
