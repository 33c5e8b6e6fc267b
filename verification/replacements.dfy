/** Runs: which replacements leave the index as a restart would, and which leave delivery exact. */
module Replacements {
  import opened Rows
  import opened Headers
  import opened Models
  import opened Consumers
  import opened Listeners
  import opened Service
  import opened Runs
  import opened Agreement
  import opened Delivery

  // ----- runs whose replacements are clean

  /** A replacement that goes through is clean, judged from the rows before and after it. */
  ghost predicate Tame(s: System, op: Op, master: string) {
    op.Modify? && Apply(s, op, master).fault == None ==>
      forall row :: row in s.rows && row.uuid == op.uuid ==>
        CleanReplacement(row, Filled(Cleared(row), op.schema), s.ix.consumer.connected)
  }

  ghost predicate TameRun(s: System, ops: seq<Op>, master: string) {
    forall i :: 0 <= i < |ops| ==> Tame(Run(s, ops[..i], master), ops[i], master)
  }

  lemma CleanWith(ls: Listening, u: string, l: Listener, ls': Listening, master: string)
    requires Clean(ls, master) && ls' == ls[u := l]
    ensures Clean(ls', master) <==> l == Fresh(l.row, l.fn, master)
  {
    assert ls'[u] == l;
  }

  lemma CleanIsLive(ls: Listening, master: string)
    requires Clean(ls, master)
    ensures (map u | u in ls :: AllLive(ls[u])) == ls
  {
    forall u | u in ls ensures AllLive(ls[u]) == ls[u] {
      var l := ls[u];
      assert l == Fresh(l.row, l.fn, master);
      assert forall e :: e in l.slots ==> l.slots[e].(live := true) == l.slots[e];
      assert AllLive(l).slots == l.slots;
    }
  }

  lemma ModifyCleanIff(s: System, ls: Listening, op: Op, ls': Listening, master: string)
    requires Inv(s, ls, master) && Possible(s, op) && Clean(ls, master)
    requires op.Modify? && Apply(s, op, master).fault == None && ls' == ListenStep(s, ls, op, master)
    ensures Clean(ls', master) <==> Tame(s, op, master)
  {
    PositionFound(s.rows, op.uuid);
    assert s.rows[Position(s.rows, op.uuid)] in s.rows;
    assert Follows(s.ix, op.uuid, Lookup(ls, op.uuid), master);
    var l := ls[op.uuid];
    var row, fn := Filled(Cleared(l.row), op.schema), Hook(s.token, Filled(Cleared(l.row), op.schema));
    assert row.events == op.schema.events;
    CleanReplacementIff(l, row, fn, op.order, master, s.ix.consumer.connected);
    CleanWith(ls, op.uuid, Replaced(l, row, fn, op.order, master, s.ix.consumer.connected), ls', master);
  }

  /** An operation leaves every listener as a restart would make it exactly when it is tame; only a
      replacement can fail to be. */
  lemma StepCleanIff(s: System, ls: Listening, op: Op, ls': Listening, master: string)
    requires Inv(s, ls, master) && Possible(s, op) && Clean(ls, master) && ls' == ListenStep(s, ls, op, master)
    ensures Clean(ls', master) <==> Tame(s, op, master)
  {
    if Apply(s, op, master).fault == None {
      match op {
        case Modify(_, _, _, _, _) => ModifyCleanIff(s, ls, op, ls', master);
        case Create(uuid, schema) =>
          var row := Filled(Blank(uuid), schema);
          CleanWith(ls, uuid, Fresh(row, Hook(s.token, row), master), ls', master);
        case Delete(_, _, _) =>
        case Attach(_, _, _) =>
        case _ => CleanIsLive(ls, master);
      }
    }
  }

  lemma PrefixIsTame(s: System, ops: seq<Op>, n: nat, master: string)
    requires PossibleRun(s, ops, master) && TameRun(s, ops, master) && n < |ops|
    ensures PossibleRun(s, ops[..n], master) && TameRun(s, ops[..n], master)
    ensures Possible(Run(s, ops[..n], master), ops[n]) && Tame(Run(s, ops[..n], master), ops[n], master)
  {
    var init := ops[..n];
    forall i | 0 <= i < n
      ensures Possible(Run(s, init[..i], master), init[i]) && Tame(Run(s, init[..i], master), init[i], master)
    {
      assert init[..i] == ops[..i];
    }
  }

  lemma {:induction false} TameRunIsClean(s: System, ls: Listening, ops: seq<Op>, end: Listening, master: string)
    requires Inv(s, ls, master) && PossibleRun(s, ops, master) && Clean(ls, master) && TameRun(s, ops, master)
    requires end == ListenRun(s, ls, ops, master)
    ensures Clean(end, master)
  {
    if ops != [] {
      var n := |ops| - 1;
      var init := ops[..n];
      var here, heard := Run(s, init, master), ListenRun(s, ls, init, master);
      PrefixIsTame(s, ops, n, master);
      TameRunIsClean(s, ls, init, heard, master);
      RunKeepsInv(s, ls, init, here, heard, master);
      StepCleanIff(here, heard, ops[n], end, master);
    }
  }

  /** From any stored rows, after starting and any run whatever: a message triggers exactly the hooks of the
      current rows that want it, once each, if and only if every callback has the binding a registration would
      give it and the least message of that binding gets through. A run of clean replacements ends so if it
      ends connected. */
  lemma EveryRunDelivers(c: Consumer, rows: seq<Row>, token: nat, ops: seq<Op>, master: string)
    requires Startable(c) && Stored(rows)
    requires PossibleRun(Started(c, rows, token, master), ops, master)
    ensures var s := Run(Started(c, rows, token, master), ops, master);
            && (DeliversExactly(s, master) <==> HooksWellBound(s.ix.consumer, master))
            && (s.ix.consumer.connected && TameRun(Started(c, rows, token, master), ops, master)
                ==> DeliversExactly(s, master))
  {
    var s0, ls0 := Started(c, rows, token, master), FreshAll(rows, token, master);
    var s, ls := Run(s0, ops, master), ListenRun(s0, ls0, ops, master);
    StartupInv(c, rows, token, master);
    RunKeepsInv(s0, ls0, ops, s, ls, master);
    ExactDeliveryIff(s, ls, master);
    if s.ix.consumer.connected && TameRun(s0, ops, master) {
      StartupClean(rows, token, master);
      TameRunIsClean(s0, ls0, ops, ls, master);
      CleanDelivery(s, ls, master);
    }
  }

  /** After any run the callbacks and the handler table are what a restart would build from the rows it
      leaves; after a run of clean replacements so are the bound headers. */
  lemma EveryRunIsARebuild(c: Consumer, rows: seq<Row>, token: nat, ops: seq<Op>, master: string, c': Consumer,
                           token': nat)
    requires Startable(c) && Stored(rows)
    requires Startable(c')
    requires PossibleRun(Started(c, rows, token, master), ops, master)
    ensures var s := Run(Started(c, rows, token, master), ops, master);
            var r := Started(c', s.rows, token', master);
            && SameHooks(s.ix, r.ix)
            && (TameRun(Started(c, rows, token, master), ops, master) ==> SameBindings(s.ix, r.ix))
  {
    var s0, ls0 := Started(c, rows, token, master), FreshAll(rows, token, master);
    StartupInv(c, rows, token, master);
    RunKeepsInv(s0, ls0, ops, Run(s0, ops, master), ListenRun(s0, ls0, ops, master), master);
    if TameRun(s0, ops, master) {
      StartupClean(rows, token, master);
      TameRunIsClean(s0, ls0, ops, ListenRun(s0, ls0, ops, master), master);
    }
    IndexEqualsRebuild(Run(s0, ops, master), ListenRun(s0, ls0, ops, master), master, c', token');
  }

  /** Without a connection nothing is delivered; rows, callbacks and handlers stay. */
  lemma LossSilences(s: System, master: string, m: Headers)
    ensures var s' := Apply(s, Disconnect, master).next;
            && Delivered(s'.ix.consumer, m) == [] && s'.ix.consumer.bound == {} && s'.ix.consumer.upstream == {}
            && s'.rows == s.rows && s'.ix.callbacks == s.ix.callbacks
            && s'.ix.consumer.table == s.ix.consumer.table && s'.ix.consumer.names == s.ix.consumer.names
  {
  }

  /** A reconnection binds again whatever updates had lost. */
  lemma ReconnectionRestoresBindings(s: System, ls: Listening, master: string)
    requires Inv(s, ls, master)
    ensures var s' := Apply(s, Reconnect, master).next;
            Inv(s', ListenStep(s, ls, Reconnect, master), master) && s'.ix.consumer.connected
            && forall b :: OwnerOf(b).Some? ==> (b in s'.ix.consumer.bound <==> HookBinding(s'.ix.consumer, b))
  {
    StepKeepsInv(s, ls, Reconnect, master);
    BrokerAgreesIff(Apply(s, Reconnect, master).next, ListenStep(s, ls, Reconnect, master), master);
  }
}
