/** Handlers of `wazo_webhookd/plugins/subscription/bus.py` run by several threads, each for its own
    subscription: lock sections and single bus calls interleave in any way. */
module Interleaving {
  import opened Rows
  import opened Headers
  import opened Consumers
  import opened SubscriptionIndex
  import opened Listeners

  datatype Request =
    | Registering(row: Row, fn: Handler)
    | Unregistering(uuid: string)
    | Updating(row: Row, fn: Handler, order: seq<string>)

  datatype BusCall = Sub(event: string, handler: Handler, headers: Headers) | Unsub(event: string, handler: Handler)

  /** Before the first lock section, between it and the end, or done. */
  datatype Thread = Waiting(request: Request) | Calling(calls: seq<BusCall>, put: Option<Callback>) | Finished

  /** One thread per subscription uuid. */
  datatype Config = Config(ix: Index, threads: map<string, Thread>)

  function Do(c: Consumer, call: BusCall): Consumer {
    match call
    case Sub(event, handler, headers) => Consumers.Subscribe(c, event, handler, headers)
    case Unsub(event, handler) => Consumers.Unsubscribe(c, event, handler)
  }

  function StepCalls(event: string, headers: Headers, events: seq<string>, prev: Callback, fn: Handler): seq<BusCall> {
    if event !in events then [Unsub(event, prev.fn)]
    else if event !in prev.events then [Sub(event, fn, headers)]
    else if headers != prev.headers then [Sub(event, fn, headers), Unsub(event, prev.fn)]
    else [Unsub(event, prev.fn), Sub(event, fn, headers)]
  }

  function UpdateCalls(order: seq<string>, base: Headers, events: seq<string>, prev: Callback,
                       fn: Handler): seq<BusCall> {
    if order == [] then []
    else
      var n := |order| - 1;
      UpdateCalls(order[..n], base, events, prev, fn) + StepCalls(order[n], HeadersAfter(order, base), events, prev, fn)
  }

  function SubscribeCalls(events: seq<string>, fn: Handler, base: Headers): seq<BusCall> {
    if events == [] then []
    else
      var n := |events| - 1;
      SubscribeCalls(events[..n], fn, base) + [Sub(events[n], fn, Rewritten(events[n], base))]
  }

  function UnsubscribeCalls(events: seq<string>, fn: Handler): seq<BusCall> {
    if events == [] then []
    else
      var n := |events| - 1;
      UnsubscribeCalls(events[..n], fn) + [Unsub(events[n], fn)]
  }

  /** The first lock section of a request: what becomes of the callback, and what is left to do. */
  function FirstSection(request: Request, current: Option<Callback>, master: string): (Option<Callback>, Thread) {
    match request
    case Registering(row, fn) =>
      var base := BaseHeaders(row, master);
      (Some(Callback(fn, row.events, base)), Calling(SubscribeCalls(row.events, fn, base), None))
    case Unregistering(_) =>
      (None, if current.Some?
             then Calling(UnsubscribeCalls(current.value.events, current.value.fn), None)
             else Finished)
    case Updating(row, fn, order) =>
      var base := BaseHeaders(row, master);
      (None, if current.Some?
             then Calling(UpdateCalls(order, base, row.events, current.value, fn),
                          Some(Callback(fn, row.events, HeadersAfter(order, base))))
             else Finished)
  }

  function Put(ix: Index, u: string, cb: Option<Callback>): Index {
    ix.(callbacks := if cb.Some? then ix.callbacks[u := cb.value] else ix.callbacks - {u})
  }

  /** The next lock section or bus call of the thread of `u`. */
  function Advance(cfg: Config, u: string, master: string): Config {
    if u !in cfg.threads then cfg
    else
      match cfg.threads[u]
      case Waiting(request) =>
        var (cb, t) := FirstSection(request, CallbackOf(cfg.ix, u), master);
        Config(Put(cfg.ix, u, cb), cfg.threads[u := t])
      case Calling(calls, put) =>
        if calls != [] then
          Config(cfg.ix.(consumer := Do(cfg.ix.consumer, calls[0])), cfg.threads[u := Calling(calls[1..], put)])
        else
          Config(if put.Some? then Put(cfg.ix, u, put) else cfg.ix, cfg.threads[u := Finished])
      case Finished => cfg
  }

  function Schedule(cfg: Config, turns: seq<string>, master: string): Config {
    if turns == [] then cfg
    else Advance(Schedule(cfg, turns[..|turns| - 1], master), turns[|turns| - 1], master)
  }

  /** The same request carried out without interruption; a missing callback is a `KeyError`. */
  function Perform(ix: Index, request: Request, master: string): Index {
    match request
    case Registering(row, fn) => Register(ix, row, fn, master)
    case Unregistering(uuid) => Unregister(ix, uuid)
    case Updating(row, fn, order) => if row.uuid in ix.callbacks then Update(ix, row, fn, order, master) else ix
  }

  function Serial(ix: Index, threads: map<string, Thread>, turns: seq<string>, master: string): Index {
    if turns == [] then ix
    else
      var u := turns[|turns| - 1];
      var ix' := Serial(ix, threads, turns[..|turns| - 1], master);
      if u in threads && threads[u].Waiting? then Perform(ix', threads[u].request, master) else ix'
  }

  // ----- each thread keeps to its own subscription

  ghost predicate OwnCall(call: BusCall, u: string) {
    Owner(call.handler) == Some(u) && (call.Sub? ==> MarkedFor(u, call.headers))
  }

  ghost predicate OwnRequest(request: Request, u: string) {
    match request
    case Registering(row, fn) => row.uuid == u && Owner(fn) == Some(u)
    case Unregistering(uuid) => uuid == u
    case Updating(row, fn, _) => row.uuid == u && Owner(fn) == Some(u)
  }

  ghost predicate OwnThread(t: Thread, u: string) {
    match t
    case Waiting(request) => OwnRequest(request, u)
    case Calling(calls, put) =>
      && (forall call :: call in calls ==> OwnCall(call, u))
      && (put.Some? ==> Owner(put.value.fn) == Some(u))
    case Finished => true
  }

  ghost predicate Good(cfg: Config) {
    && Proper(cfg.ix.consumer)
    && (forall u :: u in cfg.ix.callbacks ==> Owner(cfg.ix.callbacks[u].fn) == Some(u))
    && (forall u :: u in cfg.threads ==> OwnThread(cfg.threads[u], u))
  }

  function ThreadOf(cfg: Config, u: string): Option<Thread> {
    if u in cfg.threads then Some(cfg.threads[u]) else None
  }

  /** Nothing that the thread of `u` can see or change differs. */
  ghost predicate SameFor(cfg: Config, cfg': Config, o: Option<string>) {
    Same(cfg.ix, cfg'.ix, o) && (o.Some? ==> ThreadOf(cfg, o.value) == ThreadOf(cfg', o.value))
  }

  function DoInCell(cell: Cell, connected: bool, call: BusCall): Cell {
    match call
    case Sub(event, handler, headers) => CellSubscribe(cell, connected, handler, Arguments(event, headers, true))
    case Unsub(_, handler) => CellUnsubscribe(cell, connected, handler)
  }

  lemma DoCell(c: Consumer, call: BusCall, u: string, o: Option<string>, e: string)
    requires Proper(c) && OwnCall(call, u)
    ensures Proper(Do(c, call)) && Do(c, call).connected == c.connected
    ensures CellOf(Do(c, call), o, e)
         == if o == Some(u) && e == call.event then DoInCell(CellOf(c, o, e), c.connected, call) else CellOf(c, o, e)
  {
    match call {
      case Sub(event, handler, headers) =>
        ArgumentsIdentity(event, headers, headers, u);
        SubscribeCell(c, event, handler, headers, o, e);
      case Unsub(event, handler) =>
        UnsubscribeCell(c, event, handler, o, e);
    }
  }

  lemma {:induction false} CallsAreOwn(order: seq<string>, row: Row, master: string, prev: Callback, fn: Handler)
    requires Owner(fn) == Some(row.uuid) && Owner(prev.fn) == Some(row.uuid)
    ensures forall call | call in UpdateCalls(order, BaseHeaders(row, master), row.events, prev, fn) ::
              OwnCall(call, row.uuid)
  {
    if order != [] {
      CallsAreOwn(order[..|order| - 1], row, master, prev, fn);
      LoopCarriedHeaders(order, BaseHeaders(row, master));
      SubscriptionHeadersAreMarked(row, master);
    }
  }

  lemma {:induction false} SubscribeCallsAreOwn(events: seq<string>, row: Row, master: string, fn: Handler)
    requires Owner(fn) == Some(row.uuid)
    ensures forall call :: call in SubscribeCalls(events, fn, BaseHeaders(row, master)) ==> OwnCall(call, row.uuid)
  {
    if events != [] {
      SubscribeCallsAreOwn(events[..|events| - 1], row, master, fn);
      SubscriptionHeadersAreMarked(row, master);
    }
  }

  lemma {:induction false} UnsubscribeCallsAreOwn(events: seq<string>, fn: Handler, u: string)
    requires Owner(fn) == Some(u)
    ensures forall call :: call in UnsubscribeCalls(events, fn) ==> OwnCall(call, u)
  {
    if events != [] {
      UnsubscribeCallsAreOwn(events[..|events| - 1], fn, u);
    }
  }

  lemma FirstSectionIsOwn(request: Request, current: Option<Callback>, u: string, master: string)
    requires OwnRequest(request, u) && (current.Some? ==> Owner(current.value.fn) == Some(u))
    ensures var (cb, t) := FirstSection(request, current, master);
            (cb.Some? ==> Owner(cb.value.fn) == Some(u)) && OwnThread(t, u)
  {
    match request {
      case Registering(row, fn) => SubscribeCallsAreOwn(row.events, row, master, fn);
      case Unregistering(_) =>
        if current.Some? { UnsubscribeCallsAreOwn(current.value.events, current.value.fn, u); }
      case Updating(row, fn, order) =>
        if current.Some? { CallsAreOwn(order, row, master, current.value, fn); }
    }
  }

  /** A step of one thread keeps the configuration well formed and is invisible to every other thread. */
  lemma AdvanceFrame(cfg: Config, u: string, master: string)
    requires Good(cfg)
    ensures Good(Advance(cfg, u, master))
    ensures forall o :: o != Some(u) ==> SameFor(cfg, Advance(cfg, u, master), o)
  {
    var cfg' := Advance(cfg, u, master);
    if u in cfg.threads {
      match cfg.threads[u] {
        case Waiting(request) =>
          FirstSectionIsOwn(request, CallbackOf(cfg.ix, u), u, master);
        case Calling(calls, put) =>
          if calls != [] {
            assert calls[0] in calls;
            DoCell(cfg.ix.consumer, calls[0], u, None, "");
            forall o, e | o != Some(u) ensures CellOf(cfg'.ix.consumer, o, e) == CellOf(cfg.ix.consumer, o, e) {
              DoCell(cfg.ix.consumer, calls[0], u, o, e);
            }
          }
        case Finished =>
      }
    }
  }

  /** What a thread does depends on nothing but what it can see. */
  lemma AdvanceLocal(cfg: Config, cfg': Config, u: string, master: string)
    requires Good(cfg) && Good(cfg') && SameFor(cfg, cfg', Some(u))
    ensures SameFor(Advance(cfg, u, master), Advance(cfg', u, master), Some(u))
  {
    assert ThreadOf(cfg, u) == ThreadOf(cfg', u);
    if u in cfg.threads && cfg.threads[u].Calling? && cfg.threads[u].calls != [] {
      var call := cfg.threads[u].calls[0];
      assert call in cfg.threads[u].calls;
      forall e ensures CellOf(Do(cfg.ix.consumer, call), Some(u), e) == CellOf(Do(cfg'.ix.consumer, call), Some(u), e) {
        DoCell(cfg.ix.consumer, call, u, Some(u), e);
        DoCell(cfg'.ix.consumer, call, u, Some(u), e);
        assert CellOf(cfg.ix.consumer, Some(u), e) == CellOf(cfg'.ix.consumer, Some(u), e);
      }
    }
  }

  function Alone(cfg: Config, u: string, turns: nat, master: string): Config {
    if turns == 0 then cfg else Advance(Alone(cfg, u, turns - 1, master), u, master)
  }

  lemma {:induction false} AloneGood(cfg: Config, u: string, turns: nat, master: string)
    requires Good(cfg)
    ensures Good(Alone(cfg, u, turns, master))
    ensures forall o :: o != Some(u) ==> SameFor(cfg, Alone(cfg, u, turns, master), o)
  {
    if turns > 0 {
      AloneGood(cfg, u, turns - 1, master);
      var cfg' := Alone(cfg, u, turns - 1, master);
      AdvanceFrame(cfg', u, master);
      forall o | o != Some(u) ensures SameFor(cfg, Advance(cfg', u, master), o) {
        assert SameFor(cfg, cfg', o) && SameFor(cfg', Advance(cfg', u, master), o);
      }
    }
  }

  lemma SameForChain(a: Config, b: Config, c: Config, o: Option<string>)
    requires SameFor(a, b, o) && SameFor(b, c, o)
    ensures SameFor(a, c, o) && SameFor(c, a, o)
  {
  }

  /** One more turn, seen by the thread of `u` and by everyone who has no thread. */
  lemma TurnProjects(cfg: Config, here: Config, next: Config, alone: Config, v: string, u: string, master: string)
    requires Good(here) && Good(alone) && next == Advance(here, v, master)
    requires SameFor(here, alone, Some(u)) && SameFor(cfg, here, None)
    ensures Good(next) && SameFor(cfg, next, None)
    ensures SameFor(next, if v == u then Advance(alone, u, master) else alone, Some(u))
  {
    AdvanceFrame(here, v, master);
    SameForChain(cfg, here, next, None);
    if v == u {
      AdvanceLocal(here, alone, u, master);
    } else {
      SameForChain(alone, here, next, Some(u));
    }
  }

  /** In any interleaving each subscription ends as if its own thread had taken its turns alone. */
  lemma {:induction false} ScheduleProjects(cfg: Config, turns: seq<string>, u: string, master: string)
    requires Good(cfg)
    ensures Good(Schedule(cfg, turns, master))
    ensures SameFor(Schedule(cfg, turns, master), Alone(cfg, u, multiset(turns)[u], master), Some(u))
    ensures SameFor(cfg, Schedule(cfg, turns, master), None)
  {
    if turns != [] {
      var init, v := turns[..|turns| - 1], turns[|turns| - 1];
      ScheduleProjects(cfg, init, u, master);
      assert turns == init + [v];
      AloneGood(cfg, u, multiset(init)[u], master);
      TurnProjects(cfg, Schedule(cfg, init, master), Schedule(cfg, turns, master),
                   Alone(cfg, u, multiset(init)[u], master), v, u, master);
    }
  }

  // ----- the events remembered, which no thread keeps to itself

  /** What the next turn of a thread adds to them. */
  function NextName(t: Option<Thread>): set<string> {
    if t.Some? && t.value.Calling? && t.value.calls != [] && t.value.calls[0].Sub? then {t.value.calls[0].event} else {}
  }

  function Names(cfg: Config): set<string> {
    cfg.ix.consumer.names
  }

  lemma AdvanceNames(cfg: Config, u: string, master: string)
    ensures Names(Advance(cfg, u, master)) == Names(cfg) + NextName(ThreadOf(cfg, u))
  {
  }

  /** What the turns of one thread add. */
  function Gain(cfg: Config, u: string, turns: nat, master: string): set<string> {
    if turns == 0 then {}
    else Gain(cfg, u, turns - 1, master) + NextName(ThreadOf(Alone(cfg, u, turns - 1, master), u))
  }

  lemma {:induction false} AloneNames(cfg: Config, u: string, turns: nat, master: string)
    ensures Names(Alone(cfg, u, turns, master)) == Names(cfg) + Gain(cfg, u, turns, master)
  {
    if turns > 0 {
      AloneNames(cfg, u, turns - 1, master);
      AdvanceNames(Alone(cfg, u, turns - 1, master), u, master);
    }
  }

  lemma GainMore(cfg: Config, cfg': Config, u: string, turns: nat, here: Config, here': Config, master: string)
    requires here == Alone(cfg, u, turns, master) && here' == Alone(cfg', u, turns, master)
    requires Gain(cfg, u, turns, master) == Gain(cfg', u, turns, master) && SameFor(here, here', Some(u))
    ensures Gain(cfg, u, turns + 1, master) == Gain(cfg', u, turns + 1, master)
  {
    assert ThreadOf(here, u) == ThreadOf(here', u);
  }

  lemma {:induction false} GainLocal(cfg: Config, cfg': Config, u: string, turns: nat, master: string)
    requires Good(cfg) && Good(cfg') && SameFor(cfg, cfg', Some(u))
    ensures Gain(cfg, u, turns, master) == Gain(cfg', u, turns, master)
  {
    if turns > 0 {
      var k := turns - 1;
      GainLocal(cfg, cfg', u, k, master);
      AloneLocal(cfg, cfg', u, k, master);
      GainMore(cfg, cfg', u, k, Alone(cfg, u, k, master), Alone(cfg', u, k, master), master);
    }
  }

  /** The event is among what so many turns of a thread add. */
  function Adds(cfg: Config, e: string, master: string): (string, nat) -> bool {
    (u: string, turns: nat) => e in Gain(cfg, u, turns, master)
  }

  ghost predicate ForSomeone(p: (string, nat) -> bool, turns: seq<string>) {
    exists u :: p(u, multiset(turns)[u])
  }

  lemma OneMoreTurn(p: (string, nat) -> bool, init: seq<string>, v: string, turns: seq<string>, more: bool)
    requires turns == init + [v]
    requires p(v, multiset(init)[v] + 1) <==> p(v, multiset(init)[v]) || more
    ensures ForSomeone(p, turns) <==> ForSomeone(p, init) || more
  {
    assert multiset(turns)[v] == multiset(init)[v] + 1;
    if ForSomeone(p, init) {
      var u :| p(u, multiset(init)[u]);
      assert p(u, multiset(turns)[u]);
    }
    if ForSomeone(p, turns) && !more {
      var u :| p(u, multiset(turns)[u]);
      assert p(u, multiset(init)[u]);
    }
    if more {
      assert p(v, multiset(turns)[v]);
    }
  }

  lemma GainStep(cfg: Config, u: string, turns: nat, t: Option<Thread>, e: string, master: string)
    requires t == ThreadOf(Alone(cfg, u, turns, master), u)
    ensures Adds(cfg, e, master)(u, turns + 1) <==> Adds(cfg, e, master)(u, turns) || e in NextName(t)
  {
  }

  /** An event is remembered in the end if it was at the start or if some thread's own turns add it. */
  lemma {:induction false} ScheduleNames(cfg: Config, turns: seq<string>, end: Config, e: string, master: string)
    requires Good(cfg) && end == Schedule(cfg, turns, master)
    ensures e in Names(end) <==> e in Names(cfg) || ForSomeone(Adds(cfg, e, master), turns)
  {
    if turns == [] {
      assert forall u :: !Adds(cfg, e, master)(u, 0);
    } else {
      var init, v := turns[..|turns| - 1], turns[|turns| - 1];
      var here := Schedule(cfg, init, master);
      assert turns == init + [v];
      ScheduleNames(cfg, init, here, e, master);
      ScheduleProjects(cfg, init, v, master);
      AdvanceNames(here, v, master);
      GainStep(cfg, v, multiset(init)[v], ThreadOf(here, v), e, master);
      OneMoreTurn(Adds(cfg, e, master), init, v, turns, e in NextName(ThreadOf(here, v)));
    }
  }

  /** Two interleavings giving every thread the same number of turns end in the same state. */
  lemma InterleavingsAgree(cfg: Config, turns: seq<string>, turns': seq<string>, master: string)
    requires Good(cfg) && multiset(turns) == multiset(turns')
    ensures Equivalent(Schedule(cfg, turns, master).ix, Schedule(cfg, turns', master).ix)
  {
    var a, b := Schedule(cfg, turns, master), Schedule(cfg, turns', master);
    ScheduleProjects(cfg, turns, "", master);
    ScheduleProjects(cfg, turns', "", master);
    forall o ensures Same(a.ix, b.ix, o) {
      if o.Some? {
        ScheduleProjects(cfg, turns, o.value, master);
        ScheduleProjects(cfg, turns', o.value, master);
        assert SameFor(a, b, o);
      } else {
        assert SameFor(cfg, a, None) && SameFor(cfg, b, None);
      }
    }
    forall e ensures e in Names(a) <==> e in Names(b) {
      ScheduleNames(cfg, turns, a, e, master);
      ScheduleNames(cfg, turns', b, e, master);
    }
    assert Names(a) == Names(b);
    SameForAllIsEquivalent(a.ix, b.ix);
  }

  // ----- against carrying the requests out one after the other

  function Exec(c: Consumer, calls: seq<BusCall>): Consumer {
    if calls == [] then c else Do(Exec(c, calls[..|calls| - 1]), calls[|calls| - 1])
  }

  lemma {:induction false} ExecAppend(c: Consumer, a: seq<BusCall>, b: seq<BusCall>)
    ensures Exec(c, a + b) == Exec(Exec(c, a), b)
  {
    if b == [] {
      assert a + b == a;
    } else {
      var n := |b| - 1;
      ExecAppend(c, a, b[..n]);
      assert (a + b)[..|a + b| - 1] == a + b[..n];
    }
  }

  lemma ExecShort(c: Consumer, x: BusCall, y: BusCall)
    ensures Exec(c, [x]) == Do(c, x) && Exec(c, [x, y]) == Do(Do(c, x), y)
  {
    assert [x][..0] == [] && [x, y][..1] == [x];
  }

  lemma {:induction false} UpdateAllIsExec(c: Consumer, order: seq<string>, base: Headers, events: seq<string>,
                                           prev: Callback, fn: Handler)
    ensures UpdateAll(c, order, base, events, prev, fn) == Exec(c, UpdateCalls(order, base, events, prev, fn))
  {
    if order != [] {
      var n := |order| - 1;
      UpdateAllIsExec(c, order[..n], base, events, prev, fn);
      var done := UpdateCalls(order[..n], base, events, prev, fn);
      var h := HeadersAfter(order, base);
      ExecAppend(c, done, StepCalls(order[n], h, events, prev, fn));
      ExecShort(Exec(c, done), Sub(order[n], fn, h), Unsub(order[n], prev.fn));
      ExecShort(Exec(c, done), Unsub(order[n], prev.fn), Sub(order[n], fn, h));
    }
  }

  lemma {:induction false} SubscribeAllIsExec(c: Consumer, events: seq<string>, fn: Handler, base: Headers)
    ensures SubscribeAll(c, events, fn, base) == Exec(c, SubscribeCalls(events, fn, base))
  {
    if events != [] {
      var n := |events| - 1;
      SubscribeAllIsExec(c, events[..n], fn, base);
      var done := SubscribeCalls(events[..n], fn, base);
      assert (done + [Sub(events[n], fn, Rewritten(events[n], base))])[..|done|] == done;
    }
  }

  lemma {:induction false} UnsubscribeAllIsExec(c: Consumer, events: seq<string>, fn: Handler)
    ensures UnsubscribeAll(c, events, fn) == Exec(c, UnsubscribeCalls(events, fn))
  {
    if events != [] {
      var n := |events| - 1;
      UnsubscribeAllIsExec(c, events[..n], fn);
      var done := UnsubscribeCalls(events[..n], fn);
      assert (done + [Unsub(events[n], fn)])[..|done|] == done;
    }
  }

  lemma CallDone(cfg: Config, u: string, calls: seq<BusCall>, put: Option<Callback>, k: nat, here: Config, next: Config,
                 master: string)
    requires k < |calls|
    requires here == Config(cfg.ix.(consumer := Exec(cfg.ix.consumer, calls[..k])),
                            cfg.threads[u := Calling(calls[k..], put)])
    requires next == Advance(here, u, master)
    ensures next == Config(cfg.ix.(consumer := Exec(cfg.ix.consumer, calls[..k + 1])),
                           cfg.threads[u := Calling(calls[k + 1..], put)])
  {
    assert calls[..k + 1][..k] == calls[..k] && calls[..k + 1][k] == calls[k];
    assert calls[k..][0] == calls[k] && calls[k..][1..] == calls[k + 1..];
    assert here.threads[u := Calling(calls[k + 1..], put)] == cfg.threads[u := Calling(calls[k + 1..], put)];
  }

  lemma NoCallDone(cfg: Config, u: string, calls: seq<BusCall>, put: Option<Callback>)
    requires ThreadOf(cfg, u) == Some(Calling(calls, put))
    ensures cfg == Config(cfg.ix.(consumer := Exec(cfg.ix.consumer, calls[..0])),
                          cfg.threads[u := Calling(calls[0..], put)])
  {
    assert calls[0..] == calls && cfg.threads[u := Calling(calls, put)] == cfg.threads;
  }

  lemma {:induction false} CallsRun(cfg: Config, u: string, calls: seq<BusCall>, put: Option<Callback>, k: nat,
                                    master: string)
    requires ThreadOf(cfg, u) == Some(Calling(calls, put)) && k <= |calls|
    ensures Alone(cfg, u, k, master)
         == Config(cfg.ix.(consumer := Exec(cfg.ix.consumer, calls[..k])), cfg.threads[u := Calling(calls[k..], put)])
  {
    if k == 0 {
      NoCallDone(cfg, u, calls, put);
    } else {
      CallsRun(cfg, u, calls, put, k - 1, master);
      CallDone(cfg, u, calls, put, k - 1, Alone(cfg, u, k - 1, master), Alone(cfg, u, k, master), master);
    }
  }

  lemma {:induction false} AloneSplit(cfg: Config, u: string, a: nat, b: nat, master: string)
    ensures Alone(cfg, u, a + b, master) == Alone(Alone(cfg, u, a, master), u, b, master)
  {
    if b > 0 {
      AloneSplit(cfg, u, a, b - 1, master);
    }
  }

  /** How many turns a request takes. */
  function Turns(request: Request, current: Option<Callback>, master: string): nat {
    1 + Remaining(FirstSection(request, current, master).1)
  }

  function Remaining(t: Thread): nat {
    if t.Calling? then |t.calls| + 1 else 0
  }

  function PutIf(ix: Index, u: string, cb: Option<Callback>): Index {
    if cb.Some? then Put(ix, u, cb) else ix
  }

  lemma CallsFinish(cfg: Config, u: string, calls: seq<BusCall>, put: Option<Callback>, master: string)
    requires ThreadOf(cfg, u) == Some(Calling(calls, put))
    ensures Alone(cfg, u, |calls| + 1, master)
         == Config(PutIf(cfg.ix.(consumer := Exec(cfg.ix.consumer, calls)), u, put), cfg.threads[u := Finished])
  {
    CallsRun(cfg, u, calls, put, |calls|, master);
    assert calls[..|calls|] == calls && calls[|calls|..] == [];
    var here := Alone(cfg, u, |calls|, master);
    assert here.threads[u := Finished] == cfg.threads[u := Finished];
  }

  /** An operation is its first lock section, its bus calls, and its last lock section. */
  lemma PerformIsSections(ix: Index, request: Request, u: string, master: string)
    requires OwnRequest(request, u)
    ensures var (cb, t) := FirstSection(request, CallbackOf(ix, u), master);
            var ix' := Put(ix, u, cb);
            Perform(ix, request, master)
            == if t.Calling? then PutIf(ix'.(consumer := Exec(ix.consumer, t.calls)), u, t.put) else ix'
  {
    match request {
      case Registering(row, fn) => SubscribeAllIsExec(ix.consumer, row.events, fn, BaseHeaders(row, master));
      case Unregistering(_) =>
        if u in ix.callbacks {
          UnsubscribeAllIsExec(ix.consumer, ix.callbacks[u].events, ix.callbacks[u].fn);
        } else {
          assert ix.callbacks - {u} == ix.callbacks;
        }
      case Updating(row, fn, order) =>
        if u in ix.callbacks {
          UpdateAllIsExec(ix.consumer, order, BaseHeaders(row, master), row.events, ix.callbacks[u], fn);
          var cb := Callback(fn, row.events, HeadersAfter(order, BaseHeaders(row, master)));
          assert (ix.callbacks - {u})[u := cb] == ix.callbacks[u := cb];
        } else {
          assert ix.callbacks - {u} == ix.callbacks;
        }
    }
  }

  lemma FirstTurn(cfg: Config, u: string, request: Request, cb: Option<Callback>, t: Thread, master: string)
    requires ThreadOf(cfg, u) == Some(Waiting(request))
       && FirstSection(request, CallbackOf(cfg.ix, u), master) == (cb, t)
    ensures Alone(cfg, u, 1, master) == Config(Put(cfg.ix, u, cb), cfg.threads[u := t])
  {
    assert Alone(cfg, u, 0, master) == cfg;
  }

  /** The rest of a thread's turns, after the first lock section. */
  lemma RestOfTurns(first: Config, u: string, t: Thread, master: string)
    requires ThreadOf(first, u) == Some(t) && !t.Waiting?
    ensures Alone(first, u, Remaining(t), master)
         == Config(if t.Calling? then PutIf(first.ix.(consumer := Exec(first.ix.consumer, t.calls)), u, t.put)
                   else first.ix,
                   first.threads[u := Finished])
  {
    if t.Calling? {
      CallsFinish(first, u, t.calls, t.put, master);
    } else {
      assert first.threads[u := Finished] == first.threads;
    }
  }

  lemma LaterTurns(cfg: Config, first: Config, end: Config, u: string, k: nat, master: string)
    requires first == Alone(cfg, u, 1, master) && end == Alone(first, u, k, master)
    ensures Alone(cfg, u, 1 + k, master) == end
  {
    AloneSplit(cfg, u, 1, k, master);
  }

  lemma SectionsTogether(cfg: Config, request: Request, u: string, cb: Option<Callback>, t: Thread, master: string)
    requires OwnRequest(request, u) && FirstSection(request, CallbackOf(cfg.ix, u), master) == (cb, t)
    ensures !t.Waiting?
    ensures var first := Config(Put(cfg.ix, u, cb), cfg.threads[u := t]);
            Config(if t.Calling? then PutIf(first.ix.(consumer := Exec(first.ix.consumer, t.calls)), u, t.put)
                   else first.ix,
                   first.threads[u := Finished])
            == Config(Perform(cfg.ix, request, master), cfg.threads[u := Finished])
  {
    PerformIsSections(cfg.ix, request, u, master);
    assert cfg.threads[u := t][u := Finished] == cfg.threads[u := Finished];
  }

  /** A thread left alone does what the uninterrupted operation does, and is then finished. */
  lemma AloneIsPerform(ix: Index, threads: map<string, Thread>, u: string, master: string)
    requires u in threads && threads[u].Waiting? && OwnRequest(threads[u].request, u)
    ensures Alone(Config(ix, threads), u, Turns(threads[u].request, CallbackOf(ix, u), master), master)
         == Config(Perform(ix, threads[u].request, master), threads[u := Finished])
  {
    var cfg, request := Config(ix, threads), threads[u].request;
    var section := FirstSection(request, CallbackOf(ix, u), master);
    var first := Config(Put(ix, u, section.0), threads[u := section.1]);
    FirstTurn(cfg, u, request, section.0, section.1, master);
    SectionsTogether(cfg, request, u, section.0, section.1, master);
    RestOfTurns(first, u, section.1, master);
    LaterTurns(cfg, first, Alone(first, u, Remaining(section.1), master), u, Remaining(section.1), master);
  }

  lemma {:induction false} FinishedStays(cfg: Config, u: string, k: nat, j: nat, master: string)
    requires ThreadOf(Alone(cfg, u, k, master), u) == Some(Finished) && k <= j
    ensures Alone(cfg, u, j, master) == Alone(cfg, u, k, master)
  {
    if k < j {
      FinishedStays(cfg, u, k, j - 1, master);
    }
  }

  lemma {:induction false} AloneLocal(cfg: Config, cfg': Config, u: string, turns: nat, master: string)
    requires Good(cfg) && Good(cfg') && SameFor(cfg, cfg', Some(u))
    ensures SameFor(Alone(cfg, u, turns, master), Alone(cfg', u, turns, master), Some(u))
  {
    if turns > 0 {
      AloneLocal(cfg, cfg', u, turns - 1, master);
      AloneGood(cfg, u, turns - 1, master);
      AloneGood(cfg', u, turns - 1, master);
      AdvanceLocal(Alone(cfg, u, turns - 1, master), Alone(cfg', u, turns - 1, master), u, master);
    }
  }

  ghost predicate AllWaiting(threads: map<string, Thread>) {
    forall u :: u in threads ==> threads[u].Waiting?
  }

  function Outcome(cfg: Config, u: string, done: bool, master: string): Index {
    if done && u in cfg.threads && cfg.threads[u].Waiting?
    then Perform(cfg.ix, cfg.threads[u].request, master)
    else cfg.ix
  }

  /** One after the other, each subscription ends as its own operation leaves it. */
  lemma {:induction false} SerialProjects(cfg: Config, turns: seq<string>, u: string, master: string)
    requires Good(cfg) && AllWaiting(cfg.threads) && Distinct(turns)
    ensures Good(Config(Serial(cfg.ix, cfg.threads, turns, master), cfg.threads))
    ensures Same(Serial(cfg.ix, cfg.threads, turns, master), Outcome(cfg, u, u in turns, master), Some(u))
    ensures Same(Serial(cfg.ix, cfg.threads, turns, master), cfg.ix, None)
  {
    if turns != [] {
      var init, v := turns[..|turns| - 1], turns[|turns| - 1];
      SerialProjects(cfg, init, u, master);
      SerialProjects(cfg, init, v, master);
      assert turns == init + [v];
      var here := Config(Serial(cfg.ix, cfg.threads, init, master), cfg.threads);
      if v in cfg.threads {
        var k := Turns(cfg.threads[v].request, CallbackOf(here.ix, v), master);
        AloneIsPerform(here.ix, cfg.threads, v, master);
        AloneGood(here, v, k, master);
        GoodWithThreads(Alone(here, v, k, master), cfg.threads);
        assert SameFor(here, Alone(here, v, k, master), None);
        if v == u {
          assert v !in init;
          AloneIsPerform(cfg.ix, cfg.threads, v, master);
          AloneLocal(here, cfg, v, k, master);
        } else {
          assert SameFor(here, Alone(here, v, k, master), Some(u));
        }
      }
    }
  }

  lemma GoodWithThreads(cfg: Config, threads: map<string, Thread>)
    requires Good(cfg) && forall u :: u in threads ==> OwnThread(threads[u], u)
    ensures Good(Config(cfg.ix, threads))
  {
  }

  function TurnsOf(cfg: Config, u: string, master: string): nat {
    if u in cfg.threads && cfg.threads[u].Waiting?
    then Turns(cfg.threads[u].request, CallbackOf(cfg.ix, u), master)
    else 0
  }

  /** Carrying a request out adds what its thread's turns add. */
  lemma PerformNames(cfg: Config, here: Config, v: string, end: Index, master: string)
    requires Good(cfg) && Good(here) && here.threads == cfg.threads && SameFor(here, cfg, Some(v))
    requires v in cfg.threads && cfg.threads[v].Waiting? && end == Perform(here.ix, cfg.threads[v].request, master)
    ensures end.consumer.names == Names(here) + Gain(cfg, v, TurnsOf(cfg, v, master), master)
  {
    var k := TurnsOf(cfg, v, master);
    AloneIsPerform(here.ix, cfg.threads, v, master);
    AloneNames(here, v, k, master);
    GainLocal(here, cfg, v, k, master);
  }

  ghost predicate RequestAdds(cfg: Config, turns: seq<string>, e: string, master: string) {
    exists u :: u in turns && Adds(cfg, e, master)(u, TurnsOf(cfg, u, master))
  }

  lemma OneMoreRequest(cfg: Config, init: seq<string>, v: string, turns: seq<string>, e: string, master: string)
    requires turns == init + [v]
    ensures RequestAdds(cfg, turns, e, master)
       <==> RequestAdds(cfg, init, e, master) || Adds(cfg, e, master)(v, TurnsOf(cfg, v, master))
  {
    assert forall u :: u in turns <==> u in init || u == v;
  }

  lemma {:induction false} SerialNames(cfg: Config, turns: seq<string>, end: Index, e: string, master: string)
    requires Good(cfg) && AllWaiting(cfg.threads) && Distinct(turns)
    requires end == Serial(cfg.ix, cfg.threads, turns, master)
    ensures e in end.consumer.names <==> e in Names(cfg) || RequestAdds(cfg, turns, e, master)
  {
    if turns != [] {
      var init, v := turns[..|turns| - 1], turns[|turns| - 1];
      var here := Config(Serial(cfg.ix, cfg.threads, init, master), cfg.threads);
      assert turns == init + [v];
      SerialNames(cfg, init, here.ix, e, master);
      SerialProjects(cfg, init, v, master);
      OneMoreRequest(cfg, init, v, turns, e, master);
      if v in cfg.threads {
        assert v !in init;
        PerformNames(cfg, here, v, end, master);
      }
    }
  }

  /** How many turns a thread has beyond its last does not matter, nor turns given to no thread. */
  lemma FinishedAdds(cfg: Config, u: string, j: nat, e: string, master: string)
    requires Good(cfg) && AllWaiting(cfg.threads) && e !in Names(cfg)
    requires u in cfg.threads ==> ThreadOf(Alone(cfg, u, j, master), u) == Some(Finished)
    ensures Adds(cfg, e, master)(u, j) <==> Adds(cfg, e, master)(u, TurnsOf(cfg, u, master))
  {
    var k := TurnsOf(cfg, u, master);
    AloneNames(cfg, u, j, master);
    AloneNames(cfg, u, k, master);
    if u in cfg.threads {
      AloneEndsAlike(cfg, u, j, master);
    } else {
      NoThread(cfg, u, j, master);
    }
  }

  lemma AloneEndsAlike(cfg: Config, u: string, j: nat, master: string)
    requires Good(cfg) && AllWaiting(cfg.threads) && u in cfg.threads
    requires ThreadOf(Alone(cfg, u, j, master), u) == Some(Finished)
    ensures Alone(cfg, u, j, master) == Alone(cfg, u, TurnsOf(cfg, u, master), master)
    ensures Alone(cfg, u, j, master).ix == Perform(cfg.ix, cfg.threads[u].request, master)
  {
    var k := TurnsOf(cfg, u, master);
    AloneIsPerform(cfg.ix, cfg.threads, u, master);
    if k <= j {
      FinishedStays(cfg, u, k, j, master);
    } else {
      FinishedStays(cfg, u, j, k, master);
    }
  }

  lemma EndNames(cfg: Config, turns: seq<string>, order: seq<string>, end: Config, serial: Index, e: string,
                 master: string)
    requires Good(cfg) && AllWaiting(cfg.threads)
    requires end == Schedule(cfg, turns, master) && serial == Serial(cfg.ix, cfg.threads, order, master)
    requires forall u :: u in cfg.threads ==> ThreadOf(end, u) == Some(Finished)
    requires Distinct(order) && forall u :: u in cfg.threads ==> u in order
    ensures e in Names(end) <==> e in serial.consumer.names
  {
    ScheduleNames(cfg, turns, end, e, master);
    SerialNames(cfg, order, serial, e, master);
    if e !in Names(cfg) {
      forall u
        ensures Adds(cfg, e, master)(u, multiset(turns)[u]) <==> Adds(cfg, e, master)(u, TurnsOf(cfg, u, master))
        ensures Adds(cfg, e, master)(u, TurnsOf(cfg, u, master)) ==> u in order
      {
        ScheduleProjects(cfg, turns, u, master);
        FinishedAdds(cfg, u, multiset(turns)[u], e, master);
      }
    }
  }

  /** Any interleaving in which every thread finishes ends as running the requests one after the other, in
      any order, up to the order of handlers inside a list. */
  lemma InterleavingIsSerial(cfg: Config, turns: seq<string>, order: seq<string>, master: string)
    requires Good(cfg) && AllWaiting(cfg.threads)
    requires forall u :: u in cfg.threads ==> ThreadOf(Schedule(cfg, turns, master), u) == Some(Finished)
    requires Distinct(order) && forall u :: u in cfg.threads ==> u in order
    ensures Equivalent(Schedule(cfg, turns, master).ix, Serial(cfg.ix, cfg.threads, order, master))
  {
    var end := Schedule(cfg, turns, master);
    var serial := Serial(cfg.ix, cfg.threads, order, master);
    forall o ensures Same(end.ix, serial, o) {
      var u := if o.Some? then o.value else "";
      ScheduleProjects(cfg, turns, u, master);
      SerialProjects(cfg, order, u, master);
      if o.Some? {
        var j := multiset(turns)[u];
        if u in cfg.threads {
          AloneEndsAlike(cfg, u, j, master);
        } else {
          NoThread(cfg, u, j, master);
        }
      }
    }
    forall e ensures e in Names(end) <==> e in serial.consumer.names {
      EndNames(cfg, turns, order, end, serial, e, master);
    }
    assert Names(end) == serial.consumer.names;
    ScheduleProjects(cfg, turns, "", master);
    SerialProjects(cfg, order, "", master);
    SameForAllIsEquivalent(end.ix, serial);
  }

  lemma {:induction false} NoThread(cfg: Config, u: string, k: nat, master: string)
    requires u !in cfg.threads
    ensures Alone(cfg, u, k, master) == cfg
  {
    if k > 0 {
      NoThread(cfg, u, k - 1, master);
    }
  }

  // ----- with the connection lost and restored in between

  datatype Turn = Of(uuid: string) | Lost | Restored

  function Take(cfg: Config, turn: Turn, master: string): Config {
    match turn
    case Of(u) => Advance(cfg, u, master)
    case Lost => cfg.(ix := cfg.ix.(consumer := Disconnect(cfg.ix.consumer)))
    case Restored => cfg.(ix := cfg.ix.(consumer := Redeclare(cfg.ix.consumer)))
  }

  function LinkedSchedule(cfg: Config, turns: seq<Turn>, master: string): Config {
    if turns == [] then cfg
    else Take(LinkedSchedule(cfg, turns[..|turns| - 1], master), turns[|turns| - 1], master)
  }

  function ThreadTurns(turns: seq<Turn>): seq<string> {
    if turns == [] then []
    else
      var last := turns[|turns| - 1];
      ThreadTurns(turns[..|turns| - 1]) + if last.Of? then [last.uuid] else []
  }

  /** The process's own side is the same: callbacks, threads, table and remembered events. */
  ghost predicate SameLocally(a: Config, b: Config) {
    && a.ix.callbacks == b.ix.callbacks && a.threads == b.threads
    && a.ix.consumer.table == b.ix.consumer.table && Names(a) == Names(b)
  }

  lemma TakeLocally(a: Config, b: Config, turn: Turn, master: string)
    requires SameLocally(a, b)
    ensures SameLocally(Take(a, turn, master), if turn.Of? then Advance(b, turn.uuid, master) else b)
  {
  }

  /** The state of the connection at each turn makes no difference to the process's own side. */
  lemma {:induction false} LinkedIsSchedule(cfg: Config, turns: seq<Turn>, linked: Config, plain: Config,
                                            master: string)
    requires linked == LinkedSchedule(cfg, turns, master) && plain == Schedule(cfg, ThreadTurns(turns), master)
    ensures SameLocally(linked, plain)
  {
    if turns != [] {
      var init, last := turns[..|turns| - 1], turns[|turns| - 1];
      var a, b := LinkedSchedule(cfg, init, master), Schedule(cfg, ThreadTurns(init), master);
      LinkedIsSchedule(cfg, init, a, b, master);
      TakeLocally(a, b, last, master);
      ScheduleLast(cfg, ThreadTurns(init), last, master);
    }
  }

  lemma ScheduleLast(cfg: Config, init: seq<string>, last: Turn, master: string)
    ensures Schedule(cfg, init + (if last.Of? then [last.uuid] else []), master)
         == if last.Of? then Advance(Schedule(cfg, init, master), last.uuid, master) else Schedule(cfg, init, master)
  {
    if last.Of? {
      assert (init + [last.uuid])[..|init|] == init;
    } else {
      assert init + [] == init;
    }
  }

  /** Equal but for what the broker holds, and for the order inside each handler list. */
  ghost predicate LocallyEquivalent(ix: Index, ix': Index) {
    && ix.callbacks == ix'.callbacks && ix.consumer.names == ix'.consumer.names
    && forall e :: multiset(Entries(ix.consumer, e)) == multiset(Entries(ix'.consumer, e))
  }

  lemma SameLocallyEquivalent(a: Config, b: Config, ix: Index)
    requires SameLocally(a, b) && Equivalent(b.ix, ix)
    ensures LocallyEquivalent(a.ix, ix)
  {
    forall e ensures multiset(Entries(a.ix.consumer, e)) == multiset(Entries(ix.consumer, e)) {
      assert Entries(a.ix.consumer, e) == Entries(b.ix.consumer, e);
    }
  }

  /** Connection losses and reconnections anywhere between the turns: callbacks, handler lists up to order, and
      remembered events still end as running the requests one after the other. */
  lemma LinkedInterleavingIsSerial(cfg: Config, turns: seq<Turn>, order: seq<string>, end: Config, master: string)
    requires Good(cfg) && AllWaiting(cfg.threads) && end == LinkedSchedule(cfg, turns, master)
    requires forall u :: u in cfg.threads ==> ThreadOf(end, u) == Some(Finished)
    requires Distinct(order) && forall u :: u in cfg.threads ==> u in order
    ensures LocallyEquivalent(end.ix, Serial(cfg.ix, cfg.threads, order, master))
  {
    var plain := Schedule(cfg, ThreadTurns(turns), master);
    LinkedIsSchedule(cfg, turns, end, plain, master);
    forall u | u in cfg.threads ensures ThreadOf(plain, u) == Some(Finished) {
      assert ThreadOf(end, u) == Some(Finished);
    }
    InterleavingIsSerial(cfg, ThreadTurns(turns), order, master);
    SameLocallyEquivalent(end, plain, Serial(cfg.ix, cfg.threads, order, master));
  }

  /** And if a reconnection comes last, every entry is bound. */
  lemma RestoredLast(cfg: Config, turns: seq<Turn>, end: Config, master: string)
    requires turns != [] && turns[|turns| - 1] == Restored && end == LinkedSchedule(cfg, turns, master)
    ensures end.ix.consumer.connected
    ensures forall e, x :: x in Entries(end.ix.consumer, e) ==> x.binding in end.ix.consumer.bound
  {
    AllBound(LinkedSchedule(cfg, turns[..|turns| - 1], master).ix.consumer);
  }

  /** If a loss comes last, the broker holds nothing; the process's own side is as before it. */
  lemma LostLast(cfg: Config, turns: seq<Turn>, end: Config, master: string)
    requires turns != [] && turns[|turns| - 1] == Lost && end == LinkedSchedule(cfg, turns, master)
    ensures !end.ix.consumer.connected && end.ix.consumer.bound == {} && end.ix.consumer.upstream == {}
    ensures SameLocally(end, LinkedSchedule(cfg, turns[..|turns| - 1], master))
  {
  }

  lemma AllBound(c: Consumer)
    ensures forall e, x :: x in Entries(Redeclare(c), e) ==> x.binding in Redeclare(c).bound
  {
    forall e, x | x in Entries(Redeclare(c), e) ensures x.binding in Redeclare(c).bound {
      assert e in c.table && x in c.table[e];
    }
  }
}
