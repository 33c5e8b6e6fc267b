/** `wazo_webhookd/bus.py` as objects: the broker's side of the bindings, the exchange that keeps its own
    bindings so that they survive a broker restart, and the consumer with its handler table. */
module Bus {
  import opened Rows
  import opened Headers
  import opened Consumers

  /** What the broker holds for this process; all of it is auto-delete. */
  class Broker {
    var upstream: set<string>
    var bound: set<Binding>

    constructor ()
      ensures upstream == {} && bound == {}
    {
      upstream, bound := {}, {};
    }
  }

  datatype Connection = Absent | Open | Released

  class WebhookdExchange {
    const broker: Broker
    var bindings: set<string>
    var connection: Connection

    constructor (broker: Broker)
      ensures this.broker == broker && bindings == {} && connection == Absent
    {
      this.broker, bindings, connection := broker, {}, Absent;
    }

    method Subscribe(event: string)
      modifies this`bindings
      ensures bindings == old(bindings) + {event}
    {
      bindings := bindings + {event};
    }

    method SubscribeConnected(event: string)
      modifies this, broker`upstream
      ensures bindings == old(bindings) + {event}
      ensures broker.upstream == old(broker.upstream) + {event}
      ensures connection == Open
    {
      if connection == Absent {
        connection := Released;
      }
      if connection != Open {
        connection := Open;
      }
      broker.upstream := broker.upstream + {event};
      bindings := bindings + {event};
    }

    /** Binds everything remembered, whatever the broker still has. */
    method Declare()
      modifies broker`upstream
      ensures broker.upstream == old(broker.upstream) + bindings
    {
      var rest := bindings;
      while rest != {}
        invariant rest <= bindings
        invariant broker.upstream == old(broker.upstream) + (bindings - rest)
        decreases rest
      {
        var event :| event in rest;
        broker.upstream := broker.upstream + {event};
        rest := rest - {event};
      }
    }

    method OnConnectionError()
      modifies this`connection
      ensures connection == if old(connection) == Absent then Absent else Released
    {
      if connection == Absent { return; }
      connection := Released;
    }
  }

  /** The end of one handler call: the state it left behind, and whether it raised. */
  datatype Outcome = Returned(after: Consumer) | Raised(after: Consumer)

  function Selected(es: seq<Entry>, headers: Headers): seq<Handler> {
    if es == [] then []
    else
      var last := es[|es| - 1];
      Selected(es[..|es| - 1], headers)
      + if CheckHeadersMatch("headers", headers, last.binding) then [last.handler] else []
  }

  function AfterCalls(c: Consumer, calls: seq<Handler>, effect: (Handler, Consumer) -> Outcome): Consumer {
    if calls == [] then c
    else effect(calls[|calls| - 1], AfterCalls(c, calls[..|calls| - 1], effect)).after
  }

  /** The calls that raised, each in the state the earlier ones, raising or not, had left. */
  function FailedCalls(c: Consumer, calls: seq<Handler>, effect: (Handler, Consumer) -> Outcome): seq<Handler> {
    if calls == [] then []
    else
      var init, last := calls[..|calls| - 1], calls[|calls| - 1];
      FailedCalls(c, init, effect) + if effect(last, AfterCalls(c, init, effect)).Raised? then [last] else []
  }

  /** The states between the calls: what a handler left, whether it returned or raised, is what the next finds. */
  ghost predicate Trace(c: Consumer, calls: seq<Handler>, effect: (Handler, Consumer) -> Outcome, st: seq<Consumer>) {
    && |st| == |calls| + 1 && st[0] == c
    && forall i :: 0 <= i < |calls| ==>
         effect(calls[i], st[i]) == Returned(st[i + 1]) || effect(calls[i], st[i]) == Raised(st[i + 1])
  }

  lemma TracePrefix(c: Consumer, calls: seq<Handler>, effect: (Handler, Consumer) -> Outcome, st: seq<Consumer>)
    requires calls != [] && Trace(c, calls, effect, st)
    ensures Trace(c, calls[..|calls| - 1], effect, st[..|calls|])
  {
    var n := |calls| - 1;
    forall i | 0 <= i < n
      ensures var o := effect(calls[..n][i], st[..n + 1][i]);
              o == Returned(st[..n + 1][i + 1]) || o == Raised(st[..n + 1][i + 1])
    {
      assert calls[..n][i] == calls[i] && st[..n + 1][i] == st[i] && st[..n + 1][i + 1] == st[i + 1];
    }
  }

  /** A dispatch ends where its calls, one after the other, lead; nothing a handler did is undone. */
  lemma {:induction false} AfterCallsIsLast(c: Consumer, calls: seq<Handler>, effect: (Handler, Consumer) -> Outcome,
                                            st: seq<Consumer>)
    requires Trace(c, calls, effect, st)
    ensures AfterCalls(c, calls, effect) == st[|calls|]
  {
    if calls != [] {
      var n := |calls| - 1;
      TracePrefix(c, calls, effect, st);
      AfterCallsIsLast(c, calls[..n], effect, st[..n + 1]);
      assert effect(calls[n], st[n]) == Returned(st[n + 1]) || effect(calls[n], st[n]) == Raised(st[n + 1]);
    }
  }

  /** There is one such series of states for any calls. */
  lemma {:induction false} TraceOf(c: Consumer, calls: seq<Handler>, effect: (Handler, Consumer) -> Outcome)
    returns (st: seq<Consumer>)
    ensures Trace(c, calls, effect, st)
  {
    if calls == [] {
      st := [c];
    } else {
      var n := |calls| - 1;
      var init := TraceOf(c, calls[..n], effect);
      st := init + [effect(calls[n], init[n]).after];
      forall i | 0 <= i < |calls|
        ensures effect(calls[i], st[i]) == Returned(st[i + 1]) || effect(calls[i], st[i]) == Raised(st[i + 1])
      {
        assert st[i] == init[i];
        if i < n {
          assert calls[..n][i] == calls[i] && st[i + 1] == init[i + 1];
        }
      }
    }
  }

  /** Positions in a sequence, in order, picked by a condition. */
  ghost predicate Picks(at: seq<nat>, n: nat, chosen: nat -> bool) {
    && (forall j, k :: 0 <= j < k < |at| ==> at[j] < at[k])
    && (forall i: nat :: i in at <==> i < n && chosen(i))
  }

  lemma PicksMore(at: seq<nat>, n: nat, chosen: nat -> bool)
    requires Picks(at, n, chosen)
    ensures Picks(if chosen(n) then at + [n] else at, n + 1, chosen)
  {
    forall k | 0 <= k < |at| ensures at[k] < n {
      assert at[k] in at;
    }
  }

  /** What the last element adds to a list picked by position. */
  lemma PickedMore(init: seq<nat>, last: nat, before: seq<Handler>, more: bool, all: seq<Handler>, handler: Handler,
                   after: seq<Handler>)
    requires |init| == |before| && |all| == last + 1 && all[last] == handler
    requires forall k :: 0 <= k < |init| ==> init[k] < last && before[k] == all[init[k]]
    requires after == before + if more then [handler] else []
    ensures var at := if more then init + [last] else init;
            |at| == |after| && forall k :: 0 <= k < |at| ==> at[k] <= last && after[k] == all[at[k]]
  {
  }

  /** The calls chosen are those that raised. */
  ghost predicate RaisedAre(calls: seq<Handler>, effect: (Handler, Consumer) -> Outcome, st: seq<Consumer>,
                            chosen: nat -> bool)
    requires |st| == |calls| + 1
  {
    forall i :: 0 <= i < |calls| ==> (chosen(i) <==> effect(calls[i], st[i]) == Raised(st[i + 1]))
  }

  lemma RaisedPrefix(calls: seq<Handler>, effect: (Handler, Consumer) -> Outcome, st: seq<Consumer>,
                     chosen: nat -> bool)
    requires calls != [] && |st| == |calls| + 1 && RaisedAre(calls, effect, st, chosen)
    ensures RaisedAre(calls[..|calls| - 1], effect, st[..|calls|], chosen)
  {
    var n := |calls| - 1;
    var init, past := calls[..n], st[..n + 1];
    forall i | 0 <= i < n ensures chosen(i) <==> effect(init[i], past[i]) == Raised(past[i + 1]) {
      assert init[i] == calls[i] && past[i] == st[i] && past[i + 1] == st[i + 1];
    }
  }

  lemma FailedLast(c: Consumer, calls: seq<Handler>, effect: (Handler, Consumer) -> Outcome, st: seq<Consumer>,
                   more: bool)
    requires calls != [] && Trace(c, calls, effect, st)
    requires var n := |calls| - 1; more <==> effect(calls[n], st[n]) == Raised(st[n + 1])
    ensures FailedCalls(c, calls, effect)
         == FailedCalls(c, calls[..|calls| - 1], effect) + if more then [calls[|calls| - 1]] else []
  {
    var n := |calls| - 1;
    TracePrefix(c, calls, effect, st);
    AfterCallsIsLast(c, calls[..n], effect, st[..n + 1]);
    assert effect(calls[n], st[n]) == Returned(st[n + 1]) || effect(calls[n], st[n]) == Raised(st[n + 1]);
  }

  /** The calls reported are exactly those that raised in the state they were made in, in order. */
  lemma {:induction false} FailedCallsRaised(c: Consumer, calls: seq<Handler>, effect: (Handler, Consumer) -> Outcome,
                                             st: seq<Consumer>, chosen: nat -> bool) returns (at: seq<nat>)
    requires Trace(c, calls, effect, st) && RaisedAre(calls, effect, st, chosen)
    ensures Picks(at, |calls|, chosen)
    ensures |at| == |FailedCalls(c, calls, effect)|
    ensures forall k :: 0 <= k < |at| ==> at[k] < |calls| && FailedCalls(c, calls, effect)[k] == calls[at[k]]
  {
    at := [];
    if calls != [] {
      var n := |calls| - 1;
      var before, after := FailedCalls(c, calls[..n], effect), FailedCalls(c, calls, effect);
      TracePrefix(c, calls, effect, st);
      RaisedPrefix(calls, effect, st, chosen);
      FailedLast(c, calls, effect, st, chosen(n));
      var init := FailedCallsRaised(c, calls[..n], effect, st[..n + 1], chosen);
      PicksMore(init, n, chosen);
      PickedMore(init, n, before, chosen(n), calls, calls[n], after);
      at := if chosen(n) then init + [n] else init;
    }
  }

  function Handlers(es: seq<Entry>): (hs: seq<Handler>)
    ensures |hs| == |es| && forall i :: 0 <= i < |es| ==> hs[i] == es[i].handler
  {
    seq(|es|, i requires 0 <= i < |es| => es[i].handler)
  }

  lemma SelectedLast(es: seq<Entry>, headers: Headers, accepted: bool)
    requires es != [] && (accepted <==> CheckHeadersMatch("headers", headers, es[|es| - 1].binding))
    ensures Selected(es, headers)
         == Selected(es[..|es| - 1], headers) + if accepted then [es[|es| - 1].handler] else []
  {
  }

  function Accepts(headers: Headers): Entry -> bool {
    (x: Entry) => CheckHeadersMatch("headers", headers, x.binding)
  }

  lemma {:induction false} SelectedPicks(es: seq<Entry>, headers: Headers, accepts: Entry -> bool, chosen: nat -> bool)
    returns (at: seq<nat>)
    requires accepts == Accepts(headers)
    requires forall i :: 0 <= i < |es| ==> (chosen(i) <==> accepts(es[i]))
    ensures Picks(at, |es|, chosen)
    ensures |at| == |Selected(es, headers)|
    ensures forall k :: 0 <= k < |at| ==> at[k] < |es| && Selected(es, headers)[k] == Handlers(es)[at[k]]
  {
    at := [];
    if es != [] {
      var n := |es| - 1;
      var init := SelectedPicks(es[..n], headers, accepts, chosen);
      SelectedLast(es, headers, chosen(n));
      PicksMore(init, n, chosen);
      PickedMore(init, n, Selected(es[..n], headers), chosen(n), Handlers(es), es[n].handler, Selected(es, headers));
      at := if chosen(n) then init + [n] else init;
    }
  }

  /** The handlers called are exactly those of the entries the filter accepts, in order. */
  lemma SelectedInOrder(es: seq<Entry>, headers: Headers, chosen: nat -> bool) returns (at: seq<nat>)
    requires forall i :: 0 <= i < |es| ==> (chosen(i) <==> CheckHeadersMatch("headers", headers, es[i].binding))
    ensures Picks(at, |es|, chosen)
    ensures |at| == |Selected(es, headers)|
    ensures forall k :: 0 <= k < |at| ==> at[k] < |es| && Selected(es, headers)[k] == es[at[k]].handler
  {
    at := SelectedPicks(es, headers, Accepts(headers), chosen);
  }

  class BusConsumer {
    const broker: Broker
    const exchange: WebhookdExchange
    var table: map<string, seq<Entry>>
    var running: bool

    constructor ()
      ensures Valid() && fresh(broker) && fresh(exchange)
      ensures State() == IDLE
    {
      var b := new Broker();
      broker := b;
      exchange := new WebhookdExchange(b);
      table, running := map[], false;
    }

    ghost predicate Valid() {
      exchange.broker == broker
    }

    function State(): Consumer
      reads this, broker, exchange
    {
      Consumer(running, table, broker.bound, exchange.bindings, broker.upstream)
    }

    method Subscribe(event: string, handler: Handler, headers: Headers)
      requires Valid()
      modifies this`table, broker, exchange
      ensures State() == Consumers.Subscribe(old(State()), event, handler, headers)
    {
      if running {
        exchange.SubscribeConnected(event);
      } else {
        exchange.Subscribe(event);
      }
      var b := Arguments(event, headers, true);
      if running {
        broker.bound := broker.bound + {b};
      }
      table := table[event := (if event in table then table[event] else []) + [Entry(handler, b)]];
    }

    method Unsubscribe(event: string, handler: Handler)
      requires Valid()
      modifies this`table, broker`bound
      ensures State() == Consumers.Unsubscribe(old(State()), event, handler)
    {
      var es := Entries(State(), event);
      var i := 0;
      while i < |es| && es[i].handler != handler
        invariant i <= |es| && State() == old(State())
        invariant forall j :: 0 <= j < i ==> es[j].handler != handler
      {
        i := i + 1;
      }
      FirstAt(es, i, handler);
      if i == |es| { return; }
      table := table[event := es[..i] + es[i + 1..]];
      if running {
        broker.bound := broker.bound - {es[i].binding};
      }
    }

    method GetConsumers()
      requires Valid()
      modifies this`running, broker
      ensures State() == Redeclare(old(State()))
    {
      exchange.Declare();
      broker.bound := broker.bound + TableBindings(State());
      running := true;
    }

    method OnConnectionError()
      requires Valid()
      modifies this`running, broker, exchange`connection
      ensures State() == Disconnect(old(State()))
    {
      running := false;
      broker.bound, broker.upstream := {}, {};
      exchange.OnConnectionError();
    }

    method Invoke(handler: Handler, effect: (Handler, Consumer) -> Outcome) returns (outcome: Outcome)
      requires Valid()
      modifies this, broker, exchange
      ensures outcome == effect(handler, old(State())) && State() == outcome.after
    {
      outcome := effect(handler, State());
      running, table := outcome.after.connected, outcome.after.table;
      broker.bound, broker.upstream := outcome.after.bound, outcome.after.upstream;
      exchange.bindings := outcome.after.names;
    }

    /** Handlers are taken from a copy of the list, so whatever they do to the table, and whether or not they
        raise, each handler selected at the start is called once, in order; those that raise are reported. */
    method Dispatch(event: string, headers: Headers, effect: (Handler, Consumer) -> Outcome)
      returns (calls: seq<Handler>, failed: seq<Handler>)
      requires Valid()
      modifies this, broker, exchange
      ensures calls == Selected(old(Entries(State(), event)), headers)
      ensures State() == AfterCalls(old(State()), calls, effect)
      ensures failed == FailedCalls(old(State()), calls, effect)
    {
      var subscriptions := Entries(State(), event);
      calls, failed := [], [];
      for i := 0 to |subscriptions|
        invariant calls == Selected(subscriptions[..i], headers)
        invariant State() == AfterCalls(old(State()), calls, effect)
        invariant failed == FailedCalls(old(State()), calls, effect)
      {
        assert subscriptions[..i + 1][..i] == subscriptions[..i];
        var x := subscriptions[i];
        if !CheckHeadersMatch("headers", headers, x.binding) {
          assert calls + [] == calls;
          continue;
        }
        assert (calls + [x.handler])[..|calls|] == calls;
        calls := calls + [x.handler];
        var outcome := Invoke(x.handler, effect);
        match outcome {
          case Raised(_) => failed := failed + [x.handler];
          case Returned(_) => assert failed + [] == failed;
        }
      }
      assert subscriptions[..|subscriptions|] == subscriptions;
    }
  }

  ghost function Positions(es: seq<Entry>, headers: Headers, handler: Handler): set<int> {
    set i | 0 <= i < |es| && es[i].handler == handler && Matches(es[i].binding, headers)
  }

  lemma PositionsStep(init: seq<Entry>, last: Entry, headers: Headers, handler: Handler)
    ensures Positions(init + [last], headers, handler)
         == Positions(init, headers, handler)
            + if last.handler == handler && Matches(last.binding, headers) then {|init|} else {}
  {
    var es := init + [last];
    assert forall i :: 0 <= i < |init| ==> es[i] == init[i];
    assert es[|init|] == last;
  }

  /** The handlers a dispatch calls: those of the matching entries, each as often as it is listed. */
  lemma {:induction false} SelectedCounts(es: seq<Entry>, headers: Headers, handler: Handler)
    ensures multiset(Selected(es, headers))[handler] == |Positions(es, headers, handler)|
  {
    if es != [] {
      var init := es[..|es| - 1];
      var last := es[|es| - 1];
      assert es == init + [last];
      SelectedCounts(init, headers, handler);
      PositionsStep(init, last, headers, handler);
      LocalFilterIsBrokerRule(headers, last.binding);
      assert |init| !in Positions(init, headers, handler);
    }
  }
}
