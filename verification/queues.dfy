/** One shared queue instead of one queue per subscription. */
module Queues {
  import opened Rows
  import opened Headers
  import opened Consumers
  import opened Service
  import opened Runs
  import opened Agreement
  import opened Delivery

  datatype Call = Call(event: string, index: nat, message: Headers)

  /** The calls of one message, entry by entry. */
  function CallsOf(es: seq<Entry>, event: string, m: Headers): seq<Call> {
    if es == [] then []
    else
      var n := |es| - 1;
      CallsOf(es[..n], event, m)
      + if CheckHeadersMatch("headers", m, es[n].binding) then [Call(event, n, m)] else []
  }

  ghost function SharedQueue(c: Consumer, messages: seq<Headers>): seq<Call> {
    if messages == [] then []
    else
      var m := messages[|messages| - 1];
      SharedQueue(c, messages[..|messages| - 1])
      + if Reaches(c, m) then CallsOf(Entries(c, NameOf(m).value), NameOf(m).value, m) else []
  }

  /** The messages received by the entry at one place of the table. */
  function ReceivedBy(calls: seq<Call>, event: string, index: nat): seq<Headers> {
    if calls == [] then []
    else
      var last := calls[|calls| - 1];
      ReceivedBy(calls[..|calls| - 1], event, index)
      + if last.event == event && last.index == index then [last.message] else []
  }

  /** What a queue of its own, bound with that entry's binding only and dispatched by event name too, would hand to
      that entry's handler. */
  ghost function PrivateQueue(b: Binding, event: string, messages: seq<Headers>): seq<Headers> {
    if messages == [] then []
    else
      var m := messages[|messages| - 1];
      PrivateQueue(b, event, messages[..|messages| - 1])
      + if NameOf(m) == Some(event) && Matches(b, m) then [m] else []
  }

  lemma {:induction false} ReceivedAppend(a: seq<Call>, b: seq<Call>, event: string, index: nat)
    ensures ReceivedBy(a + b, event, index) == ReceivedBy(a, event, index) + ReceivedBy(b, event, index)
  {
    if b == [] {
      assert a + b == a;
    } else {
      var n := |b| - 1;
      ReceivedAppend(a, b[..n], event, index);
      assert (a + b)[..|a + b| - 1] == a + b[..n];
    }
  }

  lemma {:induction false} ReceivedOf(es: seq<Entry>, name: string, m: Headers, event: string, index: nat)
    ensures ReceivedBy(CallsOf(es, name, m), event, index)
         == if name == event && index < |es| && Matches(es[index].binding, m) then [m] else []
  {
    if es != [] {
      var n := |es| - 1;
      ReceivedOf(es[..n], name, m, event, index);
      LocalFilterIsBrokerRule(m, es[n].binding);
      var calls := CallsOf(es[..n], name, m);
      if Matches(es[n].binding, m) {
        assert (calls + [Call(name, n, m)])[..|calls|] == calls;
      } else {
        assert calls + [] == calls;
      }
    }
  }

  /** Every message the binding accepts for the event reaches the shared queue. */
  ghost predicate Served(c: Consumer, event: string, b: Binding) {
    forall m :: NameOf(m) == Some(event) && Matches(b, m) ==> Reaches(c, m)
  }

  lemma {:induction false} ServedReceives(c: Consumer, messages: seq<Headers>, event: string, index: nat)
    requires index < |Entries(c, event)| && Served(c, event, Entries(c, event)[index].binding)
    ensures ReceivedBy(SharedQueue(c, messages), event, index)
         == PrivateQueue(Entries(c, event)[index].binding, event, messages)
  {
    if messages != [] {
      var n := |messages| - 1;
      var m := messages[n];
      var b := Entries(c, event)[index].binding;
      ServedReceives(c, messages[..n], event, index);
      if Reaches(c, m) {
        var calls := CallsOf(Entries(c, NameOf(m).value), NameOf(m).value, m);
        ReceivedAppend(SharedQueue(c, messages[..n]), calls, event, index);
        ReceivedOf(Entries(c, NameOf(m).value), NameOf(m).value, m, event, index);
      } else {
        assert !(NameOf(m) == Some(event) && Matches(b, m));
        assert SharedQueue(c, messages) == SharedQueue(c, messages[..n]) + [] == SharedQueue(c, messages[..n]);
        assert PrivateQueue(b, event, messages) == PrivateQueue(b, event, messages[..n]) + [];
      }
    }
  }

  lemma UnservedMisses(c: Consumer, m: Headers, event: string, index: nat)
    requires index < |Entries(c, event)| && !Reaches(c, m)
    requires NameOf(m) == Some(event) && Matches(Entries(c, event)[index].binding, m)
    ensures ReceivedBy(SharedQueue(c, [m]), event, index)
         != PrivateQueue(Entries(c, event)[index].binding, event, [m])
  {
    assert [m][..0] == [];
    assert SharedQueue(c, [m]) == [] && ReceivedBy([], event, index) == [];
    assert PrivateQueue(Entries(c, event)[index].binding, event, [m]) == [] + [m];
  }

  /** The entry receives, whatever the messages, in order, exactly what a queue of its own would give it. */
  ghost predicate AsIfPrivate(c: Consumer, event: string, index: nat)
    requires index < |Entries(c, event)|
  {
    forall messages :: ReceivedBy(SharedQueue(c, messages), event, index)
                    == PrivateQueue(Entries(c, event)[index].binding, event, messages)
  }

  /** Sharing one queue is invisible to an entry, whether it matches all headers or any, exactly when every
      message its binding accepts reaches the queue. */
  lemma SharedQueueRefinesPrivateIff(c: Consumer, event: string, index: nat)
    requires index < |Entries(c, event)|
    ensures AsIfPrivate(c, event, index) <==> Served(c, event, Entries(c, event)[index].binding)
  {
    var b := Entries(c, event)[index].binding;
    if Served(c, event, b) {
      forall messages
        ensures ReceivedBy(SharedQueue(c, messages), event, index) == PrivateQueue(b, event, messages)
      {
        ServedReceives(c, messages, event, index);
      }
    } else {
      var m :| NameOf(m) == Some(event) && Matches(b, m) && !Reaches(c, m);
      UnservedMisses(c, m, event, index);
    }
  }

  /** For a binding that matches all headers that is a matter of its least message. */
  lemma ServedByLeast(c: Consumer, event: string, b: Binding)
    requires MatchAll(b) && NameOf(b) == Some(event)
    ensures Served(c, event, b) <==> Reaches(c, Least(b))
  {
    KeysApart("");
    LeastMatches(b, Least(b));
    ServedIff(c, b);
    forall m | Matches(b, m) ensures NameOf(m) == Some(event) {
      assert Has(m, "name", b["name"]);
    }
  }

  lemma BoundIsServed(c: Consumer, event: string, index: nat)
    requires Proper(c) && c.connected && index < |Entries(c, event)|
    requires Entries(c, event)[index].binding in c.bound
    ensures AsIfPrivate(c, event, index)
  {
    assert event in c.names;
    SharedQueueRefinesPrivateIff(c, event, index);
  }

  // ----- after a run

  /** Every binding of the table is in the broker. */
  ghost predicate FullyBound(c: Consumer) {
    c.connected && forall e, x :: x in Entries(c, e) ==> x.binding in c.bound
  }

  /** A connected consumer is fully bound exactly when no update lost a binding. */
  lemma FullyBoundIff(s: System, ls: Listening, master: string)
    requires Inv(s, ls, master) && s.ix.consumer.connected
    ensures FullyBound(s.ix.consumer) <==> AllSlotsLive(ls)
  {
    var c := s.ix.consumer;
    BrokerAgreesIff(s, ls, master);
    if AllSlotsLive(ls) {
      forall e, x | x in Entries(c, e) ensures x.binding in c.bound {
        assert ProperEntry(x, e);
        if x.handler.Hook? {
          assert HookBinding(c, x.binding);
        }
      }
    }
  }

  lemma EntryAsIfPrivate(s: System, ls: Listening, master: string, event: string, index: nat)
    requires Inv(s, ls, master) && s.ix.consumer.connected && index < |Entries(s.ix.consumer, event)|
    ensures var c, x := s.ix.consumer, Entries(s.ix.consumer, event)[index];
            && (x.handler.Foreign? ==> AsIfPrivate(c, event, index))
            && (x.handler.Hook? ==> (AsIfPrivate(c, event, index) <==> Reaches(c, Least(x.binding))))
            && (AllSlotsLive(ls) ==> AsIfPrivate(c, event, index))
  {
    var c, x := s.ix.consumer, Entries(s.ix.consumer, event)[index];
    assert x in Entries(c, event);
    FullyBoundIff(s, ls, master);
    if x.binding in c.bound {
      BoundIsServed(c, event, index);
    }
    if x.handler.Hook? {
      HookEntries(s, ls, master, event, x);
      var u :| u in ls && event in ls[u].slots && x == SlotEntry(ls[u], event);
      ArgumentsLeast(event, ls[u].slots[event].headers);
      SharedQueueRefinesPrivateIff(c, event, index);
      ServedByLeast(c, event, x.binding);
    }
  }

  /** After any run whatever that ends connected, every handler that is no hook receives exactly its private
      queue, and a hook does exactly when the least message of its binding gets through; after a run that lost
      no binding, every entry does. */
  lemma EveryRunSharesOneQueue(c: Consumer, rows: seq<Row>, token: nat, ops: seq<Op>, master: string)
    requires Startable(c) && Stored(rows)
    requires PossibleRun(Started(c, rows, token, master), ops, master)
    requires Run(Started(c, rows, token, master), ops, master).ix.consumer.connected
    ensures var c' := Run(Started(c, rows, token, master), ops, master).ix.consumer;
            var ls := ListenRun(Started(c, rows, token, master), FreshAll(rows, token, master), ops, master);
            forall event, index: nat | index < |Entries(c', event)| ::
              var x := Entries(c', event)[index];
              && (x.handler.Foreign? ==> AsIfPrivate(c', event, index))
              && (x.handler.Hook? ==> (AsIfPrivate(c', event, index) <==> Reaches(c', Least(x.binding))))
              && (AllSlotsLive(ls) ==> AsIfPrivate(c', event, index))
  {
    var s0, ls0 := Started(c, rows, token, master), FreshAll(rows, token, master);
    var s, ls := Run(s0, ops, master), ListenRun(s0, ls0, ops, master);
    StartupInv(c, rows, token, master);
    RunKeepsInv(s0, ls0, ops, s, ls, master);
    forall event, index: nat | index < |Entries(s.ix.consumer, event)|
      ensures var x := Entries(s.ix.consumer, event)[index];
              && (x.handler.Foreign? ==> AsIfPrivate(s.ix.consumer, event, index))
              && (x.handler.Hook? ==>
                    (AsIfPrivate(s.ix.consumer, event, index) <==> Reaches(s.ix.consumer, Least(x.binding))))
              && (AllSlotsLive(ls) ==> AsIfPrivate(s.ix.consumer, event, index))
    {
      EntryAsIfPrivate(s, ls, master, event, index);
    }
  }
}
