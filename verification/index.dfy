/** `wazo_webhookd/plugins/subscription/bus.py`: the index from subscriptions to bus callbacks. */
module SubscriptionIndex {
  import opened Rows
  import opened Headers
  import opened Consumers
  import Bus

  /** One entry of `_subscription_callbacks`. */
  datatype Callback = Callback(fn: Handler, events: seq<string>, headers: Headers)

  datatype Index = Index(callbacks: map<string, Callback>, consumer: Consumer)

  // ----- the loops over events, as functions of the part already done

  function SubscribeAll(c: Consumer, events: seq<string>, fn: Handler, headers: Headers): Consumer {
    if events == [] then c
    else
      var n := |events| - 1;
      Consumers.Subscribe(SubscribeAll(c, events[..n], fn, headers), events[n], fn, Rewritten(events[n], headers))
  }

  function UnsubscribeAll(c: Consumer, events: seq<string>, fn: Handler): Consumer {
    if events == [] then c
    else
      var n := |events| - 1;
      Consumers.Unsubscribe(UnsubscribeAll(c, events[..n], fn), events[n], fn)
  }

  /** The variable `headers` of `_update` once the loop has gone through `order`. */
  function HeadersAfter(order: seq<string>, headers: Headers): Headers {
    if order == [] then headers
    else
      var n := |order| - 1;
      Rewritten(order[n], HeadersAfter(order[..n], headers))
  }

  /** One iteration of `_update`, given the headers as just rewritten. */
  function UpdateStep(c: Consumer, event: string, headers: Headers, events: seq<string>, prev: Callback,
                      fn: Handler): Consumer {
    if event !in events then Consumers.Unsubscribe(c, event, prev.fn)
    else if event !in prev.events then Consumers.Subscribe(c, event, fn, headers)
    else if headers != prev.headers then
      Consumers.Unsubscribe(Consumers.Subscribe(c, event, fn, headers), event, prev.fn)
    else
      Consumers.Subscribe(Consumers.Unsubscribe(c, event, prev.fn), event, fn, headers)
  }

  function UpdateAll(c: Consumer, order: seq<string>, headers: Headers, events: seq<string>, prev: Callback,
                     fn: Handler): Consumer {
    if order == [] then c
    else
      var n := |order| - 1;
      UpdateStep(UpdateAll(c, order[..n], headers, events, prev, fn), order[n], HeadersAfter(order, headers), events,
                 prev, fn)
  }

  function Register(ix: Index, row: Row, fn: Handler, master: string): Index {
    var base := BaseHeaders(row, master);
    Index(ix.callbacks[row.uuid := Callback(fn, row.events, base)], SubscribeAll(ix.consumer, row.events, fn, base))
  }

  function Unregister(ix: Index, uuid: string): Index {
    if uuid in ix.callbacks then
      var cb := ix.callbacks[uuid];
      Index(ix.callbacks - {uuid}, UnsubscribeAll(ix.consumer, cb.events, cb.fn))
    else ix
  }

  /** An iteration order of `set(subscription.events) | set(prev_events)`. */
  ghost predicate IterationOrder(order: seq<string>, events: seq<string>, prevEvents: seq<string>) {
    && Distinct(order)
    && (forall e :: e in order <==> e in events || e in prevEvents)
  }

  /** One more iteration of the loop of `_update`. */
  lemma UpdateMore(c: Consumer, order: seq<string>, event: string, base: Headers, events: seq<string>, prev: Callback,
                   fn: Handler)
    ensures HeadersAfter(order + [event], base) == Rewritten(event, HeadersAfter(order, base))
    ensures UpdateAll(c, order + [event], base, events, prev, fn)
         == UpdateStep(UpdateAll(c, order, base, events, prev, fn), event, Rewritten(event, HeadersAfter(order, base)),
                       events, prev, fn)
  {
    assert (order + [event])[..|order|] == order;
  }

  ghost predicate Enumerates(order: seq<string>, events: set<string>) {
    Distinct(order) && forall e :: e in order <==> e in events
  }

  lemma OneMore(order: seq<string>, done: set<string>, event: string, done': set<string>)
    requires Enumerates(order, done) && event !in done && done' == done + {event}
    ensures Enumerates(order + [event], done') && (order + [event])[..|order|] == order
  {
  }

  function Update(ix: Index, row: Row, fn: Handler, order: seq<string>, master: string): Index
    requires row.uuid in ix.callbacks
  {
    var base := BaseHeaders(row, master);
    var prev := ix.callbacks[row.uuid];
    Index(ix.callbacks[row.uuid := Callback(fn, row.events, HeadersAfter(order, base))],
          UpdateAll(ix.consumer, order, base, row.events, prev, fn))
  }

  function RegisterAll(ix: Index, rows: seq<Row>, token: nat, master: string): Index {
    if rows == [] then ix
    else
      var n := |rows| - 1;
      Register(RegisterAll(ix, rows[..n], token, master), rows[n], Hook(token + n, rows[n]), master)
  }

  // ----- the events bound upstream are remembered for good

  function EventSet(events: seq<string>): set<string> {
    set e | e in events
  }

  lemma {:induction false} SubscribeAllNames(c: Consumer, events: seq<string>, fn: Handler, headers: Headers)
    ensures SubscribeAll(c, events, fn, headers).names == c.names + EventSet(events)
  {
    if events != [] {
      var n := |events| - 1;
      SubscribeAllNames(c, events[..n], fn, headers);
      assert events == events[..n] + [events[n]];
    }
  }

  lemma {:induction false} UnsubscribeAllNames(c: Consumer, events: seq<string>, fn: Handler)
    ensures UnsubscribeAll(c, events, fn).names == c.names
  {
    if events != [] {
      UnsubscribeAllNames(c, events[..|events| - 1], fn);
    }
  }

  lemma UpdateStepNames(c: Consumer, event: string, headers: Headers, events: seq<string>, prev: Callback, fn: Handler)
    ensures UpdateStep(c, event, headers, events, prev, fn).names == c.names + if event in events then {event} else {}
  {
  }

  lemma {:induction false} UpdateAllNames(c: Consumer, order: seq<string>, headers: Headers, events: seq<string>,
                                          prev: Callback, fn: Handler)
    ensures UpdateAll(c, order, headers, events, prev, fn).names == c.names + (set e | e in order && e in events)
  {
    if order != [] {
      var n := |order| - 1;
      UpdateAllNames(c, order[..n], headers, events, prev, fn);
      UpdateStepNames(UpdateAll(c, order[..n], headers, events, prev, fn), order[n], HeadersAfter(order, headers),
                      events, prev, fn);
      assert order == order[..n] + [order[n]];
    }
  }

  /** An update adds the same remembered events as unregistering and registering. */
  lemma SameNames(ix: Index, row: Row, fn: Handler, order: seq<string>, master: string)
    requires row.uuid in ix.callbacks && IterationOrder(order, row.events, ix.callbacks[row.uuid].events)
    ensures Update(ix, row, fn, order, master).consumer.names
         == Register(Unregister(ix, row.uuid), row, fn, master).consumer.names
         == ix.consumer.names + EventSet(row.events)
  {
    var base, cb := BaseHeaders(row, master), ix.callbacks[row.uuid];
    UpdateAllNames(ix.consumer, order, base, row.events, cb, fn);
    UnsubscribeAllNames(ix.consumer, cb.events, cb.fn);
    SubscribeAllNames(Unregister(ix, row.uuid).consumer, row.events, fn, base);
  }

  class SubscriptionBusEventHandler {
    const bus: Bus.BusConsumer
    const master: string
    var callbacks: map<string, Callback>
    /** Supply of identities for the callbacks this object creates. */
    var token: nat

    constructor (bus: Bus.BusConsumer, master: string)
      ensures this.bus == bus && this.master == master
      ensures callbacks == map[]
    {
      this.bus, this.master, callbacks, token := bus, master, map[], 0;
    }

    ghost predicate Valid() {
      bus.Valid()
    }

    function State(): Index
      reads this, bus, bus.broker, bus.exchange
    {
      Index(callbacks, bus.State())
    }

    /** `subscribe`: registers every row the service lists. */
    method Subscribe(rows: seq<Row>)
      requires Valid()
      modifies this, bus, bus.broker, bus.exchange
      ensures State() == RegisterAll(old(State()), rows, old(token), master)
      ensures token == old(token) + |rows|
    {
      for i := 0 to |rows|
        invariant State() == RegisterAll(old(State()), rows[..i], old(token), master)
        invariant token == old(token) + i
      {
        assert rows[..i + 1][..i] == rows[..i];
        OnCreated(rows[i]);
      }
      assert rows[..|rows|] == rows;
    }

    method OnCreated(row: Row)
      requires Valid()
      modifies this, bus, bus.broker, bus.exchange
      ensures State() == Register(old(State()), row, Hook(old(token), row), master)
      ensures token == old(token) + 1
    {
      var fn := Hook(token, row);
      token := token + 1;
      var base := BuildHeaders(row, master);
      callbacks := callbacks[row.uuid := Callback(fn, row.events, base)];
      for i := 0 to |row.events|
        invariant bus.State() == SubscribeAll(old(bus.State()), row.events[..i], fn, base)
        invariant callbacks == old(callbacks)[row.uuid := Callback(fn, row.events, base)] && token == old(token) + 1
      {
        assert row.events[..i + 1][..i] == row.events[..i];
        var headers := HandleTenantEvents(row.events[i], base);
        bus.Subscribe(row.events[i], fn, headers);
      }
      assert row.events[..|row.events|] == row.events;
    }

    method OnDeleted(uuid: string)
      requires Valid()
      modifies this, bus, bus.broker, bus.exchange
      ensures State() == Unregister(old(State()), uuid)
      ensures token == old(token)
    {
      if uuid !in callbacks { return; }
      var cb := callbacks[uuid];
      callbacks := callbacks - {uuid};
      for i := 0 to |cb.events|
        invariant bus.State() == UnsubscribeAll(old(bus.State()), cb.events[..i], cb.fn)
        invariant callbacks == old(callbacks) - {uuid} && token == old(token)
      {
        assert cb.events[..i + 1][..i] == cb.events[..i];
        bus.Unsubscribe(cb.events[i], cb.fn);
      }
      assert cb.events[..|cb.events|] == cb.events;
    }

    /** The four cases of one event; a kept event is bound first when the headers changed, last otherwise. */
    method UpdateEvent(event: string, headers: Headers, events: seq<string>, prev: Callback, fn: Handler)
      requires Valid()
      modifies bus, bus.broker, bus.exchange
      ensures bus.State() == UpdateStep(old(bus.State()), event, headers, events, prev, fn)
    {
      if event !in events {
        bus.Unsubscribe(event, prev.fn);
      } else if event !in prev.events {
        bus.Subscribe(event, fn, headers);
      } else if headers != prev.headers {
        bus.Subscribe(event, fn, headers);
        bus.Unsubscribe(event, prev.fn);
      } else {
        bus.Unsubscribe(event, prev.fn);
        bus.Subscribe(event, fn, headers);
      }
    }

    /** Returns the order in which the set of events happened to be iterated; a missing uuid is a `KeyError`. */
    method OnUpdated(row: Row) returns (known: bool, order: seq<string>)
      requires Valid()
      modifies this, bus, bus.broker, bus.exchange
      ensures known == (row.uuid in old(callbacks))
      ensures !known ==> State() == old(State())
      ensures known ==> IterationOrder(order, row.events, old(callbacks)[row.uuid].events)
      ensures known ==> State() == Update(old(State()), row, Hook(old(token), row), order, master)
      ensures token == old(token) + 1
    {
      var base := BuildHeaders(row, master);
      var headers := base;
      var fn := Hook(token, row);
      token := token + 1;
      order := [];
      known := row.uuid in callbacks;
      if !known { return; }
      var prev := callbacks[row.uuid];
      callbacks := callbacks - {row.uuid};
      var all := (set e | e in row.events) + (set e | e in prev.events);
      var rest := all;
      while rest != {}
        invariant rest <= all && Enumerates(order, all - rest)
        invariant headers == HeadersAfter(order, base)
        invariant bus.State() == UpdateAll(old(bus.State()), order, base, row.events, prev, fn)
        invariant callbacks == old(callbacks) - {row.uuid} && token == old(token) + 1
        decreases rest
      {
        var event :| event in rest;
        OneMore(order, all - rest, event, all - (rest - {event}));
        UpdateMore(old(bus.State()), order, event, base, row.events, prev, fn);
        rest := rest - {event};
        headers := HandleTenantEvents(event, headers);
        UpdateEvent(event, headers, row.events, prev, fn);
        order := order + [event];
      }
      callbacks := callbacks[row.uuid := Callback(fn, row.events, headers)];
    }
  }
}
