/** The bus consumer as a value: its handler table, the bindings the broker holds for its queue, and the
    bindings of its exchange to the upstream exchange; and the projection of all that on one owner. */
module Consumers {
  import opened Rows
  import opened Headers

  /** A callback. `Hook` is one `partial(self._callback, data)`: the token stands for the object's identity. */
  datatype Handler = Hook(token: nat, data: Row) | Foreign(id: nat)

  datatype Entry = Entry(handler: Handler, binding: Binding)

  /** `bound` and `upstream` live in the broker and are empty while there is no connection;
      `table` and `names` are the process's own copies. */
  datatype Consumer = Consumer(
    connected: bool,
    table: map<string, seq<Entry>>,
    bound: set<Binding>,
    names: set<string>,
    upstream: set<string>)

  const IDLE := Consumer(false, map[], {}, {}, {})

  function Entries(c: Consumer, event: string): seq<Entry> {
    if event in c.table then c.table[event] else []
  }

  function Subscribe(c: Consumer, event: string, handler: Handler, headers: Headers): Consumer {
    var b := Arguments(event, headers, true);
    c.(table := c.table[event := Entries(c, event) + [Entry(handler, b)]],
       names := c.names + {event},
       bound := if c.connected then c.bound + {b} else c.bound,
       upstream := if c.connected then c.upstream + {event} else c.upstream)
  }

  function FirstBinding(es: seq<Entry>, handler: Handler): Option<Binding> {
    if es == [] then None
    else if es[0].handler == handler then Some(es[0].binding) else FirstBinding(es[1..], handler)
  }

  function RemoveFirst(es: seq<Entry>, handler: Handler): seq<Entry> {
    if es == [] then []
    else if es[0].handler == handler then es[1..] else [es[0]] + RemoveFirst(es[1..], handler)
  }

  function Unsubscribe(c: Consumer, event: string, handler: Handler): Consumer {
    match FirstBinding(Entries(c, event), handler)
    case None => c
    case Some(b) =>
      c.(table := c.table[event := RemoveFirst(Entries(c, event), handler)],
         bound := if c.connected then c.bound - {b} else c.bound)
  }

  /** Every binding the process knows of, one per entry. */
  function TableBindings(c: Consumer): set<Binding> {
    set e, x | e in c.table && x in c.table[e] :: x.binding
  }

  /** Queue and exchange are auto-delete: losing the connection loses their bindings. */
  function Disconnect(c: Consumer): Consumer {
    c.(connected := false, bound := {}, upstream := {})
  }

  /** `get_consumers`: the exchange and the queue are declared again with every binding kept locally. */
  function Redeclare(c: Consumer): Consumer {
    c.(connected := true, bound := c.bound + TableBindings(c), upstream := c.upstream + c.names)
  }

  // ----- projection on one owner and one event

  function Owner(h: Handler): Option<string> {
    match h
    case Hook(_, data) => Some(data.uuid)
    case Foreign(_) => None
  }

  function Owned(es: seq<Entry>, o: Option<string>): seq<Entry> {
    if es == [] then []
    else (if Owner(es[0].handler) == o then [es[0]] else []) + Owned(es[1..], o)
  }

  datatype Cell = Cell(entries: seq<Entry>, bound: set<Binding>)

  function BoundOf(bound: set<Binding>, o: Option<string>, event: string): set<Binding> {
    set b | b in bound && OwnerOf(b) == o && NameOf(b) == Some(event)
  }

  function CellOf(c: Consumer, o: Option<string>, event: string): Cell {
    Cell(Owned(Entries(c, event), o), BoundOf(c.bound, o, event))
  }

  function CellSubscribe(cell: Cell, connected: bool, handler: Handler, b: Binding): Cell {
    Cell(cell.entries + [Entry(handler, b)], if connected then cell.bound + {b} else cell.bound)
  }

  function CellUnsubscribe(cell: Cell, connected: bool, handler: Handler): Cell {
    match FirstBinding(cell.entries, handler)
    case None => cell
    case Some(b) => Cell(RemoveFirst(cell.entries, handler), if connected then cell.bound - {b} else cell.bound)
  }

  ghost predicate ProperEntry(x: Entry, event: string) {
    OwnerOf(x.binding) == Owner(x.handler) && NameOf(x.binding) == Some(event)
  }

  /** Every entry's binding carries the mark of the handler's subscription and the event it is listed under,
      and nothing is bound in the broker without a connection. */
  ghost predicate Proper(c: Consumer) {
    && (forall event, x :: x in Entries(c, event) ==> ProperEntry(x, event))
    && (forall b :: b in c.bound ==> NameOf(b).Some?)
    && (forall event :: event in c.table && c.table[event] != [] ==> event in c.names)
    && (if c.connected then c.upstream == c.names else c.bound == {} && c.upstream == {})
  }

  /** While connected the broker holds the bindings of all handlers that belong to no subscription. */
  ghost predicate ForeignBound(c: Consumer) {
    c.connected ==> forall e, x :: x in Entries(c, e) && x.handler.Foreign? ==> x.binding in c.bound
  }

  lemma {:induction false} OwnedAppend(es: seq<Entry>, fs: seq<Entry>, o: Option<string>)
    ensures Owned(es + fs, o) == Owned(es, o) + Owned(fs, o)
  {
    if es == [] {
      assert es + fs == fs;
    } else {
      assert (es + fs)[1..] == es[1..] + fs;
      OwnedAppend(es[1..], fs, o);
    }
  }

  lemma ConsRemove(x: Entry, tail: seq<Entry>, o: Option<string>, handler: Handler)
    ensures Owned([x] + tail, o) == (if Owner(x.handler) == o then [x] else []) + Owned(tail, o)
    ensures RemoveFirst([x] + tail, handler) == if x.handler == handler then tail else [x] + RemoveFirst(tail, handler)
    ensures FirstBinding([x] + tail, handler)
       == if x.handler == handler then Some(x.binding) else FirstBinding(tail, handler)
  {
    assert ([x] + tail)[1..] == tail;
  }

  /** The first entry of a handler, found by going through the list. */
  lemma {:induction false} FirstAt(es: seq<Entry>, i: nat, handler: Handler)
    requires i <= |es| && (forall j :: 0 <= j < i ==> es[j].handler != handler)
    requires i < |es| ==> es[i].handler == handler
    ensures FirstBinding(es, handler) == if i < |es| then Some(es[i].binding) else None
    ensures i < |es| ==> RemoveFirst(es, handler) == es[..i] + es[i + 1..]
  {
    if i == 0 {
      if es != [] { assert es[..0] + es[1..] == es[1..]; }
    } else {
      FirstAt(es[1..], i - 1, handler);
      assert i < |es| ==> [es[0]] + (es[1..][..i - 1] + es[1..][i..]) == es[..i] + es[i + 1..];
    }
  }

  /** Removing the first entry of a handler, seen by its owner and by everyone else. */
  lemma {:induction false} OwnedRemoveFirst(es: seq<Entry>, handler: Handler, o: Option<string>)
    ensures Owner(handler) == o ==> Owned(RemoveFirst(es, handler), o) == RemoveFirst(Owned(es, o), handler)
    ensures Owner(handler) == o ==> FirstBinding(Owned(es, o), handler) == FirstBinding(es, handler)
    ensures Owner(handler) != o ==> Owned(RemoveFirst(es, handler), o) == Owned(es, o)
  {
    if es != [] {
      var rest := es[1..];
      OwnedRemoveFirst(rest, handler, o);
      ConsRemove(es[0], RemoveFirst(rest, handler), o, handler);
      ConsRemove(es[0], Owned(rest, o), o, handler);
      assert [] + Owned(rest, o) == Owned(rest, o);
      assert [] + Owned(RemoveFirst(rest, handler), o) == Owned(RemoveFirst(rest, handler), o);
    }
  }

  lemma {:induction false} FirstBindingFound(es: seq<Entry>, handler: Handler)
    ensures FirstBinding(es, handler).Some? ==> Entry(handler, FirstBinding(es, handler).value) in es
    ensures FirstBinding(es, handler).None? <==> forall x :: x in es ==> x.handler != handler
    ensures forall x :: x in RemoveFirst(es, handler) ==> x in es
  {
    if es != [] {
      FirstBindingFound(es[1..], handler);
      assert es == [es[0]] + es[1..];
    }
  }

  lemma {:induction false} OwnedMember(es: seq<Entry>, o: Option<string>)
    ensures forall x :: x in Owned(es, o) <==> x in es && Owner(x.handler) == o
  {
    if es != [] {
      OwnedMember(es[1..], o);
      assert es == [es[0]] + es[1..];
    }
  }

  /** Subscribing touches one cell only, and does there what it does to the whole consumer. */
  lemma SubscribeCell(c: Consumer, event: string, handler: Handler, headers: Headers, o: Option<string>, e: string)
    requires Proper(c) && ProperEntry(Entry(handler, Arguments(event, headers, true)), event)
    ensures Proper(Subscribe(c, event, handler, headers))
    ensures CellOf(Subscribe(c, event, handler, headers), o, e)
         == if o == Owner(handler) && e == event
            then CellSubscribe(CellOf(c, o, e), c.connected, handler, Arguments(event, headers, true))
            else CellOf(c, o, e)
  {
    var b := Arguments(event, headers, true);
    var c' := Subscribe(c, event, handler, headers);
    OwnedAppend(Entries(c, event), [Entry(handler, b)], o);
    assert Owned([Entry(handler, b)], o) == if Owner(handler) == o then [Entry(handler, b)] else [];
    assert forall e' :: e' != event ==> Entries(c', e') == Entries(c, e');
    assert BoundOf(c'.bound, o, e)
        == if c.connected && o == Owner(handler) && e == event
           then BoundOf(c.bound, o, e) + {b}
           else BoundOf(c.bound, o, e);
  }

  lemma UnsubscribeCell(c: Consumer, event: string, handler: Handler, o: Option<string>, e: string)
    requires Proper(c)
    ensures Proper(Unsubscribe(c, event, handler))
    ensures CellOf(Unsubscribe(c, event, handler), o, e)
         == if o == Owner(handler) && e == event
            then CellUnsubscribe(CellOf(c, o, e), c.connected, handler)
            else CellOf(c, o, e)
  {
    var es := Entries(c, event);
    var c' := Unsubscribe(c, event, handler);
    FirstBindingFound(es, handler);
    OwnedRemoveFirst(es, handler, o);
    OwnedRemoveFirst(es, handler, Owner(handler));
    match FirstBinding(es, handler) {
      case None =>
      case Some(b) =>
        assert ProperEntry(Entry(handler, b), event);
        assert forall e' :: e' != event ==> Entries(c', e') == Entries(c, e');
        assert BoundOf(c'.bound, o, e)
            == if c.connected && o == Owner(handler) && e == event
               then BoundOf(c.bound, o, e) - {b}
               else BoundOf(c.bound, o, e);
    }
  }

  /** After a reconnection the broker holds, for every owner and event, exactly the bindings of its entries. */
  lemma RedeclareCell(c: Consumer, o: Option<string>, e: string)
    requires Proper(c)
    ensures Proper(Redeclare(c))
    ensures CellOf(Redeclare(c), o, e)
         == Cell(CellOf(c, o, e).entries, CellOf(c, o, e).bound + set x | x in CellOf(c, o, e).entries :: x.binding)
  {
    var c' := Redeclare(c);
    assert Entries(c', e) == Entries(c, e);
    OwnedMember(Entries(c, e), o);
    forall e', x | e' in c.table && x in c.table[e'] ensures ProperEntry(x, e') {
      assert x in Entries(c, e');
    }
    assert forall e' :: Entries(c', e') == Entries(c, e');
    forall b
      ensures b in BoundOf(c'.bound, o, e)
         <==> b in CellOf(c, o, e).bound || exists x :: x in CellOf(c, o, e).entries && x.binding == b
    {
      if b in BoundOf(c'.bound, o, e) && b !in c.bound {
        var e', x :| e' in c.table && x in c.table[e'] && x.binding == b;
        assert x in Entries(c, e) && Owner(x.handler) == o;
      }
      if exists x :: x in CellOf(c, o, e).entries && x.binding == b {
        var x :| x in CellOf(c, o, e).entries && x.binding == b;
        assert x in Entries(c, e) && ProperEntry(x, e);
        assert e in c.table && x in c.table[e];
      }
    }
  }

  lemma DisconnectCell(c: Consumer, o: Option<string>, e: string)
    requires Proper(c)
    ensures Proper(Disconnect(c))
    ensures CellOf(Disconnect(c), o, e) == Cell(CellOf(c, o, e).entries, {})
  {
    assert forall e' :: Entries(Disconnect(c), e') == Entries(c, e');
  }
}
