/**
 * `ConsoleMessageable`: the server console as a message target. `message` walks its arguments
 * left to right, sending a parsed string or a component as it is and descending into lists;
 * an argument of any other type throws, after everything before it has been sent.
 */
module ConsoleMessages {
  import opened PlayerManagers

  /** A message argument, by its runtime type. */
  datatype Message<C> =
    | Text(text: string)
    | Component(component: C)
    | ListOf(items: seq<Message<C>>)
    | Unsupported

  /** The result of sending: the components sent, in order, and whether it ended in the `RuntimeException`. */
  datatype Sent<C> = Sent(components: seq<C>, threw: bool)

  const CONSOLE_NAME: string := "Console"
  /** `Util.NIL_UUID`. */
  const NIL_UUID: Uuid := Uuid(0, 0)

  /** The components `message(msgs...)` sends, up to the first unsupported argument. */
  function Flatten<C>(msgs: seq<Message<C>>, parse: string -> C): (r: Sent<C>)
    decreases msgs, 1
  {
    if msgs == [] then Sent([], false)
    else
      var first := FlattenOne(msgs[0], parse);
      if first.threw then first
      else
        var rest := Flatten(msgs[1..], parse);
        Sent(first.components + rest.components, rest.threw)
  }

  function FlattenOne<C>(m: Message<C>, parse: string -> C): Sent<C>
    decreases m, 0
  {
    match m
    case Text(text) => Sent([parse(text)], false)
    case Component(c) => Sent([c], false)
    case ListOf(items) => Flatten(items, parse)
    case Unsupported => Sent([], true)
  }

  /** No unsupported argument anywhere, lists included. */
  predicate Supported<C>(m: Message<C>) {
    match m
    case Text(_) => true
    case Component(_) => true
    case ListOf(items) => forall i | 0 <= i < |items| :: Supported(items[i])
    case Unsupported => false
  }

  /** The number of strings and components in a message tree. */
  function Leaves<C>(m: Message<C>): nat {
    match m
    case Text(_) => 1
    case Component(_) => 1
    case ListOf(items) => LeavesAll(items)
    case Unsupported => 0
  }

  function LeavesAll<C>(items: seq<Message<C>>): nat
    decreases items
  {
    if items == [] then 0 else Leaves(items[0]) + LeavesAll(items[1..])
  }

  class ConsoleMessageable<S, C> {
    const source: S
    /** `PlatformProxy.parse`. */
    const parse: string -> C
    /** The components sent to the source so far (`sendSystemMessage`). */
    var sent: seq<C>

    constructor (source: S, parse: string -> C)
      ensures this.source == source && this.parse == parse && sent == []
    {
      this.source := source;
      this.parse := parse;
      sent := [];
    }

    method GetParent() returns (s: S)
      ensures s == source
    {
      s := source;
    }

    method GetName() returns (name: string)
      ensures name == CONSOLE_NAME
    {
      name := CONSOLE_NAME;
    }

    method GetUniqueId() returns (id: Uuid)
      ensures id == NIL_UUID
    {
      id := NIL_UUID;
    }

    /** `message(msgs...)`: sends what `Flatten` lists; `threw` is the `RuntimeException`. */
    method Message(msgs: seq<Message<C>>) returns (threw: bool)
      modifies this`sent
      ensures sent == old(sent) + Flatten(msgs, parse).components
      ensures threw == Flatten(msgs, parse).threw
      decreases msgs, 1
    {
      var i := 0;
      while i < |msgs|
        invariant 0 <= i <= |msgs|
        invariant !Flatten(msgs[..i], parse).threw
        invariant sent == old(sent) + Flatten(msgs[..i], parse).components
      {
        var stop := SendOne(msgs[i]);
        FlattenStep(msgs, i, parse);
        if stop {
          return true;
        }
        i := i + 1;
      }
      assert msgs[..i] == msgs;
      return false;
    }

    /** One argument of `message`: a string is parsed and sent, a component sent, a list sent item by item. */
    method SendOne(m: Message<C>) returns (threw: bool)
      modifies this`sent
      ensures sent == old(sent) + FlattenOne(m, parse).components
      ensures threw == FlattenOne(m, parse).threw
      decreases m, 0
    {
      match m {
        case Text(text) =>
          sent := sent + [parse(text)];
          threw := false;
        case Component(c) =>
          sent := sent + [c];
          threw := false;
        case ListOf(items) =>
          threw := Message(items);
        case Unsupported =>
          threw := true;
      }
    }
  }

  /** Sending one more argument. */
  lemma FlattenSnoc<C>(a: seq<Message<C>>, m: Message<C>, parse: string -> C)
    ensures Flatten(a + [m], parse) ==
      if Flatten(a, parse).threw then Flatten(a, parse)
      else Sent(Flatten(a, parse).components + FlattenOne(m, parse).components, FlattenOne(m, parse).threw)
  {
    FlattenSplit(a, [m], parse);
    assert [m][1..] == [];
    assert FlattenOne(m, parse).components + [] == FlattenOne(m, parse).components;
  }

  /** One step of `message`'s loop: the prefix grows by one argument, and an argument that throws ends the walk. */
  lemma FlattenStep<C>(msgs: seq<Message<C>>, i: nat, parse: string -> C)
    requires i < |msgs| && !Flatten(msgs[..i], parse).threw
    ensures Flatten(msgs[..i + 1], parse) ==
      Sent(Flatten(msgs[..i], parse).components + FlattenOne(msgs[i], parse).components, FlattenOne(msgs[i], parse).threw)
    ensures FlattenOne(msgs[i], parse).threw ==> Flatten(msgs, parse) == Flatten(msgs[..i + 1], parse)
  {
    var upto := msgs[..i + 1];
    assert upto == msgs[..i] + [msgs[i]];
    FlattenSnoc(msgs[..i], msgs[i], parse);
    if FlattenOne(msgs[i], parse).threw {
      assert upto + msgs[i + 1..] == msgs;
      FlattenSplit(upto, msgs[i + 1..], parse);
    }
  }

  /** Sending `a + b` is sending `a`, then, unless that threw, sending `b`. */
  lemma {:induction false} FlattenSplit<C>(a: seq<Message<C>>, b: seq<Message<C>>, parse: string -> C)
    ensures Flatten(a + b, parse) ==
      if Flatten(a, parse).threw then Flatten(a, parse)
      else Sent(Flatten(a, parse).components + Flatten(b, parse).components, Flatten(b, parse).threw)
    decreases |a|
  {
    if a == [] {
      assert a + b == b;
    } else {
      assert (a + b)[0] == a[0];
      assert (a + b)[1..] == a[1..] + b;
      FlattenSplit(a[1..], b, parse);
    }
  }

  /** A list argument is sent as its elements would be, in order. */
  lemma ListIsTransparent<C>(items: seq<Message<C>>, before: seq<Message<C>>, after: seq<Message<C>>, parse: string -> C)
    ensures Flatten(before + [ListOf(items)] + after, parse) == Flatten(before + items + after, parse)
  {
    FlattenSplit(before + [ListOf(items)], after, parse);
    FlattenSplit(before, [ListOf(items)], parse);
    FlattenSplit(before + items, after, parse);
    FlattenSplit(before, items, parse);
    assert [ListOf(items)][1..] == [];
  }

  /** An unsupported argument stops the walk: what follows it is never sent. */
  lemma UnsupportedStops<C>(before: seq<Message<C>>, after: seq<Message<C>>, parse: string -> C)
    ensures Flatten(before + [Unsupported] + after, parse).threw
    ensures Flatten(before + [Unsupported] + after, parse).components == Flatten(before, parse).components
  {
    FlattenSplit(before + [Unsupported], after, parse);
    FlattenSplit(before, [Unsupported], parse);
  }

  /** Without unsupported arguments nothing throws and every string and component is sent once. */
  lemma {:induction false} SupportedSendsAll<C>(msgs: seq<Message<C>>, parse: string -> C)
    requires forall i | 0 <= i < |msgs| :: Supported(msgs[i])
    ensures !Flatten(msgs, parse).threw
    ensures |Flatten(msgs, parse).components| == LeavesAll(msgs)
    decreases msgs
  {
    if msgs != [] {
      SupportedSendsAll(msgs[1..], parse);
      var m := msgs[0];
      assert Supported(m);
      if m.ListOf? {
        assert forall i | 0 <= i < |m.items| :: Supported(m.items[i]);
        SupportedSendsAll(m.items, parse);
      }
    }
  }

  /** A string argument is parsed before it is sent; a component is sent as it is. */
  lemma SendsOneEach<C>(text: string, c: C, parse: string -> C)
    ensures Flatten([Text(text), Component(c)], parse) == Sent([parse(text), c], false)
  {
    assert [Text(text), Component(c)][1..] == [Component(c)];
    assert [Component(c)][1..] == [];
    assert FlattenOne(Text(text), parse) == Sent([parse(text)], false);
    assert FlattenOne(Component(c), parse) == Sent([c], false);
    assert Flatten([Component(c)], parse) == Sent([c], false);
  }
}
