/**
 * `ForgeCloseConsumer`: what happens when a GUI is closed. If the predicate accepts the player,
 * the handler is handed to exactly one scheduler, chosen by the delay and the async flag.
 */
module CloseConsumers {
  import opened JavaStrings

  /** Milliseconds per server tick. */
  const MILLIS_PER_TICK: int := 50

  /** The one scheduling call `handle` makes, if any. */
  datatype Scheduled =
    | NotScheduled
    | RunAsync                        // UtilConcurrency.runAsync
    | RunSync                         // PlatformProxy.runSync
    | RunLaterMillis(millis: int)     // UtilConcurrency.runLater, in milliseconds
    | RunLaterTicks(ticks: int)       // PlatformProxy.runLater, in ticks

  /** The handler: the builder's default does nothing. */
  datatype Handler<H> = NoOp | Custom(handler: H)

  /** A predicate: the builder's default accepts every player; otherwise an opaque test. */
  datatype Check<!P> = AcceptAll | Test(test: P -> bool)

  predicate Passes<P>(check: Check<P>, player: P) {
    match check
    case AcceptAll => true
    case Test(test) => test(player)
  }

  datatype CloseConsumer<!P, H> = CloseConsumer(delayTicks: int32, condition: Check<P>, handler: Handler<H>, async: bool)

  /** `handle`: `delayTicks * 50L` is computed in 64 bits, so it never overflows an `int` delay. */
  function Handle<P, H>(c: CloseConsumer<P, H>, player: P): (s: Scheduled)
    ensures !Passes(c.condition, player) <==> s.NotScheduled?
    ensures Passes(c.condition, player) && c.delayTicks <= 0 ==> s == if c.async then RunAsync else RunSync
    ensures Passes(c.condition, player) && c.delayTicks > 0 ==>
      s == if c.async then RunLaterMillis(c.delayTicks as int * MILLIS_PER_TICK) else RunLaterTicks(c.delayTicks as int)
    ensures s.RunLaterMillis? ==> LONG_MIN <= s.millis <= LONG_MAX && s.millis > 0
  {
    if !Passes(c.condition, player) then NotScheduled
    else if c.delayTicks <= 0 then (if c.async then RunAsync else RunSync)
    else if c.async then RunLaterMillis(c.delayTicks as int * MILLIS_PER_TICK)
    else RunLaterTicks(c.delayTicks as int)
  }

  /** A scheduled run is delayed exactly when `delayTicks > 0`, and only the async path converts ticks to milliseconds. */
  lemma DelayedIffPositive<P, H>(c: CloseConsumer<P, H>, player: P)
    requires Passes(c.condition, player)
    ensures Handle(c, player).RunLaterMillis? || Handle(c, player).RunLaterTicks? <==> c.delayTicks > 0
    ensures Handle(c, player).RunLaterMillis? || Handle(c, player).RunAsync? <==> c.async
  {
  }

  /** `ForgeCloseConsumer.Builder`. */
  class CloseConsumerBuilder<!P, H> {
    var delayTicks: int32
    var condition: Check<P>
    var handler: Handler<H>
    var async: bool

    constructor ()
      ensures delayTicks == 0 && condition == AcceptAll && handler == NoOp && async
    {
      delayTicks := 0;
      condition := AcceptAll;
      handler := NoOp;
      async := true;
    }

    method DelayTicks(ticks: int32)
      modifies this`delayTicks
      ensures delayTicks == ticks
    {
      delayTicks := ticks;
    }

    method Predicate(test: P -> bool)
      modifies this`condition
      ensures condition == Test(test)
    {
      condition := Test(test);
    }

    method Handler(h: H)
      modifies this`handler
      ensures handler == Custom(h)
    {
      handler := Custom(h);
    }

    method Async(value: bool)
      modifies this`async
      ensures async == value
    {
      async := value;
    }

    method Build() returns (c: CloseConsumer<P, H>)
      ensures c == CloseConsumer(delayTicks, condition, handler, async)
    {
      c := CloseConsumer(delayTicks, condition, handler, async);
    }
  }

  /** With the builder's defaults every close runs the (no-op) handler at once, asynchronously. */
  lemma DefaultsRunAsyncAtOnce<P, H>(player: P)
    ensures Handle<P, H>(CloseConsumer(0, AcceptAll, NoOp, true), player) == RunAsync
  {
  }
}
