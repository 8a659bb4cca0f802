/**
 * `ForgeGuiTickHandler`: a GUI pane's tick handler with two counters, `ticks` (ticks seen) and
 * `lastRun` (the tick of the last run, -1 before the first). Each tick counts itself, then runs
 * the handler if the initial delay (first run) or the repeat delay (later runs) has passed:
 * directly when async, through `PlatformProxy.runSync` otherwise.
 */
module GuiTicker {

  /** How a tick invoked the handler. */
  datatype RunMode = NotRun | Direct | ViaRunSync

  /** `shouldRun`, evaluated after `ticks` has been incremented. */
  predicate ShouldRun(initialDelay: int, repeatDelay: int, ticks: int, lastRun: int) {
    if lastRun == -1 then initialDelay == 0 || ticks >= initialDelay
    else ticks - lastRun >= repeatDelay
  }

  /** The counters after one more tick, from a given state. */
  function StepLastRun(initialDelay: int, repeatDelay: int, ticks: int, lastRun: int): int {
    if ShouldRun(initialDelay, repeatDelay, ticks + 1, lastRun) then ticks + 1 else lastRun
  }

  /** `lastRun` after `n` ticks of a fresh handler. */
  function LastRunAfter(initialDelay: int, repeatDelay: int, n: nat): int
    decreases n
  {
    if n == 0 then -1
    else StepLastRun(initialDelay, repeatDelay, n - 1, LastRunAfter(initialDelay, repeatDelay, n - 1))
  }

  /** Whether the `n`-th tick (counting from 1) of a fresh handler runs it. */
  predicate RunsAt(initialDelay: int, repeatDelay: int, n: nat)
    requires n >= 1
  {
    ShouldRun(initialDelay, repeatDelay, n, LastRunAfter(initialDelay, repeatDelay, n - 1))
  }

  function Max(a: int, b: int): int { if a >= b then a else b }

  class TickHandler {
    const async: bool
    const initialDelay: int
    const repeatDelay: int
    var ticks: int
    var lastRun: int

    constructor (async: bool, initialDelay: int, repeatDelay: int)
      ensures this.async == async && this.initialDelay == initialDelay && this.repeatDelay == repeatDelay
      ensures ticks == 0 && lastRun == -1
    {
      this.async := async;
      this.initialDelay := initialDelay;
      this.repeatDelay := repeatDelay;
      ticks := 0;
      lastRun := -1;
    }

    /** `tick`: counts the tick and, if due, records it as the last run and invokes the handler once. */
    method Tick() returns (mode: RunMode)
      modifies this
      ensures ticks == old(ticks) + 1
      ensures ShouldRun(initialDelay, repeatDelay, ticks, old(lastRun)) ==>
        lastRun == ticks && mode == (if async then Direct else ViaRunSync)
      ensures !ShouldRun(initialDelay, repeatDelay, ticks, old(lastRun)) ==> lastRun == old(lastRun) && mode == NotRun
    {
      ticks := ticks + 1;
      if !ShouldRun(initialDelay, repeatDelay, ticks, lastRun) {
        return NotRun;
      }
      lastRun := ticks;
      mode := if async then Direct else ViaRunSync;
    }
  }

  /** `ForgeGuiTickHandler.Builder`. */
  class TickHandlerBuilder {
    var async: bool
    var initialDelay: int
    var repeatDelay: int

    constructor ()
      ensures async && initialDelay == 0 && repeatDelay == -1
    {
      async := true;
      initialDelay := 0;
      repeatDelay := -1;
    }

    method Async()
      modifies this`async
      ensures async
    {
      async := true;
    }

    method Sync()
      modifies this`async
      ensures !async
    {
      async := false;
    }

    method InitialDelay(ticks: int)
      modifies this`initialDelay
      ensures initialDelay == ticks
    {
      initialDelay := ticks;
    }

    method RepeatDelay(ticks: int)
      modifies this`repeatDelay
      ensures repeatDelay == ticks
    {
      repeatDelay := ticks;
    }

    method Build() returns (h: TickHandler)
      ensures fresh(h) && h.async == async && h.initialDelay == initialDelay && h.repeatDelay == repeatDelay
      ensures h.ticks == 0 && h.lastRun == -1
    {
      h := new TickHandler(async, initialDelay, repeatDelay);
    }
  }

  /** A run is always recorded at the tick it happens on, and never ahead of the tick count. */
  lemma {:induction false} LastRunBounds(initialDelay: int, repeatDelay: int, n: nat)
    ensures LastRunAfter(initialDelay, repeatDelay, n) == -1 || 1 <= LastRunAfter(initialDelay, repeatDelay, n) <= n
    ensures n >= 1 ==> (RunsAt(initialDelay, repeatDelay, n) <==> LastRunAfter(initialDelay, repeatDelay, n) == n)
    decreases n
  {
    if n >= 1 {
      LastRunBounds(initialDelay, repeatDelay, n - 1);
    }
  }

  /** Before the first run the handler runs exactly when the initial delay is 0 or has been reached. */
  lemma FirstRunRule(initialDelay: int, repeatDelay: int, n: nat)
    requires n >= 1 && LastRunAfter(initialDelay, repeatDelay, n - 1) == -1
    ensures RunsAt(initialDelay, repeatDelay, n) <==> initialDelay == 0 || n >= initialDelay
  {
  }

  /** `t` is `first`, `first + period`, `first + 2 * period`, ... */
  predicate OnSchedule(t: int, first: int, period: int)
    requires period >= 1
    decreases t - first
  {
    t == first || (t - period >= first && OnSchedule(t - period, first, period))
  }

  /**
   * The schedule of a fresh handler: no run before tick F = max(1, initialDelay); from then on
   * the last run is on the schedule F, F + P, F + 2P, ... with P = max(1, repeatDelay), and it
   * is the latest such tick, since fewer than P ticks have passed since it.
   */
  lemma {:induction false} Schedule(initialDelay: int, repeatDelay: int, n: nat)
    ensures var first := Max(1, initialDelay);
      var period := Max(1, repeatDelay);
      var last := LastRunAfter(initialDelay, repeatDelay, n);
      (n < first ==> last == -1) &&
      (n >= first ==> first <= last <= n < last + period && OnSchedule(last, first, period))
    decreases n
  {
    var first := Max(1, initialDelay);
    var period := Max(1, repeatDelay);
    if n > 0 {
      Schedule(initialDelay, repeatDelay, n - 1);
      var prev := LastRunAfter(initialDelay, repeatDelay, n - 1);
      if n - 1 >= first {
        assert n - prev >= repeatDelay <==> n - prev >= period;
        if n - prev >= period {
          assert n == prev + period;
          assert OnSchedule(n, first, period) by {
            assert n - period == prev;
          }
        }
      }
    }
  }

  /** With the builder's defaults (initial delay 0, repeat delay -1) the handler runs on every tick. */
  lemma DefaultsRunEveryTick(n: nat)
    requires n >= 1
    ensures RunsAt(0, -1, n)
    ensures LastRunAfter(0, -1, n) == n
  {
    Schedule(0, -1, n);
    LastRunBounds(0, -1, n);
    assert LastRunAfter(0, -1, n) == n;
  }
}
