/** Clock arithmetic: `convert::millis` (src/lib.rs) and `duration_to_tick` (src/timer.rs). */
module Ticks {

  const U64_MAX: nat := 0xFFFF_FFFF_FFFF_FFFF
  const NANOS_PER_MILLI: nat := 1_000_000
  const NANOS_PER_SEC: nat := 1_000_000_000
  const MILLIS_PER_SEC: nat := 1_000

  type u64 = x: nat | x <= U64_MAX

  /** `std::time::Duration`: whole seconds and a sub-second part. */
  datatype Duration = Duration(secs: u64, nanos: nat) {
    predicate Valid() {
      nanos < NANOS_PER_SEC
    }

    /** The length in nanoseconds; durations are compared by it. */
    function Nanos(): nat {
      secs * NANOS_PER_SEC + nanos
    }
  }

  function SaturatingAdd(x: u64, y: u64): u64 {
    if x + y <= U64_MAX then x + y else U64_MAX
  }

  function SaturatingMul(x: u64, y: u64): u64 {
    if x * y <= U64_MAX then x * y else U64_MAX
  }

  /** Milliseconds, rounded up, saturating at `U64_MAX`. */
  function Millis(d: Duration): u64
    requires d.Valid()
  {
    var millis := (d.nanos + NANOS_PER_MILLI - 1) / NANOS_PER_MILLI;
    SaturatingAdd(SaturatingMul(d.secs, MILLIS_PER_SEC), millis)
  }

  /** The tick nearest to an elapsed time; a zero `tickMs` divides by zero in the source. */
  function DurationToTick(elapsed: Duration, tickMs: u64): u64
    requires elapsed.Valid() && 0 < tickMs
  {
    SaturatingAdd(Millis(elapsed), tickMs / 2) / tickMs
  }

  /** The value without saturation: the least number of milliseconds that covers `d`. */
  ghost predicate Covers(d: Duration, ms: nat) {
    d.Nanos() <= ms * NANOS_PER_MILLI
  }

  /** Unsaturated, `Millis` is the least cover, so it rounds up by less than one millisecond;
      otherwise no 64-bit number of milliseconds below the maximum covers the duration. */
  lemma MillisIsCeiling(d: Duration)
    requires d.Valid()
    ensures Millis(d) < U64_MAX ==>
              Covers(d, Millis(d)) && Millis(d) * NANOS_PER_MILLI < d.Nanos() + NANOS_PER_MILLI
    ensures Millis(d) == U64_MAX ==> !exists ms: nat :: ms < U64_MAX && Covers(d, ms)
  {
    var up := (d.nanos + NANOS_PER_MILLI - 1) / NANOS_PER_MILLI;
    assert d.Nanos() == d.secs * MILLIS_PER_SEC * NANOS_PER_MILLI + d.nanos;
    assert d.nanos <= up * NANOS_PER_MILLI < d.nanos + NANOS_PER_MILLI;
    assert (d.secs * MILLIS_PER_SEC + up) * NANOS_PER_MILLI
        == d.secs * MILLIS_PER_SEC * NANOS_PER_MILLI + up * NANOS_PER_MILLI;
  }

  /** Longer durations never have fewer milliseconds, saturated or not. */
  lemma MillisMonotone(d: Duration, e: Duration)
    requires d.Valid() && e.Valid() && d.Nanos() <= e.Nanos()
    ensures Millis(d) <= Millis(e)
  {
    MillisIsCeiling(d);
    MillisIsCeiling(e);
    if Millis(e) < Millis(d) == U64_MAX {
      assert Covers(d, Millis(e));
    }
  }

  lemma MulMonotone(x: int, y: int, t: nat)
    requires x <= y
    ensures x * t <= y * t
  {
  }

  /** The multiples of `t` around `x`. */
  lemma DivBounds(x: nat, t: nat)
    requires 0 < t
    ensures x / t * t <= x < x / t * t + t == (x / t + 1) * t
  {
  }

  lemma DivMonotone(x: nat, y: nat, t: nat)
    requires x <= y && 0 < t
    ensures x / t <= y / t
  {
    DivBounds(x, t);
    DivBounds(y, t);
    if y / t < x / t {
      MulMonotone(y / t + 1, x / t, t);
    }
  }

  /** `k * t <= x` exactly when the quotient of `x` is at least `k`. */
  lemma QuotientAtLeast(k: nat, x: nat, t: nat)
    requires 0 < t
    ensures k * t <= x <==> k <= x / t
  {
    DivBounds(x, t);
    if k <= x / t {
      MulMonotone(k, x / t, t);
    } else {
      MulMonotone(x / t + 1, k, t);
    }
  }

  /** Ticks never run backwards. */
  lemma TickMonotone(d: Duration, e: Duration, tickMs: u64)
    requires d.Valid() && e.Valid() && d.Nanos() <= e.Nanos() && 0 < tickMs
    ensures DurationToTick(d, tickMs) <= DurationToTick(e, tickMs)
  {
    MillisMonotone(d, e);
    DivMonotone(SaturatingAdd(Millis(d), tickMs / 2), SaturatingAdd(Millis(e), tickMs / 2), tickMs);
  }

  /** A clock that has reached the tick of `d` is less than one tick short of `d` itself. A timeout may
      still fire earlier, because polls can run ahead of the clock: see `TimerQueue.FiresEarlyExactly`. */
  lemma ReachedTickIsClose(d: Duration, e: Duration, tickMs: u64)
    requires d.Valid() && e.Valid() && 0 < tickMs
    requires Millis(d) + tickMs / 2 <= U64_MAX && Millis(e) + tickMs / 2 <= U64_MAX
    requires DurationToTick(d, tickMs) <= DurationToTick(e, tickMs)
    ensures Millis(e) > Millis(d) - tickMs
  {
    CloseQuotients(Millis(d) + tickMs / 2, Millis(e) + tickMs / 2, tickMs);
  }

  lemma CloseQuotients(x: nat, y: nat, t: nat)
    requires 0 < t && x / t <= y / t
    ensures y > x - t
  {
    DivBounds(x, t);
    DivBounds(y, t);
    MulMonotone(x / t, y / t, t);
  }

  /** The tick is the nearest one, the later one when two are equally near. */
  lemma TickIsNearest(d: Duration, tickMs: u64)
    requires d.Valid() && 0 < tickMs && Millis(d) + tickMs / 2 <= U64_MAX
    ensures var at := DurationToTick(d, tickMs) * tickMs;
            at <= Millis(d) + tickMs / 2 < at + tickMs
  {
    DivBounds(Millis(d) + tickMs / 2, tickMs);
  }

  /** So it does not always round up: with ticks of 100 milliseconds, 140 milliseconds is tick 1. */
  lemma TickCanRoundDown()
    ensures var d := Duration(0, 140 * NANOS_PER_MILLI);
            d.Valid() && DurationToTick(d, 100) * 100 < Millis(d)
  {
  }

  /** It rounds up, saturated or not, exactly when the time is on a tick or half a tick more reaches
      the next one. */
  lemma TickRoundsUpExactly(d: Duration, tickMs: u64)
    requires d.Valid() && 0 < tickMs
    ensures var ms := Millis(d);
            Millis(d) <= DurationToTick(d, tickMs) * tickMs <==>
            ms % tickMs == 0 || ms - ms % tickMs + tickMs <= SaturatingAdd(ms, tickMs / 2)
  {
    RoundsUp(Millis(d), SaturatingAdd(Millis(d), tickMs / 2), tickMs);
  }

  lemma RoundsUp(x: nat, y: nat, t: nat)
    requires 0 < t && x <= y
    ensures x <= y / t * t <==> x % t == 0 || x - x % t + t <= y
  {
    var q, r := x / t, x % t;
    RemainderOf(x, t);
    DivBounds(x, t);
    DivBounds(y, t);
    QuotientAtLeast(q, y, t);
    QuotientAtLeast(q + 1, y, t);
    if q + 1 <= y / t {
      MulMonotone(q + 1, y / t, t);
    } else {
      assert y / t == q by {
        DivMonotone(x, y, t);
      }
    }
  }

  lemma RemainderOf(x: nat, t: nat)
    requires 0 < t
    ensures x == x / t * t + x % t && x % t < t
  {
  }

  /** The wakeup thread computes its sleep as `tickMs * (until - now)` milliseconds; a clock that
      has advanced that far shows the tick it was waiting for. */
  lemma SleepReachesTick(now: Duration, later: Duration, until: u64, tickMs: u64)
    requires now.Valid() && later.Valid() && 0 < tickMs
    requires DurationToTick(now, tickMs) < until
    requires Millis(now) + tickMs / 2 <= U64_MAX && Millis(later) + tickMs / 2 <= U64_MAX
    requires Millis(later) >= Millis(now) + tickMs * (until - DurationToTick(now, tickMs))
    ensures DurationToTick(later, tickMs) >= until
  {
    QuotientGrows(Millis(now) + tickMs / 2, Millis(later) + tickMs / 2, until, tickMs);
  }

  lemma QuotientGrows(x: nat, y: nat, until: nat, t: nat)
    requires 0 < t && x / t < until && y >= x + t * (until - x / t)
    ensures y / t >= until
  {
    DivBounds(x, t);
    assert t * (until - x / t) == until * t - x / t * t;
    QuotientAtLeast(until, y, t);
  }

  /** The clock shows the largest tick only when ticks last one millisecond and time has saturated. */
  lemma LargestTick(d: Duration, tickMs: u64)
    requires d.Valid() && 0 < tickMs
    ensures DurationToTick(d, tickMs) == U64_MAX <==> tickMs == 1 && Millis(d) == U64_MAX
  {
    var x := SaturatingAdd(Millis(d), tickMs / 2);
    if tickMs >= 2 {
      QuotientAtLeast(U64_MAX, x, tickMs);
      MulMonotone(2, tickMs, U64_MAX);
    }
  }
}
