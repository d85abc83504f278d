/**
 * The interval-paced limiter of src/limiter.rs: the conversion between a rate and a nanosecond
 * interval, the object that stores the interval, and the reservation one winning
 * compare-exchange makes. `CasPacing` runs many callers of it concurrently.
 */
module RateLimiting {
  import opened Prelude

  const NANOS: real := 1_000_000_000.0
  const UNLIMITED_QPS: real := 1_000_000_000.0

  /** The interval stored for a rate: rounded, at least one nanosecond, saturating at `u64::MAX`. */
  function IntervalFor(qps: real): (n: nat)
    requires qps > 0.0
    ensures 1 <= n <= U64_MAX
  {
    var rounded := Round(NANOS / qps);
    if rounded < 1 then 1 else if rounded > U64_MAX then U64_MAX else rounded
  }

  /** The rate a stored interval stands for. */
  function RateOf(interval: nat): (qps: real)
    requires interval >= 1
    ensures qps > 0.0
  {
    NANOS / interval as real
  }

  /** A faster rate never has a longer interval. */
  lemma IntervalIsAntitone(slow: real, fast: real)
    requires 0.0 < slow <= fast
    ensures IntervalFor(fast) <= IntervalFor(slow)
  {
    DivideAntitone(NANOS, slow, fast);
  }

  lemma DivideAntitone(a: real, small: real, large: real)
    requires a >= 0.0 && 0.0 < small <= large
    ensures a / large <= a / small
  {
    var x, y := a / small, a / large;
    assert x * small == a && y * large == a;
    if y > x {
      assert y * large >= y * small;
      assert y * small > x * small;
    }
  }

  /** Reading a rate back and storing it again restores the interval exactly. */
  lemma RateRoundTrip(interval: nat)
    requires 1 <= interval <= U64_MAX
    ensures IntervalFor(RateOf(interval)) == interval
  {
    var n := interval as real;
    assert NANOS / (NANOS / n) == n by {
      var r := NANOS / n;
      assert r * n == NANOS;
      assert (NANOS / r) * r == NANOS;
    }
  }

  lemma LargerFactor(a: real, b: real, x: real, y: real)
    requires a > b > 0.0 && x > 0.0
    requires a * y == b * x
    ensures y < x
  {
    assert a * x > b * x;
    assert a * (x - y) > 0.0;
  }

  lemma QuotientIs(a: real, b: real, q: real)
    requires b > 0.0 && b * q == a
    ensures a / b == q
  {
  }

  /** Only the two shortest intervals round far enough from their rate for a quarter to miss it. */
  lemma ClimbFallsShort(target: real, grown: real, n: nat)
    requires target >= 1.0 && n == IntervalFor(target)
    requires grown == RateOf(n) * 1.25 && grown < target
    ensures n <= 2 && NANOS / grown == 0.8 * n as real
  {
    var m, y := n as real, NANOS / target;
    assert y * target == NANOS;
    assert RateOf(n) * m == NANOS;
    QuotientIs(NANOS, grown, 0.8 * m);
    LargerFactor(target, grown, m, 1.25 * y);
  }

  /** Growing a limiter by a quarter toward the rate it already paces at leaves the interval alone. */
  lemma ClimbToOwnRateIsIdle(target: real)
    requires target >= 1.0
    ensures IntervalFor(Min(RateOf(IntervalFor(target)) * 1.25, target)) == IntervalFor(target)
  {
    var grown := RateOf(IntervalFor(target)) * 1.25;
    if grown < target {
      ClimbFallsShort(target, grown, IntervalFor(target));
    }
  }

  /** What a winning compare-exchange hands its caller: `max(cursor, now)`. */
  function Slot(cursor: nat, now: nat): nat { MaxNat(cursor, now) }

  /** The cursor it leaves behind. */
  function NextCursor(cursor: nat, now: nat, interval: nat): nat {
    SatAdd(Slot(cursor, now), interval)
  }

  class RateLimiter {
    var intervalNs: nat
    var nextNs: nat

    ghost predicate Valid() reads this { 1 <= intervalNs <= U64_MAX }

    constructor (qps: real)
      requires qps > 0.0
      ensures Valid() && intervalNs == IntervalFor(qps) && nextNs == 0
    {
      intervalNs := IntervalFor(qps);
      nextNs := 0;
    }

    method SetRate(qps: real)
      requires qps > 0.0
      modifies this`intervalNs
      ensures Valid() && intervalNs == IntervalFor(qps)
    {
      intervalNs := IntervalFor(qps);
    }

    function Rate(): (qps: real)
      requires Valid()
      reads this
      ensures qps > 0.0 && IntervalFor(qps) == intervalNs
    {
      RateRoundTrip(intervalNs);
      RateOf(intervalNs)
    }
  }
}
