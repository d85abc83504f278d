/**
 * The global brake in closed loop with a path of fixed capacity: the path answers what it can and
 * loses everything above, and every window is driven at the current limit. The brake finds the capacity
 * and holds it from every start within reach, and from none beyond.
 */
module Capacity {
  import opened Prelude
  import opened LossJudging
  import opened RateLimiting
  import opened GlobalBraking

  /** The share a path of capacity `c` loses of what is sent at `rate`. */
  function LossAt(c: real, rate: real): real
    requires rate > 0.0
  {
    if rate <= c then 0.0 else 1.0 - c / rate
  }

  function PathMeasure(c: real, rate: real): Measure
    requires rate > 0.0
  {
    Measure(Window(LossAt(c, rate), Min(rate, c)), rate)
  }

  /** The rate a window is driven at: the limit, or what the workload offers while there is none. */
  function Driven(b: Brake, offered: real): real { UnwrapOr(b.limit, offered) }

  /** The brake after `n` windows of the closed loop. */
  function Loop(b: Brake, c: real, offered: real, n: nat): (b': Brake)
    requires Settable(b) && offered > 0.0
    ensures Settable(b') && b'.ceiling == b.ceiling
  {
    if n == 0 then b
    else
      var previous := Loop(b, c, offered, n - 1);
      Decide(previous, PathMeasure(c, Driven(previous, offered)))
  }

  /** The verdict on window `n`. */
  function LoopVerdict(b: Brake, c: real, offered: real, n: nat): Verdict
    requires Settable(b) && offered > 0.0
  {
    var current := Loop(b, c, offered, n);
    VerdictOn(current, PathMeasure(c, Driven(current, offered)))
  }

  /** The highest rate at which the path's loss stays within the threshold. */
  function Knee(c: real): real { c / 0.98 }

  /**
   * How many times the capacity a start may be for the capacity to be found: about 21.94. With `q` the
   * retreat and `i` the improvement asked for, it is (1 - i q) / (q q (1 - i)).
   */
  const REACH: real := 6340.0 / 289.0
  /** Retreats that bring any rate within reach down to the knee. */
  const MAX_RETREATS: nat := 19

  lemma {:induction false} LossBeyondKnee(c: real, rate: real)
    requires c > 0.0 && rate > 0.0
    ensures rate <= Knee(c) <==> LossAt(c, rate) <= LOSS_THRESHOLD
    ensures 0.0 <= LossAt(c, rate) <= 1.0
  {
    CompareQuotient(c, rate, 0.98);
    CompareQuotient(c, rate, 1.0);
    CompareQuotient(c, rate, 0.0);
  }

  /** A retreat from `before` lowers the loss by more than the judge demands. */
  predicate Helps(c: real, before: real) { before < REACH * RETREAT * c }

  /** A retreat that stays above the capacity lowers the loss, and visibly so exactly when it `Helps`. */
  lemma {:induction false} RetreatVisiblyHelps(c: real, before: real)
    requires 0.0 < c < 0.85 * before
    ensures LossAt(c, 0.85 * before) < LossAt(c, before)
    ensures LossAt(c, 0.85 * before) < LossAt(c, before) * RETREAT_MUST_IMPROVE <==> Helps(c, before)
  {
    var u := c / before;
    assert u * before == c;
    QuotientIs(c, 0.85 * before, u / 0.85);
    CompareQuotient(c, before, 17.0 / 317.0);
    assert 0.0 < u;
  }

  /** The judge remembers nothing, or that the last window was driven at `before` and lost. */
  ghost predicate Remembers(j: JudgeState, c: real, rate: real, before: real) {
    || j == FRESH_JUDGE
    || (&& Knee(c) < before < REACH * c && rate == 0.85 * before
        && (j.stalled == 0 || (j.stalled == 1 && Helps(c, before)))
        && j == JudgeState(Some(LossAt(c, before)), Some(c), j.stalled, None))
  }

  /** What the paths considered promise: room for the floor below and for one overshoot above. */
  ghost predicate Roomy(b: Brake, c: real) {
    Inv(b) && c >= 1.2 && b.ceiling > 1.28 * c
  }

  /** One window of the closed loop. Above the knee it retreats, at or below it grows; never a baseline. */
  lemma {:induction false} LoopStep(b: Brake, c: real, rate: real, before: real)
    requires Roomy(b, c) && 0.85 * Knee(c) < rate < REACH * c && rate <= b.ceiling
    requires b.limit == Some(rate) || (b.limit.None? && rate > Knee(c))
    requires Remembers(b.judge, c, rate, before)
    ensures var m := PathMeasure(c, rate); var b' := Decide(b, m);
            && Roomy(b', c)
            && (rate > Knee(c) ==>
                  && VerdictOn(b, m).Congested?
                  && b'.limit == Some(0.85 * rate)
                  && Remembers(b'.judge, c, 0.85 * rate, rate))
            && (rate <= Knee(c) ==>
                  && VerdictOn(b, m).Clear?
                  && b'.limit == Some(1.25 * rate)
                  && b'.judge == FRESH_JUDGE)
  {
    LossBeyondKnee(c, rate);
    DecideIsSafe(b, PathMeasure(c, rate));
    if rate > Knee(c) && b.judge != FRESH_JUDGE {
      RetreatVisiblyHelps(c, before);
    }
  }

  // ---------------------------------------------------------------- the band is held

  ghost predicate InBand(limit: Option<real>, c: real) {
    limit.Some? && 0.85 * Knee(c) < limit.value <= 1.25 * Knee(c)
  }

  /** The brake has found the capacity. */
  ghost predicate Settled(b: Brake, c: real, before: real) {
    Roomy(b, c) && InBand(b.limit, c) && Remembers(b.judge, c, b.limit.value, before)
  }

  /** Once the limit is in the band it never leaves it and no window is a baseline. */
  lemma {:induction false} BandIsKept(b: Brake, c: real, before: real)
    requires Settled(b, c, before)
    ensures var m := PathMeasure(c, b.limit.value);
            Settled(Decide(b, m), c, b.limit.value) && !VerdictOn(b, m).Baseline?
  {
    LoopStep(b, c, b.limit.value, before);
  }

  /** Window `n` of the closed loop is driven within the band and is no baseline. */
  ghost predicate Held(b: Brake, c: real, start: real, n: nat)
    requires Settable(b) && start > 0.0
  {
    InBand(Loop(b, c, start, n).limit, c) && !LoopVerdict(b, c, start, n).Baseline?
  }

  ghost predicate HeldFrom(b: Brake, c: real, start: real, found: nat)
    requires Settable(b) && start > 0.0
  {
    forall n: nat :: n >= found ==> Held(b, c, start, n)
  }

  lemma {:induction false} StaysSettled(b: Brake, c: real, start: real, found: nat, before: real, n: nat)
    returns (last: real)
    requires Settable(b) && start > 0.0 && Settled(Loop(b, c, start, found), c, before) && found <= n
    ensures Settled(Loop(b, c, start, n), c, last)
    decreases n
  {
    if n == found {
      last := before;
    } else {
      var previous := StaysSettled(b, c, start, found, before, n - 1);
      BandIsKept(Loop(b, c, start, n - 1), c, previous);
      last := Loop(b, c, start, n - 1).limit.value;
    }
  }

  /** A brake that has found the capacity holds it forever. */
  lemma {:induction false} SettledIsHeld(b: Brake, c: real, start: real, found: nat, before: real)
    requires Settable(b) && start > 0.0 && Settled(Loop(b, c, start, found), c, before)
    ensures HeldFrom(b, c, start, found)
  {
    forall n: nat | n >= found ensures Held(b, c, start, n) {
      var last := StaysSettled(b, c, start, found, before, n);
      BandIsKept(Loop(b, c, start, n), c, last);
    }
  }

  // ---------------------------------------------------------------- descending to it

  /**
   * The closed loop from a fresh judge, its first window driven at `start`: a standing limit, or a
   * workload the path cannot carry.
   */
  ghost predicate Starts(b: Brake, c: real, start: real) {
    && Roomy(b, c) && b.judge == FRESH_JUDGE
    && (b.limit == Some(start) || (b.limit.None? && Knee(c) < start <= b.ceiling))
  }

  /** The rate `n` retreats below `start`. */
  function RateAfter(start: real, n: nat): real {
    if n == 0 then start else RETREAT * RateAfter(start, n - 1)
  }

  /** The rate one retreat before `RateAfter(start, n)`. */
  function RateBefore(start: real, n: nat): real {
    if n == 0 then start else RateAfter(start, n - 1)
  }

  ghost predicate AllAbove(c: real, start: real, n: nat) {
    forall k: nat :: k < n ==> RateAfter(start, k) > Knee(c)
  }

  /** On the way down from within reach: the window is driven at `rate`, one retreat below `before`. */
  ghost predicate Descending(b: Brake, c: real, rate: real, before: real) {
    && Roomy(b, c)
    && (b.limit == Some(rate) || (b.limit.None? && rate > Knee(c)))
    && 0.85 * Knee(c) < rate < REACH * c && rate <= b.ceiling
    && Remembers(b.judge, c, rate, before)
  }

  lemma {:induction false} DescendsOnce(b: Brake, c: real, rate: real, before: real)
    requires Descending(b, c, rate, before) && rate > Knee(c)
    ensures var b' := Decide(b, PathMeasure(c, rate));
            b'.limit == Some(0.85 * rate) && Descending(b', c, 0.85 * rate, rate)
    ensures VerdictOn(b, PathMeasure(c, rate)).Congested?
  {
    LoopStep(b, c, rate, before);
  }

  lemma {:induction false} DescentBegins(b: Brake, c: real, start: real)
    requires Starts(b, c, start) && Knee(c) < start < REACH * c
    ensures Descending(b, c, start, start) && Driven(b, start) == start
  {
  }

  /** While every window so far was above the knee, each has retreated by the same factor. */
  lemma {:induction false} Descends(b: Brake, c: real, start: real, n: nat)
    requires Starts(b, c, start) && Knee(c) < start < REACH * c && AllAbove(c, start, n)
    ensures var current, rate := Loop(b, c, start, n), RateAfter(start, n);
            && Descending(current, c, rate, RateBefore(start, n))
            && (n > 0 ==> current.limit == Some(rate))
            && Driven(current, start) == rate
  {
    if n == 0 {
      DescentBegins(b, c, start);
    } else {
      var previous, rate := Loop(b, c, start, n - 1), RateAfter(start, n - 1);
      Descends(b, c, start, n - 1);
      assert rate > Knee(c);
      DescendsOnce(previous, c, rate, RateBefore(start, n - 1));
      assert Loop(b, c, start, n) == Decide(previous, PathMeasure(c, rate));
      assert RateAfter(start, n) == 0.85 * rate && RateBefore(start, n) == rate;
    }
  }

  lemma {:induction false} RateAfterIsPow(start: real, n: nat)
    ensures RateAfter(start, n) == start * Pow(RETREAT, n)
  {
    if n > 0 { RateAfterIsPow(start, n - 1); }
  }

  /** Nineteen retreats bring every rate within reach down to the knee. */
  lemma {:induction false} NineteenRetreatsSuffice(c: real, start: real)
    requires c > 0.0 && 0.0 < start < REACH * c
    ensures RateAfter(start, MAX_RETREATS) <= Knee(c)
  {
    var q, n := RETREAT, MAX_RETREATS;
    NineteenthPower(q, n);
    RateAfterIsPow(start, n);
    AtMost(start, REACH * c, Pow(q, n), 0.0457);
  }

  lemma {:induction false} NineteenthPower(q: real, n: nat)
    requires q == RETREAT && n == MAX_RETREATS
    ensures 0.0 < Pow(q, n) <= 0.0457
  {
    var k := n - 17;
    assert Pow(q, k) == q * (q * Pow(q, k - 2)) == 0.7225;
    Doubled(q, k, 0.7225);
    Doubled(q, 2 * k, 0.5221);
    Doubled(q, 4 * k, 0.27259);
    Multiplied(q, 8 * k, 0.07431, k, 0.7225);
    assert Pow(q, n) == q * Pow(q, n - 1);
  }

  lemma {:induction false} AtMost(x: real, a: real, y: real, b: real)
    requires 0.0 < x <= a && 0.0 < y <= b
    ensures x * y <= a * b
  {
    assert x * y <= x * b <= a * b;
  }

  /** The first window at or below the knee, searched for from `n`. */
  lemma {:induction false} FirstBelow(c: real, start: real, last: nat, n: nat) returns (found: nat)
    requires RateAfter(start, last) <= Knee(c) && n <= last && AllAbove(c, start, n)
    ensures found <= last && RateAfter(start, found) <= Knee(c) && AllAbove(c, start, found)
    decreases last - n
  {
    if RateAfter(start, n) <= Knee(c) {
      found := n;
    } else {
      found := FirstBelow(c, start, last, n + 1);
    }
  }

  /** Window `n` of the closed loop retreats, `n` equal retreats below the start. */
  ghost predicate Retreats(b: Brake, c: real, start: real, n: nat)
    requires Settable(b) && start > 0.0
  {
    LoopVerdict(b, c, start, n).Congested? && Driven(Loop(b, c, start, n), start) == RateAfter(start, n)
  }

  ghost predicate RetreatsUntil(b: Brake, c: real, start: real, found: nat)
    requires Settable(b) && start > 0.0
  {
    forall n: nat :: n < found ==> Retreats(b, c, start, n)
  }

  /** A start above the knee and within reach retreats down to the knee and is held there. */
  lemma {:induction false} HighStartDescendsIntoTheBand(b: Brake, c: real, start: real) returns (found: nat)
    requires Starts(b, c, start) && Knee(c) < start < REACH * c
    ensures 1 <= found <= MAX_RETREATS && RetreatsUntil(b, c, start, found)
    ensures Loop(b, c, start, found).limit == Some(RateAfter(start, found))
    ensures RateAfter(start, found) <= Knee(c)
    ensures HeldFrom(b, c, start, found)
  {
    var last := MAX_RETREATS;
    NineteenRetreatsSuffice(c, start);
    found := FirstBelow(c, start, last, 0);
    forall n: nat | n < found ensures Retreats(b, c, start, n) {
      assert RateAfter(start, n) > Knee(c);
      Descends(b, c, start, n);
      DescendsOnce(Loop(b, c, start, n), c, RateAfter(start, n), RateBefore(start, n));
    }
    Descends(b, c, start, found);
    SettledIsHeld(b, c, start, found, RateBefore(start, found));
  }

  // ---------------------------------------------------------------- climbing to it

  /** The limit `n` growths above `low`. */
  function RateAbove(low: real, n: nat): real {
    if n == 0 then low else GROWTH * RateAbove(low, n - 1)
  }

  lemma {:induction false} RateAboveIsPow(low: real, n: nat)
    ensures RateAbove(low, n) == low * Pow(GROWTH, n)
  {
    if n > 0 { RateAboveIsPow(low, n - 1); }
  }

  ghost predicate AllBelow(c: real, low: real, n: nat) {
    forall k: nat :: k < n ==> RateAbove(low, k) <= 0.85 * Knee(c)
  }

  /** On the way up: the limit stands at `rate`, at most one growth above the lower edge of the band. */
  ghost predicate Climbing(b: Brake, c: real, rate: real) {
    Roomy(b, c) && b.judge == FRESH_JUDGE && b.limit == Some(rate) && rate <= 1.25 * Knee(c)
  }

  lemma {:induction false} ClimbsOnce(b: Brake, c: real, rate: real)
    requires Climbing(b, c, rate) && rate <= 0.85 * Knee(c)
    ensures Climbing(Decide(b, PathMeasure(c, rate)), c, 1.25 * rate) && VerdictOn(b, PathMeasure(c, rate)).Clear?
  {
    LossBeyondKnee(c, rate);
    DecideIsSafe(b, PathMeasure(c, rate));
  }

  /** While every window so far was below the band, each has grown by a quarter. */
  lemma {:induction false} Climbs(b: Brake, c: real, low: real, n: nat)
    requires Starts(b, c, low) && low <= 0.85 * Knee(c) && AllBelow(c, low, n)
    ensures Climbing(Loop(b, c, low, n), c, RateAbove(low, n))
  {
    if n > 0 {
      Climbs(b, c, low, n - 1);
      ClimbsOnce(Loop(b, c, low, n - 1), c, RateAbove(low, n - 1));
    }
  }

  /** Growth by a quarter is at least a quarter of the start per window. */
  lemma {:induction false} GrowthAddsUp(low: real, n: nat)
    requires low > 0.0
    ensures RateAbove(low, n) >= low + n as real * (0.25 * low)
  {
    if n > 0 {
      GrowthAddsUp(low, n - 1);
      assert (n - 1) as real * (0.25 * low) + 0.25 * low == n as real * (0.25 * low);
      assert (n - 1) as real * (0.25 * low) >= 0.0;
    }
  }

  lemma {:induction false} Scaled(x: real, y: real, k: real)
    requires x <= y && k > 0.0
    ensures x * k <= y * k
  {
    assert (y - x) * k >= 0.0;
  }

  /** Enough growths exceed any bound. */
  lemma {:induction false} GrowthIsUnbounded(low: real, bound: real) returns (n: nat)
    requires low > 0.0 && bound > 0.0
    ensures RateAbove(low, n) > bound
  {
    var step := 0.25 * low;
    var q := bound / step;
    assert q * step == bound;
    n := q.Floor + 1;
    Scaled(q, n as real, step);
    GrowthAddsUp(low, n);
  }

  /** The first limit in the band, searched for from `n`. */
  lemma {:induction false} FirstAbove(c: real, low: real, last: nat, n: nat) returns (found: nat)
    requires RateAbove(low, last) > 0.85 * Knee(c) && n <= last && AllBelow(c, low, n)
    ensures found <= last && RateAbove(low, found) > 0.85 * Knee(c) && AllBelow(c, low, found)
    decreases last - n
  {
    if RateAbove(low, n) > 0.85 * Knee(c) {
      found := n;
    } else {
      found := FirstAbove(c, low, last, n + 1);
    }
  }

  /** Window `n` of the closed loop is Clear, `n` growths above the start. */
  ghost predicate Grows(b: Brake, c: real, start: real, n: nat)
    requires Settable(b) && start > 0.0
  {
    LoopVerdict(b, c, start, n).Clear? && Loop(b, c, start, n).limit == Some(RateAbove(start, n))
  }

  ghost predicate GrowsUntil(b: Brake, c: real, start: real, found: nat)
    requires Settable(b) && start > 0.0
  {
    forall n: nat :: n < found ==> Grows(b, c, start, n)
  }

  /** `found` is the least number of growths that take `start` above the lower edge of the band. */
  ghost predicate LeastGrowths(c: real, start: real, found: nat) {
    && start * Pow(GROWTH, found) > 0.85 * Knee(c)
    && forall n: nat :: start * Pow(GROWTH, n) > 0.85 * Knee(c) ==> found <= n
  }

  lemma {:induction false} LeastByPow(c: real, start: real, found: nat)
    requires RateAbove(start, found) > 0.85 * Knee(c) && AllBelow(c, start, found)
    ensures LeastGrowths(c, start, found)
  {
    RateAboveIsPow(start, found);
    forall n: nat | start * Pow(GROWTH, n) > 0.85 * Knee(c) ensures found <= n {
      RateAboveIsPow(start, n);
    }
  }

  lemma {:induction false} WindowsGrow(b: Brake, c: real, low: real, found: nat)
    requires Starts(b, c, low) && low <= 0.85 * Knee(c) && AllBelow(c, low, found)
    ensures GrowsUntil(b, c, low, found)
  {
    forall n: nat | n < found ensures Grows(b, c, low, n) {
      Climbs(b, c, low, n);
      assert RateAbove(low, n) <= 0.85 * Knee(c);
      ClimbsOnce(Loop(b, c, low, n), c, RateAbove(low, n));
    }
  }

  /**
   * A limit left below the band climbs by a quarter per window, every window Clear, for exactly as many
   * windows as the compounded growth needs, and is held in the band from then on.
   */
  lemma {:induction false} LowLimitClimbsIntoTheBand(b: Brake, c: real, low: real) returns (found: nat)
    requires Starts(b, c, low) && low <= 0.85 * Knee(c)
    ensures LeastGrowths(c, low, found) && GrowsUntil(b, c, low, found)
    ensures Loop(b, c, low, found).limit == Some(RateAbove(low, found))
    ensures HeldFrom(b, c, low, found)
  {
    var last := GrowthIsUnbounded(low, 0.85 * Knee(c));
    found := FirstAbove(c, low, last, 0);
    LeastByPow(c, low, found);
    WindowsGrow(b, c, low, found);
    Climbs(b, c, low, found);
    SettledIsHeld(b, c, low, found, low);
  }

  // ---------------------------------------------------------------- the capacity is found exactly within reach

  /**
   * Capacity is found and held. Every start below `REACH` times the capacity comes to the band without
   * a baseline and stays there: from above the knee by at most nineteen equal retreats, from below the
   * band by the least number of growths, and from within the band at once.
   */
  lemma {:induction false} CapacityIsFoundAndHeld(b: Brake, c: real, start: real) returns (found: nat)
    requires Starts(b, c, start) && start < REACH * c
    ensures start > 0.0 && HeldFrom(b, c, start, found)
    ensures start > Knee(c) ==>
              && 1 <= found <= MAX_RETREATS && RetreatsUntil(b, c, start, found)
              && 0.0 < RateAfter(start, found) && LossAt(c, RateAfter(start, found)) <= LOSS_THRESHOLD
              && Loop(b, c, start, found).limit == Some(RateAfter(start, found))
    ensures 0.85 * Knee(c) < start <= Knee(c) ==> found == 0
    ensures start <= 0.85 * Knee(c) ==>
              && LeastGrowths(c, start, found) && GrowsUntil(b, c, start, found)
              && Loop(b, c, start, found).limit == Some(RateAbove(start, found))
  {
    if start > Knee(c) {
      found := HighStartDescendsIntoTheBand(b, c, start);
      assert Held(b, c, start, found);
      LossBeyondKnee(c, RateAfter(start, found));
    } else if start > 0.85 * Knee(c) {
      found := 0;
      SettledIsHeld(b, c, start, 0, start);
    } else {
      found := LowLimitClimbsIntoTheBand(b, c, start);
    }
  }

  /** The judge has taken the loss at `rate` for the path's own, and the limit stands there. */
  ghost predicate Stuck(b: Brake, c: real, rate: real) {
    && Settable(b) && rate > 0.0 && b.limit == Some(rate)
    && b.judge == JudgeState(None, None, 0, Some(LossAt(c, rate)))
  }

  /** Loss over half of everything, once taken for the path's own, holds the limit where it is. */
  lemma {:induction false} StuckStays(b: Brake, c: real, rate: real)
    requires Stuck(b, c, rate) && LossAt(c, rate) > MAX_BASELINE_LOSS
    ensures Decide(b, PathMeasure(c, rate)) == b && VerdictOn(b, PathMeasure(c, rate)).Clear?
  {
  }

  /** From beyond reach two retreats change too little, and the third window is a baseline. */
  lemma {:induction false} GivesUpAtTheThird(b: Brake, c: real, start: real)
    requires Starts(b, c, start) && start >= REACH * c
    ensures var b1 := Decide(b, PathMeasure(c, start)); var b2 := Decide(b1, PathMeasure(c, 0.85 * start));
            && VerdictOn(b, PathMeasure(c, start)).Congested? && b1.limit == Some(0.85 * start)
            && VerdictOn(b1, PathMeasure(c, 0.85 * start)).Congested? && b2.limit == Some(0.7225 * start)
            && VerdictOn(b2, PathMeasure(c, 0.7225 * start)).Baseline?
            && Stuck(Decide(b2, PathMeasure(c, 0.7225 * start)), c, 0.7225 * start)
  {
    LossBeyondKnee(c, start);
    LossBeyondKnee(c, 0.85 * start);
    RetreatVisiblyHelps(c, start);
    RetreatVisiblyHelps(c, 0.85 * start);
    FarBeyond(c, 0.7225 * start);
  }

  lemma {:induction false} FarBeyond(c: real, rate: real)
    requires c > 0.0 && rate > 10.0 * c
    ensures LossAt(c, rate) > 0.9
  {
    CompareQuotient(c, rate, 0.1);
  }

  /**
   * Beyond reach the capacity is never found: two retreats, a baseline over nine tenths lost, and from
   * then on every window is Clear and the limit stands where the second retreat left it.
   */
  lemma {:induction false} BeyondReachIsStuck(b: Brake, c: real, start: real, n: nat)
    requires Starts(b, c, start) && start >= REACH * c && n >= 3
    ensures LoopVerdict(b, c, start, 2).Baseline? && LossAt(c, 0.7225 * start) > 0.9
    ensures Stuck(Loop(b, c, start, n), c, 0.7225 * start) && LoopVerdict(b, c, start, n).Clear?
  {
    FarBeyond(c, 0.7225 * start);
    FirstThreeWindows(b, c, start);
    if n > 3 {
      BeyondReachIsStuck(b, c, start, n - 1);
      StuckStays(Loop(b, c, start, n - 1), c, 0.7225 * start);
    }
    StuckStays(Loop(b, c, start, n), c, 0.7225 * start);
  }

  lemma {:induction false} FirstThreeWindows(b: Brake, c: real, start: real)
    requires Starts(b, c, start) && start >= REACH * c
    ensures LoopVerdict(b, c, start, 2).Baseline? && Stuck(Loop(b, c, start, 3), c, 0.7225 * start)
  {
    GivesUpAtTheThird(b, c, start);
    var b1 := Loop(b, c, start, 1);
    assert b1 == Decide(b, PathMeasure(c, start)) by { assert Loop(b, c, start, 0) == b; }
    var b2 := Loop(b, c, start, 2);
    assert b2 == Decide(b1, PathMeasure(c, 0.85 * start));
    assert Loop(b, c, start, 3) == Decide(b2, PathMeasure(c, 0.7225 * start));
  }

  ghost predicate FindsCapacity(b: Brake, c: real, start: real)
    requires Settable(b) && start > 0.0
  {
    exists found: nat :: HeldFrom(b, c, start, found)
  }

  /** The capacity is found and held exactly from starts below `REACH` times the capacity. */
  lemma {:induction false} FoundExactlyWithinReach(b: Brake, c: real, start: real)
    requires Starts(b, c, start)
    ensures start > 0.0 && (FindsCapacity(b, c, start) <==> start < REACH * c)
  {
    if start < REACH * c {
      var found := CapacityIsFoundAndHeld(b, c, start);
    } else {
      forall found: nat ensures !HeldFrom(b, c, start, found) {
        var n := MaxNat(found, 3);
        BeyondReachIsStuck(b, c, start, n);
        assert !Held(b, c, start, n);
      }
    }
  }

  /** A workload the path can carry is never limited. */
  lemma {:induction false} CarriedLoadIsNeverLimited(b: Brake, c: real, start: real, n: nat)
    requires Roomy(b, c) && b.judge == FRESH_JUDGE && b.limit.None? && 0.0 < start <= Knee(c)
    ensures Loop(b, c, start, n) == b
    ensures LoopVerdict(b, c, start, n).Clear?
  {
    LossBeyondKnee(c, start);
    if n > 0 {
      CarriedLoadIsNeverLimited(b, c, start, n - 1);
    }
  }
}
