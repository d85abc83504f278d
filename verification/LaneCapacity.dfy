/**
 * One resolver in closed loop with a path of fixed capacity: its windows are driven at its pace, or at
 * what the workload offers while it has none, and its edge must come down to the capacity and stay there.
 */
module LaneCapacity {
  import opened Prelude
  import opened LossJudging
  import opened RateLimiting
  import opened ResolverLanes
  import opened LaneEpisodes
  import G = GlobalBraking
  import C = Capacity

  /** How many times the capacity a rate may be for the next retreat to help whatever the rounding. */
  const LANE_REACH: real := 17.2
  /** Rates whose interval is at least fifty nanoseconds. */
  const FASTEST_FINE: real := 20_000_000.0
  /** Retreats that bring any rate within reach down to the knee. */
  const LANE_RETREATS: nat := 20

  /** The rate the resolver is sent. */
  function Sent(l: Lane, start: real): real
    requires l.interval >= 1
  {
    if l.edge.None? then start else RateOf(l.interval)
  }

  /** The window a tick judges is what the path makes of `rate`. */
  ghost predicate Shows(l: Lane, k: Look, c: real, rate: real)
    requires Judges(l, k) && rate > 0.0
  {
    && ViewAt(l, k) == Window(C.LossAt(c, rate), Min(rate, c))
    && ObservedRate(Filled(l, k).window, Filled(l, k).windowSeconds) == rate
  }

  /** Every window of the run is driven at the resolver's rate, and no edge gets to be thirty seconds old. */
  ghost predicate Drives(l: Lane, ks: seq<Look>, c: real, start: real)
    requires Inv(l) && start > 0.0
    decreases ks
  {
    ks != [] ==>
      && (Judges(l, ks[0]) ==> Shows(l, ks[0], c, Sent(l, start)))
      && !Expires(l, ks[0].now)
      && (TickKeepsInv(l, ks[0]); Drives(Ticked(l, ks[0]), ks[1..], c, start))
  }

  // ---------------------------------------------------------------- a pace is close to its target

  lemma {:induction false} PaceIsClose(target: real)
    requires 1.0 <= target <= FASTEST_FINE
    ensures 0.99 * target <= RateOf(IntervalFor(target)) <= 1.0102 * target
  {
    var y, n := NANOS / target, IntervalFor(target);
    assert y * target == NANOS;
    CompareQuotient(NANOS, target, 50.0);
    CompareQuotient(NANOS, target, NANOS);
    var m, rate := n as real, RateOf(n);
    assert y - 0.5 <= m <= y + 0.5;
    assert rate * m == NANOS;
    CloseQuotients(rate, m, y, target);
  }

  lemma {:induction false} CloseQuotients(rate: real, m: real, y: real, target: real)
    requires target > 0.0 && y >= 50.0 && y - 0.5 <= m <= y + 0.5 && rate * m == y * target
    ensures 0.99 * target <= rate <= 1.0102 * target
  {
    NotNegative(target, y - 0.99 * m);
    PositiveFactor(rate - 0.99 * target, m);
    NotNegative(target, 1.0102 * m - y);
    PositiveFactor(1.0102 * target - rate, m);
  }

  lemma {:induction false} PositiveFactor(x: real, m: real)
    requires m > 0.0 && x * m >= 0.0
    ensures x >= 0.0 && (x * m > 0.0 ==> x > 0.0)
  {
  }

  lemma {:induction false} NotNegative(x: real, y: real)
    requires x >= 0.0 && y >= 0.0
    ensures x * y >= 0.0
  {
  }

  /** The pace a nanosecond interval leaves of a retreat from `before`. */
  function PaceBelow(before: real): real
    requires before > 0.0
  {
    RateOf(IntervalFor(G.RETREAT * before))
  }

  /** A retreat from `before` reaches the knee or improves the loss by what the judge demands. */
  predicate Helps(c: real, before: real)
    requires before > 0.0
  {
    || PaceBelow(before) <= C.Knee(c)
    || C.LossAt(c, PaceBelow(before)) < C.LossAt(c, before) * RETREAT_MUST_IMPROVE
  }

  lemma {:induction false} PaceBelowIsClose(before: real)
    requires 1.0 <= 0.85 * before && before <= FASTEST_FINE
    ensures 0.8415 * before <= PaceBelow(before) <= 0.86 * before
  {
    PaceIsClose(0.85 * before);
  }

  /** A retreat that helps starts at no more than twenty times the capacity. */
  lemma {:induction false} HelpfulIsNear(c: real, before: real)
    requires c >= 1.2 && C.Knee(c) < before <= FASTEST_FINE && Helps(c, before)
    ensures before <= 20.0 * c
  {
    PaceBelowIsClose(before);
    var rate := PaceBelow(before);
    if before > 20.0 * c {
      var u, v := c / before, c / rate;
      assert u * before == c && v * rate == c;
      QuotientShrinks(c, rate, before, u, v);
      assert false;
    }
  }

  lemma {:induction false} QuotientShrinks(c: real, rate: real, before: real, u: real, v: real)
    requires 0.0 < c && rate >= 0.8415 * before && before > 20.0 * c
    requires u * before == c && v * rate == c
    ensures 0.8415 * v <= u && u * 20.0 < 1.0
  {
    assert v > 0.0 && u > 0.0;
    NotNegative(v, rate - 0.8415 * before);
    PositiveFactor(u - 0.8415 * v, before);
    PositiveFactor(1.0 - u * 20.0, before);
  }

  /** A retreat within reach improves the loss by more than the judge demands, rounding included. */
  lemma {:induction false} PacedRetreatHelps(c: real, rate: real, before: real)
    requires 0.0 < c < rate <= 0.86 * before && before <= LANE_REACH * c
    ensures C.LossAt(c, rate) < C.LossAt(c, before) * RETREAT_MUST_IMPROVE
  {
    assert before > 0.0;
    var u, v := c / before, c / rate;
    assert u * before == c && v * rate == c;
    QuotientGrows(c, rate, before, u, v);
  }

  lemma {:induction false} QuotientGrows(c: real, rate: real, before: real, u: real, v: real)
    requires 0.0 < c < rate <= 0.86 * before && before <= LANE_REACH * c
    requires u * before == c && v * rate == c
    ensures 0.86 * v >= u && u * LANE_REACH >= 1.0
  {
    assert v > 0.0 && u > 0.0;
    assert v * (0.86 * before - rate) >= 0.0;
    assert (0.86 * v - u) * before >= 0.0;
    assert u * (LANE_REACH * c - before) >= 0.0;
    assert (u * LANE_REACH - 1.0) * c >= 0.0;
  }

  // ---------------------------------------------------------------- one window

  /** The path leaves room for the floor, and rounding leaves room for a retreat. */
  predicate Roomy(c: real, start: real) {
    c >= 1.2 && 0.0 < start <= FASTEST_FINE
  }

  /** The path carries the start, or the first retreat from it helps. */
  predicate WithinReach(c: real, start: real) {
    Roomy(c, start) && (start <= C.Knee(c) || Helps(c, start))
  }

  ghost predicate Unpaced(l: Lane) { Inv(l) && l.edge.None? && l.judge == FRESH_JUDGE }

  /** The last window, at `before`, lost too much and made a step. */
  ghost predicate Retreated(l: Lane, c: real, before: real) {
    && before > 0.0 && Inv(l) && l.edge.Some? && l.edge.value.qps == before && l.stepped
    && l.judge == JudgeState(Some(C.LossAt(c, before)), Some(c), 0, None)
  }

  /** The last window, at `before`, lost too much, and the resolver is paced a retreat below it. */
  ghost predicate Descending(l: Lane, c: real, before: real) {
    Retreated(l, c, before) && C.Knee(c) < before <= 20.0 * c && before <= FASTEST_FINE && Helps(c, before)
  }

  /** The resolver is paced at what the path carries. */
  ghost predicate Found(l: Lane, c: real) {
    && Inv(l) && l.edge.Some? && l.judge == FRESH_JUDGE
    && 0.84 * C.Knee(c) < RateOf(l.interval) <= C.Knee(c)
  }

  lemma {:induction false} PaceOfDescent(l: Lane, c: real, before: real)
    requires c >= 1.2 && Descending(l, c, before)
    ensures RateOf(l.interval) == PaceBelow(before) && 0.84 * before <= PaceBelow(before) <= 0.86 * before
    ensures Target(l.edge.value) == 0.85 * before
  {
    PaceBelowIsClose(before);
  }

  /** The first window above the knee sets the edge at the rate observed. */
  lemma {:induction false} FirstWindow(l: Lane, k: Look, c: real, start: real)
    requires Unpaced(l) && Roomy(c, start) && start > C.Knee(c) && Judges(l, k) && Shows(l, k, c, start)
    ensures VerdictAt(l, k).Congested? && Retreated(Ticked(l, k), c, start)
    ensures Helps(c, start) ==> Descending(Ticked(l, k), c, start)
  {
    if Helps(c, start) { HelpfulIsNear(c, start); }
    C.LossBeyondKnee(c, start);
    TickKeepsInv(l, k);
    FreshLaneIsValid();
    assert RateOf(l.interval) == NANOS;
  }

  /** Every further window above the knee lowers the edge to the rate it was driven at. */
  lemma {:induction false} NextWindow(l: Lane, k: Look, c: real, before: real)
    requires c >= 1.2 && Descending(l, c, before) && RateOf(l.interval) > C.Knee(c)
    requires Judges(l, k) && Shows(l, k, c, RateOf(l.interval))
    ensures VerdictAt(l, k) == Congested(true) && Descending(Ticked(l, k), c, RateOf(l.interval))
  {
    var rate := RateOf(l.interval);
    PaceOfDescent(l, c, before);
    C.LossBeyondKnee(c, rate);
    NextRetreatHelps(c, rate);
    TickKeepsInv(l, k);
  }

  lemma {:induction false} NextRetreatHelps(c: real, rate: real)
    requires c >= 1.2 && C.Knee(c) < rate <= LANE_REACH * c && rate <= FASTEST_FINE
    ensures Helps(c, rate)
  {
    PaceBelowIsClose(rate);
    if PaceBelow(rate) > C.Knee(c) {
      PacedRetreatHelps(c, PaceBelow(rate), rate);
    }
  }

  /** A window at or below the knee is Clear and leaves edge and pacing alone. */
  lemma {:induction false} CarriedWindow(l: Lane, k: Look, c: real, rate: real)
    requires Inv(l) && l.judge.baseline.None? && c > 0.0 && 0.0 < rate <= C.Knee(c)
    requires Judges(l, k) && Shows(l, k, c, rate) && !Expires(l, k.now)
    ensures VerdictAt(l, k).Clear? && Inv(Ticked(l, k)) && Ticked(l, k).judge == FRESH_JUDGE
    ensures Ticked(l, k).edge == l.edge && Ticked(l, k).interval == l.interval
  {
    C.LossBeyondKnee(c, rate);
    TickKeepsInv(l, k);
    var judged := Filled(l, k).(window := NO_OBSERVATION, windowSeconds := 0.0, judge := FRESH_JUDGE, stepped := false);
    RelaxingIsIdle(judged, k.now);
  }

  // ---------------------------------------------------------------- whole runs

  /** What `n` retreats leave of `start` at most. */
  function AtMostAfter(start: real, n: nat): real {
    if n == 0 then start else 0.86 * AtMostAfter(start, n - 1)
  }

  lemma {:induction false} AtMostIsPow(start: real, q: real, n: nat)
    requires q == 0.86
    ensures AtMostAfter(start, n) == start * Pow(q, n)
  {
    if n > 0 { AtMostIsPow(start, q, n - 1); }
  }

  lemma {:induction false} PowerOfTheRetreat(q: real, n: nat)
    requires q == 0.86 && n == LANE_RETREATS
    ensures 0.0 < Pow(q, n) <= 0.051
  {
    var k := n - 18;
    assert Pow(q, k) == q * (q * Pow(q, k - 2)) == 0.7396;
    Doubled(q, k, 0.7396);
    Doubled(q, 2 * k, 0.5471);
    Doubled(q, 4 * k, 0.29932);
    Multiplied(q, 8 * k, 0.0896, 2 * k, 0.5471);
  }

  /** Twenty retreats bring every start within reach below the knee. */
  lemma {:induction false} RetreatsSuffice(c: real, start: real, n: nat)
    requires c > 0.0 && 0.0 < start <= 20.0 * c && n >= LANE_RETREATS
    ensures 0.0 < AtMostAfter(start, n) <= C.Knee(c)
    decreases n
  {
    if n > LANE_RETREATS {
      RetreatsSuffice(c, start, n - 1);
    } else {
      var q := 0.86;
      PowerOfTheRetreat(q, n);
      AtMostIsPow(start, q, n);
      C.AtMost(start, 20.0 * c, Pow(q, n), 0.051);
    }
  }

  /** The lane after `n` retreats. */
  ghost predicate Phase(l: Lane, c: real, start: real, n: nat) {
    if n == 0 then Unpaced(l)
    else
      && (Found(l, c) || (l.edge.Some? && Descending(l, c, l.edge.value.qps)))
      && RateOf(l.interval) <= AtMostAfter(start, n)
  }

  /** A tick that judges nothing keeps the phase. */
  lemma {:induction false} PhaseWaits(l: Lane, k: Look, c: real, start: real, n: nat)
    requires Phase(l, c, start, n) && !Judges(l, k) && !Expires(l, k.now)
    ensures Phase(Ticked(l, k), c, start, n) && (Found(l, c) ==> Found(Ticked(l, k), c))
  {
    RelaxingTick(l, k);
    TickKeepsInv(l, k);
  }

  /** A judged tick above the knee retreats once more. */
  lemma {:induction false} PhaseRetreats(l: Lane, k: Look, c: real, start: real, n: nat)
    requires WithinReach(c, start) && Phase(l, c, start, n) && Judges(l, k)
    requires Shows(l, k, c, Sent(l, start)) && Sent(l, start) > C.Knee(c)
    ensures VerdictAt(l, k).Congested? && Phase(Ticked(l, k), c, start, n + 1) && n < LANE_RETREATS
  {
    var rate, l' := Sent(l, start), Ticked(l, k);
    if n == 0 {
      FirstWindow(l, k, c, start);
    } else {
      NextWindow(l, k, c, l.edge.value.qps);
    }
    PaceOfDescent(l', c, rate);
    assert rate <= AtMostAfter(start, n) && AtMostAfter(start, n + 1) == 0.86 * AtMostAfter(start, n);
    StillAbove(c, start, n);
  }

  lemma {:induction false} StillAbove(c: real, start: real, n: nat)
    requires WithinReach(c, start) && AtMostAfter(start, n) > C.Knee(c)
    ensures n < LANE_RETREATS
  {
    if start > C.Knee(c) { HelpfulIsNear(c, start); }
    if n >= LANE_RETREATS {
      RetreatsSuffice(c, start, n);
      assert false;
    }
  }

  /** A judged tick at or below the knee has found the capacity, or never needed to. */
  lemma {:induction false} PhaseClears(l: Lane, k: Look, c: real, start: real, n: nat)
    requires WithinReach(c, start) && Phase(l, c, start, n) && Judges(l, k) && !Expires(l, k.now)
    requires Shows(l, k, c, Sent(l, start)) && Sent(l, start) <= C.Knee(c)
    ensures VerdictAt(l, k).Clear? && Phase(Ticked(l, k), c, start, n)
    ensures n > 0 ==> Found(Ticked(l, k), c)
    ensures Ticked(l, k).edge == l.edge && Ticked(l, k).interval == l.interval
  {
    CarriedWindow(l, k, c, Sent(l, start));
    if n > 0 && !Found(l, c) {
      PaceOfDescent(l, c, l.edge.value.qps);
    }
  }

  /** The verdicts of a run: retreats first, and nothing but Clear from then on. */
  ghost predicate RetreatsThenClear(vs: seq<Verdict>, m: nat) {
    && m <= |vs|
    && (forall i :: 0 <= i < m ==> vs[i].Congested?)
    && (forall i :: m <= i < |vs| ==> vs[i].Clear?)
  }

  lemma {:induction false} OneVerdictMore(v: Verdict, vs: seq<Verdict>, m: nat)
    requires RetreatsThenClear(vs, m)
    ensures v.Congested? ==> RetreatsThenClear([v] + vs, m + 1)
    ensures v.Clear? && m == 0 ==> RetreatsThenClear([v] + vs, 0)
  {
  }

  /** Once found, or never exceeded, the capacity is held: every window is Clear, edge and pacing stay. */
  lemma {:induction false} HeldUntilExpiry(l: Lane, ks: seq<Look>, c: real, start: real, n: nat)
    requires WithinReach(c, start) && Phase(l, c, start, n) && Drives(l, ks, c, start) && Sent(l, start) <= C.Knee(c)
    requires n > 0 ==> Found(l, c)
    ensures Run(l, ks).edge == l.edge && Run(l, ks).interval == l.interval && Phase(Run(l, ks), c, start, n)
    ensures n > 0 ==> Found(Run(l, ks), c)
    ensures RetreatsThenClear(LaneVerdicts(l, ks), 0)
    decreases ks
  {
    if ks != [] {
      var l' := FirstTick(l, ks);
      if Judges(l, ks[0]) {
        PhaseClears(l, ks[0], c, start, n);
        HeldUntilExpiry(l', ks[1..], c, start, n);
        OneVerdictMore(VerdictAt(l, ks[0]), LaneVerdicts(l', ks[1..]), 0);
      } else {
        PhaseWaits(l, ks[0], c, start, n);
        RelaxingTick(l, ks[0]);
        HeldUntilExpiry(l', ks[1..], c, start, n);
      }
    }
  }

  /** Where a run from phase `n` has got to after `m` more retreats. */
  ghost predicate SettledBy(l: Lane, ks: seq<Look>, c: real, start: real, n: nat, m: nat)
    requires Inv(l)
  {
    && n + m <= LANE_RETREATS && RetreatsThenClear(LaneVerdicts(l, ks), m)
    && (m < |LaneVerdicts(l, ks)| && n + m > 0 ==> Found(Run(l, ks), c))
  }

  lemma {:induction false} ClearFromNowOn(l: Lane, ks: seq<Look>, c: real, start: real, n: nat)
    requires WithinReach(c, start) && Phase(l, c, start, n) && Inv(l) && Drives(l, ks, c, start) && n <= LANE_RETREATS
    requires ks != [] && Judges(l, ks[0]) && Sent(l, start) <= C.Knee(c)
    ensures SettledBy(l, ks, c, start, n, 0)
  {
    var l' := FirstTick(l, ks);
    PhaseClears(l, ks[0], c, start, n);
    HeldUntilExpiry(l', ks[1..], c, start, n);
    OneVerdictMore(VerdictAt(l, ks[0]), LaneVerdicts(l', ks[1..]), 0);
  }

  lemma {:induction false} OneRetreatMore(l: Lane, ks: seq<Look>, c: real, start: real, n: nat, m: nat)
    requires Inv(l) && ks != [] && Judges(l, ks[0]) && VerdictAt(l, ks[0]).Congested? && Inv(Ticked(l, ks[0]))
    requires SettledBy(Ticked(l, ks[0]), ks[1..], c, start, n + 1, m)
    ensures SettledBy(l, ks, c, start, n, m + 1)
  {
    var l' := FirstTick(l, ks);
    OneVerdictMore(VerdictAt(l, ks[0]), LaneVerdicts(l', ks[1..]), m);
  }

  lemma {:induction false} Settles(l: Lane, ks: seq<Look>, c: real, start: real, n: nat) returns (m: nat)
    requires WithinReach(c, start) && Phase(l, c, start, n) && Inv(l) && Drives(l, ks, c, start) && n <= LANE_RETREATS
    ensures SettledBy(l, ks, c, start, n, m)
    decreases ks
  {
    if ks == [] {
      m := 0;
    } else if !Judges(l, ks[0]) {
      var l' := FirstTick(l, ks);
      PhaseWaits(l, ks[0], c, start, n);
      m := Settles(l', ks[1..], c, start, n);
    } else if Sent(l, start) > C.Knee(c) {
      PhaseRetreats(l, ks[0], c, start, n);
      TickKeepsInv(l, ks[0]);
      var rest := Settles(Ticked(l, ks[0]), ks[1..], c, start, n + 1);
      OneRetreatMore(l, ks, c, start, n, rest);
      m := rest + 1;
    } else {
      ClearFromNowOn(l, ks, c, start, n);
      m := 0;
    }
  }

  /**
   * A resolver finds its capacity and holds it: from a first observation that the path carries or whose
   * retreat helps, every window above the knee lowers the edge to its own rate, at most twenty of them
   * and never with a baseline; the first one that is Clear leaves the resolver paced within the
   * threshold, and it stays so for as long as the edge is younger than thirty seconds.
   */
  lemma {:induction false} ResolverFindsItsCapacity(ks: seq<Look>, c: real, start: real) returns (m: nat)
    requires Inv(FRESH_LANE) && WithinReach(c, start) && Drives(FRESH_LANE, ks, c, start)
    ensures m <= LANE_RETREATS && RetreatsThenClear(LaneVerdicts(FRESH_LANE, ks), m)
    ensures start <= C.Knee(c) ==> m == 0 && Run(FRESH_LANE, ks).edge.None?
    ensures start > C.Knee(c) && m < |LaneVerdicts(FRESH_LANE, ks)| ==>
              var pace := RateOf(Run(FRESH_LANE, ks).interval);
              0.84 * C.Knee(c) < pace <= C.Knee(c) && C.LossAt(c, pace) <= LOSS_THRESHOLD
  {
    if start <= C.Knee(c) {
      HeldUntilExpiry(FRESH_LANE, ks, c, start, 0);
      m := 0;
    } else {
      m := Settles(FRESH_LANE, ks, c, start, 0);
      if m < |LaneVerdicts(FRESH_LANE, ks)| {
        FirstVerdictRetreats(FRESH_LANE, ks, c, start, m);
        C.LossBeyondKnee(c, RateOf(Run(FRESH_LANE, ks).interval));
      }
    }
  }

  /** A start above the knee is not Clear at once. */
  lemma {:induction false} FirstVerdictRetreats(l: Lane, ks: seq<Look>, c: real, start: real, m: nat)
    requires WithinReach(c, start) && start > C.Knee(c) && Unpaced(l) && Drives(l, ks, c, start)
    requires RetreatsThenClear(LaneVerdicts(l, ks), m) && m < |LaneVerdicts(l, ks)|
    ensures m > 0
    decreases ks
  {
    if ks != [] {
      var l' := FirstTick(l, ks);
      if Judges(l, ks[0]) {
        PhaseRetreats(l, ks[0], c, start, 0);
        assert LaneVerdicts(l, ks)[0].Congested?;
      } else {
        PhaseWaits(l, ks[0], c, start, 0);
        FirstVerdictRetreats(l', ks[1..], c, start, m);
      }
    }
  }

  // ---------------------------------------------------------------- a first retreat that does not help

  /** The edge stands at the first observation, and the judge has stalled or given up on it. */
  ghost predicate Stuck(l: Lane, c: real, start: real) {
    && start > 0.0 && Inv(l) && l.edge.Some? && l.edge.value.qps == start
    && (|| Retreated(l, c, start)
        || (&& !l.stepped && l.judge.best.Some? && l.judge.best.value <= C.LossAt(c, PaceBelow(start))
            && l.judge.bestDelivered == Some(c) && l.judge.stalled == 1 && l.judge.baseline.None?)
        || l.judge == JudgeState(None, None, 0, Some(C.LossAt(c, PaceBelow(start)))))
  }

  /** The retreat from `start` stays above the knee and does not help. */
  predicate OutOfReach(c: real, start: real) {
    Roomy(c, start) && start > C.Knee(c) && !Helps(c, start)
  }

  /** A judged tick leaves a stuck lane stuck, its edge where it was. */
  lemma {:induction false} StuckWindow(l: Lane, k: Look, c: real, start: real)
    requires OutOfReach(c, start) && Stuck(l, c, start) && !Expires(l, k.now)
    requires Judges(l, k) && Shows(l, k, c, RateOf(l.interval))
    ensures Stuck(Ticked(l, k), c, start)
  {
    var rate, judged := PaceBelow(start), Filled(l, k).(window := NO_OBSERVATION, windowSeconds := 0.0);
    assert RateOf(l.interval) == rate;
    C.LossBeyondKnee(c, rate);
    TickKeepsInv(l, k);
    RoundingIsNoStep(Target(l.edge.value));
    RelaxingIsIdle(judged.(judge := Judged(l.judge, ViewAt(l, k)).0, stepped := false), k.now);
  }

  lemma {:induction false} StuckRun(l: Lane, ks: seq<Look>, c: real, start: real)
    requires OutOfReach(c, start) && Stuck(l, c, start) && Inv(l) && Drives(l, ks, c, start)
    ensures Stuck(Run(l, ks), c, start)
    decreases ks
  {
    if ks != [] {
      var l' := FirstTick(l, ks);
      if Judges(l, ks[0]) {
        StuckWindow(l, ks[0], c, start);
      } else {
        RelaxingTick(l, ks[0]);
      }
      StuckRun(l', ks[1..], c, start);
    }
  }

  /**
   * Where the first retreat does not help the capacity is never found: the resolver is paced a retreat
   * below its first observation, above the knee, for as long as the edge lives.
   */
  lemma {:induction false} ResolverMissesItsCapacity(l: Lane, ks: seq<Look>, c: real, start: real)
    requires OutOfReach(c, start) && Unpaced(l) && Drives(l, ks, c, start)
    ensures Run(l, ks).edge.None? || RateOf(Run(l, ks).interval) == PaceBelow(start) > C.Knee(c)
    decreases ks
  {
    if ks != [] {
      var l' := FirstTick(l, ks);
      if Judges(l, ks[0]) {
        FirstWindow(l, ks[0], c, start);
        StuckRun(l', ks[1..], c, start);
        assert Stuck(Run(l', ks[1..]), c, start);
      } else {
        RelaxingTick(l, ks[0]);
        ResolverMissesItsCapacity(l', ks[1..], c, start);
      }
    }
  }
}
