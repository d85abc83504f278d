/**
 * The attempt brake in closed loop with a path of fixed capacity: every judged window loses what exceeds
 * the capacity, in a probe as well as at the limit, and every window outside a probe is shaped by the limit.
 */
module AttemptCapacity {
  import opened Prelude
  import opened AttemptBraking
  import opened AttemptBrakeRuns
  import opened Probes
  import opened PacedProbes
  import C = Capacity

  /** The highest rate at which the path's loss stays within the threshold. */
  function AttemptKnee(c: real): real { c / 0.97 }

  /** How many times the capacity a limit may be for every clearly lower rate to lose clearly less. */
  const ATTEMPT_REACH: real := 22.0

  /** A sample is what the path makes of its rate. */
  ghost predicate FromPath(s: Sample, c: real) {
    s.rate > 0.0 && s.loss == C.LossAt(c, s.rate) && s.delivered == Min(s.rate, c)
  }

  ghost predicate OnPath(history: seq<Sample>, c: real) { forall s <- history :: FromPath(s, c) }

  /** One event of the closed loop. */
  ghost predicate Loops(b: BrakeState, e: Event, c: real)
    requires b.seconds >= 0.0 && Possible(e)
  {
    && !e.Release? && (e.Tick? ==> !LongIdle(b, e.look))
    && (Measuring(b, e) ==> FromPath(NewSample(b, e), c) && (b.probe.None? ==> MeasureOf(b, e).shaped))
  }

  ghost predicate AlwaysLoops(b: BrakeState, es: seq<Event>, c: real)
    requires Inv(b) && AllPossible(es)
    decreases es
  {
    es != [] ==> Loops(b, es[0], c) && (StepKeepsInv(b, es[0]); AlwaysLoops(Stepped(b, es[0]), es[1..], c))
  }

  // ---------------------------------------------------------------- what the record says

  lemma {:induction false} LossBeyondAttemptKnee(c: real, rate: real)
    requires c > 0.0 && rate > 0.0
    ensures rate <= AttemptKnee(c) <==> C.LossAt(c, rate) <= ATTEMPT_LOSS_THRESHOLD
  {
    CompareQuotient(c, rate, 0.97);
    CompareQuotient(c, rate, 1.0);
  }

  /** Above the knee a clearly lower rate loses clearly less. */
  lemma {:induction false} LowerLosesLess(c: real, low: real, rate: real)
    requires c > 0.0 && 0.0 < low <= rate * ATTEMPT_REFERENCE_BELOW && AttemptKnee(c) < rate <= ATTEMPT_REACH * c
    ensures C.LossAt(c, low) < C.LossAt(c, rate) - ATTEMPT_LOSS_THRESHOLD
  {
    LossBeyondAttemptKnee(c, rate);
    if low > c {
      var u, v := c / rate, c / low;
      assert u * rate == c && v * low == c;
      QuotientGrows(c, low, rate, u, v);
    }
  }

  lemma {:induction false} QuotientGrows(c: real, low: real, rate: real, u: real, v: real)
    requires 0.0 < c < low <= 0.6 * rate && rate <= ATTEMPT_REACH * c
    requires u * rate == c && v * low == c
    ensures 0.6 * v >= u && u * ATTEMPT_REACH >= 1.0
  {
    assert v > 0.0 && u > 0.0;
    assert v * (0.6 * rate - low) >= 0.0;
    assert (0.6 * v - u) * rate >= 0.0;
    assert u * (ATTEMPT_REACH * c - rate) >= 0.0;
    assert (u * ATTEMPT_REACH - 1.0) * c >= 0.0;
  }

  lemma {:induction false} LowerLossesBelow(history: seq<Sample>, rate: real, bound: real)
    requires forall s <- history :: IsLower(s, rate) ==> s.loss < bound
    ensures forall i :: 0 <= i < |LowerLosses(history, rate)| ==> LowerLosses(history, rate)[i] < bound
  {
    if history != [] {
      var n := |history| - 1;
      assert history[n] in history;
      LowerLossesBelow(history[..n], rate, bound);
    }
  }

  lemma {:induction false} AllBelow(losses: seq<real>, bound: real)
    requires forall i :: 0 <= i < |losses| ==> losses[i] < bound
    ensures CountBelow(losses, bound) == |losses|
  {
    if losses != [] { AllBelow(losses[1..], bound); }
  }

  lemma {:induction false} BestIsWithinCapacity(history: seq<Sample>, rate: real, c: real)
    requires c > 0.0 && OnPath(history, c)
    ensures BestHigher(history, rate) <= c
  {
    if history != [] {
      var n := |history| - 1;
      assert history[n] in history;
      BestIsWithinCapacity(history[..n], rate, c);
    }
  }

  /** With a reference on record, a window is congested exactly above the knee. */
  lemma {:induction false} CongestedAboveTheKnee(history: seq<Sample>, c: real, now: Sample, reference: Sample)
    requires c > 0.0 && OnPath(history, c) && FromPath(now, c) && now.rate <= ATTEMPT_REACH * c
    requires reference in history && IsLower(reference, now.rate)
    ensures Congested(history, now.rate, now.loss) == Some(now.rate > AttemptKnee(c))
  {
    LossBeyondAttemptKnee(c, now.rate);
    LowerSampleIsFound(history, reference, now.rate);
    if now.rate > AttemptKnee(c) {
      var bound := now.loss - ATTEMPT_LOSS_THRESHOLD;
      forall s <- history ensures IsLower(s, now.rate) ==> s.loss < bound {
        if IsLower(s, now.rate) { LowerLosesLess(c, s.rate, now.rate); }
      }
      LowerLossesBelow(history, now.rate, bound);
      AllBelow(LowerLosses(history, now.rate), bound);
    }
  }

  // ---------------------------------------------------------------- one event

  /** The loop with a limit that stands, or that the probe under way will restore. */
  ghost predicate Looping(b: BrakeState, c: real) {
    && Inv(b) && OnPath(b.history, c) && Stands(b).Some?
    && c * ATTEMPT_RETREAT >= ATTEMPT_MIN_RATE && Stands(b).value <= ATTEMPT_REACH * c
  }

  /** What a comparison makes of the limit. */
  function Moved(limit: real, c: real): real {
    if limit > AttemptKnee(c) then limit * ATTEMPT_RETREAT else limit * ATTEMPT_GROWTH
  }

  /** A judged window outside a probe that finds something to compare with. */
  ghost predicate Compares(b: BrakeState, e: Event)
    requires b.seconds >= 0.0 && Possible(e)
  {
    Measuring(b, e) && b.probe.None? && Stepped(b, e).probe.None?
  }

  lemma {:induction false} RecordStaysOnPath(b: BrakeState, s: Sample, c: real)
    requires OnPath(b.history, c) && FromPath(s, c)
    ensures OnPath(Recorded(b, s).history, c)
  {
    FromHistory(b.history + [s], s.at, b.referenceWindow);
    forall x <- Recorded(b, s).history ensures FromPath(x, c) { assert x in b.history + [s]; }
  }

  /** A judged window leaves the record on the path. */
  lemma {:induction false} WindowStaysOnPath(b: BrakeState, e: Event, c: real)
    requires Inv(b) && OnPath(b.history, c) && Possible(e) && Loops(b, e, c) && Measuring(b, e)
    ensures OnPath(Stepped(b, e).history, c)
  {
    FillKeepsInv(b, e.look);
    RecordStaysOnPath(b, NewSample(b, e), c);
    ActingRecords(WindowReset(Filled(b, e.look)).(settling := false), MeasureOf(b, e));
  }

  /** A comparison above the knee cuts, one at or below it grows. */
  lemma {:induction false} ComparisonMoves(b: BrakeState, e: Event, c: real)
    requires Looping(b, c) && Possible(e) && Compares(b, e) && Loops(b, e, c)
    ensures Stepped(b, e).limit == Some(Moved(b.limit.value, c)) && Looping(Stepped(b, e), c)
  {
    StepKeepsInv(b, e);
    WindowStaysOnPath(b, e, c);
    ProbesOnlyForWantOfEvidence(b, e);
    var now := NewSample(b, e);
    var history := Recorded(b, now).history;
    var reference :| reference in history && IsLower(reference, now.rate);
    RecordStaysOnPath(b, now, c);
    CongestedAboveTheKnee(history, c, now, reference);
    BestIsWithinCapacity(b.history, now.rate, c);
    ComparisonIsCompared(b, e);
    VerdictMoves(WindowReset(Filled(b, e.look)).(settling := false), now, c);
  }

  /** What the verdict of a comparison does to the limit, when answers keep up. */
  lemma {:induction false} VerdictMoves(b: BrakeState, s: Sample, c: real)
    requires b.limit == Some(s.rate) && Floored(b.limit) && FromPath(s, c) && c * ATTEMPT_RETREAT >= ATTEMPT_MIN_RATE
    requires BestHigher(b.history, s.rate) <= c
    requires Congested(Recorded(b, s).history, s.rate, s.loss) == Some(s.rate > AttemptKnee(c))
    ensures Compared(b, s).limit == Some(Moved(s.rate, c))
  {
    if s.rate > AttemptKnee(c) {
      assert s.delivered == c;
      assert Max(s.rate * ATTEMPT_RETREAT, ATTEMPT_MIN_RATE) == s.rate * ATTEMPT_RETREAT;
    } else {
      assert Max(s.rate * ATTEMPT_GROWTH, ATTEMPT_MIN_RATE) == s.rate * ATTEMPT_GROWTH;
    }
  }

  lemma {:induction false} ComparisonIsCompared(b: BrakeState, e: Event)
    requires Inv(b) && Possible(e) && Measuring(b, e) && b.probe.None? && MeasureOf(b, e).shaped
    ensures var closed := WindowReset(Filled(b, e.look)).(settling := false);
            && Stepped(b, e) == Compared(closed, NewSample(b, e))
            && closed.limit == b.limit && closed.history == b.history && closed.referenceWindow == b.referenceWindow
  {
    FillKeepsInv(b, e.look);
  }

  /** Everything else leaves the limit that stands where it is: probes start, are measured and end. */
  lemma {:induction false} OtherwiseStands(b: BrakeState, e: Event, c: real)
    requires Looping(b, c) && Possible(e) && !Compares(b, e) && Loops(b, e, c)
    ensures Stands(Stepped(b, e)) == Stands(b) && Looping(Stepped(b, e), c)
  {
    StepKeepsInv(b, e);
    if b.probe.Some? {
      ProbeStep(b, e);
    } else if Measuring(b, e) {
      ProbeStart(b, e);
    } else if e.Tick? {
      FillKeepsInv(b, e.look);
    }
    if Measuring(b, e) {
      WindowStaysOnPath(b, e, c);
    } else {
      RecordIsLeftAlone(b, e);
    }
  }

  lemma {:induction false} RecordIsLeftAlone(b: BrakeState, e: Event)
    requires Inv(b) && Possible(e) && !Measuring(b, e) && (e.Tick? ==> !LongIdle(b, e.look))
    ensures Stepped(b, e).history == b.history
  {
    if e.Tick? { FillKeepsInv(b, e.look); }
  }

  // ---------------------------------------------------------------- whole runs

  /** Comparisons over a run. */
  ghost function Comparisons(b: BrakeState, es: seq<Event>): nat
    requires Inv(b) && AllPossible(es)
    decreases es
  {
    if es == [] then 0
    else
      StepKeepsInv(b, es[0]);
      (if Compares(b, es[0]) then 1 else 0) + Comparisons(Stepped(b, es[0]), es[1..])
  }

  predicate InBand(limit: real, c: real) {
    0.85 * AttemptKnee(c) < limit <= 1.05 * AttemptKnee(c)
  }

  /** The limit `n` comparisons of growth above `low`. */
  function GrownBy(low: real, n: nat): real {
    if n == 0 then low else GrownBy(low, n - 1) * ATTEMPT_GROWTH
  }

  /** The limit `n` cuts below `high`. */
  function CutBy(high: real, n: nat): real {
    if n == 0 then high else CutBy(high, n - 1) * ATTEMPT_RETREAT
  }

  /** After `n` comparisons the limit is in the band, or every one of them has moved it the same way. */
  predicate OnTheWay(limit: real, first: real, c: real, n: nat) {
    || InBand(limit, c)
    || (limit > 1.05 * AttemptKnee(c) && limit == CutBy(first, n))
    || (limit <= 0.85 * AttemptKnee(c) && limit == GrownBy(first, n))
  }

  lemma {:induction false} MovesOnTheWay(limit: real, first: real, c: real, n: nat)
    requires c > 0.0 && OnTheWay(limit, first, c, n) && limit > 0.0
    ensures OnTheWay(Moved(limit, c), first, c, n + 1)
    ensures InBand(limit, c) ==> InBand(Moved(limit, c), c)
  {
  }

  lemma {:induction false} LoopRuns(b: BrakeState, es: seq<Event>, c: real, first: real, n: nat)
    requires Looping(b, c) && AllPossible(es) && AlwaysLoops(b, es, c) && OnTheWay(Stands(b).value, first, c, n)
    ensures Looping(Run(b, es), c) && OnTheWay(Stands(Run(b, es)).value, first, c, n + Comparisons(b, es))
    ensures InBand(Stands(b).value, c) ==> InBand(Stands(Run(b, es)).value, c)
    decreases es
  {
    if es != [] {
      var b', rest := Stepped(b, es[0]), es[1..];
      if Compares(b, es[0]) {
        ComparisonMoves(b, es[0], c);
        MovesOnTheWay(Stands(b).value, first, c, n);
        LoopRuns(b', rest, c, first, n + 1);
      } else {
        OtherwiseStands(b, es[0], c);
        LoopRuns(b', rest, c, first, n);
      }
    }
  }

  /**
   * The attempt brake finds the capacity and holds it: from any limit within reach the comparisons cut or
   * grow it by the same factor into the band around the knee, and once there it never leaves, whatever
   * probes come between. As many comparisons as compounding needs bring it there.
   */
  lemma {:induction false} AttemptCapacityIsHeld(b: BrakeState, es: seq<Event>, c: real)
    requires Looping(b, c) && AllPossible(es) && AlwaysLoops(b, es, c)
    ensures var first, last, n := Stands(b).value, Stands(Run(b, es)), Comparisons(b, es);
            && last.Some? && OnTheWay(last.value, first, c, n)
            && (InBand(first, c) ==> InBand(last.value, c))
            && (CutBy(first, n) <= 1.05 * AttemptKnee(c) && GrownBy(first, n) > 0.85 * AttemptKnee(c) ==>
                  InBand(last.value, c))
  {
    LoopRuns(b, es, c, Stands(b).value, 0);
  }
}
