/**
 * What the attempt brake acts on and what it does, by counting: a judged window is what its ticks saw, and
 * its outcome is decided by how many samples on record lost clearly less at clearly lower rates.
 */
module AttemptEvidence {
  import opened Prelude
  import opened AttemptBraking
  import opened AttemptBrakeRuns
  import opened Probes

  // ---------------------------------------------------------------- a window is what its ticks saw

  /** What the ticks of a stretch saw, and on how many of them nobody waited for the pacer. */
  datatype Sums = Sums(attempted: nat, lost: nat, responded: nat, seconds: real, unwaited: nat)

  /** One event added to what was seen before. */
  function Seen(sums: Sums, e: Event): Sums {
    if !e.Tick? then sums
    else
      Sums(sums.attempted + e.look.attempted, sums.lost + e.look.lost, sums.responded + e.look.responded,
           sums.seconds + e.look.seconds, sums.unwaited + (if e.look.waiting == 0 then 1 else 0))
  }

  /** What a stretch saw on top of `sums`. */
  function SeenBy(sums: Sums, es: seq<Event>): Sums
    decreases es
  {
    if es == [] then sums else SeenBy(Seen(sums, es[0]), es[1..])
  }

  /** The event leaves the window open. */
  predicate LeavesOpen(b: BrakeState, e: Event) { e.Tick? ==> !IsIdle(e.look) && !Closes(b, e.look) }

  ghost predicate StaysOpen(b: BrakeState, es: seq<Event>)
    requires Inv(b) && AllPossible(es)
    decreases es
  {
    es != [] ==> LeavesOpen(b, es[0]) && (StepKeepsInv(b, es[0]); StaysOpen(Stepped(b, es[0]), es[1..]))
  }

  /** The window of a brake. */
  function WindowOf(b: BrakeState): Sums { Sums(b.dispatched, b.lost, b.responded, b.seconds, b.unshapedTicks) }

  /** While a window stays open it gathers what its ticks see. */
  lemma {:induction false} OpenWindowIsItsTicks(b: BrakeState, es: seq<Event>)
    requires Inv(b) && AllPossible(es) && StaysOpen(b, es)
    ensures WindowOf(Run(b, es)) == SeenBy(WindowOf(b), es)
    decreases es
  {
    if es != [] {
      StepKeepsInv(b, es[0]);
      OpenTickAdds(b, es[0]);
      OpenWindowIsItsTicks(Stepped(b, es[0]), es[1..]);
    }
  }

  lemma {:induction false} OpenTickAdds(b: BrakeState, e: Event)
    requires Inv(b) && Possible(e) && LeavesOpen(b, e)
    ensures WindowOf(Stepped(b, e)) == Seen(WindowOf(b), e)
  {
  }

  predicate IsEmpty(b: BrakeState) {
    b.dispatched == b.lost == b.responded == b.unshapedTicks == 0 && b.seconds == 0.0
  }

  /** A tick that closes a window or is idle leaves an empty one. */
  lemma {:induction false} WindowsStartEmpty(b: BrakeState, e: Event)
    requires Inv(b) && Possible(e) && !LeavesOpen(b, e)
    ensures IsEmpty(Stepped(b, e))
  {
    if Measuring(b, e) {
      FillKeepsInv(b, e.look);
      ActKeepsEmpty(WindowReset(Filled(b, e.look)).(settling := false), MeasureOf(b, e));
    }
  }

  lemma {:induction false} ActKeepsEmpty(b: BrakeState, m: Measure)
    requires IsEmpty(b)
    ensures IsEmpty(Acted(b, m))
  {
  }

  /**
   * A busy tick closes the window exactly when five hundred attempts have finished in it and it has lasted
   * four of the longest timeouts; a tick is busy from twenty attempts a second up.
   */
  lemma {:induction false} WindowClosesLongAndFull(b: BrakeState, k: Look)
    requires Inv(b) && k.seconds > 0.0
    ensures IsIdle(k) <==> k.attempted as real < 20.0 * k.seconds
    ensures !IsIdle(k) ==>
              (!LeavesOpen(b, Tick(k)) <==>
                 && b.lost + k.lost + b.responded + k.responded >= 500
                 && b.seconds + k.seconds >= 4.0 * k.longestTimeout)
  {
  }

  /** A measure says what was seen under a limit, up to `now`. */
  ghost predicate Reflects(m: Measure, sums: Sums, limit: Option<real>, now: real) {
    && m.sample.at == now
    && m.sample.loss * (sums.lost + sums.responded) as real == sums.lost as real
    && m.sample.rate * sums.seconds == sums.attempted as real
    && m.sample.delivered * sums.seconds == sums.responded as real
    && (m.shaped <==> limit.None? || sums.unwaited == 0 || m.sample.rate >= 0.95 * limit.value)
  }

  /**
   * A judged window is what its ticks saw: the share lost of what finished, attempts and answers per
   * second, and it counts as shaped by the limit if somebody waited on every tick or attempts came to
   * 0.95 of it.
   */
  lemma {:induction false} JudgedWindowIsItsTicks(b: BrakeState, es: seq<Event>, e: Event)
    requires Inv(b) && IsEmpty(b) && AllPossible(es) && StaysOpen(b, es)
    requires Possible(e) && Measuring(Run(b, es), e)
    ensures Reflects(MeasureOf(Run(b, es), e), SeenBy(WindowOf(b), es + [e]), Run(b, es).limit, e.look.now)
  {
    OpenWindowIsItsTicks(b, es);
    SeenByOneMore(WindowOf(b), es, e);
    LastTick(Run(b, es), e);
  }

  lemma {:induction false} LastTick(b: BrakeState, e: Event)
    requires Inv(b) && Possible(e) && Measuring(b, e)
    ensures Reflects(MeasureOf(b, e), Seen(WindowOf(b), e), b.limit, e.look.now)
  {
    FillKeepsInv(b, e.look);
    assert WindowOf(Filled(b, e.look)) == Seen(WindowOf(b), e);
    MeasuredIsItsWindow(Filled(b, e.look), e.look.now);
  }

  lemma {:induction false} SeenByOneMore(sums: Sums, es: seq<Event>, e: Event)
    ensures SeenBy(sums, es + [e]) == Seen(SeenBy(sums, es), e)
    decreases es
  {
    if es == [] {
      assert (es + [e])[1..] == [];
    } else {
      assert (es + [e])[1..] == es[1..] + [e];
      SeenByOneMore(Seen(sums, es[0]), es[1..], e);
    }
  }

  lemma {:induction false} MeasuredIsItsWindow(b: BrakeState, now: real)
    requires b.seconds > 0.0 && b.lost + b.responded > 0
    ensures Reflects(Measured(b, now), WindowOf(b), b.limit, now)
  {
  }

  // ---------------------------------------------------------------- what a judged window does, by counting

  /** Samples on record at 0.6 of the rate or less. */
  function ComparableCount(history: seq<Sample>, rate: real): nat {
    if history == [] then 0
    else (if history[0].rate <= 0.6 * rate then 1 else 0) + ComparableCount(history[1..], rate)
  }

  /** Those of them that lost over 0.03 less. */
  function BetterCount(history: seq<Sample>, rate: real, loss: real): nat {
    if history == [] then 0
    else
      (if history[0].rate <= 0.6 * rate && history[0].loss + 0.03 < loss then 1 else 0)
      + BetterCount(history[1..], rate, loss)
  }

  /** Over 0.03 lost, and strictly more than half of the comparable samples lost over 0.03 less. */
  predicate IsCongestion(history: seq<Sample>, rate: real, loss: real) {
    loss > 0.03 && 2 * BetterCount(history, rate, loss) > ComparableCount(history, rate)
  }

  lemma {:induction false} CountBelowJoins(a: seq<real>, b: seq<real>, bound: real)
    ensures CountBelow(a + b, bound) == CountBelow(a, bound) + CountBelow(b, bound)
  {
    if a == [] {
      assert a + b == b;
    } else {
      assert (a + b)[1..] == a[1..] + b;
      CountBelowJoins(a[1..], b, bound);
    }
  }

  lemma {:induction false} CountsJoin(a: seq<Sample>, b: seq<Sample>, rate: real, loss: real)
    ensures ComparableCount(a + b, rate) == ComparableCount(a, rate) + ComparableCount(b, rate)
    ensures BetterCount(a + b, rate, loss) == BetterCount(a, rate, loss) + BetterCount(b, rate, loss)
  {
    if a == [] {
      assert a + b == b;
    } else {
      assert (a + b)[1..] == a[1..] + b;
      CountsJoin(a[1..], b, rate, loss);
    }
  }

  /** The losses at clearly lower loads are those of the comparable samples. */
  lemma {:induction false} LowerLossesCount(history: seq<Sample>, rate: real, loss: real)
    ensures |LowerLosses(history, rate)| == ComparableCount(history, rate)
    ensures CountBelow(LowerLosses(history, rate), loss - 0.03) == BetterCount(history, rate, loss)
  {
    if history != [] {
      var n := |history| - 1;
      var front, last := history[..n], [history[n]];
      LowerLossesCount(front, rate, loss);
      assert history == front + last && last[1..] == [];
      CountsJoin(front, last, rate, loss);
      var x := if IsLower(history[n], rate) then [history[n].loss] else [];
      assert x != [] ==> x[1..] == [];
      CountBelowJoins(LowerLosses(front, rate), x, loss - 0.03);
    }
  }

  lemma {:induction false} BetterAreComparable(history: seq<Sample>, rate: real, loss: real)
    ensures BetterCount(history, rate, loss) <= ComparableCount(history, rate)
  {
    if history != [] { BetterAreComparable(history[1..], rate, loss); }
  }

  /** The verdict is decided by the two counts. */
  lemma {:induction false} CongestedByCounting(history: seq<Sample>, rate: real, loss: real)
    ensures Congested(history, rate, loss) ==
            if ComparableCount(history, rate) == 0 then None else Some(IsCongestion(history, rate, loss))
  {
    LowerLossesCount(history, rate, loss);
  }

  /**
   * A judged window that its limit did not shape: the limit is kept exactly while the window shows
   * congestion by what is on record, and released otherwise. Neither leaves a trace on the record.
   */
  lemma {:induction false} UnshapedWindowHoldsOrReleases(b: BrakeState, e: Event)
    requires Inv(b) && Possible(e) && Measuring(b, e) && b.probe.None? && b.limit.Some? && !MeasureOf(b, e).shaped
    ensures var b' := Stepped(b, e);
            && b'.limit == (if IsCongestion(b.history, b.limit.value, MeasureOf(b, e).sample.loss) then b.limit else None)
            && b'.history == b.history && b'.probe.None? && b'.referenceWindow == b.referenceWindow
  {
    FillKeepsInv(b, e.look);
    BetterAreComparable(b.history, b.limit.value, MeasureOf(b, e).sample.loss);
    CongestedByCounting(b.history, b.limit.value, MeasureOf(b, e).sample.loss);
  }

  /** Some higher rate on record delivered so much more that this window keeps under 0.8 of it. */
  ghost predicate WouldCostAnswers(history: seq<Sample>, s: Sample) {
    exists x <- history :: x.rate > s.rate && s.delivered < 0.8 * x.delivered
  }

  lemma {:induction false} BestHigherIsAttained(history: seq<Sample>, rate: real)
    ensures BestHigher(history, rate) == 0.0
            || exists s <- history :: s.rate > rate && s.delivered == BestHigher(history, rate)
  {
    if history != [] {
      var n := |history| - 1;
      assert history[n] in history;
      BestHigherIsAttained(history[..n], rate);
    }
  }

  lemma {:induction false} CostIsJudgedByTheBest(history: seq<Sample>, s: Sample)
    requires s.delivered >= 0.0
    ensures s.delivered < BestHigher(history, s.rate) * ATTEMPT_GOODPUT_FLOOR <==> WouldCostAnswers(history, s)
  {
    BestHigherIsAttained(history, s.rate);
    BestHigherIsTheMost(history, s.rate);
  }

  /** What a window compared with the record leaves, by counting. */
  ghost predicate IsOutcome(b: BrakeState, s: Sample, b': BrakeState) {
    var record := Recorded(b, s).history;
    && b'.history == record
    && (if ComparableCount(record, s.rate) == 0 then
          && b'.probe == Some(Probe(b.limit, 2)) && b'.limit == Some(Max(0.5 * s.rate, 10.0))
          && b'.referenceWindow == b.referenceWindow && b'.probed == b.probed
        else if IsCongestion(record, s.rate, s.loss) then
          && b'.probe.None? && b'.referenceWindow == 60.0 && !b'.probed
          && b'.limit == (if WouldCostAnswers(b.history, s) then b.limit else Some(Max(0.85 * s.rate, 10.0)))
        else
          && b'.probe.None? && !b'.probed
          && b'.referenceWindow == (if b.probed then Min(2.0 * b.referenceWindow, 480.0) else b.referenceWindow)
          && b'.limit == (if b.limit.Some? then Some(Max(1.05 * b.limit.value, 10.0)) else None))
  }

  lemma {:induction false} ComparisonOutcome(b: BrakeState, s: Sample)
    requires b.probe.None? && s.delivered >= 0.0
    ensures IsOutcome(b, s, Compared(b, s))
  {
    CongestedByCounting(Recorded(b, s).history, s.rate, s.loss);
    CostIsJudgedByTheBest(b.history, s);
  }

  /**
   * A judged window that its limit shaped, or that ran without one: with nothing comparable on record it
   * starts a probe; congestion cuts, unless that would cost answers, and makes the record short again;
   * anything else grows a limit, and makes the record longer after a probe.
   */
  lemma {:induction false} ShapedWindowOutcome(b: BrakeState, e: Event)
    requires Inv(b) && Possible(e) && Measuring(b, e) && b.probe.None? && MeasureOf(b, e).shaped
    ensures IsOutcome(b, NewSample(b, e), Stepped(b, e))
  {
    FillKeepsInv(b, e.look);
    var closed := WindowReset(Filled(b, e.look)).(settling := false);
    DeliveredIsNotNegative(b, e);
    ComparisonOutcome(closed, NewSample(b, e));
  }

  lemma {:induction false} DeliveredIsNotNegative(b: BrakeState, e: Event)
    requires Inv(b) && Possible(e) && Measuring(b, e)
    ensures NewSample(b, e).delivered >= 0.0
  {
    var filled := Filled(b, e.look);
    FillKeepsInv(b, e.look);
    CompareQuotient(filled.responded as real, filled.seconds, 0.0);
  }

  // ---------------------------------------------------------------- idle spells and probes

  /** An idle tick changes nothing but the window and a probe under way, and is counted. */
  lemma {:induction false} IdleTickIsCounted(b: BrakeState, k: Look)
    requires Inv(b) && k.seconds > 0.0 && IsIdle(k) && b.probe.None? && b.idleTicks < U32_MAX
    ensures var b' := Stepped(b, Tick(k));
            && IsEmpty(b') && b'.idleTicks == b.idleTicks + 1 && b'.probe.None? && b'.limit == b.limit
            && b'.history == b.history && b'.referenceWindow == b.referenceWindow && b'.probed == b.probed
  {
  }

  /** The count of idle ticks fits 32 bits however long the spell. */
  lemma {:induction false} IdleTicksSaturate(b: BrakeState, e: Event)
    requires Inv(b) && Possible(e) && b.idleTicks <= U32_MAX
    ensures Stepped(b, e).idleTicks <= U32_MAX
    ensures Idling(e) && b.idleTicks == U32_MAX ==> Stepped(b, e).idleTicks == U32_MAX
  {
    if e.Tick? && !IsIdle(e.look) {
      FillKeepsInv(b, e.look);
      if Measuring(b, e) {
        ActKeepsIdleTicks(WindowReset(Filled(b, e.look)).(settling := false), MeasureOf(b, e));
      }
    }
  }

  lemma {:induction false} ActKeepsIdleTicks(b: BrakeState, m: Measure)
    ensures Acted(b, m).idleTicks == b.idleTicks
  {
  }

  lemma {:induction false} IdleSpell(b: BrakeState, ks: seq<Look>)
    requires Inv(b) && b.probe.None? && b.idleTicks + |ks| <= U32_MAX
    requires forall k <- ks :: k.seconds > 0.0 && IsIdle(k)
    ensures AllPossible(Ticks(ks))
    ensures var b' := Run(b, Ticks(ks));
            && b'.idleTicks == b.idleTicks + |ks| && b'.probe.None? && b'.limit == b.limit
            && b'.history == b.history && b'.referenceWindow == b.referenceWindow && b'.probed == b.probed
    decreases ks
  {
    if ks != [] {
      assert ks[0] in ks;
      IdleTickIsCounted(b, ks[0]);
      StepKeepsInv(b, Tick(ks[0]));
      assert Ticks(ks)[1..] == Ticks(ks[1..]);
      IdleSpell(Stepped(b, Tick(ks[0])), ks[1..]);
    }
  }

  function Ticks(ks: seq<Look>): (es: seq<Event>)
    ensures |es| == |ks| && forall i :: 0 <= i < |ks| ==> es[i] == Tick(ks[i])
  {
    seq(|ks|, i requires 0 <= i < |ks| => Tick(ks[i]))
  }

  /**
   * The first busy tick after an idle spell: a spell of sixty seconds or more, by that tick's length, forgets
   * limit and record; a shorter one keeps both. The window it opens is not judged either way.
   */
  lemma {:induction false} LongIdleStartsOver(b: BrakeState, ks: seq<Look>, k: Look)
    requires Inv(b) && b.probe.None? && b.idleTicks == 0 && 0 < |ks| <= U32_MAX
    requires (forall x <- ks :: x.seconds > 0.0 && IsIdle(x)) && k.seconds > 0.0 && !IsIdle(k)
    ensures AllPossible(Ticks(ks)) && !Measuring(Run(b, Ticks(ks)), Tick(k))
    ensures var after := Stepped(Run(b, Ticks(ks)), Tick(k));
            && after.idleTicks == 0 && after.probe.None?
            && (if k.seconds * |ks| as real >= 60.0
                then after.limit.None? && after.history == [] && after.referenceWindow == 60.0 && !after.probed
                else && after.limit == b.limit && after.history == b.history
                     && after.referenceWindow == b.referenceWindow && after.probed == b.probed)
  {
    IdleSpell(b, ks);
    FillKeepsInv(Run(b, Ticks(ks)), k);
  }

  /** A probe leaves its mark only if it was measured to its end, and the mark is what a later comparison goes by. */
  lemma {:induction false} MeasuredProbeLeavesItsMark(b: BrakeState, e: Event)
    requires Inv(b) && Possible(e) && b.probe.Some?
    ensures var b' := Stepped(b, e);
            b'.probed == (if Measuring(b, e) && b.probe.value.windows == 1 then true else b.probed)
  {
    if e.Tick? && !IsIdle(e.look) { FillKeepsInv(b, e.look); }
  }
}
