/** Probes of the attempt brake: what one leaves behind and when it is worth anything. */
module Probes {
  import opened Prelude
  import opened AttemptBraking
  import opened AttemptBrakeRuns

  predicate AllPossible(es: seq<Event>) { forall e <- es :: Possible(e) }

  /** Judged windows over a run. */
  ghost function Judgements(b: BrakeState, es: seq<Event>): nat
    requires Inv(b) && AllPossible(es)
    decreases es
  {
    if es == [] then 0
    else
      StepKeepsInv(b, es[0]);
      (if Measuring(b, es[0]) then 1 else 0) + Judgements(Stepped(b, es[0]), es[1..])
  }

  /** The sample a judged window adds, at the limit when there is one. */
  function NewSample(b: BrakeState, e: Event): Sample
    requires b.seconds >= 0.0 && Possible(e) && Measuring(b, e)
  {
    AtLimit(b, MeasureOf(b, e).sample)
  }

  predicate NeverIdles(es: seq<Event>) { forall e <- es :: !Idling(e) }

  predicate NeverReleases(es: seq<Event>) { forall e <- es :: !e.Release? }

  /** A probe is started only by a comparison with nothing to compare to, and remembers the limit. */
  lemma {:induction false} ProbeStart(b: BrakeState, e: Event)
    requires Inv(b) && Possible(e) && b.probe.None? && Stepped(b, e).probe.Some?
    ensures Measuring(b, e)
    ensures Stepped(b, e).probe == Some(Probe(b.limit, ATTEMPT_PROBE_WINDOWS))
    ensures var s := AtLimit(b, MeasureOf(b, e).sample);
            Stepped(b, e).limit == Some(Max(s.rate * ATTEMPT_PROBE_FRACTION, ATTEMPT_MIN_RATE))
  {
    if e.Tick? && !IsIdle(e.look) {
      FillKeepsInv(b, e.look);
    }
  }

  /** One event during a probe: it ends at an idle tick or its last window, restoring the limit. */
  lemma {:induction false} ProbeStep(b: BrakeState, e: Event)
    requires Inv(b) && Possible(e) && b.probe.Some?
    ensures var p, b' := b.probe.value, Stepped(b, e);
            if Idling(e) || (Measuring(b, e) && p.windows == 1) then b'.probe.None? && b'.limit == p.restore
            else
              && b'.probe == Some(Probe(p.restore, if Measuring(b, e) then p.windows - 1 else p.windows))
              && (!e.Release? ==> b'.limit == b.limit)
    ensures Measuring(b, e) ==>
              Stepped(b, e).history == Recorded(b, AtLimit(b, MeasureOf(b, e).sample)).history
    ensures !Measuring(b, e) ==> Stepped(b, e).history == b.history
    ensures Stepped(b, e).referenceWindow == b.referenceWindow
  {
    if e.Tick? && !IsIdle(e.look) {
      FillKeepsInv(b, e.look);
    }
  }

  /** A probe is still running until an idle tick or its last window. */
  lemma {:induction false} ProbeRuns(b: BrakeState, es: seq<Event>)
    requires Inv(b) && AllPossible(es) && b.probe.Some?
    requires NeverIdles(es) && Judgements(b, es) < b.probe.value.windows
    ensures Run(b, es).probe == Some(Probe(b.probe.value.restore, b.probe.value.windows - Judgements(b, es)))
    ensures NeverReleases(es) ==> Run(b, es).limit == b.limit
    ensures Run(b, es).referenceWindow == b.referenceWindow
    decreases es
  {
    if es != [] {
      ProbeStep(b, es[0]);
      StepKeepsInv(b, es[0]);
      ProbeRuns(Stepped(b, es[0]), es[1..]);
    }
  }

  /**
   * A probe is limit-neutral: it runs through every event up to its second judged window or the first
   * idle tick, and that event leaves exactly the limit that held before the probe.
   */
  lemma {:induction false} ProbeIsLimitNeutral(b: BrakeState, start: Event, es: seq<Event>, last: Event)
    requires Inv(b) && Possible(start) && b.probe.None? && Stepped(b, start).probe.Some? && Inv(Stepped(b, start))
    requires AllPossible(es) && NeverIdles(es)
    requires Judgements(Stepped(b, start), es) < ATTEMPT_PROBE_WINDOWS
    requires Possible(last)
    ensures var during := Run(Stepped(b, start), es);
            && during.probe.Some?
            && (Stepped(during, last).probe.None? <==>
                  || Idling(last)
                  || (Measuring(during, last)
                      && Judgements(Stepped(b, start), es) + 1 == ATTEMPT_PROBE_WINDOWS))
            && (Stepped(during, last).probe.None? ==> Stepped(during, last).limit == b.limit)
  {
    ProbeStart(b, start);
    ProbeRuns(Stepped(b, start), es);
    ProbeStep(Run(Stepped(b, start), es), last);
  }

  // ---------------------------------------------------------------- what a probe is worth

  lemma {:induction false} FreshSampleStays(history: seq<Sample>, s: Sample, now: real, window: real)
    requires s in history && now - s.at <= window
    ensures s in DropStale(history, now, window)
  {
    if history[0] != s && now - history[0].at > window {
      FreshSampleStays(history[1..], s, now, window);
    }
  }

  lemma {:induction false} LowerSampleIsFound(history: seq<Sample>, s: Sample, rate: real)
    requires s in history && IsLower(s, rate)
    ensures LowerLosses(history, rate) != []
  {
    var n := |history| - 1;
    if history[n] != s {
      LowerSampleIsFound(history[..n], s, rate);
    }
  }

  lemma {:induction false} NothingIsLower(history: seq<Sample>, rate: real)
    requires forall s <- history :: !IsLower(s, rate)
    ensures LowerLosses(history, rate) == []
  {
    if history != [] {
      assert history[|history| - 1] in history;
      NothingIsLower(history[..|history| - 1], rate);
    }
  }

  /** A judged window that counts as evidence starts a probe exactly when nothing on record is clearly lower. */
  lemma {:induction false} ProbesOnlyForWantOfEvidence(b: BrakeState, e: Event)
    requires Inv(b) && Possible(e) && b.probe.None? && Measuring(b, e)
    ensures Stepped(b, e).probe.Some? <==>
              && MeasureOf(b, e).shaped
              && forall s <- Recorded(b, NewSample(b, e)).history :: !IsLower(s, NewSample(b, e).rate)
  {
    FillKeepsInv(b, e.look);
    var now := NewSample(b, e);
    var history := Recorded(b, now).history;
    if forall s <- history :: !IsLower(s, now.rate) {
      NothingIsLower(history, now.rate);
    } else {
      var s :| s in history && IsLower(s, now.rate);
      LowerSampleIsFound(history, s, now.rate);
    }
  }

  /** Events between judged windows that leave the evidence alone. */
  ghost predicate Quiet(b: BrakeState, es: seq<Event>)
    requires Inv(b) && AllPossible(es)
    decreases es
  {
    es != [] ==>
      && !Measuring(b, es[0]) && (es[0].Tick? ==> !LongIdle(b, es[0].look))
      && (StepKeepsInv(b, es[0]); Quiet(Stepped(b, es[0]), es[1..]))
  }

  lemma {:induction false} QuietKeepsEvidence(b: BrakeState, es: seq<Event>)
    requires Inv(b) && AllPossible(es) && b.probe.None? && Quiet(b, es)
    ensures var b' := Run(b, es);
            && b'.probe.None? && b'.history == b.history && b'.referenceWindow == b.referenceWindow
            && (NeverReleases(es) ==> b'.limit == b.limit)
    decreases es
  {
    if es != [] {
      assert Possible(es[0]);
      if es[0].Tick? { FillKeepsInv(b, es[0].look); }
      StepKeepsInv(b, es[0]);
      QuietKeepsEvidence(Stepped(b, es[0]), es[1..]);
    }
  }

  lemma {:induction false} NewSampleIsOnRecord(b: BrakeState, s: Sample)
    requires b.referenceWindow >= 0.0
    ensures s in Recorded(b, s).history
  {
    FreshSampleStays(b.history + [s], s, s.at, b.referenceWindow);
  }

  /**
   * A probe is followed by a comparison and not by another probe for as long as its last sample is on
   * record, provided that sample's rate is clearly below the one compared. Module `PacedProbes` says
   * when a probe has a last sample at all.
   */
  lemma {:induction false} ProbeIsFollowedByAComparison(
    b: BrakeState, start: Event, es: seq<Event>, last: Event, quiet: seq<Event>, e: Event)
    requires Inv(b) && Possible(start) && b.probe.None? && Stepped(b, start).probe.Some? && Inv(Stepped(b, start))
    requires AllPossible(es) && NeverIdles(es) && Judgements(Stepped(b, start), es) == 1
    requires Possible(last) && Measuring(Run(Stepped(b, start), es), last)
    requires Inv(Stepped(Run(Stepped(b, start), es), last)) && AllPossible(quiet)
    requires Quiet(Stepped(Run(Stepped(b, start), es), last), quiet)
    requires Possible(e) && Measuring(Run(Stepped(Run(Stepped(b, start), es), last), quiet), e)
    requires e.look.now - last.look.now <= Run(Stepped(b, start), es).referenceWindow
    requires IsLower(NewSample(Run(Stepped(b, start), es), last),
                     NewSample(Run(Stepped(Run(Stepped(b, start), es), last), quiet), e).rate)
    ensures Stepped(Run(Stepped(Run(Stepped(b, start), es), last), quiet), e).probe.None?
    ensures NeverReleases(quiet) && b.limit.Some? ==>
              NewSample(Run(Stepped(Run(Stepped(b, start), es), last), quiet), e).rate == b.limit.value
  {
    ProbeIsLimitNeutral(b, start, es, last);
    ProbeStart(b, start);
    var probing := Stepped(b, start);
    ProbeRuns(probing, es);
    var during := Run(probing, es);
    ProbeStep(during, last);
    var s := NewSample(during, last);
    NewSampleIsOnRecord(during, s);
    var restored := Stepped(during, last);
    QuietKeepsEvidence(restored, quiet);
    ComparableMeansNoProbe(Run(restored, quiet), e, s);
  }

  /** While a clearly lower sample is on record, a judged window is compared and starts no probe. */
  lemma {:induction false} ComparableMeansNoProbe(b: BrakeState, e: Event, s: Sample)
    requires Inv(b) && Possible(e) && b.probe.None? && Measuring(b, e)
    requires s in b.history && IsLower(s, NewSample(b, e).rate) && e.look.now - s.at <= b.referenceWindow
    ensures Stepped(b, e).probe.None?
  {
    ProbesOnlyForWantOfEvidence(b, e);
    var now := NewSample(b, e);
    FreshSampleStays(b.history + [now], s, now.at, b.referenceWindow);
  }

  // ---------------------------------------------------------------- windows are never idle

  /** No sample is on record below the floor, and the open window is busier than idle. */
  ghost predicate Busy(b: BrakeState) {
    && (forall s <- b.history :: s.rate >= ATTEMPT_MIN_RATE)
    && b.dispatched as real >= ATTEMPT_IDLE_QPS * b.seconds
  }

  lemma {:induction false} FullWindowIsBusy(b: BrakeState, now: real)
    requires b.seconds > 0.0 && b.lost + b.responded > 0 && b.dispatched as real >= ATTEMPT_IDLE_QPS * b.seconds
    ensures Measured(b, now).sample.rate >= ATTEMPT_IDLE_QPS
  {
    var q := b.dispatched as real / b.seconds;
    assert (q - ATTEMPT_IDLE_QPS) * b.seconds >= 0.0;
  }

  lemma {:induction false} ActKeepsBusy(b: BrakeState, m: Measure)
    requires Inv(b) && Busy(b) && m.sample.rate >= ATTEMPT_MIN_RATE
    ensures Busy(Acted(b, m))
  {
    var s := AtLimit(b, m.sample);
    FromHistory(b.history + [s], s.at, b.referenceWindow);
    forall x <- Recorded(b, s).history ensures x.rate >= ATTEMPT_MIN_RATE { assert x in b.history + [s]; }
  }

  lemma {:induction false} StepKeepsBusy(b: BrakeState, e: Event)
    requires Inv(b) && Possible(e) && Busy(b)
    ensures Busy(Stepped(b, e))
  {
    if e.Tick? && !IsIdle(e.look) {
      FillKeepsInv(b, e.look);
      var filled := Filled(b, e.look);
      assert Busy(filled);
      if Measures(b, e.look) {
        FullWindowIsBusy(filled, e.look.now);
        ActKeepsBusy(WindowReset(filled).(settling := false), Measured(filled, e.look.now));
      }
    }
  }

  lemma {:induction false} RunKeepsBusy(b: BrakeState, es: seq<Event>)
    requires Inv(b) && AllPossible(es) && Busy(b)
    ensures Busy(Run(b, es))
    decreases es
  {
    if es != [] {
      StepKeepsBusy(b, es[0]);
      StepKeepsInv(b, es[0]);
      RunKeepsBusy(Stepped(b, es[0]), es[1..]);
    }
  }

  // ---------------------------------------------------------------- cuts

  lemma {:induction false} EvidenceComesFromALowerRate(history: seq<Sample>, rate: real) returns (s: Sample)
    requires LowerLosses(history, rate) != []
    ensures s in history && IsLower(s, rate)
  {
    if forall x <- history :: !IsLower(x, rate) {
      NothingIsLower(history, rate);
      assert false;
    }
    s :| s in history && IsLower(s, rate);
  }

  /** A judged window cuts: outside a probe it found congestion and moved the limit. */
  ghost predicate Cuts(b: BrakeState, e: Event)
    requires b.seconds >= 0.0 && Possible(e)
  {
    && Measuring(b, e) && b.probe.None? && MeasureOf(b, e).shaped
    && Congested(Recorded(b, NewSample(b, e)).history, NewSample(b, e).rate, NewSample(b, e).loss) == Some(true)
    && Stepped(b, e).limit != b.limit
  }

  /**
   * In every reachable state a cut lowers the limit to exactly the retreat share of the rate it was
   * measured at, the floor never interfering.
   */
  lemma {:induction false} CutIsTheRetreatShare(es: seq<Event>, e: Event)
    requires AllPossible(es) && Possible(e) && Cuts(Run(FRESH_BRAKE, es), e)
    ensures var b := Run(FRESH_BRAKE, es); var rate := NewSample(b, e).rate;
            && Stepped(b, e).limit == Some(rate * ATTEMPT_RETREAT) && Stepped(b, e).probe.None?
            && rate * ATTEMPT_REFERENCE_BELOW >= ATTEMPT_MIN_RATE
  {
    RunKeepsBusy(FRESH_BRAKE, es);
    var b := Run(FRESH_BRAKE, es);
    FillKeepsInv(b, e.look);
    FullWindowIsBusy(Filled(b, e.look), e.look.now);
    var s := NewSample(b, e);
    var lower := EvidenceComesFromALowerRate(Recorded(b, s).history, s.rate);
    FromHistory(b.history + [s], s.at, b.referenceWindow);
    assert lower in b.history + [s];
  }

  /** A judged window that a limit shaped leaves a limit: grown if clear, and at most that otherwise. */
  lemma {:induction false} ShapedWindowLeaves(b: BrakeState, e: Event)
    requires Inv(b) && Possible(e) && b.probe.None? && b.limit.Some? && Measuring(b, e) && MeasureOf(b, e).shaped
    ensures var verdict, grown := Congested(Recorded(b, NewSample(b, e)).history, b.limit.value, NewSample(b, e).loss),
                                  b.limit.value * ATTEMPT_GROWTH;
            && Stepped(b, e).limit.Some? && Stepped(b, e).limit.value <= grown
            && (verdict == Some(false) ==> Stepped(b, e).limit.value == grown)
  {
    FillKeepsInv(b, e.look);
  }

  /**
   * A cut outweighs one clear window: in every reachable state, after a cut and any events that judge
   * nothing and release nothing, the next window the limit shapes leaves it below the rate of the cut.
   */
  lemma {:induction false} CutOutweighsOneClearWindow(es: seq<Event>, e: Event, quiet: seq<Event>, next: Event)
    requires AllPossible(es) && Possible(e) && Cuts(Run(FRESH_BRAKE, es), e)
    requires Inv(Stepped(Run(FRESH_BRAKE, es), e)) && AllPossible(quiet) && NeverReleases(quiet)
    requires Quiet(Stepped(Run(FRESH_BRAKE, es), e), quiet)
    requires var b := Run(Stepped(Run(FRESH_BRAKE, es), e), quiet);
             Possible(next) && Measuring(b, next) && MeasureOf(b, next).shaped
    ensures var rate, b := NewSample(Run(FRESH_BRAKE, es), e).rate, Run(Stepped(Run(FRESH_BRAKE, es), e), quiet);
            && b.limit == Some(rate * ATTEMPT_RETREAT)
            && Stepped(b, next).limit.Some? && Stepped(b, next).limit.value < rate
  {
    CutIsTheRetreatShare(es, e);
    var cut := Stepped(Run(FRESH_BRAKE, es), e);
    QuietKeepsEvidence(cut, quiet);
    ShapedWindowLeaves(Run(cut, quiet), next);
  }

  lemma {:induction false} BestHigherIsTheMost(history: seq<Sample>, rate: real)
    ensures forall s <- history :: s.rate > rate ==> s.delivered <= BestHigher(history, rate)
    ensures BestHigher(history, rate) >= 0.0
  {
    if history != [] {
      var n := |history| - 1;
      BestHigherIsTheMost(history[..n], rate);
      assert history == history[..n] + [history[n]];
    }
  }

  /** A cut is only made while answers keep up: nothing on record at a higher rate delivered much more. */
  lemma {:induction false} CutNeverCostsAnswers(b: BrakeState, e: Event, higher: Sample)
    requires Inv(b) && Possible(e) && Cuts(b, e)
    requires higher in b.history && higher.rate > NewSample(b, e).rate
    ensures NewSample(b, e).delivered >= higher.delivered * ATTEMPT_GOODPUT_FLOOR
  {
    FillKeepsInv(b, e.look);
    BestHigherIsTheMost(b.history, NewSample(b, e).rate);
  }
}
