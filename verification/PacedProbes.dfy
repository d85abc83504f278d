/**
 * The attempt brake behind its own pacer. A limit also holds back the windows that are to be judged, and
 * a tick below twenty attempts a second counts as idle, so a probe can be too slow to measure anything.
 */
module PacedProbes {
  import opened Prelude
  import opened AttemptBraking
  import opened AttemptBrakeRuns
  import opened Probes
  import P = AttemptPacing

  // ---------------------------------------------------------------- what the pacer lets through

  /** No more than the rate times the time and some slack: the tokens at hand, and one for the carry. */
  ghost predicate Within(dispatched: nat, seconds: real, rate: real, slack: real) {
    dispatched as real < slack + rate * seconds
  }

  /** Every stretch of a run of the pacer is within the slack of its bucket. */
  lemma {:induction false} PacerStaysWithin(
    p: P.Pacer, rate: real, first: seq<P.Event>, stretch: seq<P.Event>, slack: real)
    requires p.rate == Some(rate) && rate >= 0.0 && p.carry == 0.0 && P.Possible(p, first + stretch)
    requires MaxNat(p.tokens, P.Burst(rate)) as real + 1.0 <= slack
    ensures Within(P.Taken(stretch), P.Covered(stretch), rate, slack)
  {
    P.StretchIsPaced(p, rate, first, stretch);
    P.DueIsRateTimesTime(rate, stretch);
  }

  /** Below two hundred a second the bucket holds a single token, so a slack of two will do. */
  lemma {:induction false} SlowBucketHoldsOne(rate: real)
    ensures P.Burst(rate) == 1 <==> rate < 200.0
  {
  }

  /**
   * A tick that the pacer can have let happen: at the standing limit the open window stays within the
   * slack. Every resolver waits at least `timeout` for an answer.
   */
  ghost predicate Obeys(b: BrakeState, e: Event, slack: real, timeout: real) {
    e.Tick? ==>
      && e.look.longestTimeout >= timeout
      && (b.limit.Some? ==> Within(Filled(b, e.look).dispatched, Filled(b, e.look).seconds, b.limit.value, slack))
  }

  /** A run whose every tick obeys the pacer. */
  ghost predicate Paced(b: BrakeState, es: seq<Event>, slack: real, timeout: real)
    requires Inv(b) && AllPossible(es)
    decreases es
  {
    es != [] ==>
      && Obeys(b, es[0], slack, timeout)
      && (StepKeepsInv(b, es[0]); Paced(Stepped(b, es[0]), es[1..], slack, timeout))
  }

  // ---------------------------------------------------------------- rates too slow to be judged

  /** How many attempts `rate` falls short of being busy over a span. */
  function Shortfall(rate: real, span: real): real { (ATTEMPT_IDLE_QPS - rate) * span }

  /** Over four timeouts, the least a window takes, the slack makes up for the shortfall. */
  predicate Measurable(rate: real, slack: real, timeout: real) {
    Shortfall(rate, ATTEMPT_WINDOW_TIMEOUTS * timeout) < slack
  }

  lemma {:induction false} LessShortfall(slow: real, fast: real, span: real)
    requires slow <= fast && span >= 0.0
    ensures Shortfall(fast, span) <= Shortfall(slow, span)
  {
    assert (fast - slow) * span >= 0.0;
  }

  /** A shortfall below a positive slack stays below it over a shorter span. */
  lemma {:induction false} ShorterSpan(rate: real, short: real, long: real, slack: real)
    requires 0.0 <= short <= long && slack > 0.0 && Shortfall(rate, long) < slack
    ensures Shortfall(rate, short) < slack
  {
    var x := ATTEMPT_IDLE_QPS - rate;
    if x >= 0.0 {
      assert x * (long - short) >= 0.0;
    } else {
      assert -x * short >= 0.0;
    }
  }

  lemma {:induction false} FasterIsMeasurable(slow: real, fast: real, slack: real, timeout: real)
    requires Measurable(slow, slack, timeout) && slow <= fast && timeout > 0.0
    ensures Measurable(fast, slack, timeout)
  {
    LessShortfall(slow, fast, ATTEMPT_WINDOW_TIMEOUTS * timeout);
  }

  /** With timeouts from half a second up and a single token in the bucket, nineteen a second is too slow. */
  lemma {:induction false} NineteenIsTooSlow(rate: real, timeout: real)
    requires timeout >= 0.5 && Measurable(rate, 2.0, timeout)
    ensures rate > 19.0
  {
    if rate <= 19.0 {
      FasterIsMeasurable(rate, 19.0, 2.0, timeout);
      assert false;
    }
  }

  /** A busy window that the pacer let through is short, the shorter the slower the rate. */
  lemma {:induction false} BusyWindowIsShort(dispatched: nat, seconds: real, rate: real, slack: real)
    requires Within(dispatched, seconds, rate, slack) && dispatched as real >= ATTEMPT_IDLE_QPS * seconds
    ensures Shortfall(rate, seconds) < slack
  {
  }

  lemma {:induction false} FillKeepsBusy(b: BrakeState, k: Look)
    requires Busy(b) && !IsIdle(k)
    ensures Filled(b, k).dispatched as real >= ATTEMPT_IDLE_QPS * Filled(b, k).seconds
  {
  }

  /** A window is judged only at a rate that is measurable. */
  lemma {:induction false} JudgedRateIsMeasurable(b: BrakeState, e: Event, slack: real, timeout: real)
    requires Inv(b) && Busy(b) && Possible(e) && Obeys(b, e, slack, timeout) && Measuring(b, e)
    requires slack > 0.0 && timeout > 0.0 && b.limit.Some?
    ensures Measurable(b.limit.value, slack, timeout)
  {
    var filled := Filled(b, e.look);
    FillKeepsBusy(b, e.look);
    BusyWindowIsShort(filled.dispatched, filled.seconds, b.limit.value, slack);
    ShorterSpan(b.limit.value, ATTEMPT_WINDOW_TIMEOUTS * timeout, filled.seconds, slack);
  }

  /** Every rate judged without a limit is measurable, since it is not idle. */
  lemma {:induction false} UnpacedRateIsMeasurable(rate: real, slack: real, timeout: real)
    requires slack > 0.0 && timeout > 0.0 && rate >= ATTEMPT_IDLE_QPS
    ensures Measurable(rate, slack, timeout)
  {
    LessShortfall(ATTEMPT_IDLE_QPS, rate, ATTEMPT_WINDOW_TIMEOUTS * timeout);
  }

  lemma {:induction false} NewSampleIsMeasurable(b: BrakeState, e: Event, slack: real, timeout: real)
    requires Inv(b) && Busy(b) && Possible(e) && Obeys(b, e, slack, timeout) && Measuring(b, e)
    requires slack > 0.0 && timeout > 0.0
    ensures Measurable(NewSample(b, e).rate, slack, timeout)
  {
    if b.limit.Some? {
      JudgedRateIsMeasurable(b, e, slack, timeout);
    } else {
      FillKeepsInv(b, e.look);
      FillKeepsBusy(b, e.look);
      FullWindowIsBusy(Filled(b, e.look), e.look.now);
      UnpacedRateIsMeasurable(NewSample(b, e).rate, slack, timeout);
    }
  }

  // ---------------------------------------------------------------- every run behind the pacer

  /** The limit that stands, or that the running probe will restore. */
  function Stands(b: BrakeState): Option<real> {
    if b.probe.Some? then b.probe.value.restore else b.limit
  }

  /** A limit that was cut to, or grown from one that was: what it was compared with is measurable. */
  ghost predicate Standing(limit: Option<real>, slack: real, timeout: real) {
    limit.Some? ==> Measurable(limit.value / ATTEMPT_RETREAT * ATTEMPT_REFERENCE_BELOW, slack, timeout)
  }

  /** Every sample on record is measurable, and so is the evidence for the limit. */
  ghost predicate Grounded(b: BrakeState, slack: real, timeout: real) {
    && Busy(b)
    && (forall s <- b.history :: Measurable(s.rate, slack, timeout))
    && Standing(Stands(b), slack, timeout)
  }

  lemma {:induction false} HigherStillStands(low: real, high: real, slack: real, timeout: real)
    requires low <= high && timeout > 0.0 && Standing(Some(low), slack, timeout)
    ensures Standing(Some(high), slack, timeout)
  {
    FasterIsMeasurable(low / ATTEMPT_RETREAT * ATTEMPT_REFERENCE_BELOW, high / ATTEMPT_RETREAT * ATTEMPT_REFERENCE_BELOW,
                       slack, timeout);
  }

  lemma {:induction false} RecordStaysMeasurable(b: BrakeState, s: Sample, slack: real, timeout: real)
    requires (forall x <- b.history :: Measurable(x.rate, slack, timeout)) && Measurable(s.rate, slack, timeout)
    ensures forall x <- Recorded(b, s).history :: Measurable(x.rate, slack, timeout)
  {
    FromHistory(b.history + [s], s.at, b.referenceWindow);
    forall x <- Recorded(b, s).history ensures Measurable(x.rate, slack, timeout) { assert x in b.history + [s]; }
  }

  /** A comparison needs a measurable rate clearly below the one compared. */
  lemma {:induction false} ComparedMeansMeasurable(history: seq<Sample>, rate: real, loss: real, slack: real, timeout: real)
    requires timeout > 0.0 && (forall s <- history :: Measurable(s.rate, slack, timeout))
    requires Congested(history, rate, loss).Some?
    ensures Measurable(rate * ATTEMPT_REFERENCE_BELOW, slack, timeout)
  {
    var s := EvidenceComesFromALowerRate(history, rate);
    FasterIsMeasurable(s.rate, rate * ATTEMPT_REFERENCE_BELOW, slack, timeout);
  }

  lemma {:induction false} CompareKeepsStanding(b: BrakeState, s: Sample, slack: real, timeout: real)
    requires Inv(b) && b.probe.None? && timeout > 0.0 && Standing(b.limit, slack, timeout)
    requires forall x <- Recorded(b, s).history :: Measurable(x.rate, slack, timeout)
    ensures Standing(Stands(Compared(b, s)), slack, timeout)
  {
    var verdict := Congested(Recorded(b, s).history, s.rate, s.loss);
    if verdict.Some? {
      ComparedMeansMeasurable(Recorded(b, s).history, s.rate, s.loss, slack, timeout);
      var cut := s.rate * ATTEMPT_RETREAT;
      assert cut / ATTEMPT_RETREAT * ATTEMPT_REFERENCE_BELOW == s.rate * ATTEMPT_REFERENCE_BELOW;
      HigherStillStands(cut, Max(cut, ATTEMPT_MIN_RATE), slack, timeout);
      if b.limit.Some? {
        HigherStillStands(b.limit.value, Max(b.limit.value * ATTEMPT_GROWTH, ATTEMPT_MIN_RATE), slack, timeout);
      }
    }
  }

  lemma {:induction false} ActKeepsGrounded(b: BrakeState, m: Measure, slack: real, timeout: real)
    requires Inv(b) && Grounded(b, slack, timeout) && timeout > 0.0 && m.sample.rate >= ATTEMPT_MIN_RATE
    requires Measurable(AtLimit(b, m.sample).rate, slack, timeout)
    ensures Grounded(Acted(b, m), slack, timeout)
  {
    var s := AtLimit(b, m.sample);
    ActKeepsBusy(b, m);
    RecordStaysMeasurable(b, s, slack, timeout);
    ActingRecords(b, m);
    if b.probe.None? && !(b.limit.Some? && !m.shaped) {
      CompareKeepsStanding(b, s, slack, timeout);
    }
  }

  lemma {:induction false} StepKeepsGrounded(b: BrakeState, e: Event, slack: real, timeout: real)
    requires Inv(b) && Possible(e) && Grounded(b, slack, timeout) && Obeys(b, e, slack, timeout)
    requires slack > 0.0 && timeout > 0.0
    ensures Grounded(Stepped(b, e), slack, timeout)
  {
    if Measuring(b, e) {
      JudgementKeepsGrounded(b, e, slack, timeout);
    } else {
      StepKeepsBusy(b, e);
    }
  }

  lemma {:induction false} JudgementKeepsGrounded(b: BrakeState, e: Event, slack: real, timeout: real)
    requires Inv(b) && Possible(e) && Grounded(b, slack, timeout) && Obeys(b, e, slack, timeout)
    requires slack > 0.0 && timeout > 0.0 && Measuring(b, e)
    ensures Grounded(Stepped(b, e), slack, timeout)
  {
    var filled := Filled(b, e.look);
    FillKeepsInv(b, e.look);
    NewSampleIsMeasurable(b, e, slack, timeout);
    FillKeepsBusy(b, e.look);
    FullWindowIsBusy(filled, e.look.now);
    ActKeepsGrounded(WindowReset(filled).(settling := false), Measured(filled, e.look.now), slack, timeout);
  }

  lemma {:induction false} RunKeepsGrounded(b: BrakeState, es: seq<Event>, slack: real, timeout: real)
    requires Inv(b) && AllPossible(es) && Grounded(b, slack, timeout) && Paced(b, es, slack, timeout)
    requires slack > 0.0 && timeout > 0.0
    ensures Grounded(Run(b, es), slack, timeout)
    decreases es
  {
    if es != [] {
      StepKeepsGrounded(b, es[0], slack, timeout);
      StepKeepsInv(b, es[0]);
      RunKeepsGrounded(Stepped(b, es[0]), es[1..], slack, timeout);
    }
  }

  /**
   * In every run behind the pacer, whatever is on record was measured at a measurable rate, and a limit
   * that stands, during a probe the one it will restore, is at least 17/12 of a measurable rate. With a
   * single token in the bucket and timeouts from half a second up that is above 19 and above 26.9.
   */
  lemma {:induction false} EvidenceIsMeasurable(es: seq<Event>, slack: real, timeout: real)
    requires AllPossible(es) && Paced(FRESH_BRAKE, es, slack, timeout) && slack > 0.0 && timeout > 0.0
    ensures var b := Run(FRESH_BRAKE, es);
            && (forall s <- b.history :: Measurable(s.rate, slack, timeout))
            && (Stands(b).Some? ==> Measurable(Stands(b).value * 12.0 / 17.0, slack, timeout))
    ensures slack <= 2.0 && timeout >= 0.5 ==>
              && (forall s <- Run(FRESH_BRAKE, es).history :: s.rate > 19.0)
              && (Stands(Run(FRESH_BRAKE, es)).Some? ==> Stands(Run(FRESH_BRAKE, es)).value > 26.9)
  {
    RunKeepsGrounded(FRESH_BRAKE, es, slack, timeout);
    var b := Run(FRESH_BRAKE, es);
    if slack <= 2.0 && timeout >= 0.5 {
      forall s <- b.history ensures s.rate > 19.0 { NineteenIsTooSlow(s.rate, timeout); }
      if Stands(b).Some? { NineteenIsTooSlow(Stands(b).value * 12.0 / 17.0, timeout); }
    }
  }

  // ---------------------------------------------------------------- probes too slow to measure anything

  /** Seconds that the ticks of a run cover. */
  function Elapsed(es: seq<Event>): real {
    if es == [] then 0.0 else (if es[0].Tick? then es[0].look.seconds else 0.0) + Elapsed(es[1..])
  }

  /** A probe at a rate too slow to be judged, with its window still open. */
  ghost predicate Hopeless(b: BrakeState, slack: real, timeout: real) {
    && Inv(b) && Busy(b) && b.probe.Some? && b.limit.Some?
    && !Measurable(b.limit.value, slack, timeout) && Shortfall(b.limit.value, b.seconds) < slack
  }

  /** A tick of such a probe that is not idle only fills the window. */
  lemma {:induction false} HopelessTick(b: BrakeState, e: Event, slack: real, timeout: real)
    requires Hopeless(b, slack, timeout) && slack > 0.0 && timeout > 0.0
    requires Possible(e) && e.Tick? && !IsIdle(e.look) && Obeys(b, e, slack, timeout)
    ensures Stepped(b, e) == Filled(b, e.look) && !Measuring(b, e)
    ensures Hopeless(Stepped(b, e), slack, timeout)
  {
    var filled, rate := Filled(b, e.look), b.limit.value;
    FillKeepsInv(b, e.look);
    FillKeepsBusy(b, e.look);
    BusyWindowIsShort(filled.dispatched, filled.seconds, rate, slack);
    if filled.seconds >= ATTEMPT_WINDOW_TIMEOUTS * timeout {
      ShorterSpan(rate, ATTEMPT_WINDOW_TIMEOUTS * timeout, filled.seconds, slack);
      assert false;
    }
  }

  lemma {:induction false} HopelessRun(b: BrakeState, es: seq<Event>, slack: real, timeout: real)
    requires Hopeless(b, slack, timeout) && slack > 0.0 && timeout > 0.0
    requires AllPossible(es) && NeverIdles(es) && NeverReleases(es) && Paced(b, es, slack, timeout)
    ensures var during := Run(b, es);
            && Hopeless(during, slack, timeout) && during.seconds == b.seconds + Elapsed(es)
            && during.probe == b.probe && during.limit == b.limit && during.history == b.history
    decreases es
  {
    if es != [] {
      assert es[0] in es;
      if es[0].Tick? {
        HopelessTick(b, es[0], slack, timeout);
      }
      StepKeepsInv(b, es[0]);
      HopelessRun(Stepped(b, es[0]), es[1..], slack, timeout);
    }
  }

  lemma {:induction false} SlowProbeIsHopeless(b: BrakeState, start: Event, slack: real, timeout: real)
    requires Inv(b) && Busy(b) && Possible(start) && b.probe.None? && Stepped(b, start).probe.Some?
    requires Stepped(b, start).limit.Some? ==> !Measurable(Stepped(b, start).limit.value, slack, timeout)
    requires slack > 0.0
    ensures Hopeless(Stepped(b, start), slack, timeout) && Stepped(b, start).seconds == 0.0
    ensures Stepped(b, start).probe.value.restore == b.limit
  {
    ProbeStart(b, start);
    StepKeepsInv(b, start);
    StepKeepsBusy(b, start);
    FillKeepsInv(b, start.look);
    ActKeepsWindow(WindowReset(Filled(b, start.look)).(settling := false), MeasureOf(b, start));
  }

  lemma {:induction false} ActKeepsWindow(b: BrakeState, m: Measure)
    ensures Acted(b, m).seconds == b.seconds
  {
  }

  /**
   * A probe whose own rate is too slow to be judged measures nothing: it lasts no longer than the slack
   * makes up for its shortfall, ends at an idle tick, records nothing and leaves the limit as it was.
   */
  lemma {:induction false} SlowProbeMeasuresNothing(
    b: BrakeState, start: Event, es: seq<Event>, last: Event, slack: real, timeout: real)
    requires Inv(b) && Busy(b) && Possible(start) && b.probe.None? && Stepped(b, start).probe.Some?
    requires Stepped(b, start).limit.Some? ==> !Measurable(Stepped(b, start).limit.value, slack, timeout)
    requires slack > 0.0 && timeout > 0.0 && Inv(Stepped(b, start))
    requires AllPossible(es) && NeverIdles(es) && NeverReleases(es) && Paced(Stepped(b, start), es, slack, timeout)
    requires Possible(last) && !last.Release? && Obeys(Run(Stepped(b, start), es), last, slack, timeout)
    ensures Stepped(b, start).limit.Some? && Shortfall(Stepped(b, start).limit.value, Elapsed(es)) < slack
    ensures var ended := Stepped(Run(Stepped(b, start), es), last);
            && (ended.probe.None? <==> Idling(last))
            && (ended.probe.None? ==> ended.limit == b.limit && ended.history == Stepped(b, start).history)
  {
    SlowProbeIsHopeless(b, start, slack, timeout);
    HopelessRun(Stepped(b, start), es, slack, timeout);
    var during := Run(Stepped(b, start), es);
    if last.Tick? && !IsIdle(last.look) {
      HopelessTick(during, last, slack, timeout);
    }
    ProbeStep(during, last);
  }

  /** Where the shortfall of one tick exceeds the slack, already the first tick of the probe is idle. */
  lemma {:induction false} SlowProbeEndsAtItsFirstTick(
    b: BrakeState, start: Event, k: Look, slack: real, timeout: real)
    requires Inv(b) && Busy(b) && Possible(start) && b.probe.None? && Stepped(b, start).probe.Some?
    requires slack > 0.0 && k.seconds > 0.0 && Obeys(Stepped(b, start), Tick(k), slack, timeout)
    requires Stepped(b, start).limit.Some? ==>
               && Shortfall(Stepped(b, start).limit.value, k.seconds) >= slack
               && !Measurable(Stepped(b, start).limit.value, slack, timeout)
    ensures IsIdle(k) && Stepped(Stepped(b, start), Tick(k)).limit == b.limit
  {
    SlowProbeIsHopeless(b, start, slack, timeout);
    var probing := Stepped(b, start);
    if !IsIdle(k) {
      FillKeepsBusy(probing, k);
      BusyWindowIsShort(Filled(probing, k).dispatched, Filled(probing, k).seconds, probing.limit.value, slack);
      assert false;
    }
    ProbeStep(probing, Tick(k));
  }

  // ---------------------------------------------------------------- limits too low to be compared

  /** A judged window at a limit with nothing measurable clearly below it is not compared. */
  lemma {:induction false} LowLimitIsNotCompared(b: BrakeState, e: Event, slack: real, timeout: real)
    requires Inv(b) && Grounded(b, slack, timeout) && Possible(e) && Obeys(b, e, slack, timeout)
    requires slack > 0.0 && timeout > 0.0 && Measuring(b, e) && b.probe.None? && b.limit.Some?
    requires !Measurable(b.limit.value * ATTEMPT_REFERENCE_BELOW, slack, timeout)
    ensures if MeasureOf(b, e).shaped then
              && Stepped(b, e).probe == Some(Probe(b.limit, ATTEMPT_PROBE_WINDOWS))
              && Stepped(b, e).limit == Some(Max(b.limit.value * ATTEMPT_PROBE_FRACTION, ATTEMPT_MIN_RATE))
            else Stepped(b, e).limit.None? && Stepped(b, e).probe.None?
  {
    FillKeepsInv(b, e.look);
    NewSampleIsMeasurable(b, e, slack, timeout);
    var s := NewSample(b, e);
    RecordStaysMeasurable(b, s, slack, timeout);
    if Congested(Recorded(b, s).history, s.rate, s.loss).Some? {
      ComparedMeansMeasurable(Recorded(b, s).history, s.rate, s.loss, slack, timeout);
      assert false;
    }
    if Congested(b.history, s.rate, s.loss).Some? {
      ComparedMeansMeasurable(b.history, s.rate, s.loss, slack, timeout);
      assert false;
    }
  }

  /** Nothing lets go of the limit: enough resolvers respond, no long idle spell, every judged window is shaped. */
  ghost predicate Pressed(b: BrakeState, e: Event)
    requires b.seconds >= 0.0 && Possible(e)
  {
    && !e.Release?
    && (e.Tick? ==> !LongIdle(b, e.look))
    && (Measuring(b, e) && b.probe.None? ==> MeasureOf(b, e).shaped)
  }

  ghost predicate AlwaysPressed(b: BrakeState, es: seq<Event>)
    requires Inv(b) && AllPossible(es)
    decreases es
  {
    es != [] ==> Pressed(b, es[0]) && (StepKeepsInv(b, es[0]); AlwaysPressed(Stepped(b, es[0]), es[1..]))
  }

  lemma {:induction false} LowLimitStays(b: BrakeState, e: Event, limit: real, slack: real, timeout: real)
    requires Inv(b) && Grounded(b, slack, timeout) && Possible(e) && Obeys(b, e, slack, timeout) && Pressed(b, e)
    requires slack > 0.0 && timeout > 0.0 && Stands(b) == Some(limit)
    requires !Measurable(limit * ATTEMPT_REFERENCE_BELOW, slack, timeout)
    ensures Stands(Stepped(b, e)) == Some(limit)
  {
    if b.probe.Some? {
      ProbeStep(b, e);
    } else if Measuring(b, e) {
      LowLimitIsNotCompared(b, e, slack, timeout);
    } else if e.Tick? {
      FillKeepsInv(b, e.look);
    }
  }

  lemma {:induction false} LowLimitKeepsStanding(b: BrakeState, es: seq<Event>, limit: real, slack: real, timeout: real)
    requires Inv(b) && Grounded(b, slack, timeout) && AllPossible(es) && Paced(b, es, slack, timeout) && AlwaysPressed(b, es)
    requires slack > 0.0 && timeout > 0.0 && Stands(b) == Some(limit)
    requires !Measurable(limit * ATTEMPT_REFERENCE_BELOW, slack, timeout)
    ensures Stands(Run(b, es)) == Some(limit)
    decreases es
  {
    if es != [] {
      LowLimitStays(b, es[0], limit, slack, timeout);
      StepKeepsGrounded(b, es[0], slack, timeout);
      StepKeepsInv(b, es[0]);
      LowLimitKeepsStanding(Stepped(b, es[0]), es[1..], limit, slack, timeout);
    }
  }

  /**
   * A limit with nothing measurable clearly below it is never compared again: in every run behind the
   * pacer it neither falls nor rises until something lets go of it altogether.
   */
  lemma {:induction false} LowLimitIsStuck(es: seq<Event>, more: seq<Event>, limit: real, slack: real, timeout: real)
    requires AllPossible(es) && Paced(FRESH_BRAKE, es, slack, timeout) && slack > 0.0 && timeout > 0.0
    requires Stands(Run(FRESH_BRAKE, es)) == Some(limit)
    requires !Measurable(limit * ATTEMPT_REFERENCE_BELOW, slack, timeout)
    requires AllPossible(more) && Paced(Run(FRESH_BRAKE, es), more, slack, timeout)
    requires AlwaysPressed(Run(FRESH_BRAKE, es), more)
    ensures Stands(Run(Run(FRESH_BRAKE, es), more)) == Some(limit)
  {
    RunKeepsGrounded(FRESH_BRAKE, es, slack, timeout);
    LowLimitKeepsStanding(Run(FRESH_BRAKE, es), more, limit, slack, timeout);
  }

  /** What a window of a probe from a standing limit measures is clearly lower, if it measures anything. */
  lemma {:induction false} ProbeSampleIsLower(
    b: BrakeState, start: Event, es: seq<Event>, last: Event, slack: real, timeout: real)
    requires Inv(b) && Grounded(b, slack, timeout) && slack > 0.0 && timeout > 0.0
    requires Possible(start) && b.probe.None? && Stepped(b, start).probe.Some? && Inv(Stepped(b, start))
    requires b.limit.Some? && AllPossible(es) && NeverIdles(es) && NeverReleases(es)
    requires Judgements(Stepped(b, start), es) < ATTEMPT_PROBE_WINDOWS
    requires Possible(last) && Measuring(Run(Stepped(b, start), es), last)
    requires !Measurable(200.0 / 17.0, slack, timeout)
    ensures IsLower(NewSample(Run(Stepped(b, start), es), last), b.limit.value)
  {
    ProbeStart(b, start);
    ProbeRuns(Stepped(b, start), es);
    if b.limit.value < 50.0 / 3.0 {
      FasterIsMeasurable(b.limit.value / ATTEMPT_RETREAT * ATTEMPT_REFERENCE_BELOW, 200.0 / 17.0, slack, timeout);
      assert false;
    }
  }
}
