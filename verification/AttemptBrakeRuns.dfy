/** The attempt brake over whole runs: what it keeps, what its evidence means, and what a probe does. */
module AttemptBrakeRuns {
  import opened Prelude
  import opened AttemptBraking

  /**
   * What happens to a brake: a tick, another brake moving the sending rate, and too few responsive
   * resolvers to brake on.
   */
  datatype Event = Tick(look: Look) | Resettle | Release

  predicate Possible(e: Event) { e.Tick? ==> e.look.seconds > 0.0 }

  function Stepped(b: BrakeState, e: Event): BrakeState
    requires b.seconds >= 0.0 && Possible(e)
  {
    match e
    case Tick(k) => Ticked(b, k)
    case Resettle => b.(settling := true)
    case Release => if b.limit.Some? then LimitSet(b, None) else b
  }

  // ---------------------------------------------------------------- every reachable state

  predicate Floored(limit: Option<real>) { limit.Some? ==> limit.value >= ATTEMPT_MIN_RATE }

  /** What every reachable brake satisfies: limit and pacer agree, no limit is below the floor. */
  ghost predicate Inv(b: BrakeState) {
    && b.limit == b.pacerRate
    && Floored(b.limit)
    && b.seconds >= 0.0
    && ATTEMPT_REFERENCE_WINDOW <= b.referenceWindow <= ATTEMPT_MAX_REFERENCE_WINDOW
    && (b.probe.Some? ==>
          && Floored(b.probe.value.restore)
          && 1 <= b.probe.value.windows <= ATTEMPT_PROBE_WINDOWS
          && b.idleTicks == 0)
  }

  lemma {:induction false} CompareKeepsInv(b: BrakeState, s: Sample)
    requires Inv(b) && b.probe.None? && b.idleTicks == 0
    ensures Inv(Compared(b, s))
  {
  }

  lemma {:induction false} ActKeepsInv(b: BrakeState, m: Measure)
    requires Inv(b) && b.idleTicks == 0
    ensures Inv(Acted(b, m))
  {
    if b.probe.None? {
      CompareKeepsInv(b, AtLimit(b, m.sample));
    }
  }

  lemma {:induction false} FillKeepsInv(b: BrakeState, k: Look)
    requires Inv(b) && k.seconds > 0.0
    ensures Inv(Filled(b, k)) && Filled(b, k).idleTicks == 0
    ensures !LongIdle(b, k) ==> Filled(b, k).limit == b.limit && Filled(b, k).referenceWindow == b.referenceWindow
    ensures Filled(b, k).history == (if LongIdle(b, k) then [] else b.history)
    ensures Filled(b, k).probe == b.probe
  {
  }

  lemma {:induction false} StepKeepsInv(b: BrakeState, e: Event)
    requires Inv(b) && Possible(e)
    ensures Inv(Stepped(b, e))
  {
    if e.Tick? && !IsIdle(e.look) {
      FillKeepsInv(b, e.look);
      if Closes(b, e.look) {
        var filled := Filled(b, e.look);
        ActKeepsInv(WindowReset(filled).(settling := false), Measured(filled, e.look.now));
      }
    }
  }

  /** The brake after a run of events. */
  ghost function Run(b: BrakeState, es: seq<Event>): (b': BrakeState)
    requires Inv(b) && forall e <- es :: Possible(e)
    ensures Inv(b')
    decreases es
  {
    if es == [] then b
    else
      StepKeepsInv(b, es[0]);
      Run(Stepped(b, es[0]), es[1..])
  }

  /** The event closes a window that is judged. */
  predicate Measuring(b: BrakeState, e: Event) { e.Tick? && Measures(b, e.look) }

  predicate Idling(e: Event) { e.Tick? && IsIdle(e.look) }

  /** The window an event closes, as judged. */
  function MeasureOf(b: BrakeState, e: Event): Measure
    requires b.seconds >= 0.0 && Possible(e) && Measuring(b, e)
  {
    Measured(Filled(b, e.look), e.look.now)
  }

  // ---------------------------------------------------------------- limit changes settle

  /** The event closes a window and throws it away. */
  predicate ThrowsAway(b: BrakeState, e: Event) { e.Tick? && Closes(b, e.look) && !Measures(b, e.look) }

  lemma {:induction false} ActingSettles(b: BrakeState, m: Measure)
    ensures Acted(b, m).limit != b.limit ==> Acted(b, m).settling
  {
  }

  /** A change of limit opens a settling spell, and only a window thrown away ends one. */
  lemma {:induction false} ChangeOfLimitSettles(b: BrakeState, e: Event)
    requires Inv(b) && Possible(e)
    ensures Stepped(b, e).limit != b.limit ==> Stepped(b, e).settling || ThrowsAway(b, e)
    ensures b.settling ==> !Measuring(b, e)
    ensures b.settling && !Stepped(b, e).settling ==> ThrowsAway(b, e)
  {
    if e.Tick? && !IsIdle(e.look) {
      FillKeepsInv(b, e.look);
      if Measures(b, e.look) {
        var filled := Filled(b, e.look);
        ActingSettles(WindowReset(filled).(settling := false), Measured(filled, e.look.now));
      }
    }
  }

  lemma {:induction false} SettlingThrowsAway(b: BrakeState, es: seq<Event>, e: Event) returns (i: nat)
    requires Inv(b) && b.settling
    requires (forall e <- es :: Possible(e)) && Possible(e)
    requires Measuring(Run(b, es), e)
    ensures i < |es| && ThrowsAway(Run(b, es[..i]), es[i])
    decreases es
  {
    ChangeOfLimitSettles(b, if es == [] then e else es[0]);
    StepKeepsInv(b, es[0]);
    if Stepped(b, es[0]).settling {
      var j := SettlingThrowsAway(Stepped(b, es[0]), es[1..], e);
      i := j + 1;
      assert es[..i][1..] == es[1..][..j];
    } else {
      i := 0;
    }
  }

  /**
   * The window that follows a change of limit is never judged: between the change and the next judged
   * window at least one window is closed and thrown away.
   */
  lemma {:induction false} WindowAfterChangeIsNeverJudged(b: BrakeState, es: seq<Event>, e: Event) returns (i: nat)
    requires Inv(b) && es != [] && (forall e <- es :: Possible(e)) && Possible(e)
    requires Stepped(b, es[0]).limit != b.limit
    requires Measuring(Run(b, es), e)
    ensures i < |es| && ThrowsAway(Run(b, es[..i]), es[i])
  {
    ChangeOfLimitSettles(b, es[0]);
    StepKeepsInv(b, es[0]);
    if ThrowsAway(b, es[0]) {
      i := 0;
    } else {
      var j := SettlingThrowsAway(Stepped(b, es[0]), es[1..], e);
      i := j + 1;
      assert es[..i][1..] == es[1..][..j];
    }
  }

  // ---------------------------------------------------------------- the sliding window

  ghost predicate TimeOrdered(history: seq<Sample>) {
    forall i, j :: 0 <= i < j < |history| ==> history[i].at <= history[j].at
  }

  /** The samples no older than the window, in order. */
  function Recent(history: seq<Sample>, now: real, window: real): seq<Sample> {
    if history == [] then []
    else (if now - history[0].at <= window then [history[0]] else []) + Recent(history[1..], now, window)
  }

  lemma {:induction false} AllRecent(history: seq<Sample>, now: real, window: real)
    requires forall i :: 0 <= i < |history| ==> now - history[i].at <= window
    ensures Recent(history, now, window) == history
  {
    if history != [] { AllRecent(history[1..], now, window); }
  }

  lemma {:induction false} DroppingKeepsTheRecent(history: seq<Sample>, now: real, window: real)
    requires TimeOrdered(history)
    ensures DropStale(history, now, window) == Recent(history, now, window)
    ensures TimeOrdered(DropStale(history, now, window))
  {
    if history != [] {
      if now - history[0].at > window {
        DroppingKeepsTheRecent(history[1..], now, window);
      } else {
        AllRecent(history, now, window);
      }
    }
  }

  /** On a clock that does not run backwards, recording leaves exactly the recent samples, in order. */
  lemma {:induction false} RecordIsASlidingWindow(b: BrakeState, s: Sample)
    requires TimeOrdered(b.history) && forall i :: 0 <= i < |b.history| ==> b.history[i].at <= s.at
    ensures Recorded(b, s).history == Recent(b.history + [s], s.at, b.referenceWindow)
    ensures TimeOrdered(Recorded(b, s).history)
  {
    DroppingKeepsTheRecent(b.history + [s], s.at, b.referenceWindow);
  }

  /** Every sample on record is from the past, in order. */
  ghost predicate Chronicle(b: BrakeState, now: real) {
    TimeOrdered(b.history) && forall i :: 0 <= i < |b.history| ==> b.history[i].at <= now
  }

  lemma {:induction false} RecordKeepsChronicle(b: BrakeState, s: Sample)
    requires Chronicle(b, s.at)
    ensures Chronicle(Recorded(b, s), s.at)
  {
    RecordIsASlidingWindow(b, s);
    FromHistory(b.history + [s], s.at, b.referenceWindow);
    forall i | 0 <= i < |Recorded(b, s).history| ensures Recorded(b, s).history[i].at <= s.at {
      assert Recorded(b, s).history[i] in b.history + [s];
    }
  }

  /** A judged window is recorded, or leaves the history alone. */
  lemma {:induction false} ActingRecords(b: BrakeState, m: Measure)
    ensures Acted(b, m).history == b.history || Acted(b, m).history == Recorded(b, AtLimit(b, m.sample)).history
  {
  }

  lemma {:induction false} ActKeepsChronicle(b: BrakeState, m: Measure)
    requires Chronicle(b, m.sample.at)
    ensures Chronicle(Acted(b, m), m.sample.at)
  {
    ActingRecords(b, m);
    RecordKeepsChronicle(b, AtLimit(b, m.sample));
  }

  lemma {:induction false} StepKeepsChronicle(b: BrakeState, e: Event, now: real)
    requires Inv(b) && Possible(e) && Chronicle(b, now) && (e.Tick? ==> e.look.now >= now)
    ensures Chronicle(Stepped(b, e), if e.Tick? then e.look.now else now)
  {
    if e.Tick? && !IsIdle(e.look) {
      FillKeepsInv(b, e.look);
      if Measures(b, e.look) {
        var filled := Filled(b, e.look);
        ActKeepsChronicle(WindowReset(filled).(settling := false), Measured(filled, e.look.now));
      }
    }
  }

  lemma {:induction false} FromHistory(history: seq<Sample>, now: real, window: real)
    ensures forall s <- DropStale(history, now, window) :: s in history
  {
    if history != [] && now - history[0].at > window {
      FromHistory(history[1..], now, window);
    }
  }

  /** A clock reading for every tick of the run, none running backwards. */
  ghost predicate Clocked(es: seq<Event>, now: real)
    decreases es
  {
    es != [] ==>
      (es[0].Tick? ==> es[0].look.now >= now) && Clocked(es[1..], if es[0].Tick? then es[0].look.now else now)
  }

  /** In every run on a monotone clock the history stays in time order, so each recording is exact. */
  lemma {:induction false} HistoryIsAChronicle(b: BrakeState, es: seq<Event>, now: real)
    requires Inv(b) && (forall e <- es :: Possible(e)) && Clocked(es, now) && Chronicle(b, now)
    ensures TimeOrdered(Run(b, es).history)
    decreases es
  {
    if es != [] {
      StepKeepsChronicle(b, es[0], now);
      StepKeepsInv(b, es[0]);
      HistoryIsAChronicle(Stepped(b, es[0]), es[1..], if es[0].Tick? then es[0].look.now else now);
    }
  }

  // ---------------------------------------------------------------- steady loss is never paced

  predicate InBandOf(lo: real, loss: real) { lo <= loss <= lo + ATTEMPT_LOSS_THRESHOLD }

  ghost predicate HistoryIn(b: BrakeState, lo: real) {
    forall s <- b.history :: InBandOf(lo, s.loss)
  }

  /** Every judged window of the run loses within the band. */
  ghost predicate Steady(b: BrakeState, es: seq<Event>, lo: real)
    requires Inv(b) && forall e <- es :: Possible(e)
    decreases es
  {
    es != [] ==>
      && (Measuring(b, es[0]) ==> InBandOf(lo, MeasureOf(b, es[0]).sample.loss))
      && (StepKeepsInv(b, es[0]); Steady(Stepped(b, es[0]), es[1..], lo))
  }

  lemma {:induction false} LowerComesFromHistory(history: seq<Sample>, rate: real, lo: real)
    requires forall s <- history :: InBandOf(lo, s.loss)
    ensures forall i :: 0 <= i < |LowerLosses(history, rate)| ==> LowerLosses(history, rate)[i] >= lo
  {
    if history != [] {
      LowerComesFromHistory(history[..|history| - 1], rate, lo);
    }
  }

  /** Loss no further than the threshold above everything on record is never congestion. */
  lemma {:induction false} BandIsNeverCongested(history: seq<Sample>, rate: real, loss: real, lo: real)
    requires (forall s <- history :: InBandOf(lo, s.loss)) && InBandOf(lo, loss)
    ensures Congested(history, rate, loss) != Some(true)
  {
    LowerComesFromHistory(history, rate, lo);
    NoneBelow(LowerLosses(history, rate), loss - ATTEMPT_LOSS_THRESHOLD);
  }

  /** Not paced, and no probe that would leave a limit behind. */
  ghost predicate Unpaced(b: BrakeState) {
    if b.probe.Some? then b.probe.value.restore.None? else b.limit.None?
  }

  lemma {:induction false} SteadyAct(b: BrakeState, m: Measure, lo: real)
    requires Inv(b) && Unpaced(b) && HistoryIn(b, lo) && InBandOf(lo, m.sample.loss)
    ensures Unpaced(Acted(b, m)) && HistoryIn(Acted(b, m), lo)
    ensures Acted(b, m).referenceWindow >= b.referenceWindow
  {
    var s := AtLimit(b, m.sample);
    FromHistory(b.history + [s], s.at, b.referenceWindow);
    var kept := Recorded(b, s).history;
    forall x <- kept ensures InBandOf(lo, x.loss) { assert x in b.history + [s]; }
    BandIsNeverCongested(kept, s.rate, s.loss, lo);
  }

  lemma {:induction false} SteadyStep(b: BrakeState, e: Event, lo: real)
    requires Inv(b) && Possible(e) && Unpaced(b) && HistoryIn(b, lo)
    requires Measuring(b, e) ==> InBandOf(lo, MeasureOf(b, e).sample.loss)
    ensures Unpaced(Stepped(b, e)) && HistoryIn(Stepped(b, e), lo)
    ensures Stepped(b, e).referenceWindow >= b.referenceWindow || (e.Tick? && LongIdle(b, e.look))
  {
    if e.Tick? && !IsIdle(e.look) {
      FillKeepsInv(b, e.look);
      if Measures(b, e.look) {
        SteadyAct(WindowReset(Filled(b, e.look)).(settling := false), MeasureOf(b, e), lo);
      }
    }
  }

  /** Some tick of the run ends a long idle spell. */
  ghost predicate IdlesLong(b: BrakeState, es: seq<Event>)
    requires Inv(b) && forall e <- es :: Possible(e)
    decreases es
  {
    es != [] &&
    (|| (es[0].Tick? && LongIdle(b, es[0].look))
     || (StepKeepsInv(b, es[0]); IdlesLong(Stepped(b, es[0]), es[1..])))
  }

  lemma {:induction false} SteadyRun(b: BrakeState, es: seq<Event>, lo: real)
    requires Inv(b) && (forall e <- es :: Possible(e)) && Steady(b, es, lo)
    requires Unpaced(b) && HistoryIn(b, lo)
    ensures Unpaced(Run(b, es)) && HistoryIn(Run(b, es), lo)
    ensures Run(b, es).referenceWindow >= b.referenceWindow || IdlesLong(b, es)
    decreases es
  {
    if es != [] {
      SteadyStep(b, es[0], lo);
      StepKeepsInv(b, es[0]);
      SteadyRun(Stepped(b, es[0]), es[1..], lo);
    }
  }

  /**
   * Steady loss is never paced: from a fresh brake, while the judged losses stay within a band as wide
   * as the threshold, there is no limit whenever no probe is running, a probe leaves none behind, and
   * the reference window is never shorter than it started unless a long idle spell reset it.
   */
  lemma {:induction false} SteadyLossIsNeverPaced(es: seq<Event>, more: seq<Event>, lo: real)
    requires (forall e <- es :: Possible(e)) && (forall e <- more :: Possible(e))
    requires Steady(FRESH_BRAKE, es, lo) && Steady(Run(FRESH_BRAKE, es), more, lo)
    ensures Run(FRESH_BRAKE, es).probe.None? ==> Run(FRESH_BRAKE, es).limit.None?
    ensures Run(FRESH_BRAKE, es).probe.Some? ==> Run(FRESH_BRAKE, es).probe.value.restore.None?
    ensures Run(Run(FRESH_BRAKE, es), more).referenceWindow >= Run(FRESH_BRAKE, es).referenceWindow
            || IdlesLong(Run(FRESH_BRAKE, es), more)
  {
    SteadyRun(FRESH_BRAKE, es, lo);
    SteadyRun(Run(FRESH_BRAKE, es), more, lo);
  }
}
