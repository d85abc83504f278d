/**
 * A run of the attempt brake, half a second per tick and never faster than its pacer allows, that ends
 * at a limit too low to be compared with anything. Forty-four attempts a second get through at first; a
 * probe at twenty-two finds a clean path; then half of everything is lost and the limit is cut twice.
 */
module StuckLimit {
  import opened Prelude
  import opened AttemptBraking
  import opened AttemptBrakeRuns
  import opened Probes
  import opened PacedProbes

  const SLACK: real := 2.0
  const TIMEOUT: real := 1.0
  const HALF: real := 0.5

  // ---------------------------------------------------------------- runs behind the pacer

  lemma {:induction false} RunOneMore(b: BrakeState, es: seq<Event>, e: Event)
    requires Inv(b) && AllPossible(es) && Possible(e)
    requires Paced(b, es, SLACK, TIMEOUT) && Obeys(Run(b, es), e, SLACK, TIMEOUT)
    ensures AllPossible(es + [e]) && Run(b, es + [e]) == Stepped(Run(b, es), e) && Paced(b, es + [e], SLACK, TIMEOUT)
    decreases es
  {
    if es == [] {
      assert (es + [e])[1..] == [];
    } else {
      assert (es + [e])[1..] == es[1..] + [e];
      StepKeepsInv(b, es[0]);
      RunOneMore(Stepped(b, es[0]), es[1..], e);
    }
  }

  /** When tick `i` happens. */
  function TimeOf(i: nat): real { (i + 1) as real * HALF }

  /** A fresh brake gets to `b` behind its pacer, ticking every half second. */
  ghost predicate Reaches(es: seq<Event>, b: BrakeState) {
    && AllPossible(es)
    && (forall i :: 0 <= i < |es| ==> es[i].Tick? && es[i].look.seconds == HALF && es[i].look.now == TimeOf(i))
    && Paced(FRESH_BRAKE, es, SLACK, TIMEOUT) && Run(FRESH_BRAKE, es) == b
  }

  ghost predicate Reachable(b: BrakeState, ticks: nat) { exists es :: |es| == ticks && Reaches(es, b) }

  lemma {:induction false} ReachableStep(b: BrakeState, ticks: nat, k: Look)
    requires Reachable(b, ticks) && Inv(b) && k.seconds == HALF && k.now == TimeOf(ticks)
    requires Obeys(b, Tick(k), SLACK, TIMEOUT)
    ensures Reachable(Stepped(b, Tick(k)), ticks + 1)
  {
    var es :| |es| == ticks && Reaches(es, b);
    RunOneMore(FRESH_BRAKE, es, Tick(k));
    assert Reaches(es + [Tick(k)], Stepped(b, Tick(k)));
  }

  lemma {:induction false} FreshIsReachable()
    ensures Reachable(FRESH_BRAKE, 0)
  {
    assert Reaches([], FRESH_BRAKE);
  }

  // ---------------------------------------------------------------- one window, tick by tick

  /** What every tick of a window sees: so many attempts finished, so many of them lost, so many callers waiting. */
  datatype Beat = Beat(attempted: nat, lost: nat, waiting: nat)

  predicate Regular(beat: Beat) { beat.lost <= beat.attempted && beat.attempted >= 10 }

  function LookAt(beat: Beat, now: real): Look
    requires Regular(beat)
  {
    Look(HALF, beat.attempted, beat.lost, beat.attempted - beat.lost, TIMEOUT, now, beat.waiting)
  }

  /** The brake between windows. */
  ghost predicate Between(b: BrakeState) {
    && b.lost == b.responded == b.dispatched == b.unshapedTicks == 0 && b.seconds == 0.0 && b.idleTicks == 0
    && Inv(b)
  }

  /** The brake after `n` ticks of a window. */
  function Part(b: BrakeState, beat: Beat, n: nat): BrakeState
    requires Regular(beat)
  {
    b.(lost := n * beat.lost, responded := n * (beat.attempted - beat.lost), dispatched := n * beat.attempted,
       seconds := n as real * HALF, unshapedTicks := if beat.waiting == 0 then n else 0)
  }

  lemma {:induction false} PartGrows(b: BrakeState, beat: Beat, n: nat, now: real)
    requires Regular(beat) && b.idleTicks == 0
    ensures Filled(Part(b, beat, n), LookAt(beat, now)) == Part(b, beat, n + 1)
  {
    OneMoreTime(n, beat.lost);
    OneMoreTime(n, beat.attempted - beat.lost);
    OneMoreTime(n, beat.attempted);
  }

  lemma {:induction false} OneMoreTime(n: nat, x: nat)
    ensures (n + 1) * x == n * x + x
  {
  }

  /** The pacer lets the beat through. */
  ghost predicate Fits(limit: Option<real>, beat: Beat) {
    limit.Some? ==> 2.0 * beat.attempted as real <= limit.value
  }

  lemma {:induction false} PartObeys(b: BrakeState, beat: Beat, n: nat)
    requires Regular(beat) && b.limit.Some? && Fits(b.limit, beat)
    ensures Within(Part(b, beat, n).dispatched, Part(b, beat, n).seconds, b.limit.value, SLACK)
  {
    var a, t := beat.attempted as real, n as real;
    assert (n * beat.attempted) as real == t * a;
    assert t * (b.limit.value - 2.0 * a) >= 0.0;
  }

  /** Ticks of a window that is not full yet. */
  lemma {:induction false} WindowFills(b: BrakeState, ticks: nat, beat: Beat, n: nat)
    requires Between(b) && Reachable(b, ticks) && Regular(beat) && Fits(b.limit, beat)
    requires n * beat.attempted < ATTEMPT_MIN_WINDOW
    ensures Reachable(Part(b, beat, n), ticks + n) && Inv(Part(b, beat, n))
    decreases n
  {
    if n == 0 {
      assert Part(b, beat, 0) == b;
    } else {
      OneMoreTime(n - 1, beat.attempted);
      WindowFills(b, ticks, beat, n - 1);
      TickHappens(b, ticks, beat, n);
      FinishedAreAttempted(b, beat, n);
      var part, k := Part(b, beat, n - 1), LookAt(beat, TimeOf(ticks + n - 1));
      assert Stepped(part, Tick(k)) == Part(b, beat, n);
      StepKeepsInv(part, Tick(k));
    }
  }

  /** Tick `n` of a window can happen, and adds its beat. */
  lemma {:induction false} TickHappens(b: BrakeState, ticks: nat, beat: Beat, n: nat)
    requires n >= 1 && Regular(beat) && Fits(b.limit, beat) && b.idleTicks == 0
    requires Reachable(Part(b, beat, n - 1), ticks + n - 1) && Inv(Part(b, beat, n - 1))
    ensures var part, k := Part(b, beat, n - 1), LookAt(beat, TimeOf(ticks + n - 1));
            && Filled(part, k) == Part(b, beat, n) && !IsIdle(k)
            && Reachable(Stepped(part, Tick(k)), ticks + n)
  {
    var part, k := Part(b, beat, n - 1), LookAt(beat, TimeOf(ticks + n - 1));
    PartGrows(b, beat, n - 1, k.now);
    if b.limit.Some? { PartObeys(b, beat, n); }
    ReachableStep(part, ticks + n - 1, k);
  }

  lemma {:induction false} FinishedAreAttempted(b: BrakeState, beat: Beat, n: nat)
    requires Regular(beat)
    ensures Part(b, beat, n).lost + Part(b, beat, n).responded == n * beat.attempted
  {
    assert n * beat.lost + n * (beat.attempted - beat.lost) == n * beat.attempted;
  }

  /** The tick that fills the window closes it. */
  lemma {:induction false} WindowCloses(b: BrakeState, ticks: nat, beat: Beat, n: nat)
    requires Between(b) && Reachable(b, ticks) && Regular(beat) && Fits(b.limit, beat)
    requires n >= 8 && (n - 1) * beat.attempted < ATTEMPT_MIN_WINDOW <= n * beat.attempted
    ensures Part(b, beat, n).seconds > 0.0 && Part(b, beat, n).lost + Part(b, beat, n).responded > 0
    ensures Reachable(Judged(Part(b, beat, n), TimeOf(ticks + n - 1)), ticks + n)
  {
    WindowFills(b, ticks, beat, n - 1);
    TickHappens(b, ticks, beat, n);
    FinishedAreAttempted(b, beat, n);
    assert IsFull(Part(b, beat, n), TIMEOUT);
  }

  lemma {:induction false} WindowSettles(b: BrakeState, ticks: nat, beat: Beat, n: nat)
    requires Between(b) && b.settling && Reachable(b, ticks) && Regular(beat) && Fits(b.limit, beat)
    requires n >= 8 && (n - 1) * beat.attempted < ATTEMPT_MIN_WINDOW <= n * beat.attempted
    ensures Reachable(b.(settling := false), ticks + n)
  {
    WindowCloses(b, ticks, beat, n);
    assert WindowReset(Part(b, beat, n)).(settling := false) == b.(settling := false);
  }

  /** What a window of the beat measures. */
  function MeasureOfBeat(beat: Beat, loss: real, now: real): Measure
    requires Regular(beat)
  {
    Measure(Sample(now, 2.0 * beat.attempted as real, loss, 2.0 * (beat.attempted - beat.lost) as real), true)
  }

  lemma {:induction false} QuotientIs(x: real, y: real, q: real)
    requires y > 0.0 && x == q * y
    ensures x / y == q
  {
  }

  lemma {:induction false} PartMeasures(b: BrakeState, beat: Beat, n: nat, loss: real, now: real)
    requires Regular(beat) && n > 0 && loss * beat.attempted as real == beat.lost as real
    requires b.limit.Some? ==> beat.waiting > 0
    requires Part(b, beat, n).lost + Part(b, beat, n).responded > 0
    ensures Measured(Part(b, beat, n), now) == MeasureOfBeat(beat, loss, now)
  {
    FinishedAreAttempted(b, beat, n);
    PerSecond(n, beat.attempted);
    PerSecond(n, beat.attempted - beat.lost);
    ShareOf(n, beat.lost, beat.attempted, loss);
  }

  lemma {:induction false} PerSecond(n: nat, x: nat)
    requires n > 0
    ensures (n * x) as real / (n as real * HALF) == 2.0 * x as real
  {
    assert (n * x) as real == n as real * x as real;
    QuotientIs((n * x) as real, n as real * HALF, 2.0 * x as real);
  }

  lemma {:induction false} ShareOf(n: nat, x: nat, a: nat, share: real)
    requires n * a > 0 && share * a as real == x as real
    ensures (n * x) as real / (n * a) as real == share
  {
    assert (n * x) as real == n as real * x as real && (n * a) as real == n as real * a as real;
    QuotientIs((n * x) as real, (n * a) as real, share);
  }

  /** A window that is judged. */
  lemma {:induction false} WindowIsJudged(b: BrakeState, ticks: nat, beat: Beat, n: nat, loss: real)
    requires Between(b) && !b.settling && Reachable(b, ticks) && Regular(beat) && Fits(b.limit, beat)
    requires n >= 8 && (n - 1) * beat.attempted < ATTEMPT_MIN_WINDOW <= n * beat.attempted
    requires loss * beat.attempted as real == beat.lost as real && (b.limit.Some? ==> beat.waiting > 0)
    ensures Reachable(Acted(b, MeasureOfBeat(beat, loss, TimeOf(ticks + n - 1))), ticks + n)
  {
    WindowCloses(b, ticks, beat, n);
    PartMeasures(b, beat, n, loss, TimeOf(ticks + n - 1));
    assert WindowReset(Part(b, beat, n)).(settling := false) == b;
  }

  /** A window thrown away and then one judged. */
  lemma {:induction false} SpellIsJudged(b: BrakeState, ticks: nat, beat: Beat, n: nat, loss: real)
    requires Between(b) && b.settling && Reachable(b, ticks) && Regular(beat) && Fits(b.limit, beat)
    requires n >= 8 && (n - 1) * beat.attempted < ATTEMPT_MIN_WINDOW <= n * beat.attempted
    requires loss * beat.attempted as real == beat.lost as real && (b.limit.Some? ==> beat.waiting > 0)
    ensures Reachable(Acted(b.(settling := false), MeasureOfBeat(beat, loss, TimeOf(ticks + n + n - 1))), ticks + n + n)
  {
    WindowSettles(b, ticks, beat, n);
    WindowIsJudged(b.(settling := false), ticks + n, beat, n, loss);
  }

  // ---------------------------------------------------------------- the run

  /** The brake between windows, sixty seconds of history kept. */
  function Paused(
    limit: Option<real>, settling: bool, history: seq<Sample>, probe: Option<Probe>, probed: bool): BrakeState
  {
    BrakeState(limit, limit, 0, 0, 0, 0.0, 0, settling, 0, history, 60.0, probe, probed)
  }

  lemma {:induction false} DropFirst(x: Sample, rest: seq<Sample>, now: real)
    ensures DropStale([x] + rest, now, 60.0) == if now - x.at > 60.0 then DropStale(rest, now, 60.0) else [x] + rest
  {
    assert ([x] + rest)[1..] == rest;
  }

  lemma {:induction false} LowerOneMore(history: seq<Sample>, s: Sample, rate: real)
    ensures LowerLosses(history + [s], rate) == LowerLosses(history, rate) + (if IsLower(s, rate) then [s.loss] else [])
    ensures BestHigher(history + [s], rate) ==
            if s.rate > rate then Max(BestHigher(history, rate), s.delivered) else BestHigher(history, rate)
  {
    assert (history + [s])[..|history|] == history;
  }

  /** The first window has nothing to compare with and starts a probe at half its rate. */
  lemma {:induction false} FirstWindowProbes(b: BrakeState, m: Measure)
    requires b == Paused(None, false, [], None, false) && m.shaped && m.sample.rate == 44.0
    ensures Acted(b, m) == Paused(Some(22.0), true, [m.sample], Some(Probe(None, 2)), false)
  {
    assert [] + [m.sample] == [m.sample];
    assert Recorded(b, m.sample).history == [m.sample];
    LowerOneMore([], m.sample, 44.0);
  }

  /** A window during the probe is recorded at the probe's rate. */
  lemma {:induction false} ProbeWindow(b: BrakeState, m: Measure, history: seq<Sample>)
    requires b == Paused(Some(22.0), false, b.history, b.probe, false) && b.probe.Some? && b.probe.value.restore.None?
    requires m.sample.rate == 22.0 && DropStale(b.history + [m.sample], m.sample.at, 60.0) == history
    ensures Acted(b, m) ==
            if b.probe.value.windows > 1
            then Paused(Some(22.0), false, history, Some(Probe(None, b.probe.value.windows - 1)), false)
            else Paused(None, true, history, None, true)
  {
    assert AtLimit(b, m.sample) == m.sample;
  }

  /** A congested window that keeps answers up cuts. */
  lemma {:induction false} CongestedWindowCuts(b: BrakeState, m: Measure, s: Sample, history: seq<Sample>, probed: bool)
    requires b == Paused(b.limit, false, b.history, None, probed) && m.shaped
    requires s == AtLimit(b, m.sample) && DropStale(b.history + [s], s.at, 60.0) == history
    requires s.delivered >= BestHigher(b.history, s.rate) * ATTEMPT_GOODPUT_FLOOR
    requires s.rate * ATTEMPT_RETREAT >= ATTEMPT_MIN_RATE
    requires Congested(history, s.rate, s.loss) == Some(true)
    ensures Acted(b, m) == Paused(Some(s.rate * ATTEMPT_RETREAT), true, history, None, false)
  {
  }

  lemma {:induction false} AllClean(losses: seq<real>, bound: real)
    requires bound > 0.0 && forall i :: 0 <= i < |losses| ==> losses[i] == 0.0
    ensures CountBelow(losses, bound) == |losses|
  {
    if losses != [] { AllClean(losses[1..], bound); }
  }

  /** At forty-four a second against two clean windows at half of that. */
  lemma {:induction false} FirstCut(b: Sample, c: Sample, d: Sample, m: Measure)
    requires b.rate == c.rate == 22.0 && b.loss == c.loss == 0.0 && d == m.sample && m.shaped
    requires d.rate == 44.0 && d.loss == 0.5 && d.delivered == 22.0 && d.at - b.at <= 60.0
    ensures Acted(Paused(None, false, [b, c], None, true), m) == Paused(Some(37.4), true, [b, c, d], None, false)
  {
    assert [b, c] + [d] == [b] + [c, d] == [b, c, d];
    DropFirst(b, [c, d], d.at);
    assert [] + [b] == [b] && [b] + [c] == [b, c];
    LowerOneMore([], b, 44.0);
    LowerOneMore([b], c, 44.0);
    LowerOneMore([b, c], d, 44.0);
    AllClean(LowerLosses([b, c, d], 44.0), d.loss - ATTEMPT_LOSS_THRESHOLD);
    CongestedWindowCuts(Paused(None, false, [b, c], None, true), m, d, [b, c, d], true);
  }

  /** Three samples: a clean one at twenty-two a second, one at forty-four, and a lossy one at the limit between. */
  lemma {:induction false} StillCongested(c: Sample, d: Sample, e: Sample)
    requires c.rate == 22.0 && c.loss == 0.0 && d.rate == 44.0 && e.rate == 37.4 && e.loss > 0.1
    ensures Congested([c, d, e], e.rate, e.loss) == Some(true)
  {
    assert [] + [c] == [c] && [c] + [d] == [c, d] && [c, d] + [e] == [c, d, e];
    LowerOneMore([], c, 37.4);
    LowerOneMore([c], d, 37.4);
    LowerOneMore([c, d], e, 37.4);
    AllClean(LowerLosses([c, d, e], 37.4), e.loss - ATTEMPT_LOSS_THRESHOLD);
  }

  lemma {:induction false} BestOfThree(b: Sample, c: Sample, d: Sample, rate: real)
    requires b.rate <= rate && c.rate <= rate < d.rate && d.delivered >= 0.0
    ensures BestHigher([b, c, d], rate) == d.delivered
  {
    assert [] + [b] == [b] && [b] + [c] == [b, c] && [b, c] + [d] == [b, c, d];
    LowerOneMore([], b, rate);
    LowerOneMore([b], c, rate);
    LowerOneMore([b, c], d, rate);
  }

  /** At the limit that leaves, with the later of the two still on record. */
  lemma {:induction false} SecondCut(b: Sample, c: Sample, d: Sample, e: Sample, m: Measure)
    requires b.rate == c.rate == 22.0 && c.loss == 0.0 && d.rate == 44.0 && d.delivered == 22.0
    requires e == m.sample.(rate := 37.4) && m.shaped
    requires e.loss > 0.1 && e.delivered == 20.0 && e.at - b.at > 60.0 && e.at - c.at <= 60.0
    ensures Acted(Paused(Some(37.4), false, [b, c, d], None, false), m) == Paused(Some(31.79), true, [c, d, e], None, false)
  {
    assert [b, c, d] + [e] == [b] + [c, d, e] && [c, d, e] == [c] + [d, e];
    DropFirst(b, [c, d, e], e.at);
    DropFirst(c, [d, e], e.at);
    StillCongested(c, d, e);
    BestOfThree(b, c, d, e.rate);
    CongestedWindowCuts(Paused(Some(37.4), false, [b, c, d], None, false), m, e, [c, d, e], false);
  }

  /** Two clean probe windows push the first sample off the record. */
  lemma {:induction false} ProbeRecord(a: Sample, b: Sample, c: Sample)
    requires b.at - a.at <= 60.0 && c.at - a.at > 60.0 && c.at - b.at <= 60.0
    ensures DropStale([a] + [b], b.at, 60.0) == [a, b] && DropStale([a, b] + [c], c.at, 60.0) == [b, c]
  {
    DropFirst(a, [b], b.at);
    assert [a, b] + [c] == [a] + [b, c] && [b, c] == [b] + [c];
    DropFirst(a, [b, c], c.at);
    DropFirst(b, [c], c.at);
  }

  lemma {:induction false} ProbeIsReached(a: Measure)
    requires a == MeasureOfBeat(Beat(22, 0, 0), 0.0, 23.0)
    ensures Reachable(Paused(Some(22.0), true, [a.sample], Some(Probe(None, 2)), false), 46)
  {
    FreshIsReachable();
    SpellIsJudged(FRESH_BRAKE, 0, Beat(22, 0, 0), 23, 0.0);
    FirstWindowProbes(FRESH_BRAKE.(settling := false), a);
  }

  lemma {:induction false} ProbeEnds(a: Sample, b: Measure, c: Measure)
    requires a.at == 23.0 && Reachable(Paused(Some(22.0), true, [a], Some(Probe(None, 2)), false), 46)
    requires b == MeasureOfBeat(Beat(11, 0, 1), 0.0, 69.0) && c == MeasureOfBeat(Beat(11, 0, 1), 0.0, 92.0)
    ensures Reachable(Paused(None, true, [b.sample, c.sample], None, true), 184)
  {
    var probing := Paused(Some(22.0), true, [a], Some(Probe(None, 2)), false);
    var middle := Paused(Some(22.0), false, [a, b.sample], Some(Probe(None, 1)), false);
    ProbeRecord(a, b.sample, c.sample);
    SpellIsJudged(probing, 46, Beat(11, 0, 1), 46, 0.0);
    ProbeWindow(probing.(settling := false), b, [a, b.sample]);
    assert Reachable(middle, 138);
    WindowIsJudged(middle, 138, Beat(11, 0, 1), 46, 0.0);
    ProbeWindow(middle, c, [b.sample, c.sample]);
  }

  /**
   * Limits too low to be compared are reached behind the pacer: after 143 seconds the limit stands at
   * 31.79, and nothing at 0.6 of it or less can ever be judged.
   */
  lemma {:induction false} StuckLimitIsReached() returns (es: seq<Event>)
    ensures AllPossible(es)
    ensures forall i :: 0 <= i < |es| ==> es[i].Tick? && es[i].look.seconds == 0.5 && es[i].look.now == TimeOf(i)
    ensures Paced(FRESH_BRAKE, es, 2.0, 1.0)
    ensures Stands(Run(FRESH_BRAKE, es)) == Some(31.79) && !Measurable(31.79 * ATTEMPT_REFERENCE_BELOW, 2.0, 1.0)
  {
    var a := MeasureOfBeat(Beat(22, 0, 0), 0.0, 23.0);
    var b, c := MeasureOfBeat(Beat(11, 0, 1), 0.0, 69.0), MeasureOfBeat(Beat(11, 0, 1), 0.0, 92.0);
    ProbeIsReached(a);
    ProbeEnds(a.sample, b, c);
    var restored := Paused(None, true, [b.sample, c.sample], None, true);
    SpellIsJudged(restored, 184, Beat(22, 11, 0), 23, 0.5);
    var d := MeasureOfBeat(Beat(22, 11, 0), 0.5, 115.0);
    FirstCut(b.sample, c.sample, d.sample, d);
    var cut := Paused(Some(37.4), true, [b.sample, c.sample, d.sample], None, false);
    assert Reachable(cut, 230);
    SpellIsJudged(cut, 230, Beat(18, 8, 1), 28, 4.0 / 9.0);
    var e := MeasureOfBeat(Beat(18, 8, 1), 4.0 / 9.0, 143.0);
    var last := e.sample.(rate := 37.4);
    SecondCut(b.sample, c.sample, d.sample, last, e);
    var stuck := Paused(Some(31.79), true, [c.sample, d.sample, last], None, false);
    assert Reachable(stuck, 286);
    es :| |es| == 286 && Reaches(es, stuck);
  }
}
