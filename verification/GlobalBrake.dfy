/**
 * The global brake of src/controller.rs: queries that failed outright, gathered into windows of at
 * least a hundred, judged, and turned into one limit below the configured ceiling.
 */
module GlobalBraking {
  import opened Prelude
  import opened LossJudging
  import opened RateLimiting

  const RETREAT: real := 0.85
  const GROWTH: real := 1.25
  const MIN_RATE_QPS: real := 1.0
  const MIN_AGGREGATE_SAMPLES: nat := 100
  const MAX_BASELINE_LOSS: real := 0.5
  const SHORTEST: real := 0.000001

  /** The client's outcome counters, read as one snapshot. */
  datatype Outcomes = Outcomes(completed: nat, failed: nat)

  /** Queries finished and failed over a stretch of ticks, attempts dispatched, and its length. */
  datatype Tally = Tally(completed: nat, failed: nat, dispatched: nat, seconds: real)

  const EMPTY_TALLY := Tally(0, 0, 0, 0.0)

  function Sum(a: Tally, b: Tally): Tally {
    Tally(a.completed + b.completed, a.failed + b.failed, a.dispatched + b.dispatched, a.seconds + b.seconds)
  }

  /** The brake: what it last read, its open window, its judge, its limit, and the limiter it drives. */
  datatype Brake = Brake(
    ceiling: real,
    previous: Outcomes,
    window: Tally,
    judge: JudgeState,
    limit: Option<real>,
    interval: nat)

  function Fresh(ceiling: real): Brake
    requires ceiling > 0.0
  {
    Brake(ceiling, Outcomes(0, 0), EMPTY_TALLY, FRESH_JUDGE, None, IntervalFor(ceiling))
  }

  /** A closed window as measured: the judge's view and the dispatch rate. */
  datatype Measure = Measure(window: Window, observed: real)

  function Measured(t: Tally): Measure
    requires t.completed > 0
  {
    var seconds := Max(t.seconds, SHORTEST);
    Measure(
      Window(t.failed as real / t.completed as real, SatSub(t.completed, t.failed) as real / seconds),
      t.dispatched as real / seconds)
  }

  /** A window is measured by the share that failed, what got through per second, and attempts per second. */
  lemma {:induction false} MeasureIsTheTally(t: Tally)
    requires t.completed > 0 && t.failed <= t.completed && t.seconds >= 0.000001
    ensures var m := Measured(t);
            && m.window.loss * t.completed as real == t.failed as real
            && m.window.delivered * t.seconds == (t.completed - t.failed) as real
            && m.observed * t.seconds == t.dispatched as real
  {
  }

  /** Where a retreat from `basis` lands. */
  function Retreated(basis: real, ceiling: real): real {
    Min(Max(basis * RETREAT, MIN_RATE_QPS), ceiling)
  }

  /** Every rate the brake may hand the limiter is one the limiter accepts. */
  predicate Settable(b: Brake) {
    b.ceiling > 0.0 && (b.limit.Some? ==> b.limit.value > 0.0)
  }

  /** The verdict on a closed window. */
  function VerdictOn(b: Brake, m: Measure): Verdict { Judged(b.judge, m.window).1 }

  /** What a closed window does to the limit and the limiter. */
  function Decide(b: Brake, m: Measure): (b': Brake)
    requires Settable(b)
    ensures Settable(b') && b'.ceiling == b.ceiling && b'.previous == b.previous && b'.window == b.window
    ensures b'.judge == Judged(b.judge, m.window).0
  {
    var (judge, verdict) := Judged(b.judge, m.window);
    var b := b.(judge := judge);
    if verdict.Congested? then
      var target := Retreated(UnwrapOr(b.limit, m.observed), b.ceiling);
      b.(limit := Some(target), interval := IntervalFor(target))
    else if m.window.loss > MAX_BASELINE_LOSS || b.limit.None? then
      b
    else if b.limit.value * GROWTH >= b.ceiling then
      b.(limit := None, interval := IntervalFor(b.ceiling))
    else
      b.(limit := Some(b.limit.value * GROWTH), interval := IntervalFor(b.limit.value * GROWTH))
  }

  /** One tick of the controller as the global brake sees it. */
  datatype Tick = Tick(outcomes: Outcomes, attempted: nat, seconds: real)

  /** What one tick adds to the open window. */
  function Delta(previous: Outcomes, t: Tick): Tally {
    Tally(SatSub(t.outcomes.completed, previous.completed), SatSub(t.outcomes.failed, previous.failed),
          t.attempted, t.seconds)
  }

  /** The open window with one tick's counts added. */
  function Gathered(b: Brake, t: Tick): Tally {
    Sum(b.window, Delta(b.previous, t))
  }

  predicate Closes(b: Brake, t: Tick) { Gathered(b, t).completed >= MIN_AGGREGATE_SAMPLES }

  function Adjusted(b: Brake, t: Tick): (b': Brake)
    requires Settable(b)
    ensures Settable(b') && b'.previous == t.outcomes
  {
    var g := Gathered(b, t);
    if g.completed < MIN_AGGREGATE_SAMPLES then
      b.(previous := t.outcomes, window := g)
    else
      Decide(b.(previous := t.outcomes, window := EMPTY_TALLY), Measured(g))
  }

  // ---------------------------------------------------------------- every reachable state

  /** What every reachable brake satisfies. */
  ghost predicate Inv(b: Brake) {
    && b.ceiling > 0.0
    && b.window.completed < MIN_AGGREGATE_SAMPLES
    && JudgeInv(b.judge)
    && (b.limit.Some? ==> Min(MIN_RATE_QPS, b.ceiling) <= b.limit.value <= b.ceiling)
    && b.interval == IntervalFor(UnwrapOr(b.limit, b.ceiling))
  }

  lemma {:induction false} FreshIsValid(ceiling: real)
    requires ceiling > 0.0
    ensures Inv(Fresh(ceiling))
  {
  }

  /** A closed window keeps the limit within its bounds, and one that is Congested never raises it. */
  lemma {:induction false} DecideIsSafe(b: Brake, m: Measure)
    requires Inv(b) && IsRatio(m.window)
    ensures Inv(Decide(b, m))
    ensures VerdictOn(b, m).Congested? && b.limit.Some? ==>
              Decide(b, m).limit.Some? && Decide(b, m).limit.value <= b.limit.value
    ensures Decide(b, m).interval >= IntervalFor(b.ceiling)
  {
    JudgeKeepsInv(b.judge, m.window);
    IntervalIsAntitone(UnwrapOr(Decide(b, m).limit, b.ceiling), b.ceiling);
  }

  /**
   * Without congestion a standing limit is held exactly while over half of the queries fail; otherwise it
   * grows by a quarter, or is released where that reaches the ceiling.
   */
  lemma {:induction false} HeldExactlyOverHalf(b: Brake, m: Measure)
    requires Inv(b) && b.limit.Some? && !VerdictOn(b, m).Congested?
    ensures var limit, b' := b.limit.value, Decide(b, m);
            && (m.window.loss > 0.5 ==> b'.limit == b.limit && b'.interval == b.interval)
            && (m.window.loss <= 0.5 && 1.25 * limit < b.ceiling ==>
                  b'.limit == Some(1.25 * limit) && b'.interval == IntervalFor(1.25 * limit))
            && (m.window.loss <= 0.5 && 1.25 * limit >= b.ceiling ==>
                  b'.limit.None? && b'.interval == IntervalFor(b.ceiling))
  {
  }

  /** The counters never run backwards and a failure is also a completion. */
  ghost predicate Counts(previous: Outcomes, t: Tick) {
    && previous.completed <= t.outcomes.completed
    && 0 <= t.outcomes.failed - previous.failed <= t.outcomes.completed - previous.completed
  }

  /** Successive ticks read growing counters. */
  ghost predicate Counting(previous: Outcomes, ts: seq<Tick>)
    decreases ts
  {
    ts != [] ==> Counts(previous, ts[0]) && Counting(ts[0].outcomes, ts[1..])
  }

  /** The brake after a run of ticks. */
  function Run(b: Brake, ts: seq<Tick>): (b': Brake)
    requires Settable(b)
    ensures Settable(b')
    decreases ts
  {
    if ts == [] then b else Run(Adjusted(b, ts[0]), ts[1..])
  }

  lemma {:induction false} RatioOf(failed: nat, completed: nat)
    requires failed <= completed && completed > 0
    ensures 0.0 <= failed as real / completed as real <= 1.0
  {
    var q := failed as real / completed as real;
    assert q * completed as real == failed as real;
  }

  lemma {:induction false} AdjustIsSafe(b: Brake, t: Tick)
    requires Inv(b) && b.window.failed <= b.window.completed && Counts(b.previous, t)
    ensures Inv(Adjusted(b, t)) && Adjusted(b, t).interval >= IntervalFor(b.ceiling)
    ensures Adjusted(b, t).window.failed <= Adjusted(b, t).window.completed
    ensures Adjusted(b, t).ceiling == b.ceiling
  {
    IntervalIsAntitone(UnwrapOr(b.limit, b.ceiling), b.ceiling);
    if Closes(b, t) {
      RatioOf(Gathered(b, t).failed, Gathered(b, t).completed);
      DecideIsSafe(b.(previous := t.outcomes, window := EMPTY_TALLY), Measured(Gathered(b, t)));
    }
  }

  /**
   * Over any run of ticks the limit stays between the floor and the ceiling, the limiter's interval
   * is the limit's own (the ceiling's when there is none), and it is never shorter than the ceiling's.
   */
  lemma {:induction false} LimitIsAlwaysSafe(b: Brake, ts: seq<Tick>)
    requires Inv(b) && b.window.failed <= b.window.completed && Counting(b.previous, ts)
    ensures Inv(Run(b, ts)) && Run(b, ts).interval >= IntervalFor(b.ceiling)
    ensures Run(b, ts).ceiling == b.ceiling
    decreases ts
  {
    IntervalIsAntitone(UnwrapOr(b.limit, b.ceiling), b.ceiling);
    if ts != [] {
      AdjustIsSafe(b, ts[0]);
      LimitIsAlwaysSafe(Adjusted(b, ts[0]), ts[1..]);
    }
  }

  // ---------------------------------------------------------------- when the rate is cut

  /** The limit is introduced or lowered. */
  predicate Cuts(before: Brake, after: Brake) {
    after.limit.Some? && (before.limit.None? || after.limit.value < before.limit.value)
  }

  /**
   * The rate is cut by exactly those ticks that fill the window with queries whose failures the judge
   * blames on the rate, unless the limit is already at the floor.
   */
  lemma {:induction false} CutExactlyOnBlame(b: Brake, t: Tick)
    requires Inv(b)
    ensures Cuts(b, Adjusted(b, t)) <==>
              && Closes(b, t) && Blames(b.judge, Measured(Gathered(b, t)).window)
              && (b.limit.Some? ==> b.limit.value > MIN_RATE_QPS)
  {
    if Closes(b, t) {
      CongestedMeansBlamed(b.judge, Measured(Gathered(b, t)).window);
    }
  }

  /** A brake that has judged nothing yet cuts at a hundred finished queries, more than one in fifty failed. */
  lemma {:induction false} FirstCutIsAFailureShare(b: Brake, t: Tick)
    requires Inv(b) && b.judge == FRESH_JUDGE && b.limit.None?
    ensures Cuts(b, Adjusted(b, t)) <==>
              && Gathered(b, t).completed >= MIN_AGGREGATE_SAMPLES
              && 50 * Gathered(b, t).failed > Gathered(b, t).completed
  {
    CutExactlyOnBlame(b, t);
    if Closes(b, t) {
      OneInFifty(Gathered(b, t).failed, Gathered(b, t).completed);
    }
  }

  lemma {:induction false} OneInFifty(failed: nat, completed: nat)
    requires completed > 0
    ensures failed as real / completed as real > LOSS_THRESHOLD <==> 50 * failed > completed
  {
    var q, n := failed as real / completed as real, completed as real;
    assert q * n == failed as real;
    assert (q - 0.02) * n == failed as real - 0.02 * n;
    assert q > 0.02 <==> (q - 0.02) * n > 0.0;
  }

  /** Attempts play no part in whether the rate is cut, and under a standing limit none in where it lands. */
  lemma {:induction false} AttemptsDoNotDecide(b: Brake, t: Tick, attempted: nat)
    requires Inv(b)
    ensures var b', other := Adjusted(b, t), Adjusted(b, t.(attempted := attempted));
            && (Cuts(b, b') <==> Cuts(b, other))
            && b'.judge == other.judge
            && (b.limit.Some? ==> b'.limit == other.limit && b'.interval == other.interval)
  {
    CutExactlyOnBlame(b, t);
    CutExactlyOnBlame(b, t.(attempted := attempted));
  }

  // ---------------------------------------------------------------- the signal is conserved

  /** The windows judged over a run of ticks, in order. */
  function Closed(b: Brake, ts: seq<Tick>): seq<Tally>
    requires Settable(b)
    decreases ts
  {
    if ts == [] then []
    else (if Closes(b, ts[0]) then [Gathered(b, ts[0])] else []) + Closed(Adjusted(b, ts[0]), ts[1..])
  }

  function SumAll(tallies: seq<Tally>): Tally {
    if tallies == [] then EMPTY_TALLY else Sum(tallies[0], SumAll(tallies[1..]))
  }

  /** Everything that happened between two readings of the counters. */
  function Happened(previous: Outcomes, ts: seq<Tick>): Tally
    decreases ts
  {
    if ts == [] then EMPTY_TALLY else Sum(Delta(previous, ts[0]), Happened(ts[0].outcomes, ts[1..]))
  }

  /** The outcome counters as last read. */
  function LastRead(previous: Outcomes, ts: seq<Tick>): Outcomes {
    if ts == [] then previous else ts[|ts| - 1].outcomes
  }

  /** With counters that only grow, the deltas of a run add up to the difference of its ends. */
  lemma {:induction false} DeltasTelescope(previous: Outcomes, ts: seq<Tick>)
    requires Counting(previous, ts)
    ensures Happened(previous, ts).completed == LastRead(previous, ts).completed - previous.completed
    ensures Happened(previous, ts).failed == LastRead(previous, ts).failed - previous.failed
    decreases ts
  {
    if ts != [] {
      DeltasTelescope(ts[0].outcomes, ts[1..]);
    }
  }

  /**
   * No finished query is dropped from the signal or counted twice: the windows judged so far and the
   * open one add up to everything that happened. Every judged window is full and the open one is not.
   */
  lemma {:induction false} NothingIsLostOrCountedTwice(b: Brake, ts: seq<Tick>)
    requires Settable(b) && b.window.completed < MIN_AGGREGATE_SAMPLES
    ensures Sum(SumAll(Closed(b, ts)), Run(b, ts).window) == Sum(b.window, Happened(b.previous, ts))
    ensures forall t <- Closed(b, ts) :: t.completed >= MIN_AGGREGATE_SAMPLES
    ensures Run(b, ts).window.completed < MIN_AGGREGATE_SAMPLES
    decreases ts
  {
    if ts != [] {
      var b', rest := Adjusted(b, ts[0]), ts[1..];
      NothingIsLostOrCountedTwice(b', rest);
      if Closes(b, ts[0]) {
        assert Closed(b, ts)[1..] == Closed(b', rest);
      } else {
        assert Closed(b, ts) == Closed(b', rest);
      }
    }
  }

  /** From a fresh brake the judged windows and the open one add up to the counters themselves. */
  lemma {:induction false} SignalEqualsCounters(b: Brake, ts: seq<Tick>, total: Tally)
    requires Settable(b) && b.previous == Outcomes(0, 0) && b.window == EMPTY_TALLY
    requires Counting(b.previous, ts)
    requires total == Sum(SumAll(Closed(b, ts)), Run(b, ts).window)
    ensures Outcomes(total.completed, total.failed) == LastRead(b.previous, ts)
    ensures total.dispatched == Happened(b.previous, ts).dispatched
    ensures total.seconds == Happened(b.previous, ts).seconds
  {
    NothingIsLostOrCountedTwice(b, ts);
    DeltasTelescope(b.previous, ts);
  }

  // ---------------------------------------------------------------- recovery

  /** The brake after a run of closed windows. */
  function DecideRun(b: Brake, ms: seq<Measure>): (b': Brake)
    requires Settable(b)
    ensures Settable(b') && b'.ceiling == b.ceiling
    decreases ms
  {
    if ms == [] then b else DecideRun(Decide(b, ms[0]), ms[1..])
  }

  /** The judge's view of a run of closed windows. */
  function Windows(ms: seq<Measure>): (ws: seq<Window>)
    ensures |ws| == |ms| && forall i :: 0 <= i < |ms| ==> ws[i] == ms[i].window
  {
    seq(|ms|, i requires 0 <= i < |ms| => ms[i].window)
  }

  /** Windows in which enough gets through for the limit to grow. */
  function Growing(ms: seq<Measure>): nat {
    if ms == [] then 0 else (if ms[0].window.loss <= MAX_BASELINE_LOSS then 1 else 0) + Growing(ms[1..])
  }

  /** The limit one growing window leaves. */
  function GrownOnce(limit: Option<real>, ceiling: real): Option<real> {
    if limit.None? || limit.value * GROWTH >= ceiling then None else Some(limit.value * GROWTH)
  }

  /** The limit `n` growing windows leave. */
  function Grown(limit: Option<real>, ceiling: real, n: nat): Option<real>
    decreases n
  {
    if n == 0 then limit else Grown(GrownOnce(limit, ceiling), ceiling, n - 1)
  }

  lemma {:induction false} PowGrows(n: nat)
    ensures Pow(GROWTH, n) >= 1.0
  {
    if n != 0 { PowGrows(n - 1); }
  }

  lemma {:induction false} ReleasedStaysReleased(ceiling: real, n: nat)
    ensures Grown(None, ceiling, n) == None
  {
    if n != 0 { ReleasedStaysReleased(ceiling, n - 1); }
  }

  /**
   * Growth in closed form: a limit is released by exactly as many growing windows as it takes a quarter
   * compounded to reach the ceiling.
   */
  lemma {:induction false} GrowthCompounds(limit: real, ceiling: real, n: nat)
    requires limit > 0.0 && n >= 1
    ensures var g := Grown(Some(limit), ceiling, n);
            if limit * Pow(GROWTH, n) >= ceiling then g.None? else g.Some? && g.value == limit * Pow(GROWTH, n)
    decreases n
  {
    var p, grown := Pow(GROWTH, n - 1), limit * GROWTH;
    assert Pow(GROWTH, n) == GROWTH * p;
    Regroup(limit, GROWTH, p);
    PowGrows(n - 1);
    AtLeast(grown, p);
    if grown >= ceiling {
      ReleasedStaysReleased(ceiling, n - 1);
    } else if n > 1 {
      GrowthCompounds(grown, ceiling, n - 1);
    }
  }

  lemma {:induction false} AtLeast(x: real, p: real)
    requires x > 0.0 && p >= 1.0
    ensures x * p >= x
  {
    assert x * (p - 1.0) >= 0.0;
  }

  /**
   * While no window is Congested the limit is exactly its starting value grown by a quarter per window
   * that gets enough through, and it is released by the first such window that reaches the ceiling.
   */
  lemma {:induction false} RecoveryIsExact(b: Brake, ms: seq<Measure>)
    requires Settable(b)
    requires forall v <- Verdicts(b.judge, Windows(ms)) :: !v.Congested?
    ensures DecideRun(b, ms).limit == Grown(b.limit, b.ceiling, Growing(ms))
    decreases ms
  {
    if ms != [] {
      var b' := Decide(b, ms[0]);
      assert Windows(ms)[0] == ms[0].window && Windows(ms)[1..] == Windows(ms[1..]);
      assert Verdicts(b.judge, Windows(ms))[0] == VerdictOn(b, ms[0]);
      assert Verdicts(b.judge, Windows(ms))[1..] == Verdicts(b'.judge, Windows(ms[1..]));
      RecoveryIsExact(b', ms[1..]);
      assert b'.limit == if ms[0].window.loss <= MAX_BASELINE_LOSS then GrownOnce(b.limit, b.ceiling) else b.limit;
    }
  }

  // ---------------------------------------------------------------- loss that is there at every rate

  /** Whatever is delivered, a judge that has taken a constant loss as its baseline stays Clear. */
  lemma {:induction false} LearnedLossStaysClear(j: JudgeState, loss: real, ws: seq<Window>)
    requires j.baseline == Some(loss)
    requires forall w <- ws :: w.loss == loss
    ensures forall v <- Verdicts(j, ws) :: v.Clear?
    decreases ws
  {
    if ws != [] {
      LearnedLossStaysClear(Judged(j, ws[0]).0, loss, ws[1..]);
    }
  }

  /** A fresh judge calls a constant loss Congested at most twice and then never again. */
  lemma {:induction false} ConstantLossIsLearned(loss: real, ws: seq<Window>)
    requires loss > LOSS_THRESHOLD
    requires forall w <- ws :: w.loss == loss
    ensures forall i :: 0 <= i < |ws| && Verdicts(FRESH_JUDGE, ws)[i].Congested? ==> i < 2
    ensures |ws| >= 2 ==> forall v <- Verdicts(JudgeRun(FRESH_JUDGE, ws[..2]), ws[2..]) :: !v.Congested?
  {
    if |ws| >= 2 {
      var j1 := Judged(FRESH_JUDGE, ws[0]).0;
      var j2 := Judged(j1, ws[1]).0;
      var rest := ws[2..];
      assert ws[1..][1..] == rest;
      assert ws[..2][1..] == [ws[1]] && ws[..2][1..][1..] == [];
      assert JudgeRun(FRESH_JUDGE, ws[..2]) == JudgeRun(j1, [ws[1]]) == JudgeRun(j2, []) == j2;
      assert Verdicts(FRESH_JUDGE, ws)[1..] == Verdicts(j1, ws[1..]);
      assert Verdicts(j1, ws[1..])[1..] == Verdicts(j2, rest);
      assert Verdicts(FRESH_JUDGE, ws)[2..] == Verdicts(j2, rest);
      if j2.baseline == Some(loss) {
        LearnedLossStaysClear(j2, loss, rest);
      } else if rest != [] {
        var j3 := Judged(j2, rest[0]).0;
        assert Judged(j2, rest[0]).1.Baseline?;
        LearnedLossStaysClear(j3, loss, rest[1..]);
      }
      forall i | 2 <= i < |ws| ensures !Verdicts(FRESH_JUDGE, ws)[i].Congested? {
        assert Verdicts(FRESH_JUDGE, ws)[i] == Verdicts(FRESH_JUDGE, ws)[2..][i - 2];
        assert Verdicts(j2, rest)[i - 2] in Verdicts(j2, rest);
      }
    }
  }

  lemma {:induction false} RunsAgree(b: Brake, ms: seq<Measure>, n: nat)
    requires Settable(b) && n <= |ms|
    ensures DecideRun(b, ms[..n]).judge == JudgeRun(b.judge, Windows(ms)[..n])
    ensures DecideRun(b, ms) == DecideRun(DecideRun(b, ms[..n]), ms[n..])
    decreases ms
  {
    if n > 0 {
      assert ms[..n][1..] == ms[1..][..n - 1] && ms[1..][n - 1..] == ms[n..];
      assert Windows(ms)[..n][1..] == Windows(ms[1..])[..n - 1];
      RunsAgree(Decide(b, ms[0]), ms[1..], n - 1);
    } else {
      assert ms[..0] == [] && ms[0..] == ms && Windows(ms)[..0] == [];
    }
  }

  lemma {:induction false} AllGrow(ms: seq<Measure>, loss: real)
    requires forall m <- ms :: m.window.loss == loss
    ensures Growing(ms) == if loss <= MAX_BASELINE_LOSS then |ms| else 0
  {
    if ms != [] { AllGrow(ms[1..], loss); }
  }

  /**
   * Loss that is there at every rate costs at most two retreats. After the second window, whatever is delivered,
   * every window raises the limit until it is released at the ceiling when the loss leaves at least
   * half the queries answered, and every window holds it otherwise.
   */
  lemma {:induction false} UnfixableLossCostsTwoRetreats(b: Brake, loss: real, ms: seq<Measure>)
    requires Settable(b) && b.judge == FRESH_JUDGE
    requires loss > LOSS_THRESHOLD && forall m <- ms :: m.window.loss == loss
    requires |ms| >= 2
    ensures forall i :: 0 <= i < |ms| && Verdicts(b.judge, Windows(ms))[i].Congested? ==> i < 2
    ensures DecideRun(b, ms).limit == Grown(DecideRun(b, ms[..2]).limit, b.ceiling,
                                            if loss <= MAX_BASELINE_LOSS then |ms| - 2 else 0)
  {
    ConstantLossIsLearned(loss, Windows(ms));
    RunsAgree(b, ms, 2);
    var b2, rest := DecideRun(b, ms[..2]), ms[2..];
    assert Windows(ms)[2..] == Windows(rest);
    RecoveryIsExact(b2, rest);
    AllGrow(rest, loss);
  }
}
