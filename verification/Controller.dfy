/**
 * The adaptive controller of src/controller.rs: one tick reads every resolver's counters, updates each
 * resolver's lane, adjusts the global limit and runs the attempt brake.
 *
 * The source keeps one vector per field; here each resolver's fields sit together in its `Lane`,
 * with the interval of the limiter that resolver owns.
 */
module Control {
  import opened Prelude
  import opened LossJudging
  import opened RateLimiting
  import G = GlobalBraking
  import L = ResolverLanes
  import A = AttemptBraking
  import R = AttemptBrakeRuns
  import P = AttemptPacing

  const ATTEMPT_MIN_RESOLVERS: nat := 8

  /** One resolver's counters and timeout as read by a tick. */
  datatype Stats = Stats(attempted: nat, answered: nat, empty: nat, timeout: nat, error: nat, requestTimeout: real)

  function Observed(s: Stats): L.Observation {
    L.Observation(s.attempted, s.timeout + s.error, s.answered + s.empty)
  }

  function LookAt(s: Stats, seconds: real, now: real): L.Look {
    L.Look(Observed(s), s.requestTimeout, seconds, now)
  }

  /** What a tick adds up over the pool. */
  datatype Totals = Totals(attempted: nat, lost: nat, responded: nat, longestTimeout: real, responsive: nat)

  /** One resolver's share. A resolver that never answered is no evidence about loss. */
  function Share(previous: L.Observation, s: Stats): Totals {
    var since := L.Since(previous, Observed(s));
    if Observed(s).responded > 0 then Totals(since.attempted, since.lost, since.responded, s.requestTimeout, 1)
    else Totals(since.attempted, 0, 0, s.requestTimeout, 0)
  }

  function AddTotals(a: Totals, b: Totals): Totals {
    Totals(a.attempted + b.attempted, a.lost + b.lost, a.responded + b.responded,
           Max(a.longestTimeout, b.longestTimeout), a.responsive + b.responsive)
  }

  /** The totals of the first `n` resolvers. */
  function TotalsOf(lanes: seq<L.Lane>, stats: seq<Stats>, n: nat): Totals
    requires n <= |lanes| == |stats|
  {
    if n == 0 then Totals(0, 0, 0, 0.0, 0)
    else AddTotals(TotalsOf(lanes, stats, n - 1), Share(lanes[n - 1].previous, stats[n - 1]))
  }

  /** Resolvers that never answered are no evidence: a pool of them, however large, shows no loss at all. */
  lemma {:induction false} DeadEntriesAreNoEvidence(lanes: seq<L.Lane>, stats: seq<Stats>, n: nat)
    requires n <= |lanes| == |stats|
    requires forall i :: 0 <= i < n ==> stats[i].answered == stats[i].empty == 0
    ensures var t := TotalsOf(lanes, stats, n); t.lost == t.responded == t.responsive == 0
  {
    if n > 0 { DeadEntriesAreNoEvidence(lanes, stats, n - 1); }
  }

  /** The global brake after a tick over the pool. */
  function GlobalAfter(b: G.Brake, lanes: seq<L.Lane>, stats: seq<Stats>, outcomes: G.Outcomes, seconds: real): G.Brake
    requires G.Settable(b) && |lanes| == |stats|
  {
    G.Adjusted(b, G.Tick(outcomes, TotalsOf(lanes, stats, |stats|).attempted, seconds))
  }

  /** No resolver has ever answered. */
  predicate AllDead(stats: seq<Stats>) { forall s <- stats :: s.answered == s.empty == 0 }

  lemma {:induction false} OnlyAttemptsAddUp(lanes: seq<L.Lane>, stats: seq<Stats>, others: seq<Stats>, n: nat)
    requires n <= |lanes| == |stats| == |others|
    requires forall i :: 0 <= i < n ==> stats[i].attempted == others[i].attempted
    ensures TotalsOf(lanes, stats, n).attempted == TotalsOf(lanes, others, n).attempted
  {
    if n > 0 { OnlyAttemptsAddUp(lanes, stats, others, n - 1); }
  }

  /**
   * What resolvers answered or lost never reaches the global brake: pools with the same attempts leave
   * it in the same state, and pools with any attempts at all agree on whether the rate is cut.
   */
  lemma {:induction false} GlobalRateIgnoresAnswers(
    b: G.Brake, lanes: seq<L.Lane>, stats: seq<Stats>, others: seq<Stats>, outcomes: G.Outcomes, seconds: real)
    requires G.Inv(b) && |lanes| == |stats| == |others|
    ensures (forall i :: 0 <= i < |stats| ==> stats[i].attempted == others[i].attempted) ==>
              GlobalAfter(b, lanes, stats, outcomes, seconds) == GlobalAfter(b, lanes, others, outcomes, seconds)
    ensures G.Cuts(b, GlobalAfter(b, lanes, stats, outcomes, seconds)) <==>
              G.Cuts(b, GlobalAfter(b, lanes, others, outcomes, seconds))
  {
    var t := G.Tick(outcomes, TotalsOf(lanes, stats, |stats|).attempted, seconds);
    G.AttemptsDoNotDecide(b, t, TotalsOf(lanes, others, |others|).attempted);
    if forall i :: 0 <= i < |stats| ==> stats[i].attempted == others[i].attempted {
      OnlyAttemptsAddUp(lanes, stats, others, |stats|);
    }
  }

  /**
   * Exactly when dead entries drag the global rate down: a pool in which nothing ever answered shows no
   * loss at all, yet the rate is cut by every tick that closes a window the judge blames on it.
   */
  lemma {:induction false} DeadEntriesCutTheGlobalRate(
    b: G.Brake, lanes: seq<L.Lane>, stats: seq<Stats>, outcomes: G.Outcomes, seconds: real)
    requires G.Inv(b) && |lanes| == |stats| && AllDead(stats)
    ensures TotalsOf(lanes, stats, |stats|).lost == TotalsOf(lanes, stats, |stats|).responsive == 0
    ensures var g := G.Gathered(b, G.Tick(outcomes, TotalsOf(lanes, stats, |stats|).attempted, seconds));
            G.Cuts(b, GlobalAfter(b, lanes, stats, outcomes, seconds)) <==>
              && g.completed >= G.MIN_AGGREGATE_SAMPLES && Blames(b.judge, G.Measured(g).window)
              && (b.limit.Some? ==> b.limit.value > G.MIN_RATE_QPS)
  {
    DeadEntriesAreNoEvidence(lanes, stats, |stats|);
    G.CutExactlyOnBlame(b, G.Tick(outcomes, TotalsOf(lanes, stats, |stats|).attempted, seconds));
  }

  /** Every resolver was tried once and never answered. */
  ghost predicate TriedOnceInVain(lanes: seq<L.Lane>, stats: seq<Stats>, n: nat)
    requires n <= |lanes| == |stats|
  {
    forall i :: 0 <= i < n ==>
      lanes[i].previous.attempted == 0 && stats[i].attempted == 1 && stats[i].answered == stats[i].empty == 0
  }

  lemma {:induction false} OneAttemptEach(lanes: seq<L.Lane>, stats: seq<Stats>, n: nat)
    requires n <= |lanes| == |stats| && TriedOnceInVain(lanes, stats, n)
    ensures TotalsOf(lanes, stats, n).attempted == n
  {
    if n > 0 {
      OneAttemptEach(lanes, stats, n - 1);
      assert Share(lanes[n - 1].previous, stats[n - 1]).attempted == 1;
    }
  }

  /** A hundred dead entries, each tried once within a second, bring a fresh ceiling of a thousand down to 85. */
  lemma {:induction false} HundredDeadEntries(lanes: seq<L.Lane>, stats: seq<Stats>)
    requires |lanes| == |stats| == 100 && TriedOnceInVain(lanes, stats, 100)
    ensures AllDead(stats)
    ensures GlobalAfter(G.Fresh(1000.0), lanes, stats, G.Outcomes(100, 100), 1.0).limit == Some(85.0)
  {
    var n := |stats|;
    OneAttemptEach(lanes, stats, n);
    EverythingFailed(G.Fresh(1000.0), G.Outcomes(n, n), n);
  }

  lemma {:induction false} EverythingFailed(b: G.Brake, outcomes: G.Outcomes, n: nat)
    requires b == G.Fresh(1000.0) && n == 100 && outcomes == G.Outcomes(n, n)
    ensures G.Adjusted(b, G.Tick(outcomes, n, 1.0)).limit == Some(85.0)
  {
    var t := G.Tick(outcomes, n, 1.0);
    assert G.Gathered(b, t) == G.Tally(n, n, n, 1.0);
    var m := G.Measured(G.Gathered(b, t));
    assert m.window.loss == 1.0 && m.observed == 100.0;
    assert G.VerdictOn(b, m).Congested?;
  }

  /** A lane moved by exactly one tick between reachable states. */
  ghost predicate Moved(before: L.Lane, after: L.Lane, s: Stats, seconds: real, now: real) {
    L.Inv(before) && L.Inv(after) && after == L.Ticked(before, LookAt(s, seconds, now))
  }

  /** The first `n` lanes each moved by one tick. */
  ghost predicate AllMoved(before: seq<L.Lane>, after: seq<L.Lane>, stats: seq<Stats>, seconds: real, now: real, n: nat)
    requires n <= |before| == |after| == |stats|
  {
    n > 0 ==>
      && Moved(before[n - 1], after[n - 1], stats[n - 1], seconds, now)
      && AllMoved(before, after, stats, seconds, now, n - 1)
  }

  lemma {:induction false} AllMovedEach(
    before: seq<L.Lane>, after: seq<L.Lane>, stats: seq<Stats>, seconds: real, now: real, n: nat, i: nat)
    requires i < n <= |before| == |after| == |stats| && AllMoved(before, after, stats, seconds, now, n)
    ensures Moved(before[i], after[i], stats[i], seconds, now)
  {
    if i < n - 1 { AllMovedEach(before, after, stats, seconds, now, n - 1, i); }
  }

  lemma {:induction false} LaterLanesDoNotMatter(
    before: seq<L.Lane>, after: seq<L.Lane>, other: seq<L.Lane>, stats: seq<Stats>, seconds: real, now: real, n: nat)
    requires n <= |before| == |after| == |other| == |stats| && AllMoved(before, after, stats, seconds, now, n)
    requires forall j :: 0 <= j < n ==> other[j] == after[j]
    ensures AllMoved(before, other, stats, seconds, now, n)
  {
    if n > 0 { LaterLanesDoNotMatter(before, after, other, stats, seconds, now, n - 1); }
  }

  /** What the attempt brake goes through in one tick. */
  function BrakeEvents(rateMoved: bool, t: Totals, seconds: real, now: real, waiting: nat): seq<R.Event> {
    (if rateMoved then [R.Resettle] else [])
    + [if t.responsive >= ATTEMPT_MIN_RESOLVERS
       then R.Tick(A.Look(seconds, t.attempted, t.lost, t.responded, t.longestTimeout, now, waiting))
       else R.Release]
  }

  /**
   * A lane is ticked by its own resolver's timeout and by the controller's clock: its window grows by the
   * length of the tick, is judged no sooner than a timeout, and its edge ages by the time of the tick.
   */
  lemma {:induction false} LaneKeepsTheControllersTime(l: L.Lane, s: Stats, seconds: real, now: real)
    requires L.Inv(l)
    ensures var k := LookAt(s, seconds, now); var l' := L.Ticked(l, k);
            && (l.windowSeconds + seconds < s.requestTimeout ==>
                  !L.Judges(l, k) && l'.windowSeconds == l.windowSeconds + seconds)
            && (l.edge.Some? && !L.Judges(l, k) ==> (l'.edge.None? <==> now - l.edge.value.seenAt >= 30.0))
            && (l.edge.None? && L.Judges(l, k) && L.VerdictAt(l, k).Congested? ==>
                  l'.edge.Some? && l'.edge.value.seenAt == now)
  {
    var k := LookAt(s, seconds, now);
    if L.Judges(l, k) {
      L.TickKeepsInv(l, k);
    } else {
      L.RelaxingTick(l, k);
      if l.windowSeconds + seconds < s.requestTimeout { OpenLaneWindow(l, k); }
    }
  }

  lemma {:induction false} OpenLaneWindow(l: L.Lane, k: L.Look)
    requires L.Inv(l) && l.windowSeconds + k.seconds < k.timeout
    ensures L.Ticked(l, k).windowSeconds == l.windowSeconds + k.seconds
  {
  }

  /** With fewer than eight responsive resolvers the attempt brake has no limit after a tick. */
  lemma {:induction false} FewResolversReleaseTheBrake(
    b: A.BrakeState, rateMoved: bool, t: Totals, seconds: real, now: real, waiting: nat)
    requires R.Inv(b) && seconds > 0.0 && t.responsive < 8
    ensures forall e <- BrakeEvents(rateMoved, t, seconds, now, waiting) :: R.Possible(e)
    ensures var b' := R.Run(b, BrakeEvents(rateMoved, t, seconds, now, waiting));
            && b'.limit.None? && b'.pacerRate.None? && b'.history == b.history && b'.probe == b.probe
            && b'.lost == b.lost && b'.responded == b.responded && b'.dispatched == b.dispatched && b'.seconds == b.seconds
            && (b.limit.None? && !rateMoved ==> b' == b)
  {
    BrakeTakesItsEvents(b, rateMoved, t, seconds, now, waiting);
  }

  lemma {:induction false} BrakeTakesItsEvents(
    b: A.BrakeState, rateMoved: bool, t: Totals, seconds: real, now: real, waiting: nat)
    requires R.Inv(b) && seconds > 0.0
    ensures forall e <- BrakeEvents(rateMoved, t, seconds, now, waiting) :: R.Possible(e)
    ensures var es := BrakeEvents(rateMoved, t, seconds, now, waiting);
            var b1 := if rateMoved then b.(settling := true) else b;
            es != [] && R.Inv(b1) && R.Run(b, es) == R.Stepped(b1, es[|es| - 1])
  {
    var es := BrakeEvents(rateMoved, t, seconds, now, waiting);
    var last := es[|es| - 1];
    var b1 := if rateMoved then b.(settling := true) else b;
    if rateMoved {
      R.StepKeepsInv(b, R.Resettle);
      assert es[0] == R.Resettle && es[1..] == [last];
      assert R.Run(b, es) == R.Run(b1, [last]);
    } else {
      assert es == [last];
    }
    R.StepKeepsInv(b1, last);
    assert R.Run(b1, [last]) == R.Stepped(b1, last) by { assert [last][1..] == []; }
  }

  /**
   * With eight or more the brake sees the totals: they join its window as attempts, losses and answers, in
   * that order, and a window during which the sending rate moved is not judged.
   */
  lemma {:induction false} BrakeSeesTheTotals(
    b: A.BrakeState, rateMoved: bool, t: Totals, seconds: real, now: real, waiting: nat, k: A.Look)
    requires R.Inv(b) && seconds > 0.0 && t.responsive >= 8
    requires k.seconds == seconds && k.now == now && k.waiting == waiting && k.longestTimeout == t.longestTimeout
    requires k.attempted == t.attempted && k.lost == t.lost && k.responded == t.responded
    ensures forall e <- BrakeEvents(rateMoved, t, seconds, now, waiting) :: R.Possible(e)
    ensures var es := BrakeEvents(rateMoved, t, seconds, now, waiting);
            && (!rateMoved ==> R.Run(b, es) == A.Ticked(b, k))
            && (rateMoved ==> R.Run(b, es) == A.Ticked(b.(settling := true), k))
            && (rateMoved ==> R.Run(b, es).history == if !A.IsIdle(k) && A.LongIdle(b, k) then [] else b.history)
  {
    BrakeTakesItsEvents(b, rateMoved, t, seconds, now, waiting);
    if rateMoved { SettlingKeepsTheRecord(b.(settling := true), k); }
  }

  lemma {:induction false} SettlingKeepsTheRecord(b: A.BrakeState, k: A.Look)
    requires R.Inv(b) && b.settling && k.seconds > 0.0
    ensures A.Ticked(b, k).history == if !A.IsIdle(k) && A.LongIdle(b, k) then [] else b.history
  {
    if !A.IsIdle(k) { R.FillKeepsInv(b, k); }
  }

  class AdaptiveController {
    const global: RateLimiter
    const globalCeiling: real
    var lanes: seq<L.Lane>
    var previousOutcomes: G.Outcomes
    var globalWindow: G.Tally
    const globalJudge: LossJudge
    var globalLimit: Option<real>
    const attempts: A.AttemptBrake

    ghost function Global(): G.Brake reads this, global, globalJudge {
      G.Brake(globalCeiling, previousOutcomes, globalWindow, globalJudge.State(), globalLimit, global.intervalNs)
    }

    /** Every brake is in a reachable state. */
    ghost predicate Valid() reads this, global, globalJudge, attempts, attempts.pacer {
      && (forall i :: 0 <= i < |lanes| ==> L.Inv(lanes[i]))
      && G.Inv(Global()) && globalWindow.failed <= globalWindow.completed
      && R.Inv(attempts.State())
    }

    constructor (resolvers: nat, global: RateLimiter, pacer: P.AttemptPacer, ceiling: real)
      requires ceiling > 0.0 && global.intervalNs == IntervalFor(ceiling) && pacer.rate.None?
      ensures Valid() && this.global == global && globalCeiling == ceiling
      ensures Global() == G.Fresh(ceiling) && attempts.State() == A.FRESH_BRAKE && attempts.pacer == pacer
      ensures lanes == seq(resolvers, _ => L.FRESH_LANE)
      ensures fresh(attempts) && fresh(globalJudge)
    {
      this.global := global;
      globalCeiling := ceiling;
      lanes := seq(resolvers, _ => L.FRESH_LANE);
      previousOutcomes, globalWindow, globalLimit := G.Outcomes(0, 0), G.EMPTY_TALLY, None;
      globalJudge := new LossJudge();
      attempts := new A.AttemptBrake(pacer);
      new;
      L.FreshLaneIsValid();
      G.FreshIsValid(ceiling);
    }

    /** Give one lane the chance to speed up: an edge over thirty seconds old goes, a younger one is approached. */
    method Relax(i: nat, now: real)
      requires i < |lanes| && L.Sound(lanes[i])
      modifies this`lanes
      ensures lanes == old(lanes)[i := L.Relaxed(old(lanes[i]), now)]
    {
      var lane := lanes[i];
      if lane.edge.None? {
        return;
      }
      if now - lane.edge.value.seenAt >= L.EDGE_TTL {
        lane := lane.(edge := None, judge := EndEpisode(lane.judge), interval := IntervalFor(UNLIMITED_QPS));
        lanes := lanes[i := lane];
        return;
      }
      var target := Max(G.RETREAT * lane.edge.value.qps, G.MIN_RATE_QPS);
      var current := RateOf(lane.interval);
      if current < target {
        lanes := lanes[i := lane.(interval := IntervalFor(Min(current * G.GROWTH, target)))];
      }
    }

    /** Gather one resolver's counters and, when its window is full, judge and pace it. */
    method TickLane(i: nat, s: Stats, seconds: real, now: real)
      requires i < |lanes| && L.Sound(lanes[i])
      modifies this`lanes
      ensures lanes == old(lanes)[i := L.Ticked(old(lanes[i]), LookAt(s, seconds, now))]
    {
      var current := L.Observation(s.attempted, s.timeout + s.error, s.answered + s.empty);
      var lane := lanes[i];
      var since := L.Since(lane.previous, current);
      lane := lane.(previous := current, window := L.Plus(lane.window, since),
                    windowSeconds := lane.windowSeconds + seconds);
      lanes := lanes[i := lane];
      if lane.windowSeconds < s.requestTimeout
         || (lane.window.attempted < L.MIN_SAMPLES
             && lane.windowSeconds < s.requestTimeout * L.MAX_WINDOW_TIMEOUTS) {
        Relax(i, now);
        return;
      }
      var window, windowSeconds := lane.window, lane.windowSeconds;
      lane := lane.(window := L.NO_OBSERVATION, windowSeconds := 0.0);
      lanes := lanes[i := lane];
      if window.attempted < L.MIN_SAMPLES {
        Relax(i, now);
        return;
      }
      var loss := Min(window.lost as real / window.attempted as real, 1.0);
      var delivered := window.responded as real / Max(windowSeconds, G.SHORTEST);
      var (judge, verdict) := Judged(lane.judge, Window(loss, delivered));
      lane := lane.(judge := judge);
      match verdict
      case Clear =>
        lanes := lanes[i := lane.(stepped := false)];
        Relax(i, now);
      case Baseline =>
        if lane.stepped && lane.undo.Some? {
          lane := lane.(edge := lane.undo.value.edge, interval := IntervalFor(lane.undo.value.rate), undo := None);
        }
        lanes := lanes[i := lane.(stepped := false)];
      case Congested(converging) =>
        Retreat(i, lane, window.attempted as real / Max(windowSeconds, G.SHORTEST), converging, now);
    }

    method Retreat(i: nat, lane: L.Lane, observedQps: real, converging: bool, now: real)
      requires i < |lanes| && L.Sound(lane)
      modifies this`lanes
      ensures lanes == old(lanes)[i := L.Retreat(lane, observedQps, converging, now)]
    {
      var rate := RateOf(lane.interval);
      var shaped := lane.stepped && observedQps >= G.RETREAT * rate;
      var edge := L.Edge(observedQps, now);
      if lane.edge.Some? {
        edge := if converging && shaped then L.Edge(Min(lane.edge.value.qps, rate), now) else lane.edge.value;
      }
      var target := Max(G.RETREAT * edge.qps, G.MIN_RATE_QPS);
      var stepped := target < rate * (1.0 + G.RETREAT) / 2.0;
      var undo := lane.undo;
      if stepped {
        undo := Some(L.Undo(lane.edge, rate));
      }
      lanes := lanes[i := lane.(edge := Some(edge), stepped := stepped, undo := undo, interval := IntervalFor(target))];
    }

    /** Gather finished queries and, when there are enough, judge them and move the global limit. */
    method AdjustGlobal(outcomes: G.Outcomes, attempted: nat, seconds: real)
      requires G.Settable(Global())
      modifies this`previousOutcomes, this`globalWindow, this`globalLimit, global, globalJudge
      ensures Global() == G.Adjusted(old(Global()), G.Tick(outcomes, attempted, seconds))
    {
      var previous := previousOutcomes;
      previousOutcomes := outcomes;
      globalWindow := G.Tally(
        globalWindow.completed + SatSub(outcomes.completed, previous.completed),
        globalWindow.failed + SatSub(outcomes.failed, previous.failed),
        globalWindow.dispatched + attempted,
        globalWindow.seconds + seconds);
      if globalWindow.completed < G.MIN_AGGREGATE_SAMPLES {
        return;
      }
      var closed := globalWindow;
      globalWindow := G.EMPTY_TALLY;
      MoveGlobal(closed);
    }

    method MoveGlobal(closed: G.Tally)
      requires G.Settable(Global()) && closed.completed > 0
      modifies this`globalLimit, global, globalJudge
      ensures Global() == G.Decide(old(Global()), G.Measured(closed))
    {
      var seconds := Max(closed.seconds, G.SHORTEST);
      var loss := closed.failed as real / closed.completed as real;
      var delivered := SatSub(closed.completed, closed.failed) as real / seconds;
      var verdict := globalJudge.Judge(loss, delivered);
      if verdict.Congested? {
        var basis := UnwrapOr(globalLimit, closed.dispatched as real / seconds);
        var target := Min(Max(basis * G.RETREAT, G.MIN_RATE_QPS), globalCeiling);
        globalLimit := Some(target);
        global.SetRate(target);
        return;
      }
      if loss > G.MAX_BASELINE_LOSS || globalLimit.None? {
        return;
      }
      var grown := globalLimit.value * G.GROWTH;
      if grown >= globalCeiling {
        globalLimit := None;
        global.SetRate(globalCeiling);
      } else {
        globalLimit := Some(grown);
        global.SetRate(grown);
      }
    }

    method Accumulate(t: Totals, previous: L.Observation, s: Stats) returns (t': Totals)
      ensures t' == AddTotals(t, Share(previous, s))
    {
      t' := t;
      var since := L.Since(previous, Observed(s));
      t' := t'.(attempted := t'.attempted + since.attempted);
      if s.answered + s.empty > 0 {
        t' := t'.(responsive := t'.responsive + 1);
        t' := t'.(lost := t'.lost + since.lost);
        t' := t'.(responded := t'.responded + since.responded);
      }
      t' := t'.(longestTimeout := Max(t'.longestTimeout, s.requestTimeout));
    }

    /** Read the pool, update every lane, and add up what the other brakes need. */
    method TickLanes(stats: seq<Stats>, seconds: real, now: real) returns (t: Totals)
      requires |stats| == |lanes| && forall i :: 0 <= i < |lanes| ==> L.Inv(lanes[i])
      modifies this`lanes
      ensures |lanes| == |old(lanes)| && t == TotalsOf(old(lanes), stats, |stats|)
      ensures AllMoved(old(lanes), lanes, stats, seconds, now, |stats|)
    {
      t := Totals(0, 0, 0, 0.0, 0);
      for i := 0 to |stats|
        invariant |lanes| == |old(lanes)| == |stats|
        invariant t == TotalsOf(old(lanes), stats, i)
        invariant forall j :: i <= j < |lanes| ==> lanes[j] == old(lanes)[j]
        invariant AllMoved(old(lanes), lanes, stats, seconds, now, i)
      {
        t := Accumulate(t, lanes[i].previous, stats[i]);
        ghost var before := lanes;
        MoveLane(i, stats[i], seconds, now);
        LaterLanesDoNotMatter(old(lanes), before, lanes, stats, seconds, now, i);
      }
    }

    /** One lane moves by one tick and stays valid; the others stay where they are. */
    method MoveLane(i: nat, s: Stats, seconds: real, now: real)
      requires i < |lanes| && L.Inv(lanes[i])
      modifies this`lanes
      ensures |lanes| == |old(lanes)| && Moved(old(lanes)[i], lanes[i], s, seconds, now)
      ensures forall j :: 0 <= j < |lanes| && j != i ==> lanes[j] == old(lanes)[j]
    {
      L.TickKeepsInv(lanes[i], LookAt(s, seconds, now));
      TickLane(i, s, seconds, now);
    }

    /** The attempt brake's share of a tick. */
    method TickAttempts(rateMoved: bool, t: Totals, seconds: real, now: real)
      requires R.Inv(attempts.State()) && seconds > 0.0
      modifies attempts, attempts.pacer
      ensures var es := BrakeEvents(rateMoved, t, seconds, now, old(attempts.pacer.waiting));
              (forall e <- es :: R.Possible(e)) && attempts.State() == R.Run(old(attempts.State()), es)
    {
      ghost var es := BrakeEvents(rateMoved, t, seconds, now, attempts.pacer.waiting);
      ghost var b := attempts.State();
      if rateMoved {
        attempts.settling := true;
        assert es == [R.Resettle] + es[1..];
        R.StepKeepsInv(b, R.Resettle);
      }
      ghost var b' := attempts.State();
      ghost var last := es[|es| - 1];
      R.StepKeepsInv(b', last);
      assert R.Run(b', [last]) == R.Stepped(b', last) by { assert [last][1..] == []; }
      assert R.Run(b, es) == R.Stepped(b', last);
      if t.responsive >= ATTEMPT_MIN_RESOLVERS {
        attempts.Tick(seconds, t.attempted, t.lost, t.responded, t.longestTimeout, now);
      } else if attempts.limit.Some? {
        attempts.SetLimit(None);
      }
    }

    /** Recompute every limit from what happened since the previous tick. */
    method Tick(stats: seq<Stats>, outcomes: G.Outcomes, elapsed: real, now: real)
      requires Valid() && |stats| == |lanes|
      requires G.Counts(previousOutcomes, G.Tick(outcomes, 0, elapsed))
      modifies this, global, globalJudge, attempts, attempts.pacer
      ensures Valid() && |lanes| == |old(lanes)|
      ensures forall i :: 0 <= i < |lanes| ==>
                lanes[i] == L.Ticked(old(lanes)[i], LookAt(stats[i], Max(elapsed, G.SHORTEST), now))
      ensures var seconds, t := Max(elapsed, G.SHORTEST), TotalsOf(old(lanes), stats, |stats|);
              && Global() == G.Adjusted(old(Global()), G.Tick(outcomes, t.attempted, seconds))
              && attempts.State() == R.Run(old(attempts.State()),
                   BrakeEvents(global.intervalNs != old(global.intervalNs), t, seconds, now, old(attempts.pacer.waiting)))
    {
      var seconds := Max(elapsed, G.SHORTEST);
      var t := TickLanes(stats, seconds, now);
      forall i | 0 <= i < |lanes| ensures Moved(old(lanes)[i], lanes[i], stats[i], seconds, now) {
        AllMovedEach(old(lanes), lanes, stats, seconds, now, |stats|, i);
      }
      assert global.Valid();
      var globalRate := global.Rate();
      ghost var tick := G.Tick(outcomes, t.attempted, seconds);
      G.AdjustIsSafe(Global(), tick);
      AdjustGlobal(outcomes, t.attempted, seconds);
      assert G.Inv(Global());
      TickAttempts(global.Rate() != globalRate, t, seconds, now);
    }
  }
}
