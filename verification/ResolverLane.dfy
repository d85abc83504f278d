/**
 * Per-resolver control of src/controller.rs: one resolver's window, judge, edge, undo record and
 * limiter interval, and what one controller tick does to them.
 */
module ResolverLanes {
  import opened Prelude
  import opened LossJudging
  import opened RateLimiting
  import opened GlobalBraking

  const MIN_SAMPLES: nat := 100
  const MAX_WINDOW_TIMEOUTS: real := 5.0
  const EDGE_TTL: real := 30.0

  datatype Observation = Observation(attempted: nat, lost: nat, responded: nat)

  const NO_OBSERVATION := Observation(0, 0, 0)

  /** The rate a resolver was last found to lose at, with the time of that finding. */
  datatype Edge = Edge(qps: real, seenAt: real)

  /** What a step down replaced, kept in case the step is taken back. */
  datatype Undo = Undo(edge: Option<Edge>, rate: real)

  /** Everything the controller keeps for one resolver, and the interval of that resolver's limiter. */
  datatype Lane = Lane(
    previous: Observation,
    window: Observation,
    windowSeconds: real,
    judge: JudgeState,
    edge: Option<Edge>,
    stepped: bool,
    undo: Option<Undo>,
    interval: nat)

  const FRESH_LANE := Lane(NO_OBSERVATION, NO_OBSERVATION, 0.0, FRESH_JUDGE, None, false, None, 1)

  /** One tick as a lane sees it: the resolver's counters, its timeout, the tick's length and its time. */
  datatype Look = Look(current: Observation, timeout: real, seconds: real, now: real)

  /** The counts since the previous tick. */
  function Since(previous: Observation, current: Observation): Observation {
    Observation(
      SatSub(current.attempted, previous.attempted),
      SatSub(current.lost, previous.lost),
      SatSub(current.responded, previous.responded))
  }

  function Plus(a: Observation, b: Observation): Observation {
    Observation(a.attempted + b.attempted, a.lost + b.lost, a.responded + b.responded)
  }

  /** Where pacing settles below an edge. */
  function Target(edge: Edge): real { Max(RETREAT * edge.qps, MIN_RATE_QPS) }

  /** Whether the edge has outlived its welcome. */
  predicate Expires(l: Lane, now: real) {
    l.edge.Some? && now - l.edge.value.seenAt >= EDGE_TTL
  }

  function Relaxed(l: Lane, now: real): Lane
    requires l.interval >= 1
  {
    if l.edge.None? then l
    else if Expires(l, now) then
      l.(edge := None, judge := EndEpisode(l.judge), interval := IntervalFor(UNLIMITED_QPS))
    else
      var target, current := Target(l.edge.value), RateOf(l.interval);
      if current < target then l.(interval := IntervalFor(Min(current * GROWTH, target))) else l
  }

  /** The lane with one tick's counts added to its open window. */
  function Filled(l: Lane, k: Look): Lane {
    l.(previous := k.current,
       window := Plus(l.window, Since(l.previous, k.current)),
       windowSeconds := l.windowSeconds + k.seconds)
  }

  /** The window is still too short, or too empty and not yet old enough to give up on. */
  predicate Gathering(l: Lane, timeout: real) {
    l.windowSeconds < timeout
    || (l.window.attempted < MIN_SAMPLES && l.windowSeconds < timeout * MAX_WINDOW_TIMEOUTS)
  }

  /** Whether this tick closes a window full enough to judge. */
  predicate Judges(l: Lane, k: Look) {
    !Gathering(Filled(l, k), k.timeout) && Filled(l, k).window.attempted >= MIN_SAMPLES
  }

  /** A full window as the judge sees it; the loss is clamped. */
  function View(o: Observation, seconds: real): Window
    requires o.attempted > 0
  {
    Window(Min(o.lost as real / o.attempted as real, 1.0), o.responded as real / Max(seconds, SHORTEST))
  }

  function ObservedRate(o: Observation, seconds: real): real {
    o.attempted as real / Max(seconds, SHORTEST)
  }

  function VerdictAt(l: Lane, k: Look): Verdict
    requires Judges(l, k)
  {
    Judged(l.judge, View(Filled(l, k).window, Filled(l, k).windowSeconds)).1
  }

  /** A Baseline puts back what the last step replaced. */
  function Undone(l: Lane): Lane
    requires l.undo.Some? ==> l.undo.value.rate > 0.0
  {
    if l.stepped && l.undo.Some? then
      l.(stepped := false, undo := None, edge := l.undo.value.edge, interval := IntervalFor(l.undo.value.rate))
    else
      l.(stepped := false)
  }

  /** The edge a congested window leaves. */
  function NextEdge(l: Lane, observed: real, converging: bool, now: real): Edge
    requires l.interval >= 1
  {
    if l.edge.None? then Edge(observed, now)
    else if converging && l.stepped && observed >= RETREAT * RateOf(l.interval) then
      Edge(Min(l.edge.value.qps, RateOf(l.interval)), now)
    else l.edge.value
  }

  /** A retreat below the edge, remembering what it replaced when it is a real step. */
  function Retreat(l: Lane, observed: real, converging: bool, now: real): Lane
    requires l.interval >= 1
  {
    var rate := RateOf(l.interval);
    var edge := NextEdge(l, observed, converging, now);
    var stepped := Target(edge) < rate * (1.0 + RETREAT) / 2.0;
    l.(edge := Some(edge),
       stepped := stepped,
       undo := if stepped then Some(Undo(l.edge, rate)) else l.undo,
       interval := IntervalFor(Target(edge)))
  }

  /** What one controller tick does to one resolver. */
  function Ticked(l: Lane, k: Look): Lane
    requires Sound(l)
  {
    var filled := Filled(l, k);
    if Gathering(filled, k.timeout) then
      Relaxed(filled, k.now)
    else
      var closed := filled.(window := NO_OBSERVATION, windowSeconds := 0.0);
      if filled.window.attempted < MIN_SAMPLES then
        Relaxed(closed, k.now)
      else
        var (judge, verdict) := Judged(l.judge, View(filled.window, filled.windowSeconds));
        var judged := closed.(judge := judge);
        match verdict
        case Clear => Relaxed(judged.(stepped := false), k.now)
        case Baseline => Undone(judged)
        case Congested(converging) =>
          Retreat(judged, ObservedRate(filled.window, filled.windowSeconds), converging, k.now)
  }

  // ---------------------------------------------------------------- every reachable state

  /** Rates on record are rates a limiter accepts. */
  predicate Sound(l: Lane) {
    l.interval >= 1 && (l.undo.Some? ==> l.undo.value.rate > 0.0)
  }

  /** The interval that goes with an edge. */
  function PaceOf(edge: Option<Edge>): nat {
    if edge.None? then IntervalFor(UNLIMITED_QPS) else IntervalFor(Target(edge.value))
  }

  /** A pending undo names an edge and a rate that belong together. */
  ghost predicate Undoable(l: Lane) {
    l.undo.Some? && l.undo.value.rate > 0.0 && IntervalFor(l.undo.value.rate) == PaceOf(l.undo.value.edge)
  }

  ghost predicate Inv(l: Lane) {
    && Sound(l)
    && l.interval == PaceOf(l.edge)
    && JudgeInv(l.judge)
    && (l.stepped && l.judge.best.Some? ==> Undoable(l))
  }

  lemma {:induction false} FreshLaneIsValid()
    ensures Inv(FRESH_LANE)
  {
    assert NANOS / UNLIMITED_QPS == 1.0;
  }

  /** Relaxing a lane never moves its pacing unless it expires the edge. */
  lemma {:induction false} RelaxingIsIdle(l: Lane, now: real)
    requires Sound(l) && l.interval == PaceOf(l.edge)
    ensures Relaxed(l, now) ==
            if Expires(l, now) then l.(edge := None, judge := EndEpisode(l.judge), interval := PaceOf(None)) else l
  {
    if l.edge.Some? && !Expires(l, now) {
      ClimbToOwnRateIsIdle(Target(l.edge.value));
    }
  }

  /** Relaxing on any interval: a pace below the edge's target climbs by a quarter at most, and never past the target. */
  lemma {:induction false} RelaxingClimbs(l: Lane, now: real) returns (next: real)
    requires Sound(l) && l.edge.Some? && !Expires(l, now)
    ensures next > 0.0 && Relaxed(l, now).interval == (if next == RateOf(l.interval) then l.interval else IntervalFor(next))
    ensures Relaxed(l, now) == l.(interval := Relaxed(l, now).interval)
    ensures var rate, target := RateOf(l.interval), Max(0.85 * l.edge.value.qps, 1.0);
            && (rate >= target ==> next == rate)
            && (rate < target ==> rate < next <= target && (next == target <= 1.25 * rate || next == 1.25 * rate))
  {
    var rate, target := RateOf(l.interval), Target(l.edge.value);
    next := if rate < target then Min(rate * GROWTH, target) else rate;
  }

  /** A window that is not Congested leaves no step pending, whatever was pending before. */
  lemma {:induction false} OnlyCongestionLeavesAStep(l: Lane, k: Look)
    requires Sound(l) && Judges(l, k) && !VerdictAt(l, k).Congested?
    ensures !Ticked(l, k).stepped
    ensures VerdictAt(l, k).Baseline? && l.stepped && l.undo.Some? ==> Ticked(l, k).undo.None?
    ensures VerdictAt(l, k).Clear? ==> Ticked(l, k).undo == l.undo
  {
  }

  /**
   * Where a congested window puts the edge: at the rate observed if there was none; at the resolver's own
   * rate, if lower, exactly when the retreats so far work and this window ran at 0.85 of that rate or more
   * after a real step; and where it was otherwise. What a step replaced is remembered until the next step.
   */
  lemma {:induction false} EdgeFollowsShapedWindows(l: Lane, observed: real, converging: bool, now: real)
    requires Sound(l)
    ensures var r, rate := Retreat(l, observed, converging, now), RateOf(l.interval);
            && (l.edge.None? ==> r.edge == Some(Edge(observed, now)))
            && (l.edge.Some? && converging && l.stepped && observed >= 0.85 * rate ==>
                  && r.edge.Some? && r.edge.value.seenAt == now
                  && r.edge.value.qps == (if rate < l.edge.value.qps then rate else l.edge.value.qps))
            && (l.edge.Some? && !(converging && l.stepped && observed >= 0.85 * rate) ==> r.edge == l.edge)
            && r.edge.Some? && (r.stepped <==> Max(0.85 * r.edge.value.qps, 1.0) < 0.925 * rate)
            && r.undo == (if r.stepped then Some(Undo(l.edge, rate)) else l.undo)
  {
  }

  lemma {:induction false} ViewIsRatio(o: Observation, seconds: real)
    requires o.attempted > 0
    ensures IsRatio(View(o, seconds))
  {
  }

  lemma {:induction false} RetreatKeepsPace(l: Lane, observed: real, converging: bool, now: real)
    requires Sound(l) && l.interval == PaceOf(l.edge)
    ensures var r := Retreat(l, observed, converging, now);
            && Sound(r) && r.interval == PaceOf(r.edge)
            && (r.stepped ==> r.undo == Some(Undo(l.edge, RateOf(l.interval))) && Undoable(r))
  {
    RateRoundTrip(l.interval);
  }

  /** Pacing is a function of the edge, tick after tick. */
  lemma {:induction false} TickKeepsInv(l: Lane, k: Look)
    requires Inv(l)
    ensures Inv(Ticked(l, k))
  {
    var filled := Filled(l, k);
    var closed := filled.(window := NO_OBSERVATION, windowSeconds := 0.0);
    RelaxingIsIdle(filled, k.now);
    RelaxingIsIdle(closed, k.now);
    if Judges(l, k) {
      var w := View(filled.window, filled.windowSeconds);
      ViewIsRatio(filled.window, filled.windowSeconds);
      JudgeKeepsInv(l.judge, w);
      var (judge, verdict) := Judged(l.judge, w);
      var judged := closed.(judge := judge);
      match verdict
      case Clear => RelaxingIsIdle(judged.(stepped := false), k.now);
      case Baseline =>
      case Congested(converging) =>
        RetreatKeepsPace(judged, ObservedRate(filled.window, filled.windowSeconds), converging, k.now);
    }
  }

  lemma {:induction false} RetreatNeverSpeedsUp(l: Lane, observed: real, converging: bool, now: real)
    requires Sound(l) && l.interval == PaceOf(l.edge)
    ensures Retreat(l, observed, converging, now).interval >= l.interval
  {
    FreshLaneIsValid();
    if l.edge.Some? {
      IntervalIsAntitone(Target(NextEdge(l, observed, converging, now)), Target(l.edge.value));
    }
  }

  /** Only an expired edge or an undone retreat ever lets a resolver go faster. */
  lemma {:induction false} OnlyExpiryOrUndoSpeedsUp(l: Lane, k: Look)
    requires Inv(l) && Ticked(l, k).interval < l.interval
    ensures Expires(l, k.now) || (Judges(l, k) && VerdictAt(l, k).Baseline? && l.stepped)
  {
    var filled := Filled(l, k);
    var closed := filled.(window := NO_OBSERVATION, windowSeconds := 0.0);
    RelaxingIsIdle(filled, k.now);
    RelaxingIsIdle(closed, k.now);
    if Judges(l, k) {
      var (judge, verdict) := Judged(l.judge, View(filled.window, filled.windowSeconds));
      var judged := closed.(judge := judge);
      match verdict
      case Clear => RelaxingIsIdle(judged.(stepped := false), k.now);
      case Baseline =>
      case Congested(converging) =>
        RetreatNeverSpeedsUp(judged, ObservedRate(filled.window, filled.windowSeconds), converging, k.now);
    }
  }

  /** The lane after a run of ticks. */
  ghost function Run(l: Lane, ks: seq<Look>): (l': Lane)
    requires Inv(l)
    ensures Inv(l')
    decreases ks
  {
    if ks == [] then l
    else
      TickKeepsInv(l, ks[0]);
      Run(Ticked(l, ks[0]), ks[1..])
  }

  /** In every reachable state a resolver is paced exactly at its edge's target, or not at all. */
  lemma {:induction false} PacingIsAFunctionOfTheEdge(ks: seq<Look>)
    ensures Inv(FRESH_LANE)
    ensures Run(FRESH_LANE, ks).interval == PaceOf(Run(FRESH_LANE, ks).edge)
  {
    FreshLaneIsValid();
  }

  // ---------------------------------------------------------------- undoing a retreat

  /** No tick of the run closes a window: every one only relaxes. */
  ghost predicate OnlyRelaxes(l: Lane, ks: seq<Look>)
    requires Inv(l)
    decreases ks
  {
    ks != [] ==>
      && !Judges(l, ks[0])
      && (TickKeepsInv(l, ks[0]); OnlyRelaxes(Ticked(l, ks[0]), ks[1..]))
  }

  /** Some tick of a relaxing run expires the edge. */
  ghost predicate Expired(l: Lane, ks: seq<Look>)
    requires Inv(l)
    decreases ks
  {
    ks != [] && (Expires(l, ks[0].now) || (TickKeepsInv(l, ks[0]); Expired(Ticked(l, ks[0]), ks[1..])))
  }

  /** A relaxing tick leaves the judge, edge and undo record alone unless it expires the edge. */
  lemma {:induction false} RelaxingTick(l: Lane, k: Look)
    requires Inv(l) && !Judges(l, k)
    ensures var l' := Ticked(l, k);
            && l'.stepped == l.stepped && l'.undo == l.undo
            && (if Expires(l, k.now) then l'.edge.None? && l'.judge == EndEpisode(l.judge)
                else l'.edge == l.edge && l'.judge == l.judge && l'.interval == l.interval)
  {
    var filled := Filled(l, k);
    RelaxingIsIdle(filled, k.now);
    RelaxingIsIdle(filled.(window := NO_OBSERVATION, windowSeconds := 0.0), k.now);
  }

  /** Any number of relaxing ticks keeps the undo record, and keeps the episode unless the edge expires. */
  lemma {:induction false} RelaxingRun(l: Lane, ks: seq<Look>)
    requires Inv(l) && OnlyRelaxes(l, ks)
    ensures var l' := Run(l, ks);
            && l'.stepped == l.stepped && l'.undo == l.undo
            && (l.judge.best.None? ==> l'.judge.best.None?)
            && (Expired(l, ks) ==> l'.judge.best.None?)
            && (!Expired(l, ks) ==> l'.judge == l.judge && l'.edge == l.edge && l'.interval == l.interval)
    decreases ks
  {
    if ks != [] {
      RelaxingTick(l, ks[0]);
      TickKeepsInv(l, ks[0]);
      RelaxingRun(Ticked(l, ks[0]), ks[1..]);
    }
  }

  /**
   * A Baseline undoes the retreat before it: whatever relaxing ticks came between, the edge and the
   * limiter interval are exactly those from before that retreat, and the edge cannot have expired on the way.
   */
  lemma {:induction false} BaselineRestoresTheEdge(l: Lane, retreat: Look, between: seq<Look>, k: Look)
    requires Inv(l)
    requires Judges(l, retreat) && VerdictAt(l, retreat).Congested? && Ticked(l, retreat).stepped
    requires Inv(Ticked(l, retreat)) && OnlyRelaxes(Ticked(l, retreat), between)
    requires Judges(Run(Ticked(l, retreat), between), k)
    requires VerdictAt(Run(Ticked(l, retreat), between), k).Baseline?
    ensures var l' := Ticked(Run(Ticked(l, retreat), between), k);
            l'.edge == l.edge && l'.interval == l.interval && !l'.stepped
    ensures !Expired(Ticked(l, retreat), between)
  {
    var stepped := Ticked(l, retreat);
    var filled := Filled(l, retreat);
    RateRoundTrip(l.interval);
    assert stepped.undo == Some(Undo(l.edge, RateOf(l.interval)));
    RelaxingRun(stepped, between);
    var before := Run(stepped, between);
    var view := View(Filled(before, k).window, Filled(before, k).windowSeconds);
    ViewIsRatio(Filled(before, k).window, Filled(before, k).windowSeconds);
    JudgeKeepsInv(before.judge, view);
  }

  /** An edge that expires while nothing is judged makes a Baseline impossible at the next judgement. */
  lemma {:induction false} ExpiryForbidsBaseline(l: Lane, between: seq<Look>, k: Look)
    requires Inv(l) && OnlyRelaxes(l, between) && Expired(l, between) && Judges(Run(l, between), k)
    ensures !VerdictAt(Run(l, between), k).Baseline?
  {
    RelaxingRun(l, between);
    var before := Run(l, between);
    ViewIsRatio(Filled(before, k).window, Filled(before, k).windowSeconds);
    JudgeKeepsInv(before.judge, View(Filled(before, k).window, Filled(before, k).windowSeconds));
  }

  lemma {:induction false} RunOneMore(l: Lane, ks: seq<Look>, k: Look)
    requires Inv(l)
    ensures Run(l, ks + [k]) == Ticked(Run(l, ks), k)
    decreases ks
  {
    TickKeepsInv(Run(l, ks), k);
    if ks == [] {
      assert (ks + [k])[1..] == [];
    } else {
      assert (ks + [k])[1..] == ks[1..] + [k];
      TickKeepsInv(l, ks[0]);
      RunOneMore(Ticked(l, ks[0]), ks[1..], k);
    }
  }

  lemma {:induction false} RelaxesOneMore(l: Lane, ks: seq<Look>, k: Look)
    requires Inv(l) && OnlyRelaxes(l, ks) && !Judges(Run(l, ks), k)
    ensures OnlyRelaxes(l, ks + [k])
    decreases ks
  {
    TickKeepsInv(Run(l, ks), k);
    if ks == [] {
      assert (ks + [k])[1..] == [];
    } else {
      assert (ks + [k])[1..] == ks[1..] + [k];
      TickKeepsInv(l, ks[0]);
      RelaxesOneMore(Ticked(l, ks[0]), ks[1..], k);
    }
  }

  /** The run leads from one lane to another without judging anything. */
  ghost predicate RelaxesTo(l: Lane, ks: seq<Look>, end: Lane) {
    Inv(l) && OnlyRelaxes(l, ks) && Run(l, ks) == end
  }

  lemma {:induction false} RelaxesFurther(l: Lane, ks: seq<Look>, end: Lane, k: Look, end': Lane)
    requires RelaxesTo(l, ks, end) && !Judges(end, k) && Inv(end) && end' == Ticked(end, k)
    ensures RelaxesTo(l, ks + [k], end')
  {
    RunOneMore(l, ks, k);
    RelaxesOneMore(l, ks, k);
  }

  /** A tick that retreats from congestion. */
  ghost predicate RetreatsAt(l: Lane, k: Look) {
    Inv(l) && Judges(l, k) && VerdictAt(l, k).Congested?
  }

  /** Window `i` of the run was the congested one that the rest only relaxed from. */
  ghost predicate LastRetreat(ks: seq<Look>, i: nat)
    requires i < |ks| && Inv(FRESH_LANE)
  {
    var before := Run(FRESH_LANE, ks[..i]);
    RetreatsAt(before, ks[i]) && RelaxesTo(Ticked(before, ks[i]), ks[i + 1..], Run(FRESH_LANE, ks))
  }

  /** The last tick was judged and left the episode open: it was itself the retreat. */
  lemma {:induction false} RetreatJustNow(front: seq<Look>, k: Look)
    requires Inv(FRESH_LANE) && Judges(Run(FRESH_LANE, front), k)
    requires Run(FRESH_LANE, front + [k]).judge.best.Some?
    ensures LastRetreat(front + [k], |front|)
  {
    var ks, before := front + [k], Run(FRESH_LANE, front);
    assert ks[..|front|] == front && ks[|front| + 1..] == [];
    RunOneMore(FRESH_LANE, front, k);
    TickKeepsInv(before, k);
    OpenEpisodeMeansCongested(before, k);
  }

  lemma {:induction false} OpenEpisodeMeansCongested(l: Lane, k: Look)
    requires Inv(l) && Judges(l, k) && Ticked(l, k).judge.best.Some?
    ensures VerdictAt(l, k).Congested?
  {
  }

  /** A last tick that only relaxed leaves the retreat where it was. */
  lemma {:induction false} RetreatStillLast(front: seq<Look>, k: Look, i: nat)
    requires Inv(FRESH_LANE) && i < |front| && LastRetreat(front, i) && !Judges(Run(FRESH_LANE, front), k)
    ensures LastRetreat(front + [k], i)
  {
    var ks := front + [k];
    assert ks[..i] == front[..i] && ks[i + 1..] == front[i + 1..] + [k];
    RunOneMore(FRESH_LANE, front, k);
    var end, end' := Run(FRESH_LANE, front), Run(FRESH_LANE, ks);
    RelaxesFurther(Ticked(Run(FRESH_LANE, front[..i]), front[i]), front[i + 1..], end, k, end');
  }

  /** An open episode goes back to a retreat with nothing judged since. */
  lemma {:induction false} OpenEpisodeHasARetreat(ks: seq<Look>) returns (i: nat)
    requires Inv(FRESH_LANE) && Run(FRESH_LANE, ks).judge.best.Some?
    ensures i < |ks| && LastRetreat(ks, i)
  {
    var n := |ks| - 1;
    var front, k := ks[..n], ks[n];
    assert ks == front + [k];
    if Judges(Run(FRESH_LANE, front), k) {
      RetreatJustNow(front, k);
      i := n;
    } else {
      RunOneMore(FRESH_LANE, front, k);
      RelaxingTick(Run(FRESH_LANE, front), k);
      i := OpenEpisodeHasARetreat(front);
      RetreatStillLast(front, k, i);
    }
  }

  /**
   * In every run from a fresh controller, a Baseline with a step to undo leaves exactly the edge and
   * the limiter interval from before the last retreat, with nothing judged and nothing expired since.
   */
  lemma {:induction false} EveryBaselineRestores(ks: seq<Look>, k: Look) returns (i: nat)
    requires Inv(FRESH_LANE)
    requires Judges(Run(FRESH_LANE, ks), k) && VerdictAt(Run(FRESH_LANE, ks), k).Baseline?
    ensures i < |ks| && LastRetreat(ks, i)
    ensures !Expired(Ticked(Run(FRESH_LANE, ks[..i]), ks[i]), ks[i + 1..])
    ensures Run(FRESH_LANE, ks).stepped ==>
              var restored, earlier := Ticked(Run(FRESH_LANE, ks), k), Run(FRESH_LANE, ks[..i]);
              restored.edge == earlier.edge && restored.interval == earlier.interval
  {
    var before := Run(FRESH_LANE, ks);
    ViewIsRatio(Filled(before, k).window, Filled(before, k).windowSeconds);
    JudgeKeepsInv(before.judge, View(Filled(before, k).window, Filled(before, k).windowSeconds));
    i := OpenEpisodeHasARetreat(ks);
    var earlier := Run(FRESH_LANE, ks[..i]);
    RelaxingRun(Ticked(earlier, ks[i]), ks[i + 1..]);
    if before.stepped {
      BaselineRestoresTheEdge(earlier, ks[i], ks[i + 1..], k);
    }
  }
}
