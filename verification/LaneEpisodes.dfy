/**
 * A resolver's lane over whole episodes: its judge is fed by judged windows and cut short by expiring
 * edges, so what holds of a judge alone holds of a lane up to its expiries.
 */
module LaneEpisodes {
  import opened Prelude
  import opened LossJudging
  import opened RateLimiting
  import opened ResolverLanes
  import G = GlobalBraking

  /** The window a tick judges. */
  function ViewAt(l: Lane, k: Look): Window
    requires Judges(l, k)
  {
    View(Filled(l, k).window, Filled(l, k).windowSeconds)
  }

  /** An edge that runs out between judgements and takes an open episode with it. */
  predicate CutsShort(l: Lane, k: Look) {
    !Judges(l, k) && Expires(l, k.now) && l.judge.best.Some?
  }

  /** The windows a run judges, in order. */
  ghost function Views(l: Lane, ks: seq<Look>): seq<Window>
    requires Inv(l)
    decreases ks
  {
    if ks == [] then []
    else
      TickKeepsInv(l, ks[0]);
      (if Judges(l, ks[0]) then [ViewAt(l, ks[0])] else []) + Views(Ticked(l, ks[0]), ks[1..])
  }

  /** The verdicts of a run, in order. */
  ghost function LaneVerdicts(l: Lane, ks: seq<Look>): (vs: seq<Verdict>)
    requires Inv(l)
    decreases ks
  {
    if ks == [] then []
    else
      TickKeepsInv(l, ks[0]);
      (if Judges(l, ks[0]) then [VerdictAt(l, ks[0])] else []) + LaneVerdicts(Ticked(l, ks[0]), ks[1..])
  }

  /** How many episodes of a run were cut short. */
  ghost function Lapses(l: Lane, ks: seq<Look>): nat
    requires Inv(l)
    decreases ks
  {
    if ks == [] then 0
    else
      TickKeepsInv(l, ks[0]);
      (if CutsShort(l, ks[0]) then 1 else 0) + Lapses(Ticked(l, ks[0]), ks[1..])
  }

  /** A tick feeds the judge the window it closes; the only other thing that moves a judge is a lapse. */
  lemma {:induction false} TickMovesJudge(l: Lane, k: Look)
    requires Inv(l)
    ensures Ticked(l, k).judge ==
            if Judges(l, k) then Judged(l.judge, ViewAt(l, k)).0
            else if CutsShort(l, k) then EndEpisode(l.judge)
            else l.judge
  {
    if Judges(l, k) {
      JudgedTickMovesJudge(l, k);
    } else {
      RelaxingTick(l, k);
    }
  }

  lemma {:induction false} JudgedTickMovesJudge(l: Lane, k: Look)
    requires Inv(l) && Judges(l, k)
    ensures Ticked(l, k).judge == Judged(l.judge, ViewAt(l, k)).0
  {
    var filled := Filled(l, k);
    var (judge, verdict) := Judged(l.judge, ViewAt(l, k));
    if verdict.Clear? {
      RelaxingIsIdle(filled.(window := NO_OBSERVATION, windowSeconds := 0.0, judge := judge, stepped := false), k.now);
    }
  }

  // ---------------------------------------------------------------- retreats end, unless edges keep expiring

  /** A lapse begins an episode with the whole budget before it. */
  function Refill(lapses: nat): nat {
    if lapses == 0 then 0 else LONGEST_WITHOUT_CLEAR + Refill(lapses - 1)
  }

  lemma {:induction false} RefillIsAProduct(lapses: nat)
    ensures LONGEST_WITHOUT_CLEAR + Refill(lapses) == LONGEST_WITHOUT_CLEAR * (1 + lapses)
  {
    if lapses > 0 { RefillIsAProduct(lapses - 1); }
  }

  /** The first tick of a run: what it judges, what it lapses, and how it moves the judge. */
  lemma {:induction false} FirstTick(l: Lane, ks: seq<Look>) returns (l': Lane)
    requires Inv(l) && ks != []
    ensures l' == Ticked(l, ks[0]) && Inv(l')
    ensures Judges(l, ks[0]) ==>
              && l'.judge == Judged(l.judge, ViewAt(l, ks[0])).0 && IsRatio(ViewAt(l, ks[0]))
              && LaneVerdicts(l, ks) == [VerdictAt(l, ks[0])] + LaneVerdicts(l', ks[1..])
              && Lapses(l, ks) == Lapses(l', ks[1..])
    ensures !Judges(l, ks[0]) ==>
              && LaneVerdicts(l, ks) == LaneVerdicts(l', ks[1..])
              && (if CutsShort(l, ks[0]) then
                    l'.judge == EndEpisode(l.judge) && Lapses(l, ks) == 1 + Lapses(l', ks[1..])
                  else
                    l'.judge == l.judge && Lapses(l, ks) == Lapses(l', ks[1..]))
  {
    l' := Ticked(l, ks[0]);
    TickMovesJudge(l, ks[0]);
    TickKeepsInv(l, ks[0]);
  }

  /** A run without a Clear uses up the judge's budget, which only a lapse fills up again. */
  lemma {:induction false} LapsesRefillTheBudget(l: Lane, lifts: nat, gains: nat, ks: seq<Look>)
    requires Inv(l) && OnTheWay(l.judge, lifts, gains)
    requires forall v <- LaneVerdicts(l, ks) :: !v.Clear?
    ensures |LaneVerdicts(l, ks)| <= Budget(l.judge, lifts, gains) + Refill(Lapses(l, ks))
    decreases ks
  {
    BudgetIsNatural(l.judge, lifts, gains);
    if ks != [] {
      var l' := FirstTick(l, ks);
      if Judges(l, ks[0]) {
        assert LaneVerdicts(l, ks)[0] == VerdictAt(l, ks[0]);
        var lifts', gains' := BudgetFalls(l.judge, lifts, gains, ViewAt(l, ks[0]));
        LapsesRefillTheBudget(l', lifts', gains', ks[1..]);
      } else {
        BudgetIsNatural(l'.judge, lifts, gains);
        LapsesRefillTheBudget(l', lifts, gains, ks[1..]);
      }
    }
  }

  /**
   * A resolver retreats on and on only by letting edges expire: whatever is lost and delivered, a run of
   * its lane without a Clear verdict judges at most `LONGEST_WITHOUT_CLEAR` windows per episode cut short
   * and as many more.
   */
  lemma {:induction false} RetreatsNeedExpiries(l: Lane, ks: seq<Look>)
    requires Inv(l) && forall v <- LaneVerdicts(l, ks) :: !v.Clear?
    ensures |LaneVerdicts(l, ks)| <= LONGEST_WITHOUT_CLEAR * (1 + Lapses(l, ks))
  {
    BudgetIsNatural(l.judge, 0, 0);
    LapsesRefillTheBudget(l, 0, 0, ks);
    RefillIsAProduct(Lapses(l, ks));
  }

  // ---------------------------------------------------------------- a resolver that never stops retreating

  /** A round takes forty seconds: twenty busy ticks of half a second, and sixty quiet ones. */
  const ROUND: nat := 80
  const BUSY: nat := 20

  function NextPlace(place: nat): nat { if place + 1 == ROUND then 0 else place + 1 }

  /** The tick at a place of a round: five more queries lost while busy, nothing while quiet. */
  ghost predicate IsTick(k: Look, place: nat, seen: Observation, at: real) {
    && k.timeout == 10.0 && k.seconds == 0.5 && k.now == at + 0.5
    && k.current.attempted == seen.attempted + (if place < BUSY then 5 else 0)
    && k.current.lost == seen.lost + (if place < BUSY then 5 else 0)
  }

  /** Ticks every half second from a place in a round on. */
  ghost predicate IsSlow(ks: seq<Look>, place: nat, seen: Observation, at: real)
    decreases ks
  {
    ks != [] ==>
      IsTick(ks[0], place, seen, at) && IsSlow(ks[1..], NextPlace(place), ks[0].current, ks[0].now)
  }

  /** The lane while busy: nothing learned, nothing paced, and every query of the window lost. */
  ghost predicate Filling(l: Lane, place: nat) {
    && Inv(l) && l.edge.None? && l.judge == FRESH_JUDGE
    && l.window.lost == l.window.attempted == 5 * place
    && 0.5 * place as real <= l.windowSeconds <= 30.0 + 0.5 * place as real
  }

  /** The lane while quiet: it has just retreated, and its edge is growing old. */
  ghost predicate Ageing(l: Lane, place: nat, at: real) {
    && Inv(l) && l.edge.Some? && l.edge.value.seenAt == at - l.windowSeconds && l.judge.baseline.None?
    && l.window.lost == l.window.attempted == 0 && l.windowSeconds == 0.5 * (place - BUSY) as real
  }

  ghost predicate AtPlace(l: Lane, place: nat, at: real) {
    if place < BUSY then Filling(l, place) else place < ROUND && Ageing(l, place, at)
  }

  /** A tick that finds its window still too empty leaves it open. */
  lemma {:induction false} GatheringTick(l: Lane, k: Look)
    requires Inv(l) && Gathering(Filled(l, k), k.timeout)
    ensures !Judges(l, k)
    ensures var l' := Ticked(l, k);
            && Inv(l') && l'.previous == k.current
            && l'.window == Filled(l, k).window && l'.windowSeconds == Filled(l, k).windowSeconds
            && (if Expires(l, k.now) then l'.edge.None? && l'.judge == EndEpisode(l.judge)
                else l'.edge == l.edge && l'.judge == l.judge)
  {
    TickKeepsInv(l, k);
    RelaxingTick(l, k);
  }

  lemma {:induction false} BusyTickFills(l: Lane, k: Look, place: nat, at: real)
    requires place < BUSY && IsTick(k, place, l.previous, at) && l.window.lost == l.window.attempted == 5 * place
    requires 0.5 * place as real <= l.windowSeconds <= 30.0 + 0.5 * place as real
    ensures var filled := Filled(l, k);
            && filled.window.lost == filled.window.attempted == 5 * (place + 1)
            && 0.5 * (place + 1) as real <= filled.windowSeconds <= 30.0 + 0.5 * (place + 1) as real
            && (place + 1 < BUSY ==> Gathering(filled, k.timeout))
            && (place + 1 == BUSY ==> Judges(l, k) && ViewAt(l, k).loss == 1.0)
  {
    assert k.timeout * MAX_WINDOW_TIMEOUTS == 50.0;
    WholeIsOne(5 * (place + 1));
  }

  lemma {:induction false} WholeIsOne(n: nat)
    requires n > 0
    ensures n as real / n as real == 1.0
  {
  }

  lemma {:induction false} LossyWindowRetreats(l: Lane, k: Look)
    requires Inv(l) && l.edge.None? && l.judge == FRESH_JUDGE && Judges(l, k) && ViewAt(l, k).loss == 1.0
    ensures VerdictAt(l, k).Congested?
    ensures var l' := Ticked(l, k);
            && Inv(l') && l'.previous == k.current && l'.edge.Some? && l'.edge.value.seenAt == k.now
            && l'.judge.baseline.None? && l'.window.lost == l'.window.attempted == 0 && l'.windowSeconds == 0.0
  {
    TickKeepsInv(l, k);
  }

  lemma {:induction false} BusyTick(l: Lane, k: Look, place: nat, at: real)
    requires place < BUSY && Filling(l, place) && IsTick(k, place, l.previous, at)
    ensures AtPlace(Ticked(l, k), place + 1, k.now) && Ticked(l, k).previous == k.current
    ensures Judges(l, k) <==> place + 1 == BUSY
    ensures Judges(l, k) ==> VerdictAt(l, k).Congested?
  {
    BusyTickFills(l, k, place, at);
    if place + 1 < BUSY {
      GatheringTick(l, k);
    } else {
      LossyWindowRetreats(l, k);
    }
  }

  lemma {:induction false} QuietTickFills(l: Lane, k: Look, place: nat, at: real)
    requires BUSY <= place < ROUND && IsTick(k, place, l.previous, at)
    requires l.window.lost == l.window.attempted == 0 && l.windowSeconds == 0.5 * (place - BUSY) as real
    ensures var filled := Filled(l, k);
            && filled.window.lost == filled.window.attempted == 0
            && filled.windowSeconds == 0.5 * (place + 1 - BUSY) as real
            && Gathering(filled, k.timeout)
  {
    assert k.timeout * MAX_WINDOW_TIMEOUTS == 50.0;
  }

  lemma {:induction false} QuietTick(l: Lane, k: Look, place: nat, at: real)
    requires BUSY <= place < ROUND && Ageing(l, place, at) && IsTick(k, place, l.previous, at)
    ensures AtPlace(Ticked(l, k), NextPlace(place), k.now) && Ticked(l, k).previous == k.current
    ensures !Judges(l, k)
  {
    QuietTickFills(l, k, place, at);
    GatheringTick(l, k);
    assert Expires(l, k.now) <==> place + 1 == ROUND;
  }

  /** Judged windows in `ticks` ticks from a place on: one at the end of each busy spell. */
  function JudgedIn(place: nat, ticks: nat): nat
    decreases ticks
  {
    if ticks == 0 then 0 else (if place + 1 == BUSY then 1 else 0) + JudgedIn(NextPlace(place), ticks - 1)
  }

  /** Any tick of a round moves on to the next place, and only the last busy one judges. */
  lemma {:induction false} RoundTick(l: Lane, ks: seq<Look>, place: nat, at: real) returns (l': Lane, vs: seq<Verdict>)
    requires AtPlace(l, place, at) && Inv(l) && ks != [] && IsTick(ks[0], place, l.previous, at)
    ensures AtPlace(l', NextPlace(place), ks[0].now) && Inv(l') && l'.previous == ks[0].current
    ensures |vs| == (if place + 1 == BUSY then 1 else 0) && (forall v <- vs :: v.Congested?)
    ensures LaneVerdicts(l, ks) == vs + LaneVerdicts(l', ks[1..])
  {
    l' := FirstTick(l, ks);
    vs := if Judges(l, ks[0]) then [VerdictAt(l, ks[0])] else [];
    if place < BUSY { BusyTick(l, ks[0], place, at); } else { QuietTick(l, ks[0], place, at); }
  }

  lemma {:induction false} SlowWindowsAreCongested(l: Lane, ks: seq<Look>, place: nat, at: real)
    requires AtPlace(l, place, at) && IsSlow(ks, place, l.previous, at)
    ensures Inv(l) && |LaneVerdicts(l, ks)| == JudgedIn(place, |ks|)
    ensures forall v <- LaneVerdicts(l, ks) :: v.Congested?
    decreases ks
  {
    if ks != [] {
      var l', vs := RoundTick(l, ks, place, at);
      SlowWindowsAreCongested(l', ks[1..], NextPlace(place), ks[0].now);
    }
  }

  lemma {:induction false} SlowRun(place: nat, seen: Observation, at: real, n: nat) returns (ks: seq<Look>)
    ensures |ks| == n && IsSlow(ks, place, seen, at)
    decreases n
  {
    if n == 0 {
      ks := [];
    } else {
      var more := if place < BUSY then 5 else 0;
      var k := Look(Observation(seen.attempted + more, seen.lost + more, seen.responded), 10.0, 0.5, at + 0.5);
      var rest := SlowRun(NextPlace(place), k.current, k.now, n - 1);
      ks := [k] + rest;
      assert ks[1..] == rest;
    }
  }

  /** The rest of a round judges one window or none. */
  lemma {:induction false} RestOfRound(place: nat, more: nat)
    requires place < ROUND
    ensures JudgedIn(place, ROUND - place + more) == (if place < BUSY then 1 else 0) + JudgedIn(0, more)
    decreases ROUND - place
  {
    if place + 1 < ROUND { RestOfRound(place + 1, more); }
  }

  lemma {:induction false} OnePerRound(n: nat)
    ensures JudgedIn(0, n * ROUND) == n
  {
    if n > 0 {
      RestOfRound(0, (n - 1) * ROUND);
      OnePerRound(n - 1);
    }
  }

  /**
   * Edges that keep expiring do keep a resolver retreating: for every number of windows there is a run,
   * ticking every half second with forty seconds between judged windows, in which all are Congested.
   */
  lemma {:induction false} ExpiriesKeepRetreatsGoing(n: nat) returns (ks: seq<Look>)
    ensures Inv(FRESH_LANE) && forall k <- ks :: k.seconds == 0.5
    ensures |LaneVerdicts(FRESH_LANE, ks)| == n && forall v <- LaneVerdicts(FRESH_LANE, ks) :: v.Congested?
  {
    FreshLaneIsValid();
    ks := SlowRun(0, FRESH_LANE.previous, 0.0, n * ROUND);
    SlowWindowsAreCongested(FRESH_LANE, ks, 0, 0.0);
    OnePerRound(n);
    HalfSecondTicks(ks, 0, FRESH_LANE.previous, 0.0);
  }

  lemma {:induction false} HalfSecondTicks(ks: seq<Look>, place: nat, seen: Observation, at: real)
    requires IsSlow(ks, place, seen, at)
    ensures forall k <- ks :: k.seconds == 0.5
    decreases ks
  {
    if ks != [] { HalfSecondTicks(ks[1..], NextPlace(place), ks[0].current, ks[0].now); }
  }

  // ---------------------------------------------------------------- loss that is there at every rate

  /** With no episode cut short a lane's verdicts are those of its judge. */
  lemma {:induction false} VerdictsAreTheJudges(l: Lane, ks: seq<Look>)
    requires Inv(l) && Lapses(l, ks) == 0
    ensures LaneVerdicts(l, ks) == Verdicts(l.judge, Views(l, ks))
    decreases ks
  {
    if ks != [] {
      var k, l', rest := ks[0], Ticked(l, ks[0]), ks[1..];
      TickMovesJudge(l, k);
      TickKeepsInv(l, k);
      VerdictsAreTheJudges(l', rest);
      if Judges(l, k) {
        assert Views(l, ks)[0] == ViewAt(l, k) && Views(l, ks)[1..] == Views(l', rest);
      } else {
        assert Views(l, ks) == Views(l', rest);
      }
    }
  }

  /** A resolver losing a fixed share retreats at most twice, as long as no episode is cut short. */
  lemma {:induction false} FixedShareCostsTwoRetreats(ks: seq<Look>, loss: real)
    requires Inv(FRESH_LANE) && Lapses(FRESH_LANE, ks) == 0
    requires loss > LOSS_THRESHOLD && forall w <- Views(FRESH_LANE, ks) :: w.loss == loss
    ensures forall i :: 0 <= i < |LaneVerdicts(FRESH_LANE, ks)| && LaneVerdicts(FRESH_LANE, ks)[i].Congested? ==> i < 2
  {
    VerdictsAreTheJudges(FRESH_LANE, ks);
    G.ConstantLossIsLearned(loss, Views(FRESH_LANE, ks));
  }

  /** Rates whose interval is long enough for rounding to be lost in a real step. */
  const FASTEST_PACED: real := 100_000_000.0

  lemma {:induction false} RoundingIsNoStep(target: real)
    requires 1.0 <= target <= FASTEST_PACED
    ensures !(target < RateOf(IntervalFor(target)) * (1.0 + G.RETREAT) / 2.0)
  {
    var y, n := NANOS / target, IntervalFor(target);
    assert y * target == NANOS;
    QuotientBounds(target);
    var m, rate := n as real, RateOf(n);
    assert m >= y - 0.5;
    assert rate * m == NANOS;
    RateAtMost(rate, m, y, target);
  }

  lemma {:induction false} QuotientBounds(target: real)
    requires 1.0 <= target <= FASTEST_PACED
    ensures 10.0 <= NANOS / target <= NANOS
  {
    CompareQuotient(NANOS, target, 10.0);
    CompareQuotient(NANOS, target, NANOS);
  }

  lemma {:induction false} RateAtMost(rate: real, m: real, y: real, target: real)
    requires target > 0.0 && y >= 10.0 && m >= y - 0.5 && rate * m == y * target
    ensures rate * 0.925 <= target
  {
    assert m - 0.925 * y >= 0.0;
    assert target * (m - 0.925 * y) >= 0.0;
    assert (target - 0.925 * rate) * m >= 0.0;
  }

  // ---------------------------------------------------------------- which retreats are taken back

  /** The resolver is not seen at a rate whose interval rounding could pass for a step. */
  predicate Plausible(l: Lane, k: Look) {
    Judges(l, k) ==> ObservedRate(Filled(l, k).window, Filled(l, k).windowSeconds) <= FASTEST_PACED
  }

  predicate Moderate(edge: Option<Edge>) { edge.Some? ==> edge.value.qps <= FASTEST_PACED }

  /** A step is pending only while nothing has stalled since. */
  ghost predicate StepInv(l: Lane) {
    && Inv(l) && Moderate(l.edge) && (l.undo.Some? ==> Moderate(l.undo.value.edge))
    && (l.judge.best.Some? ==> l.edge.Some?)
    && (l.stepped && l.judge.best.Some? ==> l.judge.stalled == 0)
  }

  lemma {:induction false} RetreatKeepsStepInv(l: Lane, observed: real, converging: bool, now: real)
    requires Sound(l) && l.interval == PaceOf(l.edge) && Moderate(l.edge) && observed <= FASTEST_PACED
    ensures Moderate(Some(NextEdge(l, observed, converging, now)))
    ensures l.edge.Some? && !converging ==> !Retreat(l, observed, converging, now).stepped
  {
    if l.edge.Some? { RoundingIsNoStep(Target(l.edge.value)); }
  }

  lemma {:induction false} TickKeepsStepInv(l: Lane, k: Look)
    requires StepInv(l) && Plausible(l, k)
    ensures StepInv(Ticked(l, k))
  {
    TickKeepsInv(l, k);
    if Judges(l, k) {
      var filled := Filled(l, k);
      var (judge, verdict) := Judged(l.judge, ViewAt(l, k));
      var judged := filled.(window := NO_OBSERVATION, windowSeconds := 0.0, judge := judge);
      match verdict
      case Clear => RelaxingIsIdle(judged.(stepped := false), k.now);
      case Baseline =>
      case Congested(converging) =>
        RetreatKeepsStepInv(judged, ObservedRate(filled.window, filled.windowSeconds), converging, k.now);
    } else {
      RelaxingTick(l, k);
    }
  }

  ghost predicate AllPlausible(l: Lane, ks: seq<Look>)
    requires Inv(l)
    decreases ks
  {
    ks != [] ==> Plausible(l, ks[0]) && (TickKeepsInv(l, ks[0]); AllPlausible(Ticked(l, ks[0]), ks[1..]))
  }

  lemma {:induction false} RunKeepsStepInv(l: Lane, ks: seq<Look>)
    requires StepInv(l) && AllPlausible(l, ks)
    ensures StepInv(Run(l, ks))
    decreases ks
  {
    if ks != [] {
      TickKeepsStepInv(l, ks[0]);
      RunKeepsStepInv(Ticked(l, ks[0]), ks[1..]);
    }
  }

  /**
   * Which retreats a Baseline takes back: in every run, however many converging steps came before, it
   * undoes a step exactly when one is pending, and then that step cost answers. A Baseline reached by
   * stalling alone finds no step pending and leaves edge and pacing as they are.
   */
  lemma {:induction false} OnlyCostlyStepsAreTakenBack(ks: seq<Look>, k: Look)
    requires Inv(FRESH_LANE) && AllPlausible(FRESH_LANE, ks)
    requires Judges(Run(FRESH_LANE, ks), k) && VerdictAt(Run(FRESH_LANE, ks), k).Baseline?
    ensures var l := Run(FRESH_LANE, ks); var l' := Ticked(l, k);
            && (l.stepped ==> !Paying(l.judge, ViewAt(l, k)) && l.undo.Some? && l'.edge == l.undo.value.edge)
            && (!l.stepped ==> l'.edge == l.edge && l'.interval == l.interval)
            && (Paying(l.judge, ViewAt(l, k)) ==> !l.stepped)
  {
    RunKeepsStepInv(FRESH_LANE, ks);
    var l := Run(FRESH_LANE, ks);
    ViewIsRatio(Filled(l, k).window, Filled(l, k).windowSeconds);
    JudgeKeepsInv(l.judge, ViewAt(l, k));
  }

  /** A congested window that no longer improves takes no step and forgets the last one: no Baseline can undo it. */
  lemma {:induction false} StallForgetsTheStep(ks: seq<Look>, k: Look)
    requires Inv(FRESH_LANE) && AllPlausible(FRESH_LANE, ks) && Plausible(Run(FRESH_LANE, ks), k)
    requires Judges(Run(FRESH_LANE, ks), k) && VerdictAt(Run(FRESH_LANE, ks), k).Congested?
    requires !Improving(Run(FRESH_LANE, ks).judge, ViewAt(Run(FRESH_LANE, ks), k))
    ensures var l := Run(FRESH_LANE, ks); var l' := Ticked(l, k);
            !l'.stepped && l'.edge == l.edge && l'.interval == l.interval
  {
    RunKeepsStepInv(FRESH_LANE, ks);
    var l := Run(FRESH_LANE, ks);
    TickKeepsInv(l, k);
    var judged := Filled(l, k).(window := NO_OBSERVATION, windowSeconds := 0.0, judge := Judged(l.judge, ViewAt(l, k)).0);
    RetreatKeepsStepInv(judged, ObservedRate(Filled(l, k).window, Filled(l, k).windowSeconds), false, k.now);
  }

  /** The first lossy window of a resolver that was not paced. */
  ghost predicate FirstLoss(l: Lane, k: Look, loss: real) {
    && Inv(l) && l.edge.None? && l.judge == FRESH_JUDGE
    && Judges(l, k) && loss > LOSS_THRESHOLD && ViewAt(l, k).loss == loss
    && ObservedRate(Filled(l, k).window, Filled(l, k).windowSeconds) <= FASTEST_PACED
  }

  /** Where the first lossy window leaves the lane. */
  ghost predicate FirstRetreat(l: Lane, k: Look, l1: Lane)
    requires Judges(l, k)
  {
    var rate := ObservedRate(Filled(l, k).window, Filled(l, k).windowSeconds);
    && Inv(l1) && l1.edge == Some(Edge(rate, k.now)) && l1.stepped && l1.undo.Some? && l1.undo.value.edge.None?
    && l1.judge == JudgeState(Some(ViewAt(l, k).loss), Some(ViewAt(l, k).delivered), 0, None)
  }

  lemma {:induction false} FirstLossRetreats(l: Lane, k: Look, loss: real)
    requires FirstLoss(l, k, loss)
    ensures VerdictAt(l, k).Congested? && FirstRetreat(l, k, Ticked(l, k))
  {
    TickKeepsInv(l, k);
    FreshLaneIsValid();
    assert RateOf(l.interval) == NANOS;
  }

  /** Fewer answers came through after the retreat than the judge puts up with. */
  predicate Costly(first: Window, second: Window) {
    second.delivered < first.delivered * RETREAT_MUST_DELIVER
  }

  /**
   * The second window of a loss the rate does not move: if fewer answers came through, the retreat is
   * taken back in full; if not, it is neither taken back nor repeated.
   */
  lemma {:induction false} SecondLossSettles(l: Lane, first: Look, between: seq<Look>, second: Look, loss: real)
    requires FirstLoss(l, first, loss) && Inv(Ticked(l, first))
    requires OnlyRelaxes(Ticked(l, first), between) && !Expired(Ticked(l, first), between)
    requires Judges(Run(Ticked(l, first), between), second) && ViewAt(Run(Ticked(l, first), between), second).loss == loss
    ensures var l1 := Ticked(l, first); var before := Run(l1, between); var l2 := Ticked(before, second);
            if Costly(ViewAt(l, first), ViewAt(before, second)) then
              VerdictAt(before, second).Baseline? && l2.edge.None? && l2.interval == l.interval
            else
              && VerdictAt(before, second).Congested? && l2.edge == l1.edge && l2.interval == l1.interval
              && !l2.stepped && l2.judge.best == Some(loss) && l2.judge.stalled == 1 && l2.judge.baseline.None?
  {
    FirstLossRetreats(l, first, loss);
    var l1 := Ticked(l, first);
    RelaxingRun(l1, between);
    var before := Run(l1, between);
    TickKeepsInv(before, second);
    RoundingIsNoStep(Target(l1.edge.value));
  }

  /** A second stall in a row makes its loss the baseline and leaves edge and pacing standing. */
  lemma {:induction false} SecondStallIsLearned(l: Lane, between: seq<Look>, last: Look)
    requires Inv(l) && !l.stepped && l.judge.stalled == 1
    requires OnlyRelaxes(l, between) && !Expired(l, between)
    requires Judges(Run(l, between), last) && !Improving(l.judge, ViewAt(Run(l, between), last))
    requires ViewAt(Run(l, between), last).loss > UnwrapOr(l.judge.baseline, 0.0) + LOSS_THRESHOLD
    ensures var before := Run(l, between); var l' := Ticked(before, last);
            && VerdictAt(before, last).Baseline? && Inv(l')
            && l'.judge == JudgeState(None, None, 0, Some(ViewAt(before, last).loss))
            && l'.edge == l.edge && l'.interval == l.interval && !l'.stepped
  {
    RelaxingRun(l, between);
    TickKeepsInv(Run(l, between), last);
  }

  /** A lane that has learned its loss keeps its edge until the edge expires, and is free from then on. */
  lemma {:induction false} LearnedLossWaitsForExpiry(l: Lane, k: Look, loss: real)
    requires Inv(l) && l.edge.Some? && l.judge == JudgeState(None, None, 0, Some(loss))
    requires Judges(l, k) ==> ViewAt(l, k).loss == loss
    ensures var l' := Ticked(l, k);
            && Inv(l') && l'.judge == l.judge
            && (if Expires(l, k.now) then l'.edge.None? && l'.interval == PaceOf(None)
                else l'.edge == l.edge && l'.interval == l.interval)
  {
    TickKeepsInv(l, k);
    if Judges(l, k) {
      RelaxingIsIdle(
        Filled(l, k).(window := NO_OBSERVATION, windowSeconds := 0.0, judge := l.judge, stepped := false), k.now);
    } else {
      RelaxingTick(l, k);
    }
  }

  /** Whatever such a lane judges, its edge and its pacing stay as they are until the edge is thirty seconds old. */
  lemma {:induction false} LearnedLossKeepsItsEdge(l: Lane, ks: seq<Look>, loss: real)
    requires Inv(l) && l.edge.Some? && l.judge == JudgeState(None, None, 0, Some(loss))
    requires forall w <- Views(l, ks) :: w.loss == loss
    requires forall k <- ks :: k.now - l.edge.value.seenAt < EDGE_TTL
    ensures Run(l, ks).edge == l.edge && Run(l, ks).interval == l.interval && Run(l, ks).judge == l.judge
    decreases ks
  {
    if ks != [] {
      assert Judges(l, ks[0]) ==> ViewAt(l, ks[0]) == Views(l, ks)[0];
      LearnedLossWaitsForExpiry(l, ks[0], loss);
      TickKeepsInv(l, ks[0]);
      var l' := Ticked(l, ks[0]);
      forall w <- Views(l', ks[1..]) ensures w.loss == loss { assert w in Views(l, ks); }
      LearnedLossKeepsItsEdge(l', ks[1..], loss);
    }
  }
}
