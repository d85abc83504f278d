/**
 * The loss judge of src/controller.rs, which tells loss that sending slower would cure from loss that
 * is there at every rate.
 *
 * `Judged` is one verdict as a function of the judge's state; the class `LossJudge` updates its
 * fields in place as the source does and is proved to compute it. The lemmas follow a judge over
 * whole runs of windows.
 */
module LossJudging {
  import opened Prelude

  const LOSS_THRESHOLD: real := 0.02
  const RETREAT_MUST_IMPROVE: real := 0.99
  const RETREAT_MUST_DELIVER: real := 0.95
  const STALL_TICKS: nat := 2

  datatype Verdict = Congested(converging: bool) | Clear | Baseline

  datatype JudgeState = JudgeState(
    best: Option<real>,
    bestDelivered: Option<real>,
    stalled: nat,
    baseline: Option<real>)

  const FRESH_JUDGE := JudgeState(None, None, 0, None)

  /** One window as the judge sees it. */
  datatype Window = Window(loss: real, delivered: real)

  function EndEpisode(j: JudgeState): JudgeState {
    JudgeState(None, None, 0, j.baseline)
  }

  /** A baseline is never above the latest loss. */
  function LoweredBaseline(j: JudgeState, loss: real): Option<real> {
    if j.baseline.Some? then Some(Min(j.baseline.value, loss)) else None
  }

  /** An episode with no loss on record yet has nothing to improve on. */
  predicate Improving(j: JudgeState, w: Window) {
    j.best.Some? ==> w.loss < j.best.value * RETREAT_MUST_IMPROVE
  }

  predicate Paying(j: JudgeState, w: Window) {
    j.bestDelivered.Some? ==> w.delivered >= j.bestDelivered.value * RETREAT_MUST_DELIVER
  }

  /** The state and verdict one window leaves. */
  function Judged(j: JudgeState, w: Window): (JudgeState, Verdict) {
    var baseline := LoweredBaseline(j, w.loss);
    var stalled := if Improving(j, w) && Paying(j, w) then 0 else j.stalled + 1;
    if w.loss <= UnwrapOr(baseline, 0.0) + LOSS_THRESHOLD then
      (JudgeState(None, None, 0, baseline), Clear)
    else if stalled > 0 && (!Paying(j, w) || stalled >= STALL_TICKS) then
      (JudgeState(None, None, 0, Some(w.loss)), Baseline)
    else
      (JudgeState(
         Some(if j.best.Some? then Min(j.best.value, w.loss) else w.loss),
         Some(if j.bestDelivered.Some? then Max(j.bestDelivered.value, w.delivered) else w.delivered),
         stalled,
         baseline),
       Congested(j.best.Some? && stalled == 0))
  }

  /** The judge with its fields updated in place. */
  class LossJudge {
    var best: Option<real>
    var bestDelivered: Option<real>
    var stalled: nat
    var baseline: Option<real>

    ghost function State(): JudgeState reads this {
      JudgeState(best, bestDelivered, stalled, baseline)
    }

    constructor ()
      ensures State() == FRESH_JUDGE
    {
      best, bestDelivered, stalled, baseline := None, None, 0, None;
    }

    method Finish()
      modifies this
      ensures State() == EndEpisode(old(State()))
    {
      best := None;
      bestDelivered := None;
      stalled := 0;
    }

    method Judge(loss: real, delivered: real) returns (verdict: Verdict)
      modifies this
      ensures (State(), verdict) == Judged(old(State()), Window(loss, delivered))
    {
      if baseline.Some? {
        baseline := Some(Min(baseline.value, loss));
      }
      if loss <= UnwrapOr(baseline, 0.0) + LOSS_THRESHOLD {
        Finish();
        return Clear;
      }
      var improving := best.Some? ==> loss < best.value * RETREAT_MUST_IMPROVE;
      var paying := bestDelivered.Some? ==> delivered >= bestDelivered.value * RETREAT_MUST_DELIVER;
      var converging := best.Some? && improving && paying;
      if improving && paying {
        stalled := 0;
      } else {
        stalled := stalled + 1;
        if !paying || stalled >= STALL_TICKS {
          baseline := Some(loss);
          Finish();
          return Baseline;
        }
      }
      best := Some(if best.Some? then Min(best.value, loss) else loss);
      bestDelivered := Some(if bestDelivered.Some? then Max(bestDelivered.value, delivered) else delivered);
      return Congested(converging);
    }
  }

  // ---------------------------------------------------------------- runs

  /** What every reachable judge satisfies when losses are ratios. */
  ghost predicate JudgeInv(j: JudgeState) {
    && (j.baseline.Some? ==> 0.0 <= j.baseline.value <= 1.0)
    && (j.best.Some? <==> j.bestDelivered.Some?)
    && (j.best.None? ==> j.stalled == 0)
    && j.stalled < STALL_TICKS
    && (j.best.Some? ==> UnwrapOr(j.baseline, 0.0) + LOSS_THRESHOLD < j.best.value <= 1.0)
  }

  predicate IsRatio(w: Window) { 0.0 <= w.loss <= 1.0 }

  /** Loss above the baseline that retreats have not been seen to cost answers over or to stall on twice. */
  predicate Blames(j: JudgeState, w: Window) {
    && w.loss > UnwrapOr(j.baseline, 0.0) + LOSS_THRESHOLD
    && Paying(j, w)
    && (Improving(j, w) || j.stalled == 0)
  }

  /** The rate is blamed exactly then. */
  lemma {:induction false} CongestedMeansBlamed(j: JudgeState, w: Window)
    requires JudgeInv(j)
    ensures Judged(j, w).1.Congested? <==> Blames(j, w)
  {
  }

  /** The judge after a run of windows. */
  function JudgeRun(j: JudgeState, ws: seq<Window>): JudgeState
    decreases ws
  {
    if ws == [] then j else JudgeRun(Judged(j, ws[0]).0, ws[1..])
  }

  /** The verdicts of a run of windows. */
  function Verdicts(j: JudgeState, ws: seq<Window>): (vs: seq<Verdict>)
    ensures |vs| == |ws|
    decreases ws
  {
    if ws == [] then [] else [Judged(j, ws[0]).1] + Verdicts(Judged(j, ws[0]).0, ws[1..])
  }

  lemma {:induction false} JudgeKeepsInv(j: JudgeState, w: Window)
    requires JudgeInv(j) && IsRatio(w)
    ensures JudgeInv(Judged(j, w).0)
    ensures Judged(j, w).1.Baseline? ==> j.best.Some?
    ensures Judged(j, w).1.Baseline? ==> Judged(j, w).0.baseline.value > UnwrapOr(j.baseline, 0.0) + LOSS_THRESHOLD
    ensures !Judged(j, w).1.Clear? ==> LoweredBaseline(j, w.loss) == j.baseline
  {
  }

  lemma {:induction false} RunKeepsInv(j: JudgeState, ws: seq<Window>)
    requires JudgeInv(j) && forall w <- ws :: IsRatio(w)
    ensures JudgeInv(JudgeRun(j, ws))
    decreases ws
  {
    if ws != [] {
      JudgeKeepsInv(j, ws[0]);
      RunKeepsInv(Judged(j, ws[0]).0, ws[1..]);
    }
  }

  // ---------------------------------------------------------------- what the baseline is

  /** `least` is one of the losses of a run of windows, and none is smaller. */
  ghost predicate IsLeastLoss(least: real, ws: seq<Window>) {
    (exists i :: 0 <= i < |ws| && ws[i].loss == least) && forall i :: 0 <= i < |ws| ==> least <= ws[i].loss
  }

  /** The baseline `base` lowered by a run of windows. */
  ghost predicate IsLowered(base: Option<real>, least: Option<real>, ws: seq<Window>) {
    if base.None? then least.None?
    else
      && least.Some? && least.value <= base.value
      && (least == base || exists i :: 0 <= i < |ws| && ws[i].loss == least.value)
      && forall i :: 0 <= i < |ws| ==> least.value <= ws[i].loss
  }

  ghost predicate NoBaseline(vs: seq<Verdict>) { forall v <- vs :: !v.Baseline? }

  lemma {:induction false} RunOfOneMore(j: JudgeState, ws: seq<Window>, w: Window)
    ensures JudgeRun(j, ws + [w]) == Judged(JudgeRun(j, ws), w).0
    ensures Verdicts(j, ws + [w]) == Verdicts(j, ws) + [Judged(JudgeRun(j, ws), w).1]
    decreases ws
  {
    if ws == [] {
      assert (ws + [w])[1..] == [];
    } else {
      assert (ws + [w])[1..] == ws[1..] + [w];
      RunOfOneMore(Judged(j, ws[0]).0, ws[1..], w);
    }
  }

  /** One window lowers a baseline to its loss, if that is less, and sets it to its loss when it is a Baseline. */
  lemma {:induction false} WindowMovesBaseline(j: JudgeState, w: Window)
    ensures var (j', v) := Judged(j, w);
            j'.baseline == if v.Baseline? then Some(w.loss)
                           else if j.baseline.Some? && w.loss < j.baseline.value then Some(w.loss)
                           else j.baseline
  {
  }

  /** Without a Baseline verdict, a baseline is the least of itself and the losses since. */
  lemma {:induction false} BaselineFollowsTheLossDown(j: JudgeState, ws: seq<Window>)
    requires JudgeInv(j) && (forall w <- ws :: IsRatio(w)) && NoBaseline(Verdicts(j, ws))
    ensures IsLowered(j.baseline, JudgeRun(j, ws).baseline, ws)
    decreases |ws|
  {
    if ws != [] {
      var n := |ws| - 1;
      var front, w := ws[..n], ws[n];
      assert ws == front + [w];
      RunOfOneMore(j, front, w);
      assert NoBaseline(Verdicts(j, front)) by { assert Verdicts(j, ws)[..n] == Verdicts(j, front); }
      assert !Verdicts(j, ws)[n].Baseline?;
      BaselineFollowsTheLossDown(j, front);
      RunKeepsInv(j, front);
      WindowMovesBaseline(JudgeRun(j, front), w);
      assert ws[n].loss == w.loss;
    }
  }

  /** Window `i` was the last one to set the baseline. */
  ghost predicate LastBaseline(vs: seq<Verdict>, i: nat) {
    i < |vs| && vs[i].Baseline? && forall k :: i < k < |vs| ==> !vs[k].Baseline?
  }

  /**
   * What a standing baseline is: after any run of windows with ratio losses there is one exactly if some
   * window was a Baseline, and it is the least loss from the last such window on.
   */
  lemma {:induction false} BaselineIsTheLeastLossSince(ws: seq<Window>) returns (i: nat)
    requires forall w <- ws :: IsRatio(w)
    ensures var vs, base := Verdicts(FRESH_JUDGE, ws), JudgeRun(FRESH_JUDGE, ws).baseline;
            if base.None? then NoBaseline(vs)
            else LastBaseline(vs, i) && IsLeastLoss(base.value, ws[i..])
    decreases |ws|
  {
    i := 0;
    if ws != [] {
      var n := |ws| - 1;
      var front, w := ws[..n], ws[n];
      assert ws == front + [w];
      i := BaselineIsTheLeastLossSince(front);
      RunOfOneMore(FRESH_JUDGE, front, w);
      var before := JudgeRun(FRESH_JUDGE, front);
      WindowMovesBaseline(before, w);
      if Judged(before, w).1.Baseline? {
        i := n;
        assert ws[n..] == [w];
        assert ws[n..][0].loss == w.loss;
      } else if before.baseline.Some? {
        LeastOneMore(before.baseline.value, front[i..], w);
        assert ws[i..] == front[i..] + [w];
      }
    }
  }

  lemma {:induction false} LeastOneMore(least: real, ws: seq<Window>, w: Window)
    requires IsLeastLoss(least, ws)
    ensures IsLeastLoss(if w.loss < least then w.loss else least, ws + [w])
  {
    var i :| 0 <= i < |ws| && ws[i].loss == least;
    assert (ws + [w])[i].loss == least && (ws + [w])[|ws|].loss == w.loss;
  }

  /**
   * High loss once taken for a baseline hides nothing for good: with no Baseline since and the last window
   * Clear, the next window is Congested exactly when it loses over 0.02 more than the least of the old
   * baseline and every loss since, or over 0.02 when there is no baseline.
   */
  lemma {:induction false} CongestionIsJudgedAgainstTheLeast(
    j: JudgeState, ws: seq<Window>, w: Window, least: Option<real>)
    requires JudgeInv(j) && (forall x <- ws :: IsRatio(x)) && ws != []
    requires NoBaseline(Verdicts(j, ws)) && Verdicts(j, ws)[|ws| - 1].Clear? && IsLowered(j.baseline, least, ws)
    ensures Judged(JudgeRun(j, ws), w).1.Congested? <==> w.loss > UnwrapOr(least, 0.0) + 0.02
    ensures Judged(JudgeRun(j, ws), w).1.Clear? <==> w.loss <= UnwrapOr(least, 0.0) + 0.02
  {
    RunKeepsInv(j, ws);
    BaselineFollowsTheLossDown(j, ws);
    LoweredIsUnique(j.baseline, JudgeRun(j, ws).baseline, least, ws);
    ClearEndsTheEpisode(j, ws);
    FirstSightOfLoss(JudgeRun(j, ws), w);
  }

  lemma {:induction false} LoweredIsUnique(base: Option<real>, a: Option<real>, b: Option<real>, ws: seq<Window>)
    requires IsLowered(base, a, ws) && IsLowered(base, b, ws)
    ensures a == b
  {
  }

  lemma {:induction false} ClearEndsTheEpisode(j: JudgeState, ws: seq<Window>)
    requires ws != [] && Verdicts(j, ws)[|ws| - 1].Clear?
    ensures JudgeRun(j, ws).best.None?
  {
    var n := |ws| - 1;
    assert ws == ws[..n] + [ws[n]];
    RunOfOneMore(j, ws[..n], ws[n]);
  }

  /** Outside an episode loss is Congested or Clear by how far it is above the baseline. */
  lemma {:induction false} FirstSightOfLoss(j: JudgeState, w: Window)
    requires JudgeInv(j) && j.best.None?
    ensures Judged(j, w).1.Congested? <==> w.loss > UnwrapOr(j.baseline, 0.0) + 0.02
    ensures Judged(j, w).1.Clear? <==> w.loss <= UnwrapOr(j.baseline, 0.0) + 0.02
  {
  }

  // ---------------------------------------------------------------- what an episode is judged by

  /** `most` is one of the delivered rates of a run of windows, and none is higher. */
  ghost predicate IsMostDelivered(most: real, ws: seq<Window>) {
    (exists i :: 0 <= i < |ws| && ws[i].delivered == most) && forall i :: 0 <= i < |ws| ==> ws[i].delivered <= most
  }

  /** The window does not lose less than 0.99 of what any window before it did. */
  ghost predicate FailsToImprove(w: Window, before: seq<Window>) {
    exists i :: 0 <= i < |before| && w.loss >= 0.99 * before[i].loss
  }

  /** The last window of an episode stalled: there was one before it, and it did not improve. */
  ghost predicate Stalled(ws: seq<Window>) {
    ws != [] && FailsToImprove(ws[|ws| - 1], ws[..|ws| - 1])
  }

  /** A run of congested windows from outside an episode. */
  ghost predicate IsEpisode(j: JudgeState, ws: seq<Window>) {
    && JudgeInv(j) && j.best.None? && ws != [] && (forall w <- ws :: IsRatio(w))
    && forall v <- Verdicts(j, ws) :: v.Congested?
  }

  /** What a judge remembers of an episode. */
  ghost predicate Remembers(j: JudgeState, ws: seq<Window>) {
    && j.best.Some? && IsLeastLoss(j.best.value, ws)
    && j.bestDelivered.Some? && IsMostDelivered(j.bestDelivered.value, ws)
    && (j.stalled == 1 <==> Stalled(ws)) && j.stalled <= 1
  }

  lemma {:induction false} ImprovingOnTheLeast(j: JudgeState, ws: seq<Window>, w: Window)
    requires Remembers(j, ws) && IsRatio(w) && (forall x <- ws :: IsRatio(x))
    ensures Improving(j, w) <==> !FailsToImprove(w, ws)
    ensures Paying(j, w) <==> forall i :: 0 <= i < |ws| ==> w.delivered >= 0.95 * ws[i].delivered
  {
    var i :| 0 <= i < |ws| && ws[i].loss == j.best.value;
    var k :| 0 <= k < |ws| && ws[k].delivered == j.bestDelivered.value;
    assert Paying(j, w) ==> w.delivered >= 0.95 * ws[k].delivered;
  }

  lemma {:induction false} FirstIsRemembered(j: JudgeState, w: Window)
    requires j.best.None? && JudgeInv(j) && IsRatio(w) && Judged(j, w).1.Congested?
    ensures Remembers(Judged(j, w).0, [w])
  {
    assert [w][0] == w && [w][..0] == [];
  }

  lemma {:induction false} NextIsRemembered(j: JudgeState, ws: seq<Window>, w: Window)
    requires Remembers(j, ws) && JudgeInv(j) && IsRatio(w) && (forall x <- ws :: IsRatio(x)) && Judged(j, w).1.Congested?
    ensures Remembers(Judged(j, w).0, ws + [w])
  {
    ImprovingOnTheLeast(j, ws, w);
    LeastOneMore(j.best.value, ws, w);
    MostOneMore(j.bestDelivered.value, ws, w);
    assert (ws + [w])[..|ws|] == ws;
  }

  lemma {:induction false} MostOneMore(most: real, ws: seq<Window>, w: Window)
    requires IsMostDelivered(most, ws)
    ensures IsMostDelivered(if w.delivered > most then w.delivered else most, ws + [w])
  {
    var i :| 0 <= i < |ws| && ws[i].delivered == most;
    assert (ws + [w])[i].delivered == most && (ws + [w])[|ws|].delivered == w.delivered;
  }

  /** An episode is remembered by its least loss, its most delivered, and whether its last window stalled. */
  lemma {:induction false} EpisodeIsRemembered(j: JudgeState, ws: seq<Window>)
    requires IsEpisode(j, ws)
    ensures Remembers(JudgeRun(j, ws), ws)
    decreases |ws|
  {
    var n := |ws| - 1;
    var front, w := ws[..n], ws[n];
    assert ws == front + [w];
    RunOfOneMore(j, front, w);
    RunKeepsInv(j, front);
    assert Verdicts(j, ws)[n].Congested?;
    if front == [] {
      FirstIsRemembered(j, w);
    } else {
      assert forall v <- Verdicts(j, front) :: v.Congested? by { assert Verdicts(j, ws)[..n] == Verdicts(j, front); }
      EpisodeIsRemembered(j, front);
      NextIsRemembered(JudgeRun(j, front), front, w);
    }
  }

  /**
   * The verdict within an episode, by its windows: loss within 0.02 of the baseline is Clear; otherwise the
   * window is a Baseline exactly if it delivers under 0.95 of some window before it, or fails to improve
   * right after one that failed; and it converges exactly if it improves and delivers.
   */
  lemma {:induction false} EpisodeVerdict(j: JudgeState, ws: seq<Window>, w: Window)
    requires IsEpisode(j, ws) && IsRatio(w)
    ensures var v, base := Judged(JudgeRun(j, ws), w).1, UnwrapOr(JudgeRun(j, ws).baseline, 0.0);
            var pays := forall i :: 0 <= i < |ws| ==> w.delivered >= 0.95 * ws[i].delivered;
            && (v.Clear? <==> w.loss <= base + 0.02)
            && (v.Baseline? <==> w.loss > base + 0.02 && (!pays || (FailsToImprove(w, ws) && Stalled(ws))))
            && (v == Congested(true) <==> w.loss > base + 0.02 && pays && !FailsToImprove(w, ws))
  {
    EpisodeIsRemembered(j, ws);
    RunKeepsInv(j, ws);
    ImprovingOnTheLeast(JudgeRun(j, ws), ws, w);
    WindowVerdict(JudgeRun(j, ws), w);
  }

  lemma {:induction false} WindowVerdict(j: JudgeState, w: Window)
    requires JudgeInv(j) && IsRatio(w) && j.best.Some?
    ensures var v, high := Judged(j, w).1, w.loss > UnwrapOr(j.baseline, 0.0) + 0.02;
            && (v.Clear? <==> !high)
            && (v.Baseline? <==> high && (!Paying(j, w) || (!Improving(j, w) && j.stalled == 1)))
            && (v == Congested(true) <==> high && Paying(j, w) && Improving(j, w))
  {
  }

  // ---------------------------------------------------------------- retreats end

  /** Every improvement multiplies the best loss by less than 0.99, and 390 of them pass below 0.02. */
  const MAX_IMPROVEMENTS: nat := 389
  /** Windows in the longest episode that ends in a baseline. */
  const EPISODE: nat := 2 * MAX_IMPROVEMENTS + 3
  /** Every baseline with no Clear since the last one lies more than 0.02 higher. */
  const MAX_BASELINES: nat := 49
  /** The longest run without a Clear verdict. */
  const LONGEST_WITHOUT_CLEAR: nat := MAX_BASELINES * EPISODE

  /** No episode improves on a loss of one more than `MAX_IMPROVEMENTS` times and stays above the threshold. */
  lemma {:induction false} BestCannotShrinkForever()
    ensures 0.0 < Pow(RETREAT_MUST_IMPROVE, MAX_IMPROVEMENTS + 1) < LOSS_THRESHOLD
  {
    ImprovementsCompound(RETREAT_MUST_IMPROVE, MAX_IMPROVEMENTS + 1);
  }

  lemma {:induction false} ImprovementsCompound(q: real, n: nat)
    requires q == RETREAT_MUST_IMPROVE && n == MAX_IMPROVEMENTS + 1
    ensures 0.0 < Pow(q, n) < LOSS_THRESHOLD
  {
    var k := n - 388;
    assert Pow(q, k) == q * (q * Pow(q, k - 2)) == 0.9801;
    Doubled(q, k, 0.9801);
    Doubled(q, 2 * k, 0.9606);
    Doubled(q, 4 * k, 0.92276);
    Doubled(q, 8 * k, 0.85149);
    Doubled(q, 16 * k, 0.72504);
    Doubled(q, 32 * k, 0.52569);
    Doubled(q, 64 * k, 0.27636);
    Multiplied(q, 128 * k, 0.07638, 64 * k, 0.27636);
    Multiplied(q, 192 * k, 0.07638 * 0.27636, 2 * k, 0.9606);
    Multiplied(q, 194 * k, 0.07638 * 0.27636 * 0.9606, k, 0.9801);
  }

  lemma {:induction false} Multiplied(q: real, m: nat, a: real, n: nat, b: real)
    requires q > 0.0 && Pow(q, m) <= a && Pow(q, n) <= b
    ensures 0.0 < Pow(q, m + n) <= a * b
  {
    PowAdd(q, m, n);
    PowPositive(q, m);
    PowPositive(q, n);
    var x, y := Pow(q, m), Pow(q, n);
    assert x * y <= x * b <= a * b;
  }

  lemma {:induction false} Doubled(q: real, n: nat, bound: real)
    requires q > 0.0 && Pow(q, n) <= bound
    ensures 0.0 < Pow(q, 2 * n) <= bound * bound
  {
    Multiplied(q, n, bound, n, bound);
  }

  /**
   * Windows left before a Clear is forced: `lifts` counts the baselines already passed and `gains`
   * the improvements of the open episode.
   */
  function Budget(j: JudgeState, lifts: nat, gains: nat): int {
    if j.best.None? then (MAX_BASELINES - lifts) * EPISODE
    else (MAX_BASELINES - 1 - lifts) * EPISODE + 2 * (MAX_IMPROVEMENTS - gains) + 2 - j.stalled
  }

  /** The position of a judge on the way to a forced Clear. */
  ghost predicate OnTheWay(j: JudgeState, lifts: nat, gains: nat) {
    && JudgeInv(j)
    && (lifts > 0 ==> LOSS_THRESHOLD * lifts as real < UnwrapOr(j.baseline, 0.0))
    && (j.best.Some? ==> j.best.value <= Pow(RETREAT_MUST_IMPROVE, gains))
  }

  /** A window that is not Clear uses up budget, and the budget of a reachable state is not negative. */
  lemma {:induction false} BudgetFalls(j: JudgeState, lifts: nat, gains: nat, w: Window) returns (lifts': nat, gains': nat)
    requires OnTheWay(j, lifts, gains) && IsRatio(w) && !Judged(j, w).1.Clear?
    ensures OnTheWay(Judged(j, w).0, lifts', gains')
    ensures 0 <= Budget(Judged(j, w).0, lifts', gains') < Budget(j, lifts, gains)
  {
    var (j', v) := Judged(j, w);
    JudgeKeepsInv(j, w);
    if v.Baseline? {
      lifts', gains' := lifts + 1, 0;
    } else if j.best.None? {
      lifts', gains' := lifts, 0;
    } else if j'.stalled == 0 {
      lifts', gains' := lifts, gains + 1;
    } else {
      lifts', gains' := lifts, gains;
    }
    BudgetIsNatural(j', lifts', gains');
    if j.best.Some? {
      GainsAreBounded(j, lifts, gains);
    }
  }

  lemma {:induction false} GainsAreBounded(j: JudgeState, lifts: nat, gains: nat)
    requires OnTheWay(j, lifts, gains) && j.best.Some?
    ensures gains <= MAX_IMPROVEMENTS
  {
    BestCannotShrinkForever();
    if gains > MAX_IMPROVEMENTS {
      var extra := gains - MAX_IMPROVEMENTS - 1;
      PowAtMostOne(RETREAT_MUST_IMPROVE, extra);
      Multiplied(RETREAT_MUST_IMPROVE, gains - extra, LOSS_THRESHOLD, extra, 1.0);
      assert false;
    }
  }

  lemma {:induction false} PowAtMostOne(q: real, n: nat)
    requires 0.0 < q <= 1.0
    ensures 0.0 < Pow(q, n) <= 1.0
  {
    if n != 0 {
      PowAtMostOne(q, n - 1);
      assert q * Pow(q, n - 1) <= 1.0 * Pow(q, n - 1);
    }
  }

  lemma {:induction false} BudgetIsNatural(j: JudgeState, lifts: nat, gains: nat)
    requires OnTheWay(j, lifts, gains)
    ensures 0 <= Budget(j, lifts, gains) <= LONGEST_WITHOUT_CLEAR
  {
    if j.best.Some? {
      GainsAreBounded(j, lifts, gains);
    }
  }

  /** A run without a Clear uses its budget up. */
  lemma {:induction false} RunWithoutClearIsShort(j: JudgeState, lifts: nat, gains: nat, ws: seq<Window>)
    requires OnTheWay(j, lifts, gains)
    requires forall w <- ws :: IsRatio(w)
    requires forall v <- Verdicts(j, ws) :: !v.Clear?
    ensures |ws| <= Budget(j, lifts, gains)
    decreases ws
  {
    BudgetIsNatural(j, lifts, gains);
    if ws != [] {
      assert Verdicts(j, ws)[0] == Judged(j, ws[0]).1;
      assert Verdicts(Judged(j, ws[0]).0, ws[1..]) == Verdicts(j, ws)[1..];
      var lifts', gains' := BudgetFalls(j, lifts, gains, ws[0]);
      RunWithoutClearIsShort(Judged(j, ws[0]).0, lifts', gains', ws[1..]);
    }
  }

  /**
   * Fed by windows alone, a judge cannot call for retreats forever: whatever the losses and the delivered
   * rates are, in any reachable state it gives a Clear verdict within a fixed number of windows. Module
   * `LaneEpisodes` adds the expiring edges of a resolver.
   */
  lemma {:induction false} ClearIsInevitable(j: JudgeState, ws: seq<Window>)
    requires JudgeInv(j)
    requires forall w <- ws :: IsRatio(w)
    requires |ws| > LONGEST_WITHOUT_CLEAR
    ensures exists i :: 0 <= i <= LONGEST_WITHOUT_CLEAR && Verdicts(j, ws)[i].Clear?
  {
    var prefix := ws[..LONGEST_WITHOUT_CLEAR + 1];
    VerdictsOfPrefix(j, ws, |prefix|);
    if forall v <- Verdicts(j, prefix) :: !v.Clear? {
      BudgetIsNatural(j, 0, 0);
      RunWithoutClearIsShort(j, 0, 0, prefix);
      assert false;
    }
  }

  lemma {:induction false} VerdictsOfPrefix(j: JudgeState, ws: seq<Window>, n: nat)
    requires n <= |ws|
    ensures Verdicts(j, ws[..n]) == Verdicts(j, ws)[..n]
    decreases n
  {
    if n > 0 {
      assert ws[..n][0] == ws[0] && ws[..n][1..] == ws[1..][..n - 1];
      VerdictsOfPrefix(Judged(j, ws[0]).0, ws[1..], n - 1);
    }
  }
}
