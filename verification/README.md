# Adaptive DNS dispatch, verified

A Dafny model of blastdns: the adaptive controller that finds out how fast it may send, the two pacers it
drives, the workers that dispatch queries over a pool of resolvers, the retry loop, and the response cache.
Objects that the program updates in place are classes whose methods are proved against functions of the
old state; the lemmas then follow those functions over whole runs, every interleaving, or every input.

| file | part of the program |
|---|---|
| `Prelude.dfy` | options, `f64` helpers over `real`, saturating `u64` arithmetic |
| `LossJudge.dfy` | the judge: is this loss the rate's doing? |
| `GlobalBrake.dfy`, `Capacity.dfy` | the global limit, and the same limit in closed loop with a path of fixed capacity |
| `ResolverLane.dfy`, `LaneEpisodes.dfy` | per-resolver edges, retreats, undo and expiry, and a resolver's judge over whole episodes |
| `LaneAccounts.dfy`, `PoolAccounts.dfy` | what windows and totals are made of, over whole runs of the counters |
| `LaneCapacity.dfy` | one resolver in closed loop with a path of fixed capacity |
| `AttemptBrake.dfy`, `AttemptBrakeRuns.dfy`, `Probes.dfy` | the attempt brake, its evidence, its probes |
| `AttemptEvidence.dfy` | what the attempt brake measures and decides, by counting |
| `PacedProbes.dfy`, `StuckLimit.dfy` | the attempt brake behind its own pacer, and a run that gets stuck there |
| `AttemptCapacity.dfy` | the attempt brake in closed loop with a path of fixed capacity |
| `Controller.dfy` | one controller tick over all three brakes |
| `RateLimiter.dfy`, `CasPacing.dfy` | the interval limiter and its lock-free cursor under every interleaving |
| `AttemptPacer.dfy` | the token bucket |
| `ResolverHealth.dfy`, `ResolverPool.dfy`, `Dispatch.dfy` | counters and purgatory, selection, the worker protocol |
| `Cache.dfy`, `Client.dfy` | the TTL/LRU cache and the retry loop |

`dafny verify dfyconfig.toml` checks everything.

## How the program is represented

- `f64` is `real`; `round` rounds half away from zero; `as u64` saturates. Counters are `nat`; saturation is
  written out where the program saturates.
- Time is a parameter: nanoseconds in the limiter, pool and cache, seconds in the controller.
- The controller's per-field vectors are one sequence of `Lane`s. A lane also holds the interval of the
  limiter its resolver owns.
- The two outcome counters are read as one snapshot, and a failed query is also a completed one.
- Callers of the limiter and workers are step systems: every load, clock reading, compare-exchange, permit
  and `record_*` call is one step, taken in any order. Memory is sequentially consistent.
- What a query, a queue or a clock does is chosen by the environment.

## What the code does that its documentation does not say

- Resolver statistics are documented as `attempted == answered + empty + timeout + error`
  (`src/health.rs:82-85`, `README.md:585`). `Dispatching.CountersAddUpWhenNobodyQueries` proves that this holds
  exactly when no worker is querying the resolver; `Dispatching.CountersLagAQueryUnderWay` is a run in which it fails.
- `relax` is documented to climb back toward the retreat target (`src/controller.rs:716-717`). In every
  reachable state the limiter already paces at that target, so the climb never changes the interval
  (`ResolverLanes.RelaxingIsIdle`); only an expired edge or an undone retreat lets a resolver go faster
  (`ResolverLanes.OnlyExpiryOrUndoSpeedsUp`).
- Dead entries are documented not to drag the global rate down (`src/controller.rs:9-11`). They do: a hundred
  of them, each tried once in vain, bring a ceiling of 1000 down to 85 (`Control.HundredDeadEntries`). The code judges
  the final outcome of every query, whichever resolvers it met. `Control.DeadEntriesCutTheGlobalRate` gives the exact
  condition for a pool in which nothing ever answered and `GlobalBraking.CutExactlyOnBlame` for any tick: a window of
  100 finished queries whose failures the judge blames on the rate, which for a judge that has seen nothing yet is more than one
  failure in fifty (`GlobalBraking.FirstCutIsAFailureShare`). What resolvers answered or lost plays no part
  (`Control.GlobalRateIgnoresAnswers`); only the attempt brake leaves silent resolvers out (`Control.DeadEntriesAreNoEvidence`).
- Retreats are documented to go on while they visibly help, and the bar for that to be low enough for a path's
  capacity to be reached (`src/controller.rs:77-79`, `src/controller.rs:90-93`). On a path of fixed capacity C that holds exactly from starts
  below 6340/289 times C, about 21.9 (`Capacity.FoundExactlyWithinReach`). From further out the first two
  retreats change the loss by too little, and the limit stays at 0.7225 of the start forever with over nine tenths
  lost (`Capacity.BeyondReachIsStuck`).
- A resolver's retreat that bought nothing is documented to be undone (`src/controller.rs:641-642`). In every run that is
  so only if the retreat also cost answers (`LaneEpisodes.OnlyCostlyStepsAreTakenBack`). A window that no longer improves
  clears the mark that there was a step (`LaneEpisodes.StallForgetsTheStep`), the Baseline of a second stall undoes
  nothing (`LaneEpisodes.SecondStallIsLearned`), and the edge stands until it is thirty seconds old
  (`LaneEpisodes.LearnedLossKeepsItsEdge`). For the same reason a resolver whose first retreat does not help never finds
  its capacity while that edge lives (`LaneCapacity.ResolverMissesItsCapacity`).
- The stall limit is documented to bound how far a rate walks when loss is not its doing (`src/controller.rs:92-93`). It does for
  a judge fed by windows alone, which the global one is (`LossJudging.ClearIsInevitable`). A resolver's judge is also
  ended by an expiring edge: without such lapses its retreats end as well (`LaneEpisodes.RetreatsNeedExpiries`), and with
  judged windows far enough apart they never do (`LaneEpisodes.ExpiriesKeepRetreatsGoing`).
- A probe of the attempt brake is meant to measure a clearly lower load (`src/controller.rs:205-208`). But the probe's
  rate is enforced by the pacer, and a tick below 20 attempts a second is idle. A window at a lower rate r is
  judged only if the pacer's slack makes up for 20 - r attempts a second over four timeouts
  (`PacedProbes.JudgedRateIsMeasurable`); with a bucket of one token and timeouts from half a second up, only above 19. A
  slower probe ends at an idle tick and records nothing (`PacedProbes.SlowProbeMeasuresNothing`). So no standing limit is
  26.9 or less (`PacedProbes.EvidenceIsMeasurable`), and one up to 95/3 is never compared: it neither falls nor rises until
  something lets go of it altogether (`PacedProbes.LowLimitIsStuck`). `StuckLimit.StuckLimitIsReached` is a run
  of half-second ticks that gets there.

## Model

| member | source | states |
|---|---|---|
| LossJudging.LossJudge.Judge | src/controller.rs:125-171 | the fields updated in place end up as `Judged` says: Clear within 0.02 of the lowered baseline, Baseline on a retreat that cost answers or a second stall, Congested otherwise |
| LossJudging.LossJudge.Finish | src/controller.rs:174-178 | ending an episode forgets everything but the baseline |
| LossJudging.JudgeKeepsInv | src/controller.rs:125-171 | a Baseline needs an open episode and lies more than 0.02 above the one before; without a Clear the baseline never moves down |
| LossJudging.RunKeepsInv | src/controller.rs:125-178 | every state reachable by windows with ratio losses satisfies the judge's invariant |
| LossJudging.CongestedMeansBlamed | src/controller.rs:132-171 | a window is Congested exactly when its loss is over 0.02 above the baseline, answers held up, and it improved or is the first not to |
| LossJudging.BaselineIsTheLeastLossSince | src/controller.rs:125-171 | after any run of windows there is a baseline exactly if some window was a Baseline, and it is the least loss from the last such window on |
| LossJudging.BaselineFollowsTheLossDown | src/controller.rs:126-130 | without a Baseline verdict a baseline is the least of itself and every loss since |
| LossJudging.CongestionIsJudgedAgainstTheLeast | src/controller.rs:126-136 | after a Clear window with no Baseline since, the next is Congested exactly when it loses over 0.02 more than the least of the old baseline and every loss since |
| LossJudging.EpisodeIsRemembered | src/controller.rs:162-170 | after any run of congested windows the judge holds their least loss, their most delivered, and whether the last failed to improve |
| LossJudging.EpisodeVerdict | src/controller.rs:132-171 | within an episode a window is a Baseline exactly if it delivers under 0.95 of some window before it or fails to improve right after one that failed, and converges exactly if it improves and delivers |
| LossJudging.BestCannotShrinkForever | src/controller.rs:79 | 390 improvements by the required factor would take a loss of one below the threshold |
| LossJudging.BudgetFalls | src/controller.rs:139-171 | every window that is not Clear uses up a budget made of baselines left, improvements left and one stall between improvements |
| LossJudging.ClearIsInevitable | src/controller.rs:125-178 | a judge fed by windows alone cannot call for retreats forever: from any reachable state any 38270 windows with losses in [0,1] contain a Clear, whatever is delivered |
| GlobalBraking.DecideIsSafe | src/controller.rs:800-839 | a judged window keeps the limit between the floor and the ceiling, a Congested one never raises it, and the interval is never shorter than the ceiling's |
| GlobalBraking.LimitIsAlwaysSafe | src/controller.rs:751-839 | over any run of ticks the limiter's interval is that of the limit, or of the ceiling when there is none, and never shorter than the ceiling's |
| GlobalBraking.HeldExactlyOverHalf | src/controller.rs:818-838 | without congestion a standing limit is held exactly while over half fails, and otherwise grows by a quarter or is released at the ceiling |
| GlobalBraking.CutExactlyOnBlame | src/controller.rs:751-816 | in every reachable state a tick introduces or lowers the limit exactly when it closes a window the judge blames on the rate and the limit is above the floor |
| GlobalBraking.FirstCutIsAFailureShare | src/controller.rs:751-816 | before any window was judged that is: at least 100 finished queries, more than one in fifty failed |
| GlobalBraking.AttemptsDoNotDecide | src/controller.rs:751-816 | the number of attempts never decides whether the rate is cut, and under a standing limit not where it lands either |
| GlobalBraking.NothingIsLostOrCountedTwice | src/controller.rs:751-786 | over any run the judged windows and the open one add up to everything that happened; every judged window has at least 100 completions, the open one fewer |
| GlobalBraking.SignalEqualsCounters | src/controller.rs:751-786 | from a fresh brake those totals are the outcome counters as last read, the attempts dispatched and the seconds elapsed |
| GlobalBraking.MeasureIsTheTally | src/controller.rs:779-806 | loss times completions are the failures, delivered times seconds the completions that did not fail, observed times seconds the attempts |
| GlobalBraking.RecoveryIsExact | src/controller.rs:818-838 | while nothing is Congested the limit is its starting value grown once per window with at most half lost |
| GlobalBraking.GrowthCompounds | src/controller.rs:828-838 | n growths release a limit exactly when the limit times 1.25 to the n reaches the ceiling, and otherwise leave that product |
| GlobalBraking.ConstantLossIsLearned | src/controller.rs:125-171 | a fresh judge calls a constant loss Congested only in its first two windows |
| GlobalBraking.UnfixableLossCostsTwoRetreats | src/controller.rs:800-838 | constant loss above the threshold, whatever is delivered, costs at most two retreats; afterwards every window raises the limit until released if at most half is lost, and holds it otherwise |
| Capacity.RetreatVisiblyHelps | src/controller.rs:72-79 | a retreat that stays above the capacity lowers the loss by more than the judge demands exactly when it starts below 317/17 times the capacity |
| Capacity.LoopStep | src/controller.rs:751-839 | in closed loop, within reach, a window above the knee retreats by 0.85, one at or below it grows by 1.25, and neither is a baseline |
| Capacity.CapacityIsFoundAndHeld | src/controller.rs:751-839 | from every standing limit, and every offered load above the knee, below 6340/289 times the capacity the limit comes to (0.85 C/0.98, 1.25 C/0.98] without a baseline and stays there forever: from above the knee by at most 19 equal retreats that bring the loss within the threshold, from below by the least number of growths, from within at once |
| Capacity.CarriedLoadIsNeverLimited | src/controller.rs:824-826 | a load the path carries leaves the brake untouched, every window Clear |
| Capacity.LowLimitClimbsIntoTheBand | src/controller.rs:828-838 | a limit left below the band climbs by a quarter per Clear window, for exactly the least n with limit times 1.25 to the n above 0.85 C/0.98, and is held in the band forever after |
| Capacity.BeyondReachIsStuck | src/controller.rs:800-826 | from further out the third window is a baseline with over nine tenths lost, and from then on every window is Clear and leaves the limit at 0.7225 of the start |
| Capacity.FoundExactlyWithinReach | src/controller.rs:751-839 | the capacity is found and held exactly from starts below 6340/289 times the capacity |
| ResolverLanes.RelaxingIsIdle | src/controller.rs:718-741 | relaxing changes nothing unless it expires the edge, which frees the resolver and ends the episode |
| ResolverLanes.RelaxingClimbs | src/controller.rs:736-740 | on any interval a pace below the target climbs by a quarter at most and never past the target, and any other stays |
| ResolverLanes.OnlyCongestionLeavesAStep | src/controller.rs:634-654 | a window that is not Congested leaves no step pending |
| ResolverLanes.EdgeFollowsShapedWindows | src/controller.rs:658-688 | the edge is lowered to the own rate exactly by converging windows at 0.85 of it or more after a real step; a step is a target below 0.925 of the rate, and what it replaced is remembered |
| ResolverLanes.TickKeepsInv | src/controller.rs:571-694 | every tick keeps the interval equal to that of 0.85 of the edge, floored at one, and the pending undo consistent |
| ResolverLanes.PacingIsAFunctionOfTheEdge | src/controller.rs:634-694 | in every reachable state a resolver's interval is its edge's, or unlimited without one |
| ResolverLanes.OnlyExpiryOrUndoSpeedsUp | src/controller.rs:634-741 | a resolver's interval shrinks only when its edge expires or a stepped retreat is undone |
| ResolverLanes.BaselineRestoresTheEdge | src/controller.rs:640-654 | a Baseline after a stepped retreat and any relaxing ticks restores exactly the edge and interval from before that retreat |
| ResolverLanes.ExpiryForbidsBaseline | src/controller.rs:723-734 | an edge that expires with nothing judged since makes the next verdict anything but Baseline |
| ResolverLanes.EveryBaselineRestores | src/controller.rs:634-694 | in every run from a fresh lane a Baseline goes back to a last congested window with only relaxing ticks and no expiry since, and undoes its step exactly |
| LaneAccounts.NothingIsLostOrCountedTwice | src/controller.rs:574-625 | over any run with counters that do not run backwards the windows judged, those given up and the open one add up to what the counters and the clock say, in attempts, losses, answers and seconds |
| LaneAccounts.WindowsEqualCounters | src/controller.rs:574-625 | from a fresh lane those totals are the counters as last read |
| LaneAccounts.WindowsAreLongAndFull | src/controller.rs:608-625 | a judged window lasts a timeout and has a hundred attempts, one given up has fewer after five timeouts, an open one is neither |
| LaneAccounts.ViewIsWhatWasCounted | src/controller.rs:627-633 | the judge sees losses over attempts, at most one, and answers per second |
| LaneEpisodes.TickMovesJudge | src/controller.rs:634-741 | a tick feeds the judge the window it closes, and only an edge expiring between judgements ends an episode otherwise |
| LaneEpisodes.RetreatsNeedExpiries | src/controller.rs:571-741 | a run of a resolver without a Clear judges at most 38269 windows, and 38269 more for every episode an expiring edge cut short |
| LaneEpisodes.ExpiriesKeepRetreatsGoing | src/controller.rs:723-734 | for every n a run of half-second ticks in which n windows are judged, edges expiring in between, and all n are Congested |
| LaneEpisodes.FixedShareCostsTwoRetreats | src/controller.rs:72-79 | a resolver losing a fixed share is Congested at most in its first two judged windows, if no episode is cut short |
| LaneEpisodes.OnlyCostlyStepsAreTakenBack | src/controller.rs:640-654 | in every run a Baseline undoes a step exactly when one is pending, and then answers fell; a Baseline whose window paid finds no step pending and leaves edge and interval alone |
| LaneEpisodes.StallForgetsTheStep | src/controller.rs:658-688 | in every run a congested window that does not improve leaves edge and interval alone and no step pending |
| LaneEpisodes.SecondLossSettles | src/controller.rs:640-688 | the first instance: at the second window of an unmoved loss a retreat that cost answers is a Baseline that restores edge and interval; otherwise edge and interval stay and the step is forgotten |
| LaneEpisodes.SecondStallIsLearned | src/controller.rs:640-654 | a second stall in a row, whatever the losses, is a Baseline at its own loss that undoes nothing |
| LaneEpisodes.LearnedLossKeepsItsEdge | src/controller.rs:635-741 | from then on edge, interval and judge stay as they are while the edge is younger than thirty seconds |
| LaneEpisodes.LearnedLossWaitsForExpiry | src/controller.rs:718-734 | the first tick at thirty seconds frees the resolver |
| LaneCapacity.NextWindow | src/controller.rs:661-688 | in closed loop a shaped window above the knee is converging and lowers the edge to the rate it was driven at |
| LaneCapacity.ResolverFindsItsCapacity | src/controller.rs:571-741 | from a first observation whose retreat reaches the knee or improves the loss by what the judge demands, nanosecond rounding included, at most 20 retreats and no baseline bring the loss within the threshold; the pace then stays in (0.84 C/0.98, C/0.98] while the edge is younger than thirty seconds |
| LaneCapacity.HeldUntilExpiry | src/controller.rs:635-741 | once found every window is Clear and edge and interval stay exactly as they are |
| LaneCapacity.ResolverMissesItsCapacity | src/controller.rs:640-688 | from any other first observation above the knee the resolver stays paced one retreat below it, above the knee, while the edge lives |
| Control.AdaptiveController.constructor | src/controller.rs:512-540 | a new controller is valid, with fresh lanes and brakes |
| Control.AdaptiveController.Relax | src/controller.rs:718-741 | only the one lane changes: an edge of 30 seconds expires and frees its resolver, any other is climbed toward |
| Control.AdaptiveController.TickLane | src/controller.rs:571-656 | only the one lane changes, by exactly one `Ticked`: gather, judge once the window is long and full enough, then relax, undo or retreat |
| Control.AdaptiveController.Retreat | src/controller.rs:658-688 | the edge is the first observation, the current rate while converging and shaped, or the standing edge; a real step remembers what it replaced |
| Control.AdaptiveController.AdjustGlobal | src/controller.rs:751-788 | outcomes since the last tick join the open window, which closes at 100 completions and then moves the limit |
| Control.AdaptiveController.MoveGlobal | src/controller.rs:790-839 | a Congested window retreats from the standing limit or the observed rate, loss over half holds, anything else grows or releases |
| Control.AdaptiveController.TickLanes | src/controller.rs:566-694 | every lane moves by one tick between valid states, and the totals are those of `TotalsOf` |
| Control.AdaptiveController.TickAttempts | src/controller.rs:696-713 | the attempt brake resettles when the global rate moved, then ticks with at least eight responsive resolvers and is released with fewer |
| Control.AdaptiveController.Tick | src/controller.rs:562-714 | one tick keeps every brake's invariant and moves each by exactly its own step |
| Control.DeadEntriesAreNoEvidence | src/controller.rs:584-589 | resolvers that never answered contribute no loss, no answers and no responsiveness |
| PoolAccounts.SharesAddUp | src/controller.rs:574-590 | a resolver's shares of any run are all its attempts, and all its losses and answers since the last reading that found it silent |
| PoolAccounts.SharesAreTheStatistics | src/controller.rs:574-590 | from a fresh controller they are the resolver's own statistics, timeouts and errors being losses |
| PoolAccounts.TotalsAddUp | src/controller.rs:566-590 | over any run, summing the ticks over the pool or the resolvers over the run comes to the same, field by field |
| PoolAccounts.LongestTimeoutIsTheLongest | src/controller.rs:590 | the longest timeout is one resolver's, and none is longer |
| Control.FewResolversReleaseTheBrake | src/controller.rs:702-713 | with fewer than eight responsive resolvers a tick leaves no attempt limit, and record and window alone |
| Control.BrakeSeesTheTotals | src/controller.rs:696-711 | with eight or more the brake ticks on attempts, losses and answers as totalled, and a window during which the sending rate moved is not recorded |
| Control.LaneKeepsTheControllersTime | src/controller.rs:602-625 | a lane's window grows by the tick, is judged no sooner than its resolver's timeout, and its edge ages by the controller's clock |
| Control.DeadEntriesCutTheGlobalRate | src/controller.rs:9-11 | a pool in which nothing ever answered has its global rate cut by exactly the ticks that close a window the judge blames on the rate, with the limit above the floor |
| Control.HundredDeadEntries | src/controller.rs:751-816 | a hundred dead entries tried once bring a fresh ceiling of 1000 down to 85 |
| Control.GlobalRateIgnoresAnswers | src/controller.rs:566-589 | pools with the same attempts leave the global brake in the same state whatever their resolvers answered or lost, and pools with any attempts agree on whether the rate is cut |
| AttemptBraking.AttemptBrake.SetLimit | src/controller.rs:299-304 | sets limit and pacer to the same floored rate and opens a settling spell |
| AttemptBraking.AttemptBrake.Record | src/controller.rs:442-454 | a sample joins the history and those at the front older than the reference window leave it |
| AttemptBraking.AttemptBrake.IsCongested | src/controller.rs:458-471 | the sorted median comparison gives the majority verdict of `Congested` |
| AttemptBraking.AttemptBrake.BestDeliveredAbove | src/controller.rs:397-402 | the most that any higher rate on record delivered, or zero |
| AttemptBraking.AttemptBrake.Compare | src/controller.rs:397-440 | nothing lower on record starts a probe, congestion cuts or holds and shortens the reference window, anything else grows a standing limit and lengthens the window after a probe |
| AttemptBraking.AttemptBrake.Act | src/controller.rs:369-440 | a window during a probe is recorded and counted down, one the limit did not shape holds or releases it, any other is compared |
| AttemptBraking.AttemptBrake.Tick | src/controller.rs:313-440 | an idle tick ends a probe and drops the window, a long idle starts over, and a full window is thrown away while settling and acted on otherwise |
| AttemptBraking.SortingPermutes | src/controller.rs:468 | sorting the losses only reorders them |
| AttemptBraking.MedianIsMajority | src/controller.rs:468-470 | the median of the sorted losses lies below a bound exactly when strictly more than half of the losses do |
| AttemptBrakeRuns.StepKeepsInv | src/controller.rs:299-440 | in every state limit and pacer rate agree, no limit is below ten, and a running probe restores a valid limit in one or two windows |
| AttemptBrakeRuns.WindowAfterChangeIsNeverJudged | src/controller.rs:363-368 | between a change of limit and the next judged window at least one window is closed and thrown away |
| AttemptBrakeRuns.RecordIsASlidingWindow | src/controller.rs:442-454 | recording leaves exactly the samples no older than the reference window, in time order |
| AttemptBrakeRuns.HistoryIsAChronicle | src/controller.rs:442-454 | in every run on a monotone clock the history stays in time order |
| AttemptBrakeRuns.BandIsNeverCongested | src/controller.rs:458-471 | loss no more than the threshold above everything on record is never congestion |
| AttemptBrakeRuns.SteadyLossIsNeverPaced | src/controller.rs:313-471 | from a fresh brake, with judged losses in a band of 0.03, there is no limit whenever no probe runs, no probe restores one, and the reference window never shrinks without a long idle |
| AttemptEvidence.OpenWindowIsItsTicks | src/controller.rs:344-350 | an open window holds exactly what its ticks saw |
| AttemptEvidence.WindowClosesLongAndFull | src/controller.rs:323-356 | a tick is idle under 20 attempts a second, and any other closes the window exactly at 500 finished attempts and four timeouts |
| AttemptEvidence.JudgedWindowIsItsTicks | src/controller.rs:344-362 | a judged window has the loss, rates and time its ticks saw since the last closed or idle one, and is shaped exactly without a limit, with somebody waiting on every tick, or at 0.95 of the limit |
| AttemptEvidence.UnshapedWindowHoldsOrReleases | src/controller.rs:386-395 | an unshaped window outside a probe keeps limit L exactly when it loses over 0.03 and strictly more than half of the samples at 0.6 L or less lost over 0.03 less; otherwise it leaves none; the record stays |
| AttemptEvidence.ShapedWindowOutcome | src/controller.rs:397-440 | any other window outside a probe, by the same counts: nothing comparable starts a probe at half the rate; congestion cuts to 0.85 unless a higher rate delivered over a quarter more, and shortens the record; anything else grows by 1.05 and doubles the record after a probe |
| AttemptEvidence.LongIdleStartsOver | src/controller.rs:322-343 | the first busy tick after n idle ones forgets limit and record exactly if n of its length make sixty seconds, and opens a window that is not judged |
| AttemptEvidence.IdleTicksSaturate | src/controller.rs:327 | the count of idle ticks saturates at 32 bits |
| AttemptEvidence.MeasuredProbeLeavesItsMark | src/controller.rs:371-384 | a probe marks the brake only if measured to its last window |
| Probes.ProbeIsLimitNeutral | src/controller.rs:322-384 | a probe runs until its second judged window or the first idle tick and leaves exactly the limit from before it |
| Probes.ProbeIsFollowedByAComparison | src/controller.rs:371-415 | after a probe, even one released midway, the next judged window is compared and starts no other probe while the last sample is on record, if that sample is clearly below the rate compared; the rate compared is the standing limit unless it was released since |
| Probes.ProbesOnlyForWantOfEvidence | src/controller.rs:386-415 | outside a probe a judged window starts one exactly when the limit shaped it and nothing on record is clearly below its rate |
| Probes.CutIsTheRetreatShare | src/controller.rs:428-435 | in every reachable state a cut lands at exactly 0.85 of the measured rate, the floor never interfering |
| Probes.CutOutweighsOneClearWindow | src/controller.rs:223-226 | in every reachable state, after a cut and events that judge and release nothing, the next window shaped by the limit leaves it below the rate of the cut |
| Probes.CutNeverCostsAnswers | src/controller.rs:420-435 | a cut is made only when answers are at least 0.8 of what any higher rate on record delivered |
| PacedProbes.PacerStaysWithin | src/limiter.rs:170-196 | over any stretch of a run the pacer lets through less than the slack, a bucketful and one token, plus the rate times the time |
| PacedProbes.JudgedRateIsMeasurable | src/controller.rs:323-363 | behind the pacer a window at a limit r is judged only if (20 - r) times four timeouts is below the slack |
| PacedProbes.EvidenceIsMeasurable | src/controller.rs:299-454 | in every run behind the pacer every sample on record has such a rate and every standing limit is at least 17/12 of one; with a slack of two and timeouts from half a second up, above 19 and above 26.9 |
| PacedProbes.SlowProbeMeasuresNothing | src/controller.rs:322-384 | a probe at a slower rate lasts less than the slack over its shortfall, ends exactly at an idle tick, records nothing and leaves the limit as it was |
| PacedProbes.SlowProbeEndsAtItsFirstTick | src/controller.rs:322-330 | where one tick falls short by the whole slack the first tick already ends it |
| PacedProbes.ProbeSampleIsLower | src/controller.rs:371-384 | what a probe from a standing limit does measure is clearly below that limit, if 200/17 a second is too slow to be judged |
| PacedProbes.LowLimitIsNotCompared | src/controller.rs:386-415 | a judged window at a limit with nothing that can be judged clearly below it starts a probe if shaped and releases the limit if not |
| PacedProbes.LowLimitIsStuck | src/controller.rs:313-440 | in every run behind the pacer such a limit stands unchanged until an unshaped window, a long idle spell or too few resolvers let go of it |
| StuckLimit.StuckLimitIsReached | src/controller.rs:313-440 | a run of half-second ticks behind the pacer that ends with a standing limit of 31.79, which nothing that can be judged is clearly below |
| AttemptCapacity.CongestedAboveTheKnee | src/controller.rs:458-471 | on a path that loses what exceeds C, with any clearly lower sample on record, a window is congested exactly above C/0.97 |
| AttemptCapacity.ComparisonMoves | src/controller.rs:397-440 | in closed loop a comparison above the knee cuts by 0.85 and one at or below it grows by 1.05 |
| AttemptCapacity.AttemptCapacityIsHeld | src/controller.rs:313-471 | over any run, probes included, the limit that stands moves the same way with every comparison until it is in (0.85 C/0.97, 1.05 C/0.97], and never leaves it again |
| RateLimiting.IntervalFor | src/limiter.rs:44-53 | every positive rate has an interval of at least a nanosecond that fits `u64` |
| RateLimiting.RateLimiter.constructor | src/limiter.rs:36-42 | starts at the interval of the given rate with the cursor at zero |
| RateLimiting.RateLimiter.SetRate | src/limiter.rs:58-61 | stores the interval of the rate and nothing else |
| RateLimiting.RateLimiter.Rate | src/limiter.rs:64-66 | the rate read back is one whose interval is the stored one |
| RateLimiting.IntervalIsAntitone | src/limiter.rs:44-53 | a faster rate never has a longer interval |
| RateLimiting.RateRoundTrip | src/limiter.rs:44-66 | reading a rate and storing it again restores the interval exactly |
| RateLimiting.ClimbToOwnRateIsIdle | src/limiter.rs:44-66 | growing by a quarter toward the rate already stored leaves the interval as it was, rounding included |
| CasPacing.StepKeepsInv | src/limiter.rs:74-109 | every load, clock reading, exchange, check and wake-up keeps the cursor equal to what the wins so far leave |
| CasPacing.CursorGrows | src/limiter.rs:80-93 | the cursor strictly increases with every win until it saturates |
| CasPacing.SuccessMeansNobodyIntervened | src/limiter.rs:84-90 | an exchange that succeeds proves no other caller won since the cursor was loaded |
| CasPacing.SlotsAreSpaced | src/limiter.rs:74-93 | under every interleaving a slot is exactly the later of its own clock reading and the previous slot plus the interval its winner read |
| CasPacing.CallerTakesItsSlot | src/limiter.rs:74-93 | from any reachable world a caller nobody interferes with wins the slot at the later of cursor and clock and moves the cursor an interval past it |
| CasPacing.CallerReturnsAtItsSlot | src/limiter.rs:95-109 | a winner due within a millisecond returns from its check, any other as soon as the clock reaches its slot |
| CasPacing.LostRacesStartOver | src/limiter.rs:80-93 | a failed exchange changes nothing and starts another round with the same interval; a new rate is what the next caller reads |
| CasPacing.DueCallersDoNotSleep | src/limiter.rs:95-109 | a caller whose cursor was not ahead of its clock returns from its check at once |
| CasPacing.SleepersWaitForTheirSlot | src/limiter.rs:95-109 | a caller sleeps exactly when its slot is a millisecond or more away, and wakes no earlier than its slot |
| CasPacing.BacklogIsServedBackToBack | src/limiter.rs:74-93 | at a constant interval wins whose callers had all read the clock by the first slot of them get slots exactly an interval apart |
| CasPacing.ReturnsArePaced | src/limiter.rs:95-109 | at a constant interval any m returned acquires span at least m-1 intervals less a millisecond, despite the skipped sleeps |
| AttemptPacing.AttemptPacer.SetRate | src/limiter.rs:159-162 | stores the rate and clears the carry |
| AttemptPacing.AttemptPacer.AddTokens | src/limiter.rs:181-196 | without a rate every waiter gets a token; with one the whole part of carry plus rate times time is added up to the burst and the fraction is carried |
| AttemptPacing.TokensAreConserved | src/limiter.rs:170-196 | at a fixed rate tokens taken, discarded, held and carried equal those at the start plus what the refills were worth, in every interleaving |
| AttemptPacing.DueIsRateTimesTime | src/limiter.rs:189-191 | what refills are worth is the rate times the seconds they cover |
| AttemptPacing.StaysPaced | src/limiter.rs:189-195 | the carry stays in [0,1) and the tokens at most the larger of those at the start and the burst |
| AttemptPacing.StretchIsPaced | src/limiter.rs:170-196 | over any stretch of a run no more goes out than a bucketful, one token and the rate times the time refilled |
| AttemptPacing.RefillIsExact | src/limiter.rs:189-195 | a refill leaves min(burst, tokens + floor(carry + rate * seconds)) tokens, or what there was if more, and the fraction as carry |
| AttemptPacing.RateIsDelivered | src/limiter.rs:170-196 | over any stretch that never fills the bucket tokens taken and held exceed those at the start plus the rate times the time less one |
| AttemptPacing.BucketIsAHundredthOfASecond | src/limiter.rs:193 | the bucket holds a hundredth of a second's worth, rounded down, and at least one |
| AttemptPacing.WaitersAreAccounted | src/limiter.rs:170-179 | at a set rate waiters are those that entered less those that took a token or were cancelled |
| AttemptPacing.NewRateStartsClean | src/limiter.rs:159-162 | a new rate starts without the old fraction and leaves tokens and waiters alone |
| AttemptPacing.CallersCanAlwaysCome | src/limiter.rs:170-176 | a caller waits at a set rate and goes straight through without one |
| AttemptPacing.FreeRefillIsExact | src/limiter.rs:182-187 | without a rate a refill tops the tokens up to the number of waiters and no further |
| AttemptPacing.ClearingFreesEveryWaiter | src/limiter.rs:182-187 | after the rate is cleared one refill leaves a token for every waiter, and it stays so |
| ResolverHealths.ResolverHealth.constructor | src/health.rs:140-170 | a new resolver is active, with all its permits and all counters zero |
| ResolverHealths.ResolverHealth.TryAcquire | src/health.rs:187-189 | takes a permit exactly when one is free |
| ResolverHealths.ResolverHealth.RecordDispatch | src/health.rs:406-408 | counts an attempt and nothing else |
| ResolverHealths.ResolverHealth.RecordResponse | src/health.rs:413-421 | counts an answer or an empty answer, pardons one consecutive error and takes the round trip into account |
| ResolverHealths.ResolverHealth.RecordRtt | src/health.rs:460-484 | moves the average by an eighth and keeps or restarts the windowed minimum |
| ResolverHealths.ResolverHealth.RecordError | src/health.rs:423-450 | counts a timeout or an error, and the error that reaches the threshold benches the resolver and clears the count |
| ResolverHealths.PurgatoryIsAmortised | src/health.rs:413-458 | over any history of a new resolver threshold times entries plus consecutive is at most the errors, consecutive stays below the threshold, and threshold times entries is at least errors less responses less threshold plus one |
| ResolverHealths.CountersCountTheirKind | src/health.rs:406-428 | each counter counts the records of its own kind over any history |
| ResolverHealths.PressureIsTheLargestExcess | src/health.rs:413-458 | short of a sentence the error pressure is the largest excess of failures over responses on any stretch up to now |
| ResolverHealths.SentenceIsServed | src/health.rs:430-450 | exactly the failure that brings the pressure to the threshold benches the resolver, from then for the sentence whatever is recorded meanwhile, and clears the pressure |
| ResolverHealths.DisabledPurgatoryNeverBenches | src/health.rs:431-436 | with no threshold or a zero sentence nothing is ever benched |
| ResolverHealths.EwmaStaysInRange | src/health.rs:460-469 | the moving average never leaves the range of the round trips it was fed |
| ResolverHealths.EwmaMovesAnEighth | src/health.rs:460-469 | the first round trip is the average and every later one moves it an eighth of the way, give or take a rounding |
| ResolverHealths.RttMinStartsOver | src/health.rs:471-480 | once its window has lapsed the minimum starts over from the newest round trip |
| ResolverHealths.RttMinIsTheLeast | src/health.rs:471-483 | until its window lapses the minimum is the least round trip since it opened |
| ResolverPools.PassVisitsEachOnce | src/health.rs:571-572 | from any cursor a pass visits every resolver exactly once |
| ResolverPools.ResolverPool.Scan | src/health.rs:567-605 | the scan comes back with the first free resolver in rotation, or with the reason there is none |
| ResolverPools.ResolverPool.PassIsDetermined | src/health.rs:560-616 | for every pool exactly one outcome is correct: none active, all active benched, the first free, or the first eligible to wait on |
| ResolverPools.ResolverPool.ReservePass | src/health.rs:560-605 | a pass over a pool that is not empty advances the cursor by one, takes one permit of the first free resolver in rotation, and changes nothing else |
| ResolverPools.ResolverPool.SoonestEligible | src/health.rs:618-626 | the earliest end of a sentence among active resolvers |
| ResolverPools.ResolverPool.BenchedWait | src/health.rs:596-633 | when all active resolvers are benched the wait is not zero, and after it some active resolver is eligible |
| Dispatching.RunKeepsInv | src/worker.rs:84-118 | every worker step keeps the permit, counter and item accounts |
| Dispatching.DispatchIsAccounted | src/worker.rs:84-179 | in every interleaving free permits plus holders are the allowance, and attempts not yet finished are exactly the workers querying, at most the allowance |
| Dispatching.ConcurrencyIsBounded | src/client.rs:226-237 | over the whole pool the queries under way never exceed the number of workers |
| Dispatching.EachItemIsAnsweredOnce | src/worker.rs:85-117 | no item is answered twice, and one is answered exactly when it was submitted and neither queue nor worker still has it |
| Dispatching.FirstComeFirstServed | src/worker.rs:85 | in every interleaving the next item received is the oldest one left |
| Dispatching.WorkersKeepToThePool | src/worker.rs:103-113 | in every interleaving workers only wait for, hold or query resolvers of the pool |
| Dispatching.WaitingLeadsToAPermit | src/health.rs:606-616 | a worker that waits is granted a free permit and then holds it, or gives it back and selects again |
| Dispatching.CountersAddUpWhenNobodyQueries | src/health.rs:82-85 | a resolver's outcome counters add up to its attempts exactly when no worker is querying it |
| Dispatching.CountersLagAQueryUnderWay | src/worker.rs:144-160 | a run in which the counters do not add up |
| Caching.SimpleCache.constructor | src/cache.rs:23-32 | an empty cache of at least one slot |
| Caching.SimpleCache.Get | src/cache.rs:34-49 | returns the entry while it has not expired and makes it the most recent, drops it once it has, and leaves the cache alone on a miss |
| Caching.SimpleCache.Contains | src/cache.rs:52-66 | true exactly when a lookup would hit, with the same effect on recency and expiry |
| Caching.SimpleCache.Insert | src/cache.rs:68-90 | a response with a non-zero least TTL becomes the most recent entry for its clamped time, evicting the least recent when full |
| Caching.SmallestTtl | src/cache.rs:69-74 | the least TTL among the answers |
| Caching.HitsAreTheLatestUnexpired | src/cache.rs:34-90 | after any run a hit is the latest insert of that query with a non-zero TTL, still within its clamped time, and the size is at most the capacity |
| Caching.InsertedLivesItsTtl | src/cache.rs:68-90 | an inserted response is found until its least TTL, kept within the limits, has passed, and not after |
| Caching.ExpiredEntriesAreDropped | src/cache.rs:34-49 | a lookup drops its entry exactly if it has expired, and no other entry |
| Caching.RecentEntriesHit | src/cache.rs:34-90 | an entry that was hit or inserted hits again until it expires while fewer distinct other keys than the capacity were hit or inserted since |
| Caching.ZeroTtlIsNotCached | src/cache.rs:75-77 | a response without answers or with a zero TTL leaves the cache as it was, as section 3.2.1 of RFC 1035 asks |
| Clients.Deciding | src/client.rs:268-352 | the first attempt that settles the query, or else the last one allowed |
| Clients.RetriesGoOnWhileOpen | src/client.rs:268-352 | retries go on exactly while attempts are dropped, time out, fail or are declined; an answer, an unusable name, a closed queue or an empty pool ends it |
| Clients.OnlyThePathIsCounted | src/error.rs:58-77 | bad input and a shut-down client are never counted, every other failure counts as completed and failed, every answer as completed |
| Clients.FetchedAnswersAreFound | src/client.rs:318-327 | a fetched answer is what the next lookup of the query finds for as long as its TTLs say; an error or an answer without records leaves only the lookup |
| Clients.HitsFetchNothing | src/client.rs:255-266 | a hit changes only recency, and a host that names no query leaves the cache alone |
| Clients.BlastDNSClient.ResolveFull | src/client.rs:243-353 | returns the cached answer or what the deciding attempt means, counts at most one completion and one failure, keeps failures within completions, and caches what it fetched; the fall-through error is unreachable |

## Left out

- Sockets, DNS clients, the TCP refetch of truncated answers and the startup probe: only the outcome of a query is modelled.
- Tokio's scheduler and timers, relaxed memory ordering, and rounding of `f64` outside the interval conversion.
- Races between the two mutexes of the attempt pacer and between the counters of one `record_*` call: each call is one step.
- The outcome counters read apart: a tick that reads between a query's two increments is not modelled.
- Wrap-around of the selection cursor after 2^64 passes, and of the window's tick counter.
- The Python bindings, the command line, configuration parsing, PTR formatting, resource limits and zone transfer.
- The waits inside `reserve` between passes: one pass over a frozen pool and the sleep after it are modelled, and the worker protocol lets any interleaving follow.
- Cancellation of a caller that waits on the interval limiter.
- Capacity.CapacityIsFoundAndHeld: the path is fluid, so losses and rates are exact shares and every window is driven at exactly the limit; capacities below 1.2 per second, where the floor interferes, and ceilings below 1.28 times the capacity are not covered.
- LaneEpisodes.OnlyCostlyStepsAreTakenBack: stated for observed rates of at most 10^8 queries per second, as is `LaneEpisodes.StallForgetsTheStep`; above that the rounding of the interval to nanoseconds can read as another step.
- LaneCapacity.ResolverFindsItsCapacity: the path is fluid, as for the global brake; first observations above 2 * 10^7 per second and capacities below 1.2 per second are not covered.
- AttemptCapacity.AttemptCapacityIsHeld: the path is fluid; capacities below 200/17 per second, where the floor interferes, and limits above 22 times the capacity are not covered.
- PacedProbes.EvidenceIsMeasurable: that a tick obeys the pacer is an assumption on runs, with the slack as a parameter; `PacedProbes.PacerStaysWithin` is what the pacer's model gives for it. Refills that straddle the ends of a window add up to two milliseconds' worth to the slack.
- AttemptPacing.TokensAreConserved: Tokio hands added permits straight to queued callers, so `available_permits` leaves them out while the callers still count as waiting until they are polled; in the model a token stays in `tokens` until it is taken, and the caller stops waiting in the same step.
- CasPacing.ReturnsArePaced: stated for clocks at least a millisecond short of the end of `u64` nanoseconds, where slots saturate.
