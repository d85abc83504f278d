/**
 * What a tick adds up over the pool, over whole runs: every attempt is counted once, and every loss and
 * answer of a resolver is counted once from the tick on that first saw it answer.
 */
module PoolAccounts {
  import opened Prelude
  import opened Control
  import L = ResolverLanes

  // ---------------------------------------------------------------- one resolver

  /** A resolver's readings over a run do not run backwards. */
  ghost predicate Counting(previous: L.Observation, readings: seq<Stats>)
    decreases readings
  {
    readings != [] ==>
      && previous.attempted <= Observed(readings[0]).attempted
      && previous.lost <= Observed(readings[0]).lost
      && previous.responded <= Observed(readings[0]).responded
      && Counting(Observed(readings[0]), readings[1..])
  }

  /** The counts a tick adds up over the pool. */
  datatype Field = Attempted | Lost | Responded | Responsive

  function Part(t: Totals, f: Field): nat {
    match f
    case Attempted => t.attempted
    case Lost => t.lost
    case Responded => t.responded
    case Responsive => t.responsive
  }

  /** What one resolver contributes to a count over a run of ticks. */
  function ShareOfRun(previous: L.Observation, readings: seq<Stats>, f: Field): nat
    decreases readings
  {
    if readings == [] then 0
    else Part(Share(previous, readings[0]), f) + ShareOfRun(Observed(readings[0]), readings[1..], f)
  }

  function LastReading(previous: L.Observation, readings: seq<Stats>): L.Observation {
    if readings == [] then previous else Observed(readings[|readings| - 1])
  }

  /** The readings by which the resolver had never answered. */
  function SilentReadings(readings: seq<Stats>): (n: nat)
    ensures n <= |readings|
  {
    if readings == [] || readings[0].answered + readings[0].empty > 0 then 0 else 1 + SilentReadings(readings[1..])
  }

  /**
   * A resolver's shares of a run: all its attempts, and all its losses and answers since the last reading
   * that found it silent. It counts as responsive on every tick from then on.
   */
  lemma {:induction false} SharesAddUp(previous: L.Observation, readings: seq<Stats>)
    requires Counting(previous, readings)
    ensures var last, silent := LastReading(previous, readings), SilentReadings(readings);
            && ShareOfRun(previous, readings, Attempted) == last.attempted - previous.attempted
            && ShareOfRun(previous, readings, Lost) == last.lost - LastReading(previous, readings[..silent]).lost
            && ShareOfRun(previous, readings, Responded)
               == last.responded - LastReading(previous, readings[..silent]).responded
            && ShareOfRun(previous, readings, Responsive) == |readings| - silent
    decreases readings
  {
    if readings != [] {
      var first, rest := Observed(readings[0]), readings[1..];
      SharesAddUp(first, rest);
      assert LastReading(previous, readings) == LastReading(first, rest);
      var silent := SilentReadings(readings);
      if first.responded == 0 {
        assert readings[..silent][1..] == rest[..silent - 1];
        assert LastReading(previous, readings[..silent]) == LastReading(first, rest[..silent - 1]);
      } else {
        StillResponsive(first, rest);
      }
    }
  }

  /** From a fresh controller those are the resolver's statistics: losses are timeouts and errors, answers may be empty. */
  lemma {:induction false} SharesAreTheStatistics(readings: seq<Stats>)
    requires Counting(L.FRESH_LANE.previous, readings) && readings != [] && SilentReadings(readings) == 0
    ensures var start, last := L.FRESH_LANE.previous, readings[|readings| - 1];
            && ShareOfRun(start, readings, Attempted) == last.attempted
            && ShareOfRun(start, readings, Lost) == last.timeout + last.error
            && ShareOfRun(start, readings, Responded) == last.answered + last.empty
  {
    SharesAddUp(L.FRESH_LANE.previous, readings);
    assert readings[..0] == [];
  }

  /** A resolver that has answered is never silent again. */
  lemma {:induction false} StillResponsive(previous: L.Observation, readings: seq<Stats>)
    requires Counting(previous, readings) && previous.responded > 0
    ensures SilentReadings(readings) == 0
  {
  }

  // ---------------------------------------------------------------- the whole pool

  /** One tick over the pool. */
  datatype PoolTick = PoolTick(stats: seq<Stats>, seconds: real, now: real)

  /** Every tick reads `n` resolvers. */
  predicate AllRead(ticks: seq<PoolTick>, n: nat) { forall t <- ticks :: |t.stats| == n }

  ghost predicate Fits(lanes: seq<L.Lane>, ticks: seq<PoolTick>) {
    AllRead(ticks, |lanes|) && forall i :: 0 <= i < |lanes| ==> L.Inv(lanes[i])
  }

  /** Every lane moves by its own tick. */
  function Next(lanes: seq<L.Lane>, t: PoolTick): (after: seq<L.Lane>)
    requires |t.stats| == |lanes| && forall i :: 0 <= i < |lanes| ==> L.Sound(lanes[i])
    ensures |after| == |lanes|
    ensures forall i :: 0 <= i < |lanes| ==> after[i] == L.Ticked(lanes[i], LookAt(t.stats[i], t.seconds, t.now))
  {
    seq(|lanes|, i requires 0 <= i < |lanes| => L.Ticked(lanes[i], LookAt(t.stats[i], t.seconds, t.now)))
  }

  lemma {:induction false} FitsAreSound(lanes: seq<L.Lane>, ticks: seq<PoolTick>)
    requires Fits(lanes, ticks)
    ensures forall i :: 0 <= i < |lanes| ==> L.Sound(lanes[i])
  {
    forall i | 0 <= i < |lanes| ensures L.Sound(lanes[i]) { assert L.Inv(lanes[i]); }
  }

  lemma {:induction false} NextFits(lanes: seq<L.Lane>, ticks: seq<PoolTick>)
    requires Fits(lanes, ticks) && ticks != []
    ensures |ticks[0].stats| == |lanes| && forall i :: 0 <= i < |lanes| ==> L.Sound(lanes[i])
    ensures Fits(Next(lanes, ticks[0]), ticks[1..])
    ensures forall i :: 0 <= i < |lanes| ==> Next(lanes, ticks[0])[i].previous == Observed(ticks[0].stats[i])
  {
    var t := ticks[0];
    FitsAreSound(lanes, ticks);
    forall i | 0 <= i < |lanes|
      ensures L.Inv(Next(lanes, t)[i]) && Next(lanes, t)[i].previous == Observed(t.stats[i])
    {
      assert L.Inv(lanes[i]);
      L.TickKeepsInv(lanes[i], LookAt(t.stats[i], t.seconds, t.now));
      TickReads(lanes[i], LookAt(t.stats[i], t.seconds, t.now));
    }
  }

  lemma {:induction false} TickReads(l: L.Lane, k: L.Look)
    requires L.Inv(l)
    ensures L.Ticked(l, k).previous == k.current
  {
  }

  /** A count over a run of ticks, added up. */
  ghost function TotalOfRun(lanes: seq<L.Lane>, ticks: seq<PoolTick>, f: Field): nat
    requires Fits(lanes, ticks)
    decreases ticks
  {
    if ticks == [] then 0
    else
      NextFits(lanes, ticks);
      Part(TotalsOf(lanes, ticks[0].stats, |lanes|), f) + TotalOfRun(Next(lanes, ticks[0]), ticks[1..], f)
  }

  /** One resolver's readings over a run. */
  function Readings(ticks: seq<PoolTick>, i: nat): (readings: seq<Stats>)
    requires forall t <- ticks :: i < |t.stats|
    ensures |readings| == |ticks|
    ensures ticks != [] ==> readings[0] == ticks[0].stats[i] && readings[1..] == Readings(ticks[1..], i)
  {
    if ticks == [] then [] else [ticks[0].stats[i]] + Readings(ticks[1..], i)
  }

  function SumOf(xs: seq<nat>): nat {
    if xs == [] then 0 else SumOf(xs[..|xs| - 1]) + xs[|xs| - 1]
  }

  lemma {:induction false} SumsAdd(whole: seq<nat>, part: seq<nat>, rest: seq<nat>)
    requires |whole| == |part| == |rest| && forall i :: 0 <= i < |whole| ==> whole[i] == part[i] + rest[i]
    ensures SumOf(whole) == SumOf(part) + SumOf(rest)
  {
    if whole != [] {
      var n := |whole| - 1;
      SumsAdd(whole[..n], part[..n], rest[..n]);
    }
  }

  lemma {:induction false} NothingSumsToNothing(xs: seq<nat>)
    requires forall i :: 0 <= i < |xs| ==> xs[i] == 0
    ensures SumOf(xs) == 0
  {
    if xs != [] { NothingSumsToNothing(xs[..|xs| - 1]); }
  }

  /** What each resolver contributes to one tick. */
  function SharesNow(lanes: seq<L.Lane>, stats: seq<Stats>, f: Field): (shares: seq<nat>)
    requires |lanes| == |stats|
    ensures |shares| == |lanes|
    ensures forall i :: 0 <= i < |lanes| ==> shares[i] == Part(Share(lanes[i].previous, stats[i]), f)
  {
    seq(|lanes|, i requires 0 <= i < |lanes| => Part(Share(lanes[i].previous, stats[i]), f))
  }

  /** What each resolver contributes to the whole run. */
  function SharesOfRun(lanes: seq<L.Lane>, ticks: seq<PoolTick>, f: Field): (shares: seq<nat>)
    requires AllRead(ticks, |lanes|)
    ensures |shares| == |lanes|
    ensures forall i :: 0 <= i < |lanes| ==> shares[i] == ShareOfRun(lanes[i].previous, Readings(ticks, i), f)
  {
    seq(|lanes|, i requires 0 <= i < |lanes| => ShareOfRun(lanes[i].previous, Readings(ticks, i), f))
  }

  /** Totals add up field by field. */
  lemma {:induction false} PartOfTotals(lanes: seq<L.Lane>, stats: seq<Stats>, f: Field, n: nat)
    requires 1 <= n <= |lanes| == |stats|
    ensures Part(TotalsOf(lanes, stats, n), f) ==
            Part(TotalsOf(lanes, stats, n - 1), f) + Part(Share(lanes[n - 1].previous, stats[n - 1]), f)
  {
  }

  lemma {:induction false} TotalsAreShares(lanes: seq<L.Lane>, stats: seq<Stats>, f: Field, n: nat)
    requires n <= |lanes| == |stats|
    ensures Part(TotalsOf(lanes, stats, n), f) == SumOf(SharesNow(lanes, stats, f)[..n])
  {
    if n > 0 {
      TotalsAreShares(lanes, stats, f, n - 1);
      PartOfTotals(lanes, stats, f, n);
      assert SharesNow(lanes, stats, f)[..n][..n - 1] == SharesNow(lanes, stats, f)[..n - 1];
    }
  }

  lemma {:induction false} ShareSplits(previous: L.Observation, readings: seq<Stats>, f: Field)
    requires readings != []
    ensures ShareOfRun(previous, readings, f) ==
            Part(Share(previous, readings[0]), f) + ShareOfRun(Observed(readings[0]), readings[1..], f)
  {
  }

  /** The first tick of a run and the rest, resolver by resolver. */
  lemma {:induction false} SharesSplit(lanes: seq<L.Lane>, after: seq<L.Lane>, ticks: seq<PoolTick>, f: Field)
    requires AllRead(ticks, |lanes|) && ticks != [] && |lanes| == |after| == |ticks[0].stats|
    requires forall i :: 0 <= i < |lanes| ==> after[i].previous == Observed(ticks[0].stats[i])
    ensures SumOf(SharesOfRun(lanes, ticks, f)) ==
            SumOf(SharesNow(lanes, ticks[0].stats, f)) + SumOf(SharesOfRun(after, ticks[1..], f))
  {
    var whole, part, rest := SharesOfRun(lanes, ticks, f), SharesNow(lanes, ticks[0].stats, f), SharesOfRun(after, ticks[1..], f);
    forall i | 0 <= i < |lanes| ensures whole[i] == part[i] + rest[i] {
      ShareSplits(lanes[i].previous, Readings(ticks, i), f);
    }
    SumsAdd(whole, part, rest);
  }

  /**
   * What the ticks of a run add up to is what the resolvers contribute, each by its own counters: summing
   * tick by tick over the pool or resolver by resolver over the run comes to the same.
   */
  lemma {:induction false} TotalsAddUp(lanes: seq<L.Lane>, ticks: seq<PoolTick>, f: Field)
    requires Fits(lanes, ticks)
    ensures TotalOfRun(lanes, ticks, f) == SumOf(SharesOfRun(lanes, ticks, f))
    decreases ticks
  {
    if ticks == [] {
      NothingSumsToNothing(SharesOfRun(lanes, ticks, f));
    } else {
      NextFits(lanes, ticks);
      TotalsAddUp(Next(lanes, ticks[0]), ticks[1..], f);
      SharesSplit(lanes, Next(lanes, ticks[0]), ticks, f);
      TotalsAreShares(lanes, ticks[0].stats, f, |lanes|);
      var now := SharesNow(lanes, ticks[0].stats, f);
      assert now[..|lanes|] == now;
    }
  }

  /** The longest timeout is one of the resolvers', and none has a longer one. */
  lemma {:induction false} LongestTimeoutIsTheLongest(lanes: seq<L.Lane>, stats: seq<Stats>, n: nat)
    requires n <= |lanes| == |stats| && forall i :: 0 <= i < n ==> stats[i].requestTimeout >= 0.0
    ensures var longest := TotalsOf(lanes, stats, n).longestTimeout;
            && (forall i :: 0 <= i < n ==> stats[i].requestTimeout <= longest)
            && (n > 0 ==> exists i :: 0 <= i < n && stats[i].requestTimeout == longest)
  {
    if n > 0 {
      LongestTimeoutIsTheLongest(lanes, stats, n - 1);
      assert stats[n - 1].requestTimeout >= 0.0;
    }
  }
}
