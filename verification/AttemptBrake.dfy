/**
 * The attempt brake of src/controller.rs: windows of attempts across the pool, judged against what
 * the path lost at clearly lower loads, with probes to find that out.
 *
 * The functions say what each step does to the brake as a value; the class `AttemptBrake` updates its
 * fields in place as the source does and is proved to compute them.
 */
module AttemptBraking {
  import opened Prelude
  import opened AttemptPacing

  const ATTEMPT_WINDOW_TIMEOUTS: real := 4.0
  const ATTEMPT_MIN_WINDOW: nat := 500
  const ATTEMPT_IDLE_QPS: real := 20.0
  const ATTEMPT_LOSS_THRESHOLD: real := 0.03
  const ATTEMPT_REFERENCE_BELOW: real := 0.6
  const ATTEMPT_PROBE_FRACTION: real := 0.5
  const ATTEMPT_PROBE_WINDOWS: nat := 2
  const ATTEMPT_REFERENCE_WINDOW: real := 60.0
  const ATTEMPT_MAX_REFERENCE_WINDOW: real := 480.0
  const ATTEMPT_GOODPUT_FLOOR: real := 0.8
  const ATTEMPT_SHAPED_FRACTION: real := 0.95
  const ATTEMPT_MIN_RATE: real := 10.0
  const ATTEMPT_GROWTH: real := 1.05
  const ATTEMPT_RETREAT: real := 0.85

  /** What a full window is remembered by: when it closed, its rate, its share lost, its answers per second. */
  datatype Sample = Sample(at: real, rate: real, loss: real, delivered: real)

  /** A spell at reduced rate: the limit it puts back when it ends, and how many windows it still measures. */
  datatype Probe = Probe(restore: Option<real>, windows: nat)

  datatype BrakeState = BrakeState(
    limit: Option<real>,
    pacerRate: Option<real>,
    lost: nat,
    responded: nat,
    dispatched: nat,
    seconds: real,
    unshapedTicks: nat,
    settling: bool,
    idleTicks: nat,
    history: seq<Sample>,
    referenceWindow: real,
    probe: Option<Probe>,
    probed: bool)

  const FRESH_BRAKE :=
    BrakeState(None, None, 0, 0, 0, 0.0, 0, true, 0, [], ATTEMPT_REFERENCE_WINDOW, None, false)

  /** One controller tick as the brake sees it. */
  datatype Look = Look(
    seconds: real, attempted: nat, lost: nat, responded: nat, longestTimeout: real, now: real, waiting: nat)

  function LimitSet(b: BrakeState, limit: Option<real>): BrakeState {
    var floored := if limit.Some? then Some(Max(limit.value, ATTEMPT_MIN_RATE)) else None;
    b.(limit := floored, pacerRate := floored, settling := true)
  }

  function WindowReset(b: BrakeState): BrakeState {
    b.(lost := 0, responded := 0, dispatched := 0, seconds := 0.0, unshapedTicks := 0)
  }

  // ---------------------------------------------------------------- evidence

  /** Samples still fresh enough, given the oldest is at the front. */
  function DropStale(history: seq<Sample>, now: real, window: real): seq<Sample> {
    if history != [] && now - history[0].at > window then DropStale(history[1..], now, window) else history
  }

  function Recorded(b: BrakeState, s: Sample): BrakeState {
    b.(history := DropStale(b.history + [s], s.at, b.referenceWindow))
  }

  /** A sample comparable with `rate`: at no more than 0.6 of it. */
  predicate IsLower(s: Sample, rate: real) { s.rate <= rate * ATTEMPT_REFERENCE_BELOW }

  /** The losses of the comparable samples, in order. */
  function LowerLosses(history: seq<Sample>, rate: real): seq<real> {
    if history == [] then []
    else
      var n := |history| - 1;
      LowerLosses(history[..n], rate) + (if IsLower(history[n], rate) then [history[n].loss] else [])
  }

  function CountBelow(losses: seq<real>, bound: real): nat {
    if losses == [] then 0 else (if losses[0] < bound then 1 else 0) + CountBelow(losses[1..], bound)
  }

  /**
   * Congestion by majority: most of the comparable samples, those at 0.6 of the rate or less, lost less
   * by over the threshold. Without a comparable sample there is no answer.
   */
  function Congested(history: seq<Sample>, rate: real, loss: real): Option<bool> {
    var lower := LowerLosses(history, rate);
    if lower == [] then None
    else Some(loss > ATTEMPT_LOSS_THRESHOLD && 2 * CountBelow(lower, loss - ATTEMPT_LOSS_THRESHOLD) > |lower|)
  }

  /** The most answers per second a higher rate delivered, as far as is on record. */
  function BestHigher(history: seq<Sample>, rate: real): real {
    if history == [] then 0.0
    else
      var n := |history| - 1;
      var best := BestHigher(history[..n], rate);
      if history[n].rate > rate then Max(best, history[n].delivered) else best
  }

  // ---------------------------------------------------------------- one tick

  predicate IsIdle(k: Look) { k.attempted as real < ATTEMPT_IDLE_QPS * k.seconds }

  /** Nothing to learn: a running probe is given up and the window starts over. */
  function Idled(b: BrakeState): BrakeState {
    var b := if b.probe.Some? then LimitSet(b.(probe := None), b.probe.value.restore) else b;
    WindowReset(b.(idleTicks := if b.idleTicks < U32_MAX then b.idleTicks + 1 else U32_MAX))
  }

  /** An idle spell long enough to start over from scratch. */
  predicate LongIdle(b: BrakeState, k: Look) {
    b.idleTicks > 0 && k.seconds * b.idleTicks as real >= ATTEMPT_REFERENCE_WINDOW
  }

  function Woken(b: BrakeState, k: Look): BrakeState {
    if b.idleTicks == 0 then b
    else
      var woken := b.(idleTicks := 0, settling := true);
      if LongIdle(b, k) then
        LimitSet(woken.(history := [], referenceWindow := ATTEMPT_REFERENCE_WINDOW, probed := false), None)
      else woken
  }

  function Filled(b: BrakeState, k: Look): BrakeState {
    var b := Woken(b, k);
    b.(lost := b.lost + k.lost,
       responded := b.responded + k.responded,
       dispatched := b.dispatched + k.attempted,
       seconds := b.seconds + k.seconds,
       unshapedTicks := b.unshapedTicks + (if k.waiting == 0 then 1 else 0))
  }

  predicate IsFull(b: BrakeState, longestTimeout: real) {
    b.lost + b.responded >= ATTEMPT_MIN_WINDOW && b.seconds >= longestTimeout * ATTEMPT_WINDOW_TIMEOUTS
  }

  /** The tick closes a window. */
  predicate Closes(b: BrakeState, k: Look) { !IsIdle(k) && IsFull(Filled(b, k), k.longestTimeout) }

  /** The tick closes a window that is judged rather than thrown away. */
  predicate Measures(b: BrakeState, k: Look) { Closes(b, k) && !Filled(b, k).settling }

  /** A closed window: what was sent, lost and answered, and whether the limit set the rate. */
  datatype Measure = Measure(sample: Sample, shaped: bool)

  function Measured(b: BrakeState, now: real): Measure
    requires b.seconds > 0.0 && b.lost + b.responded > 0
  {
    var rate := b.dispatched as real / b.seconds;
    Measure(
      Sample(now, rate, b.lost as real / (b.lost + b.responded) as real, b.responded as real / b.seconds),
      b.limit.Some? ==> b.unshapedTicks == 0 || rate >= b.limit.value * ATTEMPT_SHAPED_FRACTION)
  }

  /** A measured window counts at the limit when there is one. */
  function AtLimit(b: BrakeState, s: Sample): Sample { s.(rate := UnwrapOr(b.limit, s.rate)) }

  function ProbeMeasured(b: BrakeState, s: Sample): BrakeState
    requires b.probe.Some?
  {
    var probe := b.probe.value;
    var r := Recorded(b.(probe := None), s);
    if probe.windows > 1 then r.(probe := Some(Probe(probe.restore, probe.windows - 1)))
    else LimitSet(r, probe.restore).(probed := true)
  }

  function Compared(b: BrakeState, s: Sample): BrakeState {
    var best := BestHigher(b.history, s.rate);
    var r := Recorded(b, s);
    match Congested(r.history, s.rate, s.loss)
    case None =>
      LimitSet(r.(probe := Some(Probe(r.limit, ATTEMPT_PROBE_WINDOWS))), Some(s.rate * ATTEMPT_PROBE_FRACTION))
    case Some(congested) =>
      var window :=
        if congested then ATTEMPT_REFERENCE_WINDOW
        else if r.probed then Min(r.referenceWindow * 2.0, ATTEMPT_MAX_REFERENCE_WINDOW)
        else r.referenceWindow;
      var r := r.(probed := false, referenceWindow := window);
      if congested then
        if s.delivered < best * ATTEMPT_GOODPUT_FLOOR then r else LimitSet(r, Some(s.rate * ATTEMPT_RETREAT))
      else if r.limit.Some? then LimitSet(r, Some(r.limit.value * ATTEMPT_GROWTH))
      else r
  }

  /** What a judged window does. */
  function Acted(b: BrakeState, m: Measure): BrakeState {
    var s := AtLimit(b, m.sample);
    if b.probe.Some? then ProbeMeasured(b, s)
    else if b.limit.Some? && !m.shaped then
      if Congested(b.history, s.rate, s.loss) == Some(true) then b else LimitSet(b, None)
    else Compared(b, s)
  }

  /** A full window is thrown away after a change of rate and acted on otherwise. */
  function Judged(b: BrakeState, now: real): BrakeState
    requires b.seconds > 0.0 && b.lost + b.responded > 0
  {
    var closed := WindowReset(b).(settling := false);
    if b.settling then closed else Acted(closed, Measured(b, now))
  }

  function Ticked(b: BrakeState, k: Look): BrakeState
    requires b.seconds >= 0.0 && k.seconds > 0.0
  {
    if IsIdle(k) then Idled(b)
    else if !IsFull(Filled(b, k), k.longestTimeout) then Filled(b, k)
    else Judged(Filled(b, k), k.now)
  }

  // ---------------------------------------------------------------- the median is a majority

  predicate Ascending(s: seq<real>) { forall i, j :: 0 <= i < j < |s| ==> s[i] <= s[j] }

  function Inserted(x: real, s: seq<real>): (r: seq<real>)
    requires Ascending(s)
    ensures Ascending(r) && |r| == |s| + 1
    ensures forall i :: 0 <= i < |r| ==> r[i] == x || r[i] in s
  {
    if s == [] || x <= s[0] then [x] + s else [s[0]] + Inserted(x, s[1..])
  }

  /** `sort_by(f64::total_cmp)`. */
  function Sorted(s: seq<real>): (r: seq<real>)
    ensures Ascending(r) && |r| == |s|
  {
    if s == [] then [] else Inserted(s[0], Sorted(s[1..]))
  }

  lemma {:induction false} InsertingPermutes(x: real, s: seq<real>)
    requires Ascending(s)
    ensures multiset(Inserted(x, s)) == multiset(s) + multiset{x}
  {
    if s != [] && x > s[0] {
      InsertingPermutes(x, s[1..]);
      assert s == [s[0]] + s[1..];
    }
  }

  /** Sorting only reorders. */
  lemma {:induction false} SortingPermutes(s: seq<real>)
    ensures multiset(Sorted(s)) == multiset(s)
  {
    if s != [] {
      SortingPermutes(s[1..]);
      InsertingPermutes(s[0], Sorted(s[1..]));
      assert s == [s[0]] + s[1..];
    }
  }

  lemma {:induction false} InsertingCounts(x: real, s: seq<real>, bound: real)
    requires Ascending(s)
    ensures CountBelow(Inserted(x, s), bound) == (if x < bound then 1 else 0) + CountBelow(s, bound)
  {
    if s == [] || x <= s[0] {
      assert ([x] + s)[1..] == s;
    } else {
      InsertingCounts(x, s[1..], bound);
      assert ([s[0]] + Inserted(x, s[1..]))[1..] == Inserted(x, s[1..]);
    }
  }

  lemma {:induction false} SortingCounts(s: seq<real>, bound: real)
    ensures CountBelow(Sorted(s), bound) == CountBelow(s, bound)
  {
    if s != [] {
      SortingCounts(s[1..], bound);
      InsertingCounts(s[0], Sorted(s[1..]), bound);
    }
  }

  /** In ascending order, element `k` is below a bound exactly when more than `k` elements are. */
  lemma {:induction false} RankIsCount(s: seq<real>, k: nat, bound: real)
    requires Ascending(s) && k < |s|
    ensures s[k] < bound <==> CountBelow(s, bound) > k
  {
    if s[0] >= bound {
      NoneBelow(s, bound);
    } else if k > 0 {
      RankIsCount(s[1..], k - 1, bound);
    }
  }

  lemma {:induction false} NoneBelow(s: seq<real>, bound: real)
    requires forall i :: 0 <= i < |s| ==> s[i] >= bound
    ensures CountBelow(s, bound) == 0
  {
    if s != [] { NoneBelow(s[1..], bound); }
  }

  /** The median of the sorted losses lies below a bound exactly when most of the losses do. */
  lemma {:induction false} MedianIsMajority(losses: seq<real>, bound: real)
    requires losses != []
    ensures Sorted(losses)[|losses| / 2] < bound <==> 2 * CountBelow(losses, bound) > |losses|
  {
    SortingCounts(losses, bound);
    RankIsCount(Sorted(losses), |losses| / 2, bound);
  }

  // ---------------------------------------------------------------- the brake in place

  class AttemptBrake {
    const pacer: AttemptPacer
    var limit: Option<real>
    var lost: nat
    var responded: nat
    var dispatched: nat
    var seconds: real
    var unshapedTicks: nat
    var settling: bool
    var idleTicks: nat
    var history: seq<Sample>
    var referenceWindow: real
    var probe: Option<Probe>
    var probed: bool

    ghost function State(): BrakeState reads this, pacer {
      BrakeState(limit, pacer.rate, lost, responded, dispatched, seconds, unshapedTicks, settling, idleTicks,
                 history, referenceWindow, probe, probed)
    }

    constructor (pacer: AttemptPacer)
      requires pacer.rate.None?
      ensures this.pacer == pacer && State() == FRESH_BRAKE
    {
      this.pacer := pacer;
      limit, lost, responded, dispatched, seconds, unshapedTicks := None, 0, 0, 0, 0.0, 0;
      settling, idleTicks, history := true, 0, [];
      referenceWindow, probe, probed := ATTEMPT_REFERENCE_WINDOW, None, false;
    }

    method SetLimit(limit: Option<real>)
      modifies this, pacer
      ensures State() == LimitSet(old(State()), limit) && pacer.waiting == old(pacer.waiting)
    {
      var floored := if limit.Some? then Some(Max(limit.value, ATTEMPT_MIN_RATE)) else None;
      this.limit := floored;
      pacer.SetRate(floored);
      settling := true;
    }

    method ResetWindow()
      modifies this
      ensures State() == WindowReset(old(State()))
    {
      lost, responded, dispatched, seconds, unshapedTicks := 0, 0, 0, 0.0, 0;
    }

    method Record(s: Sample)
      modifies this
      ensures State() == Recorded(old(State()), s)
    {
      history := history + [s];
      ghost var all := history;
      while history != [] && s.at - history[0].at > referenceWindow
        invariant State() == old(State()).(history := history)
        invariant DropStale(history, s.at, referenceWindow) == DropStale(all, s.at, referenceWindow)
        decreases |history|
      {
        history := history[1..];
      }
    }

    method CollectLower(rate: real) returns (lower: seq<real>)
      ensures lower == LowerLosses(history, rate)
    {
      lower := [];
      for i := 0 to |history|
        invariant lower == LowerLosses(history[..i], rate)
      {
        assert history[..i + 1][..i] == history[..i];
        if history[i].rate <= rate * ATTEMPT_REFERENCE_BELOW {
          lower := lower + [history[i].loss];
        }
      }
      assert history[..|history|] == history;
    }

    method IsCongested(rate: real, loss: real) returns (r: Option<bool>)
      ensures r == Congested(history, rate, loss)
    {
      var lower := CollectLower(rate);
      if |lower| == 0 {
        return None;
      }
      var reference := Sorted(lower)[|lower| / 2];
      MedianIsMajority(lower, loss - ATTEMPT_LOSS_THRESHOLD);
      return Some(loss > ATTEMPT_LOSS_THRESHOLD && loss > reference + ATTEMPT_LOSS_THRESHOLD);
    }

    method BestDeliveredAbove(rate: real) returns (best: real)
      ensures best == BestHigher(history, rate)
    {
      best := 0.0;
      for i := 0 to |history|
        invariant best == BestHigher(history[..i], rate)
      {
        assert history[..i + 1][..i] == history[..i];
        if history[i].rate > rate {
          best := Max(best, history[i].delivered);
        }
      }
      assert history[..|history|] == history;
    }

    method Act(m: Measure)
      modifies this, pacer
      ensures State() == Acted(old(State()), m)
    {
      var s := m.sample.(rate := UnwrapOr(limit, m.sample.rate));
      if probe.Some? {
        var running := probe.value;
        probe := None;
        Record(s);
        if running.windows > 1 {
          probe := Some(running.(windows := running.windows - 1));
        } else {
          SetLimit(running.restore);
          probed := true;
        }
        return;
      }
      if limit.Some? && !m.shaped {
        var held := IsCongested(s.rate, s.loss);
        if held != Some(true) {
          SetLimit(None);
        }
        return;
      }
      Compare(s);
    }

    method Compare(s: Sample)
      modifies this, pacer
      ensures State() == Compared(old(State()), s)
    {
      var bestHigher := BestDeliveredAbove(s.rate);
      Record(s);
      var evidence := IsCongested(s.rate, s.loss);
      if evidence.None? {
        probe := Some(Probe(limit, ATTEMPT_PROBE_WINDOWS));
        SetLimit(Some(s.rate * ATTEMPT_PROBE_FRACTION));
        return;
      }
      var justProbed := probed;
      probed := false;
      if justProbed && !evidence.value {
        referenceWindow := Min(referenceWindow * 2.0, ATTEMPT_MAX_REFERENCE_WINDOW);
      }
      if evidence.value {
        referenceWindow := ATTEMPT_REFERENCE_WINDOW;
        if s.delivered < bestHigher * ATTEMPT_GOODPUT_FLOOR {
          return;
        }
        SetLimit(Some(s.rate * ATTEMPT_RETREAT));
        return;
      }
      if limit.Some? {
        SetLimit(Some(limit.value * ATTEMPT_GROWTH));
      }
    }

    method Wake(tick: real, ghost k: Look)
      requires k.seconds == tick
      modifies this, pacer
      ensures State() == Woken(old(State()), k)
      ensures pacer.waiting == old(pacer.waiting)
    {
      if idleTicks > 0 {
        var idle := tick * idleTicks as real;
        idleTicks := 0;
        settling := true;
        if idle >= ATTEMPT_REFERENCE_WINDOW {
          history := [];
          referenceWindow := ATTEMPT_REFERENCE_WINDOW;
          probed := false;
          SetLimit(None);
        }
      }
    }

    method Close(now: real)
      requires seconds > 0.0 && lost + responded > 0
      modifies this, pacer
      ensures State() == Judged(old(State()), now)
    {
      var rate := dispatched as real / seconds;
      var sample := Sample(now, rate, lost as real / (lost + responded) as real, responded as real / seconds);
      var shaped := limit.Some? ==> unshapedTicks == 0 || rate >= limit.value * ATTEMPT_SHAPED_FRACTION;
      ResetWindow();
      var wasSettling := settling;
      settling := false;
      if wasSettling {
        return;
      }
      Act(Measure(sample, shaped));
    }

    method Tick(tick: real, attempted: nat, lost: nat, responded: nat, longestTimeout: real, now: real)
      requires seconds >= 0.0 && tick > 0.0
      modifies this, pacer
      ensures State() == Ticked(old(State()),
                                Look(tick, attempted, lost, responded, longestTimeout, now, old(pacer.waiting)))
    {
      ghost var k := Look(tick, attempted, lost, responded, longestTimeout, now, pacer.waiting);
      if attempted as real < ATTEMPT_IDLE_QPS * tick {
        if probe.Some? {
          var restore := probe.value.restore;
          probe := None;
          SetLimit(restore);
        }
        idleTicks := if idleTicks < U32_MAX then idleTicks + 1 else U32_MAX;
        ResetWindow();
        return;
      }
      Wake(tick, k);
      this.lost := this.lost + lost;
      this.responded := this.responded + responded;
      dispatched := dispatched + attempted;
      seconds := seconds + tick;
      if pacer.waiting == 0 {
        unshapedTicks := unshapedTicks + 1;
      }
      assert State() == Filled(old(State()), k);
      var finished := this.lost + this.responded;
      if finished < ATTEMPT_MIN_WINDOW || seconds < longestTimeout * ATTEMPT_WINDOW_TIMEOUTS {
        return;
      }
      Close(now);
    }
  }
}
