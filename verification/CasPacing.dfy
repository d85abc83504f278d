/**
 * The lock-free `RateLimiter::acquire` of src/limiter.rs, run by any number of callers at once over one
 * monotone clock: every load, clock reading and compare-exchange is a step of its own.
 */
module CasPacing {
  import opened Prelude
  import opened RateLimiting

  const SUB_MS_SKIP_THRESHOLD_NS: nat := 1_000_000

  /** A successful compare-exchange: the slot handed out, the interval it used, its clock reading, its caller. */
  datatype Win = Win(slot: nat, interval: nat, now: nat, caller: nat)

  /**
   * Where a caller stands in `acquire`. `seen` is not part of the program: it is how many wins there
   * had been when the cursor was loaded.
   */
  datatype Phase =
    | Away
    | Entered(interval: nat)
    | Loaded(interval: nat, cursor: nat, seen: nat)
    | Timed(interval: nat, cursor: nat, seen: nat, now: nat)
    | Won(index: nat)
    | Sleeping(index: nat)

  datatype World = World(
    clock: nat, interval: nat, cursor: nat, phases: seq<Phase>, wins: seq<Win>, returned: set<nat>)

  datatype Action =
    | Advance(clock: nat)
    | SetRate(qps: real)
    | Begin(caller: nat)
    | Load(caller: nat)
    | ReadClock(caller: nat)
    | Exchange(caller: nat, spurious: bool)
    | Check(caller: nat)
    | Wake(caller: nat)

  predicate Enabled(w: World, a: Action) {
    match a
    case Advance(clock) => w.clock <= clock <= U64_MAX
    case SetRate(qps) => qps > 0.0
    case Begin(c) => c < |w.phases| && w.phases[c].Away?
    case Load(c) => c < |w.phases| && w.phases[c].Entered?
    case ReadClock(c) => c < |w.phases| && w.phases[c].Loaded?
    case Exchange(c, _) => c < |w.phases| && w.phases[c].Timed?
    case Check(c) => c < |w.phases| && w.phases[c].Won? && w.phases[c].index < |w.wins|
    case Wake(c) =>
      && c < |w.phases| && w.phases[c].Sleeping? && w.phases[c].index < |w.wins|
      && w.clock >= w.wins[w.phases[c].index].slot
  }

  /** The exchange succeeds: the cursor still holds what was loaded, and the weak form does not fail on its own. */
  predicate Succeeds(w: World, a: Action)
    requires a.Exchange? && Enabled(w, a)
  {
    !a.spurious && w.cursor == w.phases[a.caller].cursor
  }

  function Step(w: World, a: Action): World
    requires Enabled(w, a)
  {
    match a
    case Advance(clock) => w.(clock := clock)
    case SetRate(qps) => w.(interval := IntervalFor(qps))
    case Begin(c) => w.(phases := w.phases[c := Entered(w.interval)])
    case Load(c) => w.(phases := w.phases[c := Loaded(w.phases[c].interval, w.cursor, |w.wins|)])
    case ReadClock(c) =>
      var p := w.phases[c];
      w.(phases := w.phases[c := Timed(p.interval, p.cursor, p.seen, w.clock)])
    case Exchange(c, _) =>
      var p := w.phases[c];
      if Succeeds(w, a) then
        w.(cursor := NextCursor(p.cursor, p.now, p.interval),
           wins := w.wins + [Win(Slot(p.cursor, p.now), p.interval, p.now, c)],
           phases := w.phases[c := Won(|w.wins|)])
      else
        w.(phases := w.phases[c := Entered(p.interval)])
    case Check(c) =>
      var index := w.phases[c].index;
      if w.wins[index].slot < w.clock + SUB_MS_SKIP_THRESHOLD_NS then
        w.(phases := w.phases[c := Away], returned := w.returned + {index})
      else
        w.(phases := w.phases[c := Sleeping(index)])
    case Wake(c) =>
      w.(phases := w.phases[c := Away], returned := w.returned + {w.phases[c].index})
  }

  function Start(callers: nat, qps: real): World
    requires qps > 0.0
  {
    World(0, IntervalFor(qps), 0, seq(callers, _ => Away), [], {})
  }

  // ---------------------------------------------------------------- every reachable world

  /** The cursor a sequence of wins leaves. */
  function CursorAfter(wins: seq<Win>): nat {
    if wins == [] then 0 else SatAdd(wins[|wins| - 1].slot, wins[|wins| - 1].interval)
  }

  /** Every slot is its own clock reading, or the cursor the wins before it left if that is later. */
  ghost predicate Spaced(wins: seq<Win>) {
    forall k: nat :: k < |wins| ==> SpacedAt(wins, k)
  }

  ghost predicate SpacedAt(wins: seq<Win>, k: nat)
    requires k < |wins|
  {
    var cursor, win := CursorAfter(wins[..k]), wins[k];
    && win.interval >= 1 && win.slot <= U64_MAX
    && win.slot == (if cursor <= win.now then win.now else cursor)
  }

  ghost predicate PhaseInv(w: World, c: nat, p: Phase) {
    match p
    case Away => true
    case Entered(interval) => interval >= 1
    case Loaded(interval, cursor, seen) =>
      interval >= 1 && seen <= |w.wins| && cursor == CursorAfter(w.wins[..seen])
    case Timed(interval, cursor, seen, now) =>
      interval >= 1 && seen <= |w.wins| && cursor == CursorAfter(w.wins[..seen]) && now <= w.clock
    case Won(index) => index < |w.wins| && w.wins[index].caller == c && index !in w.returned
    case Sleeping(index) => index < |w.wins| && w.wins[index].caller == c && index !in w.returned
  }

  ghost predicate Inv(w: World) {
    && w.interval >= 1
    && w.clock <= U64_MAX
    && w.cursor == CursorAfter(w.wins)
    && Spaced(w.wins)
    && (forall c :: 0 <= c < |w.phases| ==> PhaseInv(w, c, w.phases[c]))
    && (forall i :: 0 <= i < |w.wins| ==> w.wins[i].now <= w.clock)
    && (forall i <- w.returned :: i < |w.wins| && w.wins[i].slot < w.clock + SUB_MS_SKIP_THRESHOLD_NS)
  }

  /** The cursor strictly increases with every win until it reaches the end of time. */
  lemma {:induction false} CursorGrows(wins: seq<Win>, j: nat, k: nat)
    requires Spaced(wins) && j < k <= |wins|
    ensures CursorAfter(wins[..j]) < CursorAfter(wins[..k]) || CursorAfter(wins[..k]) == U64_MAX
    decreases k
  {
    assert wins[..k][|wins[..k]| - 1] == wins[k - 1] && SpacedAt(wins, k - 1);
    if j < k - 1 {
      CursorGrows(wins, j, k - 1);
    }
  }

  /**
   * A compare-exchange that succeeds proves that no other caller won since the cursor was loaded,
   * whatever happened in between.
   */
  lemma {:induction false} SuccessMeansNobodyIntervened(w: World, a: Action)
    requires Inv(w) && a.Exchange? && Enabled(w, a) && Succeeds(w, a) && w.cursor < U64_MAX
    ensures w.phases[a.caller].seen == |w.wins|
  {
    var seen := w.phases[a.caller].seen;
    assert PhaseInv(w, a.caller, w.phases[a.caller]);
    assert w.wins[..|w.wins|] == w.wins;
    if seen < |w.wins| {
      CursorGrows(w.wins, seen, |w.wins|);
    }
  }

  /** A slot taken at the cursor keeps the slots spaced. */
  lemma {:induction false} SpacedOneMore(wins: seq<Win>, win: Win)
    requires Spaced(wins) && win.interval >= 1 && win.slot <= U64_MAX
    requires win.slot == (if CursorAfter(wins) <= win.now then win.now else CursorAfter(wins))
    ensures Spaced(wins + [win])
  {
    var wins' := wins + [win];
    assert wins'[..|wins|] == wins;
    forall k: nat | k < |wins'| ensures SpacedAt(wins', k) {
      if k < |wins| {
        assert SpacedAt(wins, k) && wins'[..k] == wins[..k];
      }
    }
  }

  lemma {:induction false} WinKeepsInv(w: World, a: Action)
    requires Inv(w) && a.Exchange? && Enabled(w, a) && Succeeds(w, a)
    ensures Inv(Step(w, a))
  {
    var w', p := Step(w, a), w.phases[a.caller];
    assert PhaseInv(w, a.caller, p);
    CursorFits(w.wins);
    SpacedOneMore(w.wins, Win(Slot(p.cursor, p.now), p.interval, p.now, a.caller));
    assert w'.wins[..|w.wins|] == w.wins;
    forall c | 0 <= c < |w'.phases| ensures PhaseInv(w', c, w'.phases[c]) {
      if c != a.caller {
        assert PhaseInv(w, c, w.phases[c]);
        PhaseSurvivesWin(w, w', c);
      }
    }
  }

  lemma {:induction false} CursorFits(wins: seq<Win>)
    ensures CursorAfter(wins) <= U64_MAX
  {
  }

  lemma {:induction false} PhaseSurvivesWin(w: World, w': World, c: nat)
    requires c < |w.phases| && PhaseInv(w, c, w.phases[c])
    requires |w.wins| <= |w'.wins| && w'.wins[..|w.wins|] == w.wins
    requires w'.returned == w.returned && w'.clock == w.clock
    ensures PhaseInv(w', c, w.phases[c])
  {
    var p := w.phases[c];
    if p.Loaded? || p.Timed? {
      assert w'.wins[..p.seen] == w.wins[..p.seen];
    }
    if p.Won? || p.Sleeping? {
      assert w'.wins[p.index] == w.wins[p.index];
    }
  }

  /** A step that moves only one caller. */
  lemma {:induction false} PhaseMoveKeepsInv(w: World, c: nat, p: Phase)
    requires Inv(w) && c < |w.phases| && PhaseInv(w, c, p)
    ensures Inv(w.(phases := w.phases[c := p]))
  {
    var w' := w.(phases := w.phases[c := p]);
    forall d | 0 <= d < |w'.phases| ensures PhaseInv(w', d, w'.phases[d]) {
      if d != c { assert PhaseInv(w, d, w.phases[d]); }
    }
  }

  /** A caller that returns with its slot due, or less than a millisecond away. */
  lemma {:induction false} ReturnKeepsInv(w: World, c: nat, index: nat)
    requires Inv(w) && c < |w.phases| && (w.phases[c] == Won(index) || w.phases[c] == Sleeping(index))
    requires index < |w.wins| && w.wins[index].slot < w.clock + SUB_MS_SKIP_THRESHOLD_NS
    ensures Inv(w.(phases := w.phases[c := Away], returned := w.returned + {index}))
  {
    var w' := w.(phases := w.phases[c := Away], returned := w.returned + {index});
    assert PhaseInv(w, c, w.phases[c]);
    forall d | 0 <= d < |w'.phases| ensures PhaseInv(w', d, w'.phases[d]) {
      if d != c { assert PhaseInv(w, d, w.phases[d]); }
    }
  }

  /** Time passes or the rate changes. */
  lemma {:induction false} AmbientStepKeepsInv(w: World, clock: nat, interval: nat)
    requires Inv(w) && w.clock <= clock <= U64_MAX && interval >= 1
    ensures Inv(w.(clock := clock, interval := interval))
  {
    var w' := w.(clock := clock, interval := interval);
    forall d | 0 <= d < |w'.phases| ensures PhaseInv(w', d, w'.phases[d]) {
      assert PhaseInv(w, d, w.phases[d]);
    }
  }

  lemma {:induction false} StepKeepsInv(w: World, a: Action)
    requires Inv(w) && Enabled(w, a)
    ensures Inv(Step(w, a))
  {
    match a
    case Advance(clock) => AmbientStepKeepsInv(w, clock, w.interval);
    case SetRate(qps) => AmbientStepKeepsInv(w, w.clock, IntervalFor(qps));
    case Wake(c) => ReturnKeepsInv(w, c, w.phases[c].index);
    case Exchange(_, _) => if Succeeds(w, a) { WinKeepsInv(w, a); } else { CallerStepKeepsInv(w, a); }
    case Check(_) => CheckKeepsInv(w, a);
    case _ => CallerStepKeepsInv(w, a);
  }

  lemma {:induction false} CheckKeepsInv(w: World, a: Action)
    requires Inv(w) && a.Check? && Enabled(w, a)
    ensures Inv(Step(w, a))
  {
    var c, index := a.caller, w.phases[a.caller].index;
    assert PhaseInv(w, c, w.phases[c]);
    if w.wins[index].slot < w.clock + SUB_MS_SKIP_THRESHOLD_NS {
      ReturnKeepsInv(w, c, index);
    } else {
      PhaseMoveKeepsInv(w, c, Sleeping(index));
    }
  }

  lemma {:induction false} CallerStepKeepsInv(w: World, a: Action)
    requires Inv(w) && Enabled(w, a) && (a.Begin? || a.Load? || a.ReadClock? || (a.Exchange? && !Succeeds(w, a)))
    ensures Inv(Step(w, a))
  {
    var c := a.caller;
    var p := Step(w, a).phases[c];
    assert PhaseInv(w, c, w.phases[c]);
    assert w.wins[..|w.wins|] == w.wins;
    PhaseMoveKeepsInv(w, c, p);
  }

  ghost predicate Possible(w: World, actions: seq<Action>)
    decreases actions
  {
    actions != [] ==> Enabled(w, actions[0]) && Possible(Step(w, actions[0]), actions[1..])
  }

  ghost function Run(w: World, actions: seq<Action>): World
    requires Possible(w, actions)
    decreases actions
  {
    if actions == [] then w else Run(Step(w, actions[0]), actions[1..])
  }

  lemma {:induction false} RunKeepsInv(w: World, actions: seq<Action>)
    requires Inv(w) && Possible(w, actions)
    ensures Inv(Run(w, actions))
    decreases actions
  {
    if actions != [] {
      StepKeepsInv(w, actions[0]);
      RunKeepsInv(Step(w, actions[0]), actions[1..]);
    }
  }

  /**
   * Under every interleaving each slot is exactly the later of the winner's own clock reading and the
   * previous slot plus the interval the previous winner read.
   */
  lemma {:induction false} SlotsAreSpaced(callers: nat, qps: real, actions: seq<Action>, k: nat)
    requires qps > 0.0 && Possible(Start(callers, qps), actions)
    requires k < |Run(Start(callers, qps), actions).wins|
    ensures var wins := Run(Start(callers, qps), actions).wins;
            var earliest := if k == 0 then 0 else SatAdd(wins[k - 1].slot, wins[k - 1].interval);
            wins[k].slot == if wins[k].now >= earliest then wins[k].now else earliest
  {
    RunKeepsInv(Start(callers, qps), actions);
    var wins := Run(Start(callers, qps), actions).wins;
    SlotOf(wins, k);
  }

  lemma {:induction false} SlotOf(wins: seq<Win>, k: nat)
    requires Spaced(wins) && k < |wins|
    ensures var earliest := if k == 0 then 0 else SatAdd(wins[k - 1].slot, wins[k - 1].interval);
            wins[k].slot == (if wins[k].now >= earliest then wins[k].now else earliest) <= U64_MAX
  {
    assert SpacedAt(wins, k);
    if k > 0 {
      assert wins[..k][|wins[..k]| - 1] == wins[k - 1];
    }
  }

  /** A caller whose cursor was not ahead of its clock returns from its check without sleeping. */
  lemma {:induction false} DueCallersDoNotSleep(w: World, c: nat)
    requires Inv(w) && Enabled(w, Check(c))
    requires w.wins[w.phases[c].index].slot == w.wins[w.phases[c].index].now
    ensures Step(w, Check(c)).phases[c].Away? && w.phases[c].index in Step(w, Check(c)).returned
  {
    assert w.wins[w.phases[c].index].now <= w.clock;
  }

  /** A caller sleeps exactly when its slot is a millisecond or more away, and wakes no earlier than its slot. */
  lemma {:induction false} SleepersWaitForTheirSlot(w: World, c: nat)
    requires Inv(w)
    ensures Enabled(w, Check(c)) ==>
              (Step(w, Check(c)).phases[c].Sleeping? <==> w.wins[w.phases[c].index].slot >= w.clock + 1_000_000)
    ensures Enabled(w, Wake(c)) ==>
              w.wins[w.phases[c].index].slot <= w.clock && w.phases[c].index in Step(w, Wake(c)).returned
  {
  }

  /** What a caller of `acquire` goes through when nobody interferes. */
  function Acquire(c: nat): seq<Action> {
    [Begin(c), Load(c), ReadClock(c), Exchange(c, false), Check(c)]
  }

  /** A caller that nobody interferes with takes its slot in one go. */
  lemma {:induction false} CallerTakesItsSlot(w: World, c: nat) returns (taken: World)
    requires Inv(w) && c < |w.phases| && w.phases[c].Away?
    ensures Possible(w, Acquire(c)[..4]) && taken == Run(w, Acquire(c)[..4])
    ensures var slot := if w.cursor <= w.clock then w.clock else w.cursor;
            && taken.wins == w.wins + [Win(slot, w.interval, w.clock, c)] && taken.cursor == SatAdd(slot, w.interval)
            && taken.phases == w.phases[c := Won(|w.wins|)]
            && taken.clock == w.clock && taken.interval == w.interval && taken.returned == w.returned
  {
    var w1 := Step(w, Begin(c));
    var w2 := Step(w1, Load(c));
    var w3 := Step(w2, ReadClock(c));
    taken := Step(w3, Exchange(c, false));
    var as4 := Acquire(c)[..4];
    assert as4[1..] == [Load(c), ReadClock(c), Exchange(c, false)];
    assert as4[1..][1..] == [ReadClock(c), Exchange(c, false)];
    assert as4[1..][1..][1..] == [Exchange(c, false)];
    assert as4[1..][1..][1..][1..] == [];
    assert Possible(taken, []) && Run(taken, []) == taken;
    assert Possible(w3, [Exchange(c, false)]) && Run(w3, [Exchange(c, false)]) == taken;
    assert Possible(w2, as4[1..][1..]) && Run(w2, as4[1..][1..]) == taken;
    assert Possible(w1, as4[1..]) && Run(w1, as4[1..]) == taken;
    assert w.phases[c := taken.phases[c]] == taken.phases;
  }

  /**
   * What happens to a caller with a slot: one due within a millisecond returns from its check; any other
   * sleeps, and returns as soon as the clock has reached its slot.
   */
  lemma {:induction false} CallerReturnsAtItsSlot(w: World, c: nat)
    requires Inv(w) && c < |w.phases| && w.phases[c].Won?
    ensures Enabled(w, Check(c)) && Inv(Step(w, Check(c)))
    ensures var index, after := w.phases[c].index, Step(w, Check(c));
            var slot := w.wins[index].slot;
            if slot < w.clock + 1_000_000 then after.phases[c].Away? && index in after.returned
            else
              && Enabled(after, Advance(slot))
              && var woken := Step(after, Advance(slot));
                 Enabled(woken, Wake(c)) && Step(woken, Wake(c)).phases[c].Away? && index in Step(woken, Wake(c)).returned
  {
    assert PhaseInv(w, c, w.phases[c]);
    StepKeepsInv(w, Check(c));
    assert SpacedAt(w.wins, w.phases[c].index);
  }

  /** A lost race costs another round with the same interval; a new rate is what the next caller reads. */
  lemma {:induction false} LostRacesStartOver(w: World, c: nat, qps: real)
    requires Inv(w) && c < |w.phases| && qps > 0.0
    ensures w.phases[c].Timed? ==>
              && Enabled(w, Exchange(c, true))
              && Step(w, Exchange(c, true)).phases[c] == Entered(w.phases[c].interval)
              && Step(w, Exchange(c, true)).wins == w.wins && Step(w, Exchange(c, true)).cursor == w.cursor
    ensures w.phases[c].Timed? && w.cursor != w.phases[c].cursor ==>
              Step(w, Exchange(c, false)) == Step(w, Exchange(c, true))
    ensures w.phases[c].Away? ==> Step(Step(w, SetRate(qps)), Begin(c)).phases[c] == Entered(IntervalFor(qps))
    ensures Enabled(w, Advance(w.clock)) && Enabled(w, Advance(U64_MAX))
  {
  }

  // ---------------------------------------------------------------- the rate at a constant interval

  predicate PhaseAt(p: Phase, interval: nat) {
    (p.Entered? || p.Loaded? || p.Timed?) ==> p.interval == interval
  }

  /** Every interval read so far is the same. */
  ghost predicate Constant(w: World, interval: nat) {
    && w.interval == interval
    && (forall k :: 0 <= k < |w.wins| ==> w.wins[k].interval == interval)
    && (forall c :: 0 <= c < |w.phases| ==> PhaseAt(w.phases[c], interval))
  }

  lemma {:induction false} StaysConstant(w: World, interval: nat, actions: seq<Action>)
    requires Constant(w, interval) && Possible(w, actions) && forall a <- actions :: !a.SetRate?
    ensures Constant(Run(w, actions), interval)
    decreases actions
  {
    if actions != [] {
      var a := actions[0];
      assert !a.SetRate?;
      assert forall c :: 0 <= c < |Step(w, a).phases| ==> PhaseAt(Step(w, a).phases[c], interval);
      StaysConstant(Step(w, a), interval, actions[1..]);
    }
  }

  /** Short of the end of time, `n` wins later is at least `n` intervals later. */
  lemma {:induction false} SlotsGrowLinearly(wins: seq<Win>, interval: nat, j: nat, k: nat)
    requires Spaced(wins) && j <= k < |wins| && wins[k].slot < U64_MAX
    requires forall i :: 0 <= i < |wins| ==> wins[i].interval == interval
    ensures wins[k].slot >= wins[j].slot + (k - j) * interval
    decreases k
  {
    if j < k {
      SlotOf(wins, k);
      SlotsGrowLinearly(wins, interval, j, k - 1);
      assert (k - j) * interval == (k - 1 - j) * interval + interval;
    }
  }

  /** Callers that came before the first slot of a backlog get slots exactly an interval apart. */
  lemma {:induction false} BackToBack(wins: seq<Win>, interval: nat, j: nat, k: nat)
    requires Spaced(wins) && j <= k < |wins| && wins[k].slot < U64_MAX
    requires forall i :: 0 <= i < |wins| ==> wins[i].interval == interval
    requires forall i :: j < i <= k ==> wins[i].now <= wins[j].slot
    ensures wins[k].slot == wins[j].slot + (k - j) * interval
    decreases k
  {
    if j < k {
      SlotOf(wins, k);
      SlotOf(wins, k - 1);
      BackToBack(wins, interval, j, k - 1);
      OneIntervalMore(k - 1 - j, interval);
    }
  }

  lemma {:induction false} OneIntervalMore(n: nat, interval: nat)
    ensures (n + 1) * interval == n * interval + interval && n * interval >= 0
  {
  }

  /** A set of numbers from `first` on has one at least as far out as its size. */
  lemma {:induction false} FarMember(s: set<nat>, first: nat) returns (far: nat)
    requires first in s && forall i <- s :: i >= first
    ensures far in s && far >= first + |s| - 1
    decreases s
  {
    if s == {first} {
      far := first;
    } else {
      var rest := s - {first};
      assert s == rest + {first};
      var other :| other in rest;
      var least := Least(rest, other);
      far := FarMember(rest, least);
    }
  }

  lemma {:induction false} Least(s: set<nat>, some: nat) returns (least: nat)
    requires some in s
    ensures least in s && forall i <- s :: i >= least
    decreases some
  {
    if exists i :: i in s && i < some {
      var i :| i in s && i < some;
      least := Least(s, i);
    } else {
      least := some;
    }
  }

  lemma {:induction false} ReturnedAreSpread(w: World, interval: nat, some: set<nat>, first: nat)
    requires Inv(w) && Constant(w, interval) && w.clock + SUB_MS_SKIP_THRESHOLD_NS <= U64_MAX
    requires some <= w.returned && first in some && forall i <- some :: i >= first
    ensures first < |w.wins|
    ensures (|some| - 1) * interval + w.wins[first].slot < w.clock + SUB_MS_SKIP_THRESHOLD_NS
  {
    var far := FarMember(some, first);
    assert far in w.returned && first in w.returned;
    SlotsGrowLinearly(w.wins, interval, first, far);
    MoreIntervals(far - first, |some| - 1, interval);
  }

  lemma {:induction false} MoreIntervals(a: int, b: int, interval: nat)
    requires a >= b
    ensures a * interval >= b * interval
  {
  }

  /**
   * The rate is capped despite the sub-millisecond skip: at a constant interval, any `m` acquires that
   * have returned span at least `m - 1` intervals, give or take a millisecond, under every interleaving.
   */
  lemma {:induction false} ReturnsArePaced(
    start: World, callers: nat, qps: real, actions: seq<Action>, some: set<nat>, first: nat)
    requires qps > 0.0 && start == Start(callers, qps)
    requires Possible(start, actions) && forall a <- actions :: !a.SetRate?
    requires Run(start, actions).clock + SUB_MS_SKIP_THRESHOLD_NS <= U64_MAX
    requires some <= Run(start, actions).returned && first in some && forall i <- some :: i >= first
    ensures var w := Run(start, actions);
            && first < |w.wins|
            && (|some| - 1) * IntervalFor(qps) + w.wins[first].slot < w.clock + SUB_MS_SKIP_THRESHOLD_NS
  {
    RunKeepsInv(start, actions);
    StaysConstant(start, start.interval, actions);
    ReturnedAreSpread(Run(start, actions), start.interval, some, first);
  }

  /**
   * A backlog is served back to back: under every interleaving at a constant interval, wins whose callers had
   * all read the clock by the first slot of them get slots exactly an interval apart.
   */
  lemma {:induction false} BacklogIsServedBackToBack(
    start: World, callers: nat, qps: real, actions: seq<Action>, j: nat, k: nat)
    requires qps > 0.0 && start == Start(callers, qps)
    requires Possible(start, actions) && forall a <- actions :: !a.SetRate?
    requires j <= k < |Run(start, actions).wins| && Run(start, actions).wins[k].slot < U64_MAX
    requires forall i :: j < i <= k ==> Run(start, actions).wins[i].now <= Run(start, actions).wins[j].slot
    ensures var wins := Run(start, actions).wins; wins[k].slot == wins[j].slot + (k - j) * IntervalFor(qps)
  {
    RunKeepsInv(start, actions);
    StaysConstant(start, start.interval, actions);
    BackToBack(Run(start, actions).wins, start.interval, j, k);
  }
}
