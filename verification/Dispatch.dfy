/**
 * Dispatch, as in src/worker.rs and src/health.rs: any number of workers taking work items off one queue,
 * reserving resolvers through their in-flight permits, querying and answering, one step at a time in
 * every interleaving. How a query ends is up to the environment.
 */
module Dispatching {
  import opened Prelude
  import opened ResolverHealths

  /** Where a worker stands in its loop; items and resolvers go by number. */
  datatype Worker =
    | Idle
    | Received(item: nat)
    | Selecting(item: nat)
    | Waiting(item: nat, resolver: nat)
    | Granted(item: nat, resolver: nat)
    | Holding(item: nat, resolver: nat)
    | Querying(item: nat, resolver: nat)
    | Reporting(item: nat, resolver: nat)
    | Releasing(resolver: nat)

  datatype System = System(
    config: Config,
    submitted: nat,
    queue: seq<nat>,
    answered: multiset<nat>,
    workers: seq<Worker>,
    free: seq<nat>,
    health: seq<Health>)

  datatype Action =
    | Submit
    | Receive(worker: nat)
    | Reject(worker: nat)
    | Pace(worker: nat)
    | NoResolvers(worker: nat)
    | Take(worker: nat, resolver: nat)
    | Await(worker: nat, resolver: nat)
    | Grant(worker: nat)
    | Accept(worker: nat)
    | Refuse(worker: nat)
    | Send(worker: nat)
    | Finish(worker: nat, outcome: Record)
    | Report(worker: nat)
    | Release(worker: nat)

  predicate Enabled(s: System, a: Action) {
    if a.Submit? then true
    else if a.worker >= |s.workers| then false
    else
      var w := s.workers[a.worker];
      match a
      case Submit => true
      case Receive(_) => w.Idle? && s.queue != []
      case Reject(_) => w.Received?
      case Pace(_) => w.Received?
      case NoResolvers(_) => w.Selecting?
      case Take(_, r) => w.Selecting? && r < |s.free| == |s.health| && s.free[r] > 0
      case Await(_, r) => w.Selecting? && r < |s.free| == |s.health|
      case Grant(_) => w.Waiting? && w.resolver < |s.free| && s.free[w.resolver] > 0
      case Accept(_) => w.Granted?
      case Refuse(_) => w.Granted? && w.resolver < |s.free|
      case Send(_) => w.Holding? && w.resolver < |s.health|
      case Finish(_, outcome) => w.Querying? && w.resolver < |s.health| && !outcome.Dispatch?
      case Report(_) => w.Reporting?
      case Release(_) => w.Releasing? && w.resolver < |s.free|
  }

  /** A worker moves on. */
  function Move(s: System, i: nat, w: Worker): System
    requires i < |s.workers|
  {
    s.(workers := s.workers[i := w])
  }

  function Permits(s: System, r: nat, n: nat): System
    requires r < |s.free|
  {
    s.(free := s.free[r := n])
  }

  function Note(s: System, r: nat, record: Record): System
    requires r < |s.health|
  {
    s.(health := s.health[r := Recorded(s.health[r], s.config, record)])
  }

  function Answer(s: System, item: nat): System { s.(answered := s.answered + multiset{item}) }

  function Step(s: System, a: Action): System
    requires Enabled(s, a)
  {
    if a.Submit? then s.(submitted := s.submitted + 1, queue := s.queue + [s.submitted])
    else
      var i, w := a.worker, s.workers[a.worker];
      match a
      case Submit => s
      case Receive(_) => Move(s, i, Received(s.queue[0])).(queue := s.queue[1..])
      case Reject(_) => Answer(Move(s, i, Idle), w.item)
      case Pace(_) => Move(s, i, Selecting(w.item))
      case NoResolvers(_) => Answer(Move(s, i, Idle), w.item)
      case Take(_, r) => Permits(Move(s, i, Holding(w.item, r)), r, s.free[r] - 1)
      case Await(_, r) => Move(s, i, Waiting(w.item, r))
      case Grant(_) => Permits(Move(s, i, Granted(w.item, w.resolver)), w.resolver, s.free[w.resolver] - 1)
      case Accept(_) => Move(s, i, Holding(w.item, w.resolver))
      case Refuse(_) => Permits(Move(s, i, Selecting(w.item)), w.resolver, s.free[w.resolver] + 1)
      case Send(_) => Note(Move(s, i, Querying(w.item, w.resolver)), w.resolver, Dispatch)
      case Finish(_, outcome) => Note(Move(s, i, Reporting(w.item, w.resolver)), w.resolver, outcome)
      case Report(_) => Answer(Move(s, i, Releasing(w.resolver)), w.item)
      case Release(_) => Permits(Move(s, i, Idle), w.resolver, s.free[w.resolver] + 1)
  }

  function Start(config: Config, workers: nat, resolvers: nat, maxInflight: nat): System {
    System(config, 0, [], multiset{}, seq(workers, _ => Idle), seq(resolvers, _ => maxInflight),
           seq(resolvers, _ => FRESH_HEALTH))
  }

  // ---------------------------------------------------------------- counting workers

  /** Whether a worker has one of a resolver's permits. */
  function Holds(w: Worker, r: nat): nat {
    if (w.Granted? || w.Holding? || w.Querying? || w.Reporting? || w.Releasing?) && w.resolver == r then 1 else 0
  }

  /** Whether a worker has a query out to a resolver. */
  function Queries(w: Worker, r: nat): nat { if w.Querying? && w.resolver == r then 1 else 0 }

  /** Whether a worker still has to answer an item. */
  function Carries(w: Worker, item: nat): nat {
    if w.Idle? || w.Releasing? || w.item != item then 0 else 1
  }

  function Holders(ws: seq<Worker>, r: nat): nat {
    if ws == [] then 0 else Holds(ws[0], r) + Holders(ws[1..], r)
  }

  function Queriers(ws: seq<Worker>, r: nat): nat {
    if ws == [] then 0 else Queries(ws[0], r) + Queriers(ws[1..], r)
  }

  function Carriers(ws: seq<Worker>, item: nat): nat {
    if ws == [] then 0 else Carries(ws[0], item) + Carriers(ws[1..], item)
  }

  lemma {:induction false} MovingOne(ws: seq<Worker>, i: nat, w: Worker, r: nat)
    requires i < |ws|
    ensures Holders(ws[i := w], r) + Holds(ws[i], r) == Holders(ws, r) + Holds(w, r)
    ensures Queriers(ws[i := w], r) + Queries(ws[i], r) == Queriers(ws, r) + Queries(w, r)
  {
    if i > 0 {
      assert ws[i := w][1..] == ws[1..][i - 1 := w];
      MovingOne(ws[1..], i - 1, w, r);
    } else {
      assert ws[i := w][1..] == ws[1..];
    }
  }

  lemma {:induction false} MovingItem(ws: seq<Worker>, i: nat, w: Worker, item: nat)
    requires i < |ws|
    ensures Carriers(ws[i := w], item) + Carries(ws[i], item) == Carriers(ws, item) + Carries(w, item)
  {
    if i > 0 {
      assert ws[i := w][1..] == ws[1..][i - 1 := w];
      MovingItem(ws[1..], i - 1, w, item);
    } else {
      assert ws[i := w][1..] == ws[1..];
    }
  }

  // ---------------------------------------------------------------- the ledger

  function Finished(h: Health): nat { Responses(h) + Errors(h) }

  /** One resolver's permits and counters agree with the workers. */
  ghost predicate Accounted(s: System, maxInflight: nat, r: nat)
    requires r < |s.free| == |s.health|
  {
    && s.free[r] + Holders(s.workers, r) == maxInflight
    && s.health[r].attempted == Finished(s.health[r]) + Queriers(s.workers, r)
  }

  /** A submitted item is in exactly one place: the queue, a worker's hands, or answered. Others are nowhere. */
  ghost predicate Kept(s: System, item: nat) {
    multiset(s.queue)[item] + Carriers(s.workers, item) + s.answered[item] == if item < s.submitted then 1 else 0
  }

  ghost predicate Inv(s: System, maxInflight: nat) {
    && |s.free| == |s.health|
    && (forall r :: 0 <= r < |s.free| ==> Accounted(s, maxInflight, r))
    && (forall item: nat :: Kept(s, item))
  }

  /** What an action does to one resolver's accounts. */
  lemma {:induction false} StepMoves(s: System, a: Action, r: nat)
    requires r < |s.free| == |s.health| && Enabled(s, a) && !a.Submit?
    ensures var s' := Step(s, a);
            && |s'.free| == |s.free| && |s'.health| == |s.health|
            && s'.workers == s.workers[a.worker := s'.workers[a.worker]]
            && s'.free[r] + Holds(s'.workers[a.worker], r) == s.free[r] + Holds(s.workers[a.worker], r)
            && s'.health[r].attempted + Finished(s.health[r]) + Queries(s.workers[a.worker], r) ==
               s.health[r].attempted + Finished(s'.health[r]) + Queries(s'.workers[a.worker], r)
  {
  }

  lemma {:induction false} StepKeepsAccounts(s: System, a: Action, maxInflight: nat, r: nat)
    requires r < |s.free| == |s.health| && Accounted(s, maxInflight, r) && Enabled(s, a)
    ensures |Step(s, a).free| == |s.free| && |Step(s, a).health| == |s.health|
    ensures Accounted(Step(s, a), maxInflight, r)
  {
    if !a.Submit? {
      StepMoves(s, a, r);
      MovingOne(s.workers, a.worker, Step(s, a).workers[a.worker], r);
    }
  }

  /** The item an action answers, if any. */
  function Answers(s: System, a: Action): Option<nat>
    requires Enabled(s, a)
  {
    if a.Reject? || a.NoResolvers? || a.Report? then Some(s.workers[a.worker].item) else None
  }

  lemma {:induction false} StepAnswers(s: System, a: Action, item: nat)
    requires Enabled(s, a) && !a.Submit? && !a.Receive?
    ensures var s' := Step(s, a);
            && s'.queue == s.queue && s'.submitted == s.submitted
            && s'.workers == s.workers[a.worker := s'.workers[a.worker]]
            && s'.answered[item] == s.answered[item] + (if Answers(s, a) == Some(item) then 1 else 0)
            && Carries(s.workers[a.worker], item) ==
               Carries(s'.workers[a.worker], item) + (if Answers(s, a) == Some(item) then 1 else 0)
  {
  }

  lemma {:induction false} StepKeepsItem(s: System, a: Action, item: nat)
    requires Kept(s, item) && Kept(s, s.submitted) && Enabled(s, a)
    ensures Kept(Step(s, a), item)
  {
    if !a.Submit? {
      MovingItem(s.workers, a.worker, Step(s, a).workers[a.worker], item);
      if a.Receive? {
        assert s.queue == [s.queue[0]] + s.queue[1..];
      } else {
        StepAnswers(s, a, item);
      }
    }
  }

  ghost predicate Possible(s: System, actions: seq<Action>)
    decreases actions
  {
    actions != [] ==> Enabled(s, actions[0]) && Possible(Step(s, actions[0]), actions[1..])
  }

  ghost function Run(s: System, actions: seq<Action>): System
    requires Possible(s, actions)
    decreases actions
  {
    if actions == [] then s else Run(Step(s, actions[0]), actions[1..])
  }

  lemma {:induction false} RunKeepsInv(s: System, actions: seq<Action>, maxInflight: nat)
    requires Inv(s, maxInflight) && Possible(s, actions)
    ensures Inv(Run(s, actions), maxInflight)
    ensures |Run(s, actions).workers| == |s.workers| && |Run(s, actions).free| == |s.free|
    decreases actions
  {
    if actions != [] {
      var a := actions[0];
      var s' := Step(s, a);
      if |s.free| > 0 { StepKeepsAccounts(s, a, maxInflight, 0); }
      forall r | 0 <= r < |s.free| ensures Accounted(s', maxInflight, r) {
        StepKeepsAccounts(s, a, maxInflight, r);
      }
      forall item: nat ensures Kept(s', item) {
        assert Kept(s, item) && Kept(s, s.submitted);
        StepKeepsItem(s, a, item);
      }
      RunKeepsInv(s', actions[1..], maxInflight);
    }
  }

  lemma {:induction false} IdleWorkersHoldNothing(ws: seq<Worker>, x: nat)
    requires forall w <- ws :: w.Idle?
    ensures Holders(ws, x) == 0 && Queriers(ws, x) == 0 && Carriers(ws, x) == 0
  {
    if ws != [] {
      assert ws[0] in ws;
      IdleWorkersHoldNothing(ws[1..], x);
    }
  }

  lemma {:induction false} StartIsValid(config: Config, workers: nat, resolvers: nat, maxInflight: nat)
    ensures Inv(Start(config, workers, resolvers, maxInflight), maxInflight)
  {
    var s := Start(config, workers, resolvers, maxInflight);
    forall r | 0 <= r < |s.free| ensures Accounted(s, maxInflight, r) { IdleWorkersHoldNothing(s.workers, r); }
    forall item: nat ensures Kept(s, item) { IdleWorkersHoldNothing(s.workers, item); }
  }

  lemma {:induction false} QueriersHold(ws: seq<Worker>, r: nat)
    ensures Queriers(ws, r) <= Holders(ws, r)
  {
    if ws != [] { QueriersHold(ws[1..], r); }
  }

  /**
   * Dispatch is accounted for under every interleaving: each resolver's free permits and the workers
   * holding one make up its allowance, the queries it was sent and has not finished are exactly the
   * workers querying it, and those are never more than the allowance.
   */
  lemma {:induction false} DispatchIsAccounted(
    start: System, config: Config, workers: nat, resolvers: nat, maxInflight: nat, actions: seq<Action>, r: nat)
    requires start == Start(config, workers, resolvers, maxInflight) && Possible(start, actions) && r < resolvers
    ensures var s := Run(start, actions);
            && |s.free| == |s.health| == resolvers
            && s.free[r] + Holders(s.workers, r) == maxInflight
            && s.health[r].attempted - Finished(s.health[r]) == Queriers(s.workers, r) <= maxInflight
  {
    StartIsValid(config, workers, resolvers, maxInflight);
    RunKeepsInv(start, actions, maxInflight);
    var s := Run(start, actions);
    assert Accounted(s, maxInflight, r);
    QueriersHold(s.workers, r);
  }

  /**
   * A resolver's outcome counters add up to the attempts it was sent exactly when no worker is querying
   * it at the moment; its statistics promise it without that condition.
   */
  lemma {:induction false} CountersAddUpWhenNobodyQueries(
    start: System, config: Config, workers: nat, resolvers: nat, maxInflight: nat, actions: seq<Action>, r: nat)
    requires start == Start(config, workers, resolvers, maxInflight) && Possible(start, actions) && r < resolvers
    ensures var s := Run(start, actions);
            && |s.health| == resolvers
            && (s.health[r].attempted == Finished(s.health[r]) <==> Queriers(s.workers, r) == 0)
  {
    DispatchIsAccounted(start, config, workers, resolvers, maxInflight, actions, r);
  }

  /** One query under way: the counters do not add up. */
  lemma {:induction false} CountersLagAQueryUnderWay(start: System, actions: seq<Action>)
    requires start == Start(Config(10, 1), 1, 1, 1)
    requires actions == [Submit] + ([Receive(0)] + ([Pace(0)] + ([Take(0, 0)] + ([Send(0)] + []))))
    ensures Possible(start, actions) && |Run(start, actions).health| == 1
    ensures Run(start, actions).health[0].attempted == 1 && Finished(Run(start, actions).health[0]) == 0
  {
    var s1 := Step(start, Submit);
    var s2 := Step(s1, Receive(0));
    var s3 := Step(s2, Pace(0));
    var s4 := Step(s3, Take(0, 0));
    RunFirst(s4, Send(0), []);
    RunFirst(s3, Take(0, 0), [Send(0)] + []);
    RunFirst(s2, Pace(0), [Take(0, 0)] + ([Send(0)] + []));
    RunFirst(s1, Receive(0), [Pace(0)] + ([Take(0, 0)] + ([Send(0)] + [])));
    RunFirst(start, Submit, [Receive(0)] + ([Pace(0)] + ([Take(0, 0)] + ([Send(0)] + []))));
  }

  lemma {:induction false} RunFirst(s: System, a: Action, rest: seq<Action>)
    requires Enabled(s, a)
    ensures Possible(Step(s, a), rest) ==>
              Possible(s, [a] + rest) && Run(s, [a] + rest) == Run(Step(s, a), rest)
  {
    assert ([a] + rest)[1..] == rest;
  }

  /**
   * Each work item is answered exactly once: never twice, never one that was not submitted, and once no
   * worker and no queue has it left, every submitted item has its answer.
   */
  lemma {:induction false} EachItemIsAnsweredOnce(
    start: System, config: Config, workers: nat, resolvers: nat, maxInflight: nat, actions: seq<Action>, item: nat)
    requires start == Start(config, workers, resolvers, maxInflight) && Possible(start, actions)
    ensures var s := Run(start, actions);
            && s.answered[item] <= 1
            && (s.answered[item] == 1 <==>
                  item < s.submitted && item !in s.queue && Carriers(s.workers, item) == 0)
  {
    StartIsValid(config, workers, resolvers, maxInflight);
    RunKeepsInv(start, actions, maxInflight);
    assert Kept(Run(start, actions), item);
  }

  /** Every resolver a worker is concerned with is one of the pool. */
  ghost predicate InThePool(s: System) {
    |s.free| == |s.health| &&
    forall i :: 0 <= i < |s.workers| ==>
      (s.workers[i].Idle? || s.workers[i].Received? || s.workers[i].Selecting? || s.workers[i].resolver < |s.free|)
  }

  lemma {:induction false} StepKeepsToThePool(s: System, a: Action)
    requires InThePool(s) && Enabled(s, a)
    ensures InThePool(Step(s, a))
  {
  }

  lemma {:induction false} RunKeepsToThePool(s: System, actions: seq<Action>)
    requires InThePool(s) && Possible(s, actions)
    ensures InThePool(Run(s, actions))
    decreases actions
  {
    if actions != [] {
      StepKeepsToThePool(s, actions[0]);
      RunKeepsToThePool(Step(s, actions[0]), actions[1..]);
    }
  }

  /** In every interleaving workers only ever wait for, hold or query resolvers of the pool. */
  lemma {:induction false} WorkersKeepToThePool(
    start: System, config: Config, workers: nat, resolvers: nat, maxInflight: nat, actions: seq<Action>)
    requires start == Start(config, workers, resolvers, maxInflight) && Possible(start, actions)
    ensures InThePool(Run(start, actions))
  {
    RunKeepsToThePool(start, actions);
  }

  /** A worker can wait for any resolver of the pool; once granted a permit it holds it, or gives it back and selects again. */
  lemma {:induction false} WaitingLeadsToAPermit(s: System, i: nat, r: nat)
    requires i < |s.workers| && s.workers[i].Selecting? && r < |s.free| == |s.health| && s.free[r] > 0
    ensures Enabled(s, Await(i, r))
    ensures var waiting := Step(s, Await(i, r)); Enabled(waiting, Grant(i))
    ensures var granted := Step(Step(s, Await(i, r)), Grant(i));
            && granted.free == s.free[r := s.free[r] - 1] && Enabled(granted, Accept(i)) && Enabled(granted, Refuse(i))
            && Step(granted, Accept(i)).workers[i] == Holding(s.workers[i].item, r)
            && Step(granted, Accept(i)).free == granted.free
            && Step(granted, Refuse(i)).workers == s.workers && Step(granted, Refuse(i)).free == s.free
  {
  }

  /** The queue holds the items submitted last, in order. */
  ghost predicate InOrder(s: System) {
    |s.queue| <= s.submitted && forall i :: 0 <= i < |s.queue| ==> s.queue[i] == s.submitted - |s.queue| + i
  }

  lemma {:induction false} StepKeepsOrder(s: System, a: Action)
    requires InOrder(s) && Enabled(s, a)
    ensures InOrder(Step(s, a))
    ensures a.Receive? ==> Step(s, a).workers[a.worker] == Received(s.submitted - |s.queue|)
  {
  }

  lemma {:induction false} RunKeepsOrder(s: System, actions: seq<Action>)
    requires InOrder(s) && Possible(s, actions)
    ensures InOrder(Run(s, actions))
    decreases actions
  {
    if actions != [] {
      StepKeepsOrder(s, actions[0]);
      RunKeepsOrder(Step(s, actions[0]), actions[1..]);
    }
  }

  /** Work is taken up first come, first served: in every interleaving the next item received is the oldest one left. */
  lemma {:induction false} FirstComeFirstServed(
    start: System, config: Config, workers: nat, resolvers: nat, maxInflight: nat, actions: seq<Action>, worker: nat)
    requires start == Start(config, workers, resolvers, maxInflight) && Possible(start, actions)
    requires Enabled(Run(start, actions), Receive(worker))
    ensures var s := Run(start, actions); var s' := Step(s, Receive(worker));
            && s'.workers[worker].Received? && s'.workers[worker].item == s.submitted - |s.queue|
            && forall item: nat :: item in s'.queue <==> s.submitted - |s.queue| < item < s.submitted
  {
    RunKeepsOrder(start, actions);
    var s := Run(start, actions);
    StepKeepsOrder(s, Receive(worker));
    var s' := Step(s, Receive(worker));
    forall item: nat ensures item in s'.queue <==> s.submitted - |s.queue| < item < s.submitted {
      if s.submitted - |s.queue| < item < s.submitted {
        assert s'.queue[item - (s.submitted - |s.queue|) - 1] == item;
      }
    }
  }

  // ---------------------------------------------------------------- queries out, over the whole pool

  /** Queries sent and not finished, over the first `n` resolvers. */
  function Outstanding(health: seq<Health>, n: nat): int
    requires n <= |health|
  {
    if n == 0 then 0 else Outstanding(health, n - 1) + health[n - 1].attempted - Finished(health[n - 1])
  }

  /** Workers querying one of the first `n` resolvers. */
  function QueryingBelow(ws: seq<Worker>, n: nat): nat {
    if ws == [] then 0 else (if ws[0].Querying? && ws[0].resolver < n then 1 else 0) + QueryingBelow(ws[1..], n)
  }

  lemma {:induction false} OneMoreResolver(ws: seq<Worker>, n: nat)
    ensures QueryingBelow(ws, n + 1) == QueryingBelow(ws, n) + Queriers(ws, n)
    ensures QueryingBelow(ws, 0) == 0
    ensures QueryingBelow(ws, n) <= |ws|
  {
    if ws != [] { OneMoreResolver(ws[1..], n); }
  }

  lemma {:induction false} OutstandingIsQuerying(s: System, maxInflight: nat, n: nat)
    requires Inv(s, maxInflight) && n <= |s.health|
    ensures Outstanding(s.health, n) == QueryingBelow(s.workers, n)
  {
    if n == 0 {
      OneMoreResolver(s.workers, 0);
    } else {
      OutstandingIsQuerying(s, maxInflight, n - 1);
      OneMoreResolver(s.workers, n - 1);
      assert Accounted(s, maxInflight, n - 1);
    }
  }

  /** Over the whole pool the queries sent and not finished never exceed the number of workers. */
  lemma {:induction false} ConcurrencyIsBounded(
    start: System, config: Config, workers: nat, resolvers: nat, maxInflight: nat, actions: seq<Action>)
    requires start == Start(config, workers, resolvers, maxInflight) && Possible(start, actions)
    ensures var s := Run(start, actions); 0 <= Outstanding(s.health, |s.health|) <= workers
  {
    StartIsValid(config, workers, resolvers, maxInflight);
    RunKeepsInv(start, actions, maxInflight);
    var s := Run(start, actions);
    OutstandingIsQuerying(s, maxInflight, |s.health|);
    OneMoreResolver(s.workers, |s.health|);
  }
}
