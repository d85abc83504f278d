/**
 * The attempt pacer of src/limiter.rs: a token bucket with a fractional carry, refilled by a ticker
 * and drained by callers that wait for tokens. Each call is one step.
 */
module AttemptPacing {
  import opened Prelude

  const PACER_BURST_SECONDS: real := 0.01

  datatype Pacer = Pacer(rate: Option<real>, tokens: nat, carry: real, waiting: nat)

  /** Tokens the bucket may be topped up to. */
  function Burst(rate: real): (n: nat)
    ensures n >= 1
  {
    Max(rate * PACER_BURST_SECONDS, 1.0).Floor
  }

  function RateSet(p: Pacer, rate: Option<real>): Pacer {
    p.(rate := rate, carry := 0.0)
  }

  /** Whole tokens a refill earns before the bucket's size is looked at. */
  function Earned(p: Pacer, seconds: real): nat
    requires p.rate.Some? && p.rate.value >= 0.0 && p.carry >= 0.0 && seconds >= 0.0
  {
    (p.carry + p.rate.value * seconds).Floor
  }

  /** Whole tokens a refill adds. */
  function Added(p: Pacer, seconds: real): nat
    requires p.rate.Some? && p.rate.value >= 0.0 && p.carry >= 0.0 && seconds >= 0.0
  {
    MinNat(Earned(p, seconds), SatSub(Burst(p.rate.value), p.tokens))
  }

  /** Rates, carries and times are not negative. */
  predicate Sane(p: Pacer) {
    p.carry >= 0.0 && (p.rate.Some? ==> p.rate.value >= 0.0)
  }

  function Refilled(p: Pacer, seconds: real): Pacer
    requires Sane(p) && seconds >= 0.0
  {
    if p.rate.None? then p.(tokens := p.tokens + SatSub(p.waiting, p.tokens))
    else
      p.(carry := p.carry + p.rate.value * seconds - Earned(p, seconds) as real,
         tokens := p.tokens + Added(p, seconds))
  }

  /**
   * What happens to a pacer: a refill, a caller starting to wait, a waiting caller getting a token,
   * and a waiting caller being cancelled.
   */
  datatype Event = Refill(seconds: real) | Enter | Take | Cancel

  predicate Enabled(p: Pacer, e: Event) {
    match e
    case Refill(seconds) => seconds >= 0.0
    case Enter => true
    case Take => p.tokens > 0 && p.waiting > 0
    case Cancel => p.waiting > 0
  }

  function Stepped(p: Pacer, e: Event): Pacer
    requires Sane(p) && Enabled(p, e)
  {
    match e
    case Refill(seconds) => Refilled(p, seconds)
    case Enter => if p.rate.None? then p else p.(waiting := p.waiting + 1)
    case Take => p.(tokens := p.tokens - 1, waiting := p.waiting - 1)
    case Cancel => p.(waiting := p.waiting - 1)
  }

  class AttemptPacer {
    var rate: Option<real>
    var tokens: nat
    var carry: real
    var waiting: nat

    ghost function State(): Pacer reads this { Pacer(rate, tokens, carry, waiting) }

    constructor ()
      ensures State() == Pacer(None, 0, 0.0, 0)
    {
      rate, tokens, carry, waiting := None, 0, 0.0, 0;
    }

    method SetRate(rate: Option<real>)
      modifies this
      ensures State() == RateSet(old(State()), rate)
    {
      this.rate := rate;
      carry := 0.0;
    }

    method AddTokens(seconds: real)
      requires Sane(State()) && seconds >= 0.0
      modifies this
      ensures State() == Refilled(old(State()), seconds)
    {
      if rate.None? {
        tokens := tokens + SatSub(waiting, tokens);
        return;
      }
      ghost var was := State();
      carry := carry + rate.value * seconds;
      var whole: nat := carry.Floor;
      assert whole == Earned(was, seconds);
      carry := carry - whole as real;
      var room := SatSub(Burst(rate.value), tokens);
      tokens := tokens + MinNat(whole, room);
    }
  }

  // ---------------------------------------------------------------- runs

  /** Every event of the run can happen when its turn comes. */
  ghost predicate Possible(p: Pacer, es: seq<Event>)
    decreases es
  {
    es != [] ==> Sane(p) && Enabled(p, es[0]) && Possible(Stepped(p, es[0]), es[1..])
  }

  ghost function Run(p: Pacer, es: seq<Event>): Pacer
    requires Possible(p, es)
    decreases es
  {
    if es == [] then p else Run(Stepped(p, es[0]), es[1..])
  }

  /** Attempts an event lets through. */
  function TakenBy(e: Event): nat { if e.Take? then 1 else 0 }

  /** Seconds an event refills. */
  function CoveredBy(e: Event): real { if e.Refill? then e.seconds else 0.0 }

  /** Tokens an event earns that the bucket has no room for. */
  function DiscardedBy(p: Pacer, e: Event): nat
    requires Sane(p) && Enabled(p, e)
  {
    if e.Refill? && p.rate.Some? then Earned(p, e.seconds) - Added(p, e.seconds) else 0
  }

  function Taken(es: seq<Event>): nat {
    if es == [] then 0 else TakenBy(es[0]) + Taken(es[1..])
  }

  function Covered(es: seq<Event>): real {
    if es == [] then 0.0 else CoveredBy(es[0]) + Covered(es[1..])
  }

  /** Tokens the refills of a run are worth at a rate. */
  function Due(rate: real, es: seq<Event>): real {
    if es == [] then 0.0 else rate * CoveredBy(es[0]) + Due(rate, es[1..])
  }

  lemma {:induction false} DueIsRateTimesTime(rate: real, es: seq<Event>)
    ensures Due(rate, es) == rate * Covered(es)
  {
    if es != [] {
      DueIsRateTimesTime(rate, es[1..]);
      var x, y := CoveredBy(es[0]), Covered(es[1..]);
      assert rate * (x + y) == rate * x + rate * y;
    }
  }

  ghost function Discarded(p: Pacer, es: seq<Event>): nat
    requires Possible(p, es)
    decreases es
  {
    if es == [] then 0 else DiscardedBy(p, es[0]) + Discarded(Stepped(p, es[0]), es[1..])
  }

  /** Tokens held and carried. */
  function Holding(p: Pacer): real { p.tokens as real + p.carry }

  ghost predicate Paced(p: Pacer, rate: real) {
    p.rate == Some(rate) && rate >= 0.0 && 0.0 <= p.carry < 1.0
  }

  lemma {:induction false} StepConserves(p: Pacer, rate: real, e: Event)
    requires Paced(p, rate) && Enabled(p, e)
    ensures var q := Stepped(p, e);
            && Paced(q, rate)
            && q.tokens <= MaxNat(p.tokens, Burst(rate))
            && TakenBy(e) as real + DiscardedBy(p, e) as real + Holding(q) == Holding(p) + rate * CoveredBy(e)
  {
  }

  /** The ledger of a run, as one number per side. */
  ghost predicate Balanced(p: Pacer, rate: real, es: seq<Event>)
    requires Possible(p, es)
  {
    Taken(es) as real + Discarded(p, es) as real + Holding(Run(p, es)) == Holding(p) + Due(rate, es)
  }

  lemma {:induction false} StaysPaced(p: Pacer, rate: real, es: seq<Event>)
    requires Paced(p, rate) && Possible(p, es)
    ensures Paced(Run(p, es), rate) && Run(p, es).tokens <= MaxNat(p.tokens, Burst(rate))
    decreases es
  {
    if es != [] {
      StepConserves(p, rate, es[0]);
      StaysPaced(Stepped(p, es[0]), rate, es[1..]);
    }
  }

  /** Both sides of the ledger move together. */
  lemma {:induction false} BalanceExtends(p: Pacer, q: Pacer, rate: real, es: seq<Event>)
    requires es != [] && Possible(p, es) && q == Stepped(p, es[0]) && Balanced(q, rate, es[1..])
    requires TakenBy(es[0]) as real + DiscardedBy(p, es[0]) as real + Holding(q)
             == Holding(p) + rate * CoveredBy(es[0])
    ensures Balanced(p, rate, es)
  {
    assert Run(p, es) == Run(q, es[1..]);
    assert Due(rate, es) == rate * CoveredBy(es[0]) + Due(rate, es[1..]);
  }

  /**
   * Tokens are conserved at a fixed rate under every interleaving: what was let through, what was
   * thrown away, what is left and the carry are what there was plus the rate times the time refilled.
   */
  lemma {:induction false} TokensAreConserved(p: Pacer, rate: real, es: seq<Event>)
    requires Paced(p, rate) && Possible(p, es)
    ensures Balanced(p, rate, es)
    decreases es
  {
    if es != [] {
      StepConserves(p, rate, es[0]);
      TokensAreConserved(Stepped(p, es[0]), rate, es[1..]);
      BalanceExtends(p, Stepped(p, es[0]), rate, es);
    }
  }

  lemma {:induction false} RunSplits(p: Pacer, first: seq<Event>, second: seq<Event>)
    requires Possible(p, first + second)
    ensures Possible(p, first) && Possible(Run(p, first), second)
    decreases first
  {
    if first == [] {
      assert first + second == second;
    } else {
      assert (first + second)[1..] == first[1..] + second;
      RunSplits(Stepped(p, first[0]), first[1..], second);
    }
  }

  lemma {:induction false} NoMoreThanHeldAndEarned(p: Pacer, rate: real, es: seq<Event>)
    requires Paced(p, rate) && Possible(p, es)
    ensures Taken(es) as real <= Holding(p) + Due(rate, es)
  {
    TokensAreConserved(p, rate, es);
    StaysPaced(p, rate, es);
  }

  /** Over any stretch of a run, no more goes out than the bucket and the rate allow. */
  lemma {:induction false} StretchIsPaced(p: Pacer, rate: real, first: seq<Event>, stretch: seq<Event>)
    requires p.rate == Some(rate) && rate >= 0.0 && p.carry == 0.0 && Possible(p, first + stretch)
    ensures Taken(stretch) as real < MaxNat(p.tokens, Burst(rate)) as real + 1.0 + Due(rate, stretch)
  {
    RunSplits(p, first, stretch);
    var q := Run(p, first);
    StaysPaced(p, rate, first);
    NoMoreThanHeldAndEarned(q, rate, stretch);
  }

  // ---------------------------------------------------------------- the rate is delivered

  /** The bucket holds a hundredth of a second's worth of tokens, rounded down, and never less than one. */
  lemma {:induction false} BucketIsAHundredthOfASecond(rate: real)
    ensures rate < 100.0 ==> Burst(rate) == 1
    ensures rate >= 100.0 ==> Burst(rate) as real <= rate / 100.0 < Burst(rate) as real + 1.0
  {
  }

  /**
   * A refill tops the bucket up by the whole part of carry plus rate times time, as far as it goes, and
   * keeps the fraction. A bucket already over full is left as it is.
   */
  lemma {:induction false} RefillIsExact(p: Pacer, rate: real, seconds: real)
    requires Paced(p, rate) && seconds >= 0.0
    ensures var q, due := Refilled(p, seconds), p.carry + rate * seconds;
            && q.tokens == MaxNat(p.tokens, MinNat(Burst(rate), p.tokens + due.Floor))
            && q.carry == due - due.Floor as real
            && q.rate == p.rate && q.waiting == p.waiting
  {
    assert Earned(p, seconds) == (p.carry + rate * seconds).Floor;
  }

  /** A new rate starts without a fraction from the old one, and leaves tokens and waiters alone. */
  lemma {:induction false} NewRateStartsClean(p: Pacer, rate: real)
    requires rate >= 0.0
    ensures Paced(RateSet(p, Some(rate)), rate) && Holding(RateSet(p, Some(rate))) == p.tokens as real
    ensures RateSet(p, Some(rate)).tokens == p.tokens && RateSet(p, Some(rate)).waiting == p.waiting
    ensures RateSet(p, None).rate.None? && RateSet(p, None).tokens == p.tokens && RateSet(p, None).waiting == p.waiting
  {
  }

  /** A caller can always come: it waits at a set rate, and goes straight through without one. */
  lemma {:induction false} CallersCanAlwaysCome(p: Pacer)
    requires Sane(p)
    ensures Enabled(p, Enter)
    ensures Stepped(p, Enter).waiting == p.waiting + (if p.rate.None? then 0 else 1)
    ensures Stepped(p, Enter).tokens == p.tokens && Stepped(p, Enter).carry == p.carry
  {
  }

  /** No refill of the run leaves the bucket full. */
  ghost predicate NeverFull(p: Pacer, rate: real, es: seq<Event>)
    requires Possible(p, es)
    decreases es
  {
    es != [] ==>
      && (es[0].Refill? ==> Stepped(p, es[0]).tokens < Burst(rate))
      && NeverFull(Stepped(p, es[0]), rate, es[1..])
  }

  lemma {:induction false} StepDelivers(p: Pacer, rate: real, e: Event)
    requires Paced(p, rate) && Enabled(p, e) && (e.Refill? ==> Stepped(p, e).tokens < Burst(rate))
    ensures var q := Stepped(p, e);
            Paced(q, rate) && TakenBy(e) as real + Holding(q) == Holding(p) + rate * CoveredBy(e)
  {
    if e.Refill? { RefillIsExact(p, rate, e.seconds); }
  }

  /** What was taken and what is held make up what was held and what the refills were worth. */
  ghost predicate Delivered(p: Pacer, rate: real, es: seq<Event>)
    requires Possible(p, es)
  {
    Taken(es) as real + Holding(Run(p, es)) == Holding(p) + Due(rate, es)
  }

  lemma {:induction false} DeliveryExtends(p: Pacer, q: Pacer, rate: real, es: seq<Event>)
    requires es != [] && Possible(p, es) && q == Stepped(p, es[0]) && Delivered(q, rate, es[1..])
    requires TakenBy(es[0]) as real + Holding(q) == Holding(p) + rate * CoveredBy(es[0])
    ensures Delivered(p, rate, es)
  {
    assert Run(p, es) == Run(q, es[1..]);
    assert Due(rate, es) == rate * CoveredBy(es[0]) + Due(rate, es[1..]);
  }

  lemma {:induction false} StretchDelivers(p: Pacer, rate: real, es: seq<Event>)
    requires Paced(p, rate) && Possible(p, es) && NeverFull(p, rate, es)
    ensures Delivered(p, rate, es)
    decreases es
  {
    if es != [] {
      StepDelivers(p, rate, es[0]);
      StretchDelivers(Stepped(p, es[0]), rate, es[1..]);
      DeliveryExtends(p, Stepped(p, es[0]), rate, es);
    }
  }

  /**
   * The rate is delivered: over any stretch that never fills the bucket, tokens taken and held come to
   * more than those at the start and the rate times the time, less one.
   */
  lemma {:induction false} RateIsDelivered(p: Pacer, rate: real, es: seq<Event>)
    requires Paced(p, rate) && Possible(p, es) && NeverFull(p, rate, es)
    ensures Taken(es) as real + Run(p, es).tokens as real > p.tokens as real + rate * Covered(es) - 1.0
  {
    StretchDelivers(p, rate, es);
    StaysPaced(p, rate, es);
    DueIsRateTimesTime(rate, es);
  }

  /** Callers that started to wait in a run, and those that gave up. */
  function Count(es: seq<Event>, e: Event): nat {
    if es == [] then 0 else (if es[0] == e then 1 else 0) + Count(es[1..], e)
  }

  /** At a set rate a caller waits from its entering to its taking or cancelling. */
  lemma {:induction false} WaitersAreAccounted(p: Pacer, rate: real, es: seq<Event>)
    requires Paced(p, rate) && Possible(p, es)
    ensures Run(p, es).waiting == p.waiting + Count(es, Enter) - Count(es, Take) - Count(es, Cancel)
    decreases es
  {
    if es != [] {
      StepConserves(p, rate, es[0]);
      WaitersAreAccounted(Stepped(p, es[0]), rate, es[1..]);
    }
  }

  // ---------------------------------------------------------------- without a rate

  /** Without a rate a refill tops the tokens up to the number of waiters, and no further. */
  lemma {:induction false} FreeRefillIsExact(p: Pacer, seconds: real)
    requires p.rate.None? && p.carry >= 0.0 && seconds >= 0.0
    ensures var q := Refilled(p, seconds);
            q.tokens == MaxNat(p.tokens, p.waiting) && q.waiting == p.waiting && q.carry == p.carry && q.rate.None?
  {
  }

  /** After the rate is cleared, one refill leaves a token for every waiter, and it stays so. */
  lemma {:induction false} ClearingFreesEveryWaiter(p: Pacer, seconds: real, es: seq<Event>)
    requires p.rate.None? && p.carry == 0.0 && seconds >= 0.0
    requires Possible(Stepped(p, Refill(seconds)), es)
    ensures var q := Run(Stepped(p, Refill(seconds)), es); q.rate.None? && q.tokens >= q.waiting
  {
    StaysFree(Stepped(p, Refill(seconds)), es);
  }

  lemma {:induction false} StaysFree(p: Pacer, es: seq<Event>)
    requires p.rate.None? && p.tokens >= p.waiting && Possible(p, es)
    ensures Run(p, es).rate.None? && Run(p, es).tokens >= Run(p, es).waiting
    decreases es
  {
    if es != [] { StaysFree(Stepped(p, es[0]), es[1..]); }
  }
}
