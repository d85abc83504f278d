/**
 * Selection from the pool, as in src/health.rs: one pass over the resolvers in rotation, what it finds,
 * and how long to sleep when everything is benched. The pool is taken as frozen during a pass.
 */
module ResolverPools {
  import opened Prelude
  import opened ResolverHealths

  /** What a pass over the pool comes back with. */
  datatype Pass = Reserved(index: nat) | NoneActive | AllBenched | WaitOn(index: nat)

  /** The order in which a pass visits a pool: rotation from a cursor. */
  function Rotation(offset: nat, size: nat): (order: seq<nat>)
    ensures |order| == size && forall step :: 0 <= step < size ==> order[step] == (offset + step) % size
  {
    seq(size, step requires 0 <= step < size => (offset + step) % size)
  }

  lemma {:induction false} NoSmallMultiple(k: int, size: int)
    requires size > 0 && -size < k * size < size
    ensures k == 0
  {
  }

  lemma {:induction false} Residue(x: nat, q: int, r: nat, size: nat)
    requires r < size && x == q * size + r
    ensures x % size == r
  {
    var q', r' := x / size, x % size;
    assert x == q' * size + r';
    assert (q - q') * size == q * size - q' * size;
    NoSmallMultiple(q - q', size);
  }

  /** Where rotation puts each step, without the remainder. */
  lemma {:induction false} RotationWraps(offset: nat, step: nat, size: nat)
    requires step < size
    ensures var o := offset % size;
            (offset + step) % size == if o + step < size then o + step else o + step - size
  {
    var q, o := offset / size, offset % size;
    assert offset == q * size + o;
    if o + step < size {
      Residue(offset + step, q, o + step, size);
    } else {
      assert (q + 1) * size == q * size + size;
      Residue(offset + step, q + 1, o + step - size, size);
    }
  }

  /** The step at which a rotation visits a resolver. */
  function StepOf(offset: nat, index: nat, size: nat): (step: nat)
    requires index < size
    ensures step < size
  {
    var o := offset % size;
    if index >= o then index - o else index + size - o
  }

  /** A pass visits every resolver, and visits it once. */
  lemma {:induction false} PassVisitsEachOnce(offset: nat, index: nat, size: nat)
    requires index < size
    ensures Rotation(offset, size)[StepOf(offset, index, size)] == index
    ensures forall step :: 0 <= step < size && Rotation(offset, size)[step] == index ==>
              step == StepOf(offset, index, size)
    ensures forall step :: 0 <= step < size ==> Rotation(offset, size)[step] < size
  {
    var order := Rotation(offset, size);
    RotationWraps(offset, StepOf(offset, index, size), size);
    forall step | 0 <= step < size
      ensures order[step] < size && (order[step] == index ==> step == StepOf(offset, index, size))
    {
      RotationWraps(offset, step, size);
    }
  }

  class ResolverPool {
    const resolvers: seq<ResolverHealth>
    var cursor: nat

    constructor (resolvers: seq<ResolverHealth>)
      ensures this.resolvers == resolvers && cursor == 0
    {
      this.resolvers := resolvers;
      cursor := 0;
    }

    ghost predicate Distinct() {
      forall i, j :: 0 <= i < j < |resolvers| ==> resolvers[i] != resolvers[j]
    }

    predicate Benched(i: nat, now: nat)
      requires i < |resolvers|
      reads resolvers[i]
    {
      resolvers[i].benchedUntilNs > now
    }

    /** Active and not serving a sentence. */
    predicate Eligible(i: nat, now: nat)
      requires i < |resolvers|
      reads resolvers[i]
    {
      resolvers[i].active && !Benched(i, now)
    }

    /** Eligible and with an in-flight slot to spare. */
    predicate Free(i: nat, now: nat)
      requires i < |resolvers|
      reads resolvers[i]
    {
      Eligible(i, now) && resolvers[i].inflight > 0
    }

    /** The order visits every resolver of the pool. */
    ghost predicate Covers(order: seq<nat>) {
      && (forall step :: 0 <= step < |order| ==> order[step] < |resolvers|)
      && (forall i :: 0 <= i < |resolvers| ==> i in order)
    }

    /** No resolver visited before a step is free. */
    ghost predicate NoneFreeBefore(order: seq<nat>, step: nat, now: nat)
      requires Covers(order) && step <= |order|
      reads resolvers
    {
      forall t :: 0 <= t < step ==> !Free(order[t], now)
    }

    /** No resolver visited before a step is eligible. */
    ghost predicate NoneEligibleBefore(order: seq<nat>, step: nat, now: nat)
      requires Covers(order) && step <= |order|
      reads resolvers
    {
      forall t :: 0 <= t < step ==> !Eligible(order[t], now)
    }

    /** What a pass that visits the pool in this order must come back with. */
    ghost predicate Correct(order: seq<nat>, now: nat, r: Pass)
      requires Covers(order)
      reads resolvers
    {
      match r
      case Reserved(i) =>
        exists step: nat :: step < |order| && order[step] == i && Free(i, now) && NoneFreeBefore(order, step, now)
      case NoneActive => forall i :: 0 <= i < |resolvers| ==> !resolvers[i].active
      case AllBenched => SomeActive() && forall i :: 0 <= i < |resolvers| && resolvers[i].active ==> Benched(i, now)
      case WaitOn(i) =>
        && NoneFreeBefore(order, |order|, now)
        && exists step: nat ::
             step < |order| && order[step] == i && Eligible(i, now) && NoneEligibleBefore(order, step, now)
    }

    ghost predicate SomeActive()
      reads resolvers
    {
      exists i :: 0 <= i < |resolvers| && resolvers[i].active
    }

    /** At most one outcome is correct, so a pass yields each kind exactly when its condition holds. */
    lemma {:induction false} PassIsDetermined(order: seq<nat>, now: nat, r: Pass, other: Pass)
      requires Covers(order) && Correct(order, now, r) && Correct(order, now, other)
      ensures r == other
    {
      if r.WaitOn? || other.WaitOn? {
        assert forall i :: 0 <= i < |resolvers| ==> i in order;
      }
    }

    lemma {:induction false} RotationCovers(offset: nat)
      ensures Covers(Rotation(offset, |resolvers|))
    {
      forall i | 0 <= i < |resolvers| ensures i in Rotation(offset, |resolvers|) {
        PassVisitsEachOnce(offset, i, |resolvers|);
      }
      if |resolvers| > 0 {
        PassVisitsEachOnce(offset, 0, |resolvers|);
      }
    }

    /** One pass in rotation order, ending at the first resolver with a permit to spare. */
    method ReservePass(now: nat) returns (r: Pass)
      requires Distinct()
      modifies this`cursor, resolvers
      ensures cursor == old(cursor) + (if |resolvers| == 0 then 0 else 1)
      ensures Covers(Rotation(old(cursor), |resolvers|))
      ensures old(Correct(Rotation(cursor, |resolvers|), now, r))
      ensures forall i :: 0 <= i < |resolvers| ==>
                && resolvers[i].State() == old(resolvers[i].State())
                && resolvers[i].active == old(resolvers[i].active)
                && resolvers[i].inflight == old(resolvers[i].inflight) - (if r == Reserved(i) then 1 else 0)
    {
      RotationCovers(cursor);
      if |resolvers| == 0 {
        return NoneActive;
      }
      var offset := cursor;
      cursor := cursor + 1;
      r := Scan(Rotation(offset, |resolvers|), now);
      if r.Reserved? {
        var taken := resolvers[r.index].TryAcquire();
        assert taken;
      }
    }

    /** The scan of a pass: the first free resolver in rotation, or why there is none. */
    method Scan(order: seq<nat>, now: nat) returns (r: Pass)
      requires |order| == |resolvers| && Covers(order)
      ensures Correct(order, now, r)
    {
      var active, benched := 0, 0;
      var waitable: Option<nat> := None;
      ghost var first := 0;
      for step := 0 to |resolvers|
        invariant 0 <= benched <= active
        invariant NoneFreeBefore(order, step, now)
        invariant active == 0 ==> forall t :: 0 <= t < step ==> !resolvers[order[t]].active
        invariant active > 0 ==> SomeActive()
        invariant benched == active <==> waitable.None?
        invariant waitable.None? ==> NoneEligibleBefore(order, step, now)
        invariant waitable.Some? ==>
                    && 0 <= first < step && order[first] == waitable.value
                    && Eligible(order[first], now) && NoneEligibleBefore(order, first, now)
      {
        var i := order[step];
        if resolvers[i].active {
          active := active + 1;
          if resolvers[i].benchedUntilNs > now {
            benched := benched + 1;
          } else {
            if resolvers[i].inflight > 0 {
              return Reserved(i);
            }
            if waitable.None? {
              waitable := Some(i);
              first := step;
            }
          }
        }
      }
      forall i | 0 <= i < |resolvers|
        ensures active == 0 ==> !resolvers[i].active
        ensures waitable.None? ==> !Eligible(i, now)
      {
        assert i in order;
        var t :| 0 <= t < |order| && order[t] == i;
      }
      if active == 0 {
        r := NoneActive;
      } else if benched == active {
        r := AllBenched;
      } else {
        r := WaitOn(waitable.value);
      }
    }

    /** When the first sentence among the active resolvers lapses. */
    method SoonestEligible(now: nat) returns (soonest: nat)
      ensures SomeActive() ==>
                exists i :: 0 <= i < |resolvers| && resolvers[i].active && resolvers[i].benchedUntilNs == soonest
      ensures forall i :: 0 <= i < |resolvers| && resolvers[i].active ==> soonest <= resolvers[i].benchedUntilNs
      ensures (forall i :: 0 <= i < |resolvers| ==> !resolvers[i].active) ==> soonest == now
    {
      var best: Option<nat> := None;
      for i := 0 to |resolvers|
        invariant best.None? ==> forall j :: 0 <= j < i ==> !resolvers[j].active
        invariant best.Some? ==> exists j :: 0 <= j < i && resolvers[j].active && resolvers[j].benchedUntilNs == best.value
        invariant best.Some? ==> forall j :: 0 <= j < i && resolvers[j].active ==> best.value <= resolvers[j].benchedUntilNs
      {
        if resolvers[i].active {
          if best.None? || resolvers[i].benchedUntilNs < best.value {
            best := Some(resolvers[i].benchedUntilNs);
          }
        }
      }
      soonest := UnwrapOr(best, now);
    }

    /**
     * The wait after a pass that found everything benched: it is never zero, so selection does not spin,
     * and once it is over some active resolver is out of purgatory.
     */
    method BenchedWait(now: nat) returns (wait: nat)
      requires SomeActive()
      requires forall i :: 0 <= i < |resolvers| && resolvers[i].active ==> Benched(i, now)
      ensures wait > 0
      ensures forall later: nat | later >= now + wait :: SomeEligible(later)
    {
      var soonest := SoonestEligible(now);
      wait := SatSub(soonest, now);
      ghost var i :| 0 <= i < |resolvers| && resolvers[i].active && resolvers[i].benchedUntilNs == soonest;
      assert Benched(i, now);
      forall later: nat | later >= now + wait ensures SomeEligible(later) {
        assert Eligible(i, later);
      }
    }

    ghost predicate SomeEligible(now: nat)
      reads resolvers
    {
      exists i :: 0 <= i < |resolvers| && Eligible(i, now)
    }
  }
}
