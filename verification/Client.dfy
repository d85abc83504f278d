/**
 * The retry loop of `resolve_full` in src/client.rs, with its outcome counters and its cache. What each
 * attempt comes back with is up to the environment.
 */
module Clients {
  import opened Prelude
  import opened Caching

  datatype Error =
    | NoResolvers
    | InvalidResolver
    | InvalidHostname
    | QueueClosed
    | WorkerDropped
    | ResolverSetupFailed
    | ResolverRequestFailed
    | QueryTimedOut
    | Configuration

  datatype Result = Ok(response: Response) | Err(error: Error)

  /** How one attempt ends: the queue refuses the item, the worker drops it, or it is answered. */
  datatype Attempt = Refused | Dropped | Delivered(result: Result)

  predicate IsRetryable(e: Error) { e.ResolverRequestFailed? || e.QueryTimedOut? || e.WorkerDropped? }

  /** A failure that says something about the path rather than about the input. */
  predicate IsCongestionEvidence(e: Error) {
    !(e.InvalidHostname? || e.InvalidResolver? || e.QueueClosed? || e.Configuration?)
  }

  predicate AnswersTheQuestion(r: Response) { r.code.NoError? || r.code.NXDomain? }

  /** What an attempt means to the caller. */
  function Meaning(a: Attempt): Result {
    match a
    case Refused => Err(QueueClosed)
    case Dropped => Err(WorkerDropped)
    case Delivered(result) => result
  }

  /** No further attempt could change this. */
  predicate Settles(r: Result) {
    match r
    case Ok(response) => AnswersTheQuestion(response)
    case Err(e) => !IsRetryable(e)
  }

  /** The first attempt that settles the query, or the last one allowed. */
  function Deciding(attempts: seq<Attempt>, n: nat): (i: nat)
    requires 1 <= n <= |attempts|
    ensures i < n
    ensures Settles(Meaning(attempts[i])) || i == n - 1
    ensures forall j :: 0 <= j < i ==> !Settles(Meaning(attempts[j]))
  {
    if n == 1 || Settles(Meaning(attempts[0])) then 0 else 1 + Deciding(attempts[1..], n - 1)
  }

  /** The query counts as finished. */
  predicate Completes(r: Result) { r.Ok? || IsCongestionEvidence(r.error) }

  /** The query counts as failed. */
  predicate Fails(r: Result) { r.Err? && IsCongestionEvidence(r.error) }

  lemma {:induction false} DecidingIsUnique(attempts: seq<Attempt>, n: nat, i: nat)
    requires 1 <= n <= |attempts| && i < n
    requires Settles(Meaning(attempts[i])) || i == n - 1
    requires forall j :: 0 <= j < i ==> !Settles(Meaning(attempts[j]))
    ensures i == Deciding(attempts, n)
  {
  }

  /** An attempt that leaves the name open: no answer arrived, or the resolver declined to give one. */
  predicate LeavesOpen(a: Attempt) {
    match a
    case Refused => false
    case Dropped => true
    case Delivered(Ok(response)) => response.code.Declined?
    case Delivered(Err(e)) => e == WorkerDropped || e == ResolverRequestFailed || e == QueryTimedOut
  }

  /**
   * Retries go on exactly while attempts leave the name open: the result is that of the first attempt that
   * does not, or of the last allowed. An answer that says whether the name exists, an unusable name, a
   * closed queue or a pool without resolvers ends it at once.
   */
  lemma {:induction false} RetriesGoOnWhileOpen(attempts: seq<Attempt>, n: nat, i: nat)
    requires 1 <= n <= |attempts| && i < n
    requires (forall j :: 0 <= j < i ==> LeavesOpen(attempts[j])) && (i < n - 1 ==> !LeavesOpen(attempts[i]))
    ensures Deciding(attempts, n) == i
  {
    forall j | 0 <= j < n ensures Settles(Meaning(attempts[j])) <==> !LeavesOpen(attempts[j]) {
      OpenMeansUnsettled(attempts[j]);
    }
    DecidingIsUnique(attempts, n, i);
  }

  lemma {:induction false} OpenMeansUnsettled(a: Attempt)
    ensures Settles(Meaning(a)) <==> !LeavesOpen(a)
  {
  }

  /** Bad input and a shut-down client are no evidence about the path; every other failure is, and answers always are. */
  lemma {:induction false} OnlyThePathIsCounted(a: Attempt)
    ensures var r := Meaning(a);
            && (a.Refused? ==> !Completes(r) && !Fails(r))
            && (a.Dropped? ==> Completes(r) && Fails(r))
            && (r.Ok? ==> Completes(r) && !Fails(r))
            && (r.Err? ==> (Completes(r) <==> Fails(r)))
            && (r.Err? ==> (Fails(r) <==>
                  r.error !in {InvalidHostname, InvalidResolver, QueueClosed, Configuration}))
  {
  }

  class BlastDNSClient {
    const maxRetries: nat
    const cache: SimpleCache?
    var completed: nat
    var failed: nat

    ghost predicate Valid() reads this {
      failed <= completed && (cache != null ==> cache.minTtl <= cache.maxTtl)
    }

    constructor (maxRetries: nat, cache: SimpleCache?)
      requires cache != null ==> cache.minTtl <= cache.maxTtl
      ensures Valid() && this.maxRetries == maxRetries && this.cache == cache && completed == failed == 0
    {
      this.maxRetries, this.cache := maxRetries, cache;
      completed, failed := 0, 0;
    }

    /** What the cache has for a host, when it names a query at all. */
    ghost function Cached(query: Option<nat>, now: nat): Option<Response>
      reads this, cache
    {
      if cache != null && query.Some? then Got(cache.State(), query.value, now).1 else None
    }

    /**
     * Resolve a host, trying again while an attempt does not settle it. `query` is the host parsed for
     * the cache, and `attempts` what each attempt would come back with.
     */
    method ResolveFull(query: Option<nat>, attempts: seq<Attempt>, now: nat, later: nat) returns (r: Result)
      requires Valid() && |attempts| >= SatAdd(maxRetries, 1)
      modifies this`completed, this`failed, cache
      ensures Valid()
      ensures old(Cached(query, now)).Some? ==>
                r == Ok(old(Cached(query, now)).value) && completed == old(completed) && failed == old(failed)
      ensures old(Cached(query, now)).None? ==>
                && r == Meaning(attempts[Deciding(attempts, SatAdd(maxRetries, 1))])
                && completed == old(completed) + (if Completes(r) then 1 else 0)
                && failed == old(failed) + (if Fails(r) then 1 else 0)
      ensures cache != null ==>
                cache.State() == CacheAfter(old(cache.State()), query, r, old(Cached(query, now)).Some?, now, later)
    {
      if cache != null && query.Some? {
        var hit := cache.Get(query.value, now);
        if hit.Some? {
          return Ok(hit.value);
        }
      }
      var limit := SatAdd(maxRetries, 1);
      for attempt := 0 to limit
        invariant completed == old(completed) && failed == old(failed)
        invariant cache != null ==>
                    cache.State() == if query.Some? then Got(old(cache.State()), query.value, now).0 else old(cache.State())
        invariant attempt > 0 ==> attempt < limit
        invariant forall j :: 0 <= j < attempt ==> !Settles(Meaning(attempts[j]))
      {
        if attempts[attempt].Refused? {
          DecidingIsUnique(attempts, limit, attempt);
          return Err(QueueClosed);
        }
        var response := if attempts[attempt].Dropped? then Err(WorkerDropped) else attempts[attempt].result;
        if response.Ok? {
          if !AnswersTheQuestion(response.response) && attempt + 1 < limit {
            continue;
          }
          if cache != null && response.response.ttls != [] && query.Some? {
            cache.Insert(query.value, response.response, later);
          }
          completed := completed + 1;
          DecidingIsUnique(attempts, limit, attempt);
          return response;
        }
        if attempt + 1 == limit || !IsRetryable(response.error) {
          if IsCongestionEvidence(response.error) {
            completed := completed + 1;
            failed := failed + 1;
          }
          DecidingIsUnique(attempts, limit, attempt);
          return response;
        }
      }
      assert false;
      r := Err(WorkerDropped);
    }
  }

  /** What a call leaves in the cache: the lookup, and the answer it fetched if it carries any records. */
  function CacheAfter(c: Cache, query: Option<nat>, r: Result, hit: bool, now: nat, later: nat): Cache
    requires c.minTtl <= c.maxTtl
  {
    if query.None? then c
    else
      var looked := Got(c, query.value, now).0;
      if !hit && r.Ok? && r.response.ttls != [] then Inserted(looked, query.value, r.response, later) else looked
  }

  /**
   * What a resolved query leaves behind: a fetched answer whose TTLs allow it is what the next lookup of the
   * same query finds, for as long as those TTLs say; anything else leaves only the lookup.
   */
  lemma {:induction false} FetchedAnswersAreFound(c: Cache, query: nat, r: Result, now: nat, later: nat, t: nat, least: nat)
    requires Valid(c) && Got(c, query, now).1.None?
    ensures var after := CacheAfter(c, Some(query), r, false, now, later);
            && (r.Err? ==> after == Got(c, query, now).0)
            && (r.Ok? && r.response.ttls == [] ==> after == Got(c, query, now).0)
            && (r.Ok? && r.response.ttls != [] && IsLeast(least, r.response.ttls) && least > 0 ==>
                  exists lifetime: nat ::
                    && IsLifetime(lifetime, least, c.minTtl, c.maxTtl)
                    && Got(after, query, t).1 == if t < later + lifetime then Some(r.response) else None)
  {
    var looked := Got(c, query, now).0;
    OpKeepsValid(c, Get(query, now));
    assert looked == Applied(c, Get(query, now));
    if r.Ok? && r.response.ttls != [] && IsLeast(least, r.response.ttls) {
      InsertedLivesItsTtl(looked, query, r.response, later, t, least);
    }
  }

  /** A hit, or a host that names no query, changes nothing but recency. */
  lemma {:induction false} HitsFetchNothing(c: Cache, query: Option<nat>, r: Result, now: nat, later: nat)
    requires Valid(c)
    ensures CacheAfter(c, None, r, false, now, later) == c
    ensures query.Some? ==> CacheAfter(c, query, r, true, now, later) == Got(c, query.value, now).0
  {
  }
}
