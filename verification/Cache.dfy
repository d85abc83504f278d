/**
 * The TTL/LRU cache of src/cache.rs over an explicit recency order, and its agreement with an ideal
 * map that never evicts.
 */
module Caching {
  import opened Prelude

  const NANOS_PER_SECOND: nat := 1_000_000_000

  datatype Code = NoError | NXDomain | Declined(code: nat)

  /** A response, by number, with its response code and the TTLs of its answer records in seconds. */
  datatype Response = Response(id: nat, code: Code, ttls: seq<nat>)

  datatype Entry = Entry(response: Response, expireAt: nat)

  /** A cached pair; queries go by number. */
  datatype Slot = Slot(query: nat, entry: Entry)

  /** The LRU map, most recently used first, and its settings. */
  datatype Cache = Cache(capacity: nat, minTtl: nat, maxTtl: nat, slots: seq<Slot>)

  function Empty(capacity: nat, minTtl: nat, maxTtl: nat): Cache {
    Cache(MaxNat(capacity, 1), minTtl, maxTtl, [])
  }

  function Clamp(x: nat, low: nat, high: nat): nat
    requires low <= high
  {
    if x < low then low else if x > high then high else x
  }

  /** The smallest TTL among the answers, or zero when there are none. */
  function LeastTtl(ttls: seq<nat>): nat {
    if ttls == [] then 0 else if |ttls| == 1 then ttls[0] else MinNat(ttls[0], LeastTtl(ttls[1..]))
  }

  /** The slots without a query. */
  function Without(slots: seq<Slot>, query: nat): seq<Slot> {
    if slots == [] then [] else (if slots[0].query == query then [] else [slots[0]]) + Without(slots[1..], query)
  }

  /** The entry of a query, if there is one. */
  function Find(slots: seq<Slot>, query: nat): Option<Entry> {
    if slots == [] then None
    else if slots[0].query == query then Some(slots[0].entry)
    else Find(slots[1..], query)
  }

  function Got(c: Cache, query: nat, now: nat): (Cache, Option<Response>) {
    var found := Find(c.slots, query);
    if found.None? then (c, None)
    else if found.value.expireAt > now then
      (c.(slots := [Slot(query, found.value)] + Without(c.slots, query)), Some(found.value.response))
    else (c.(slots := Without(c.slots, query)), None)
  }

  /** `LruCache::put`: the pair becomes the most recent, and the least recent makes room for a new key. */
  function Put(c: Cache, query: nat, entry: Entry): Cache {
    var others := Without(c.slots, query);
    var kept := if |others| >= c.capacity && |others| > 0 then others[..|others| - 1] else others;
    c.(slots := [Slot(query, entry)] + kept)
  }

  /** The entry an insert makes, or nothing when the response must not be cached. */
  function Made(c: Cache, response: Response, now: nat): Option<Entry>
    requires c.minTtl <= c.maxTtl
  {
    var seconds := LeastTtl(response.ttls);
    if seconds == 0 then None
    else Some(Entry(response, now + Clamp(seconds * NANOS_PER_SECOND, c.minTtl, c.maxTtl)))
  }

  function Inserted(c: Cache, query: nat, response: Response, now: nat): Cache
    requires c.minTtl <= c.maxTtl
  {
    var made := Made(c, response, now);
    if made.None? then c else Put(c, query, made.value)
  }

  class SimpleCache {
    const capacity: nat
    const minTtl: nat
    const maxTtl: nat
    var slots: seq<Slot>

    ghost function State(): Cache reads this { Cache(capacity, minTtl, maxTtl, slots) }

    constructor (capacity: nat, minTtl: nat, maxTtl: nat)
      ensures State() == Empty(capacity, minTtl, maxTtl)
    {
      this.capacity, this.minTtl, this.maxTtl := MaxNat(capacity, 1), minTtl, maxTtl;
      slots := [];
    }

    /** `LruCache::get`: a found pair becomes the most recent. */
    method Touch(query: nat) returns (entry: Option<Entry>)
      modifies this
      ensures entry == Find(old(slots), query)
      ensures slots == if entry.None? then old(slots) else [Slot(query, entry.value)] + Without(old(slots), query)
    {
      entry := Find(slots, query);
      if entry.Some? {
        slots := [Slot(query, entry.value)] + Without(slots, query);
      }
    }

    method Get(query: nat, now: nat) returns (r: Option<Response>)
      modifies this
      ensures (State(), r) == Got(old(State()), query, now)
    {
      ghost var before := slots;
      var entry := Touch(query);
      if entry.Some? {
        if entry.value.expireAt > now {
          return Some(entry.value.response);
        }
        assert Without(slots, query) == Without(before, query) by {
          assert slots[1..] == Without(before, query);
          WithoutTwice(before, query);
        }
        slots := Without(slots, query);
      }
      return None;
    }

    method Contains(query: nat, now: nat) returns (r: bool)
      modifies this
      ensures State() == Got(old(State()), query, now).0 && r == Got(old(State()), query, now).1.Some?
    {
      var found := Get(query, now);
      r := found.Some?;
    }

    method Insert(query: nat, response: Response, now: nat)
      requires minTtl <= maxTtl
      modifies this
      ensures State() == Inserted(old(State()), query, response, now)
    {
      var seconds := 0;
      if |response.ttls| > 0 {
        seconds := SmallestTtl(response.ttls);
      }
      if seconds == 0 {
        return;
      }
      var ttl := Clamp(seconds * NANOS_PER_SECOND, minTtl, maxTtl);
      var others := Without(slots, query);
      if |others| >= capacity && |others| > 0 {
        others := others[..|others| - 1];
      }
      slots := [Slot(query, Entry(response, now + ttl))] + others;
    }
  }

  method SmallestTtl(ttls: seq<nat>) returns (least: nat)
    requires |ttls| > 0
    ensures least == LeastTtl(ttls) && least in ttls && forall i :: 0 <= i < |ttls| ==> least <= ttls[i]
  {
    var n := |ttls| - 1;
    least := ttls[n];
    assert ttls[n..] == [ttls[n]];
    for i := n downto 0
      invariant least == LeastTtl(ttls[i..]) && least in ttls
      invariant forall j :: i <= j < |ttls| ==> least <= ttls[j]
    {
      assert ttls[i..][1..] == ttls[i + 1..];
      if ttls[i] < least {
        least := ttls[i];
      }
    }
    assert ttls[0..] == ttls;
  }

  // ---------------------------------------------------------------- slots

  lemma {:induction false} WithoutTwice(slots: seq<Slot>, query: nat)
    ensures Without(Without(slots, query), query) == Without(slots, query)
    ensures forall s <- Without(slots, query) :: s.query != query && s in slots
  {
    if slots != [] {
      WithoutTwice(slots[1..], query);
      var rest := Without(slots[1..], query);
      if slots[0].query != query {
        assert ([slots[0]] + rest)[1..] == rest;
      } else {
        assert [] + rest == rest;
      }
    }
  }

  ghost predicate DistinctKeys(slots: seq<Slot>) {
    slots != [] ==> Find(slots[1..], slots[0].query).None? && DistinctKeys(slots[1..])
  }

  ghost predicate Valid(c: Cache) {
    c.capacity >= 1 && c.minTtl <= c.maxTtl && |c.slots| <= c.capacity && DistinctKeys(c.slots)
  }

  /** The keys used more recently than a query's. */
  function Before(slots: seq<Slot>, query: nat): set<nat> {
    if slots == [] || slots[0].query == query then {} else {slots[0].query} + Before(slots[1..], query)
  }

  lemma {:induction false} WithoutShrinks(slots: seq<Slot>, other: nat)
    requires DistinctKeys(slots)
    ensures DistinctKeys(Without(slots, other))
    ensures |Without(slots, other)| == |slots| - (if Find(slots, other).Some? then 1 else 0)
    ensures Find(Without(slots, other), other).None?
  {
    if slots != [] {
      WithoutShrinks(slots[1..], other);
      var rest := Without(slots[1..], other);
      if slots[0].query == other {
        assert [] + rest == rest;
      } else {
        assert ([slots[0]] + rest)[1..] == rest;
        WithoutKeepsTheRest(slots[1..], other, slots[0].query);
      }
    }
  }

  lemma {:induction false} WithoutKeepsTheRest(slots: seq<Slot>, other: nat, query: nat)
    requires other != query
    ensures Find(Without(slots, other), query) == Find(slots, query)
    ensures Before(Without(slots, other), query) == Before(slots, query) - {other}
  {
    if slots != [] {
      WithoutKeepsTheRest(slots[1..], other, query);
      var rest := Without(slots[1..], other);
      if slots[0].query == other {
        assert [] + rest == rest;
      } else {
        assert ([slots[0]] + rest)[1..] == rest;
      }
    }
  }

  lemma {:induction false} PrefixIsDistinct(slots: seq<Slot>, n: nat)
    requires n <= |slots| && DistinctKeys(slots)
    ensures DistinctKeys(slots[..n])
  {
    if n > 0 {
      assert slots[..n][1..] == slots[1..][..n - 1];
      PrefixIsDistinct(slots[1..], n - 1);
      PrefixFinds(slots[1..], n - 1, slots[0].query);
    }
  }

  lemma {:induction false} FrontOf(slot: Slot, rest: seq<Slot>, query: nat)
    ensures Find([slot] + rest, query) == (if slot.query == query then Some(slot.entry) else Find(rest, query))
    ensures Before([slot] + rest, query) ==
            (if slot.query == query then {} else {slot.query} + Before(rest, query))
  {
    assert ([slot] + rest)[1..] == rest;
  }

  /** A key with few enough more recent ones survives the loss of the least recent. */
  lemma {:induction false} EvictionSparesTheRecent(slots: seq<Slot>, query: nat)
    requires slots != [] && DistinctKeys(slots) && Find(slots, query).Some?
    requires |Before(slots, query)| < |slots| - 1
    ensures Find(slots[..|slots| - 1], query) == Find(slots, query)
    ensures Before(slots[..|slots| - 1], query) == Before(slots, query)
  {
    var n := |slots| - 1;
    if slots[0].query != query {
      NotBefore(slots[1..], query, slots[0].query);
      assert Before(slots, query) - {slots[0].query} == Before(slots[1..], query);
      EvictionSparesTheRecent(slots[1..], query);
      assert slots[..n][1..] == slots[1..][..n - 1];
    }
  }

  lemma {:induction false} NotBefore(slots: seq<Slot>, query: nat, other: nat)
    requires Find(slots, other).None?
    ensures other !in Before(slots, query)
  {
    if slots != [] && slots[0].query != query { NotBefore(slots[1..], query, other); }
  }

  // ---------------------------------------------------------------- runs

  datatype Op = Get(query: nat, now: nat) | Insert(query: nat, response: Response, now: nat)

  function Applied(c: Cache, op: Op): Cache
    requires c.minTtl <= c.maxTtl
  {
    match op
    case Get(query, now) => Got(c, query, now).0
    case Insert(query, response, now) => Inserted(c, query, response, now)
  }

  lemma {:induction false} DistinctFront(slots: seq<Slot>)
    ensures slots != [] ==> (DistinctKeys(slots) <==> Find(slots[1..], slots[0].query).None? && DistinctKeys(slots[1..]))
  {
  }

  lemma {:induction false} OpKeepsValid(c: Cache, op: Op)
    requires Valid(c)
    ensures Valid(Applied(c, op))
  {
    var others := Without(c.slots, op.query);
    WithoutShrinks(c.slots, op.query);
    if |others| > 0 {
      PrefixIsDistinct(others, |others| - 1);
      PrefixFinds(others, |others| - 1, op.query);
    }
    DistinctFront(Applied(c, op).slots);
  }

  /** The cache after a run of operations. */
  ghost function Run(c: Cache, ops: seq<Op>): (c': Cache)
    requires Valid(c)
    ensures Valid(c') && c'.capacity == c.capacity && c'.minTtl == c.minTtl && c'.maxTtl == c.maxTtl
    decreases ops
  {
    if ops == [] then c
    else
      OpKeepsValid(c, ops[0]);
      Run(Applied(c, ops[0]), ops[1..])
  }

  lemma {:induction false} RunOneMore(c: Cache, ops: seq<Op>, op: Op)
    requires Valid(c)
    ensures Run(c, ops + [op]) == Applied(Run(c, ops), op)
    decreases ops
  {
    if ops == [] {
      assert (ops + [op])[1..] == [];
    } else {
      assert (ops + [op])[1..] == ops[1..] + [op];
      OpKeepsValid(c, ops[0]);
      RunOneMore(Applied(c, ops[0]), ops[1..], op);
    }
  }

  // ---------------------------------------------------------------- the ideal map

  /** What a map that never evicts holds: the entry of the last insert that may be cached. */
  function Latest(c: Cache, ops: seq<Op>, query: nat): Option<Entry>
    requires c.minTtl <= c.maxTtl
    decreases ops
  {
    if ops == [] then None
    else
      var last := ops[|ops| - 1];
      if last.Insert? && last.query == query && Made(c, last.response, last.now).Some?
      then Made(c, last.response, last.now)
      else Latest(c, ops[..|ops| - 1], query)
  }

  /** Every entry on record is the ideal map's. */
  ghost predicate Refines(c: Cache, start: Cache, ops: seq<Op>)
    requires start.minTtl <= start.maxTtl
  {
    forall query: nat :: Find(c.slots, query).Some? ==> Find(c.slots, query) == Latest(start, ops, query)
  }

  lemma {:induction false} OpRefines(c: Cache, op: Op, query: nat)
    requires Valid(c)
    ensures var found := Find(Applied(c, op).slots, query);
            found.Some? ==>
              if op.Insert? && op.query == query && Made(c, op.response, op.now).Some?
              then found == Made(c, op.response, op.now)
              else found == Find(c.slots, query)
  {
    var others := Without(c.slots, op.query);
    WithoutShrinks(c.slots, op.query);
    if op.query != query {
      WithoutKeepsTheRest(c.slots, op.query, query);
    }
    if op.Get? {
      if Find(c.slots, op.query).Some? {
        FrontOf(Slot(op.query, Find(c.slots, op.query).value), others, query);
      }
    } else if Made(c, op.response, op.now).Some? {
      var entry := Made(c, op.response, op.now).value;
      var kept := if |others| >= c.capacity && |others| > 0 then others[..|others| - 1] else others;
      FrontOf(Slot(op.query, entry), kept, query);
      PrefixFinds(others, |kept|, query);
      assert others[..|others|] == others;
    }
  }

  lemma {:induction false} PrefixFinds(slots: seq<Slot>, n: nat, query: nat)
    requires n <= |slots|
    ensures Find(slots[..n], query).Some? ==> Find(slots[..n], query) == Find(slots, query)
  {
    if n > 0 {
      assert slots[..n][1..] == slots[1..][..n - 1];
      PrefixFinds(slots[1..], n - 1, query);
    }
  }

  lemma {:induction false} RunRefines(start: Cache, ops: seq<Op>)
    requires Valid(start) && start.slots == []
    ensures Refines(Run(start, ops), start, ops)
    decreases |ops|
  {
    if ops != [] {
      var n := |ops| - 1;
      var front, last := ops[..n], ops[n];
      assert ops == front + [last];
      RunRefines(start, front);
      RunOneMore(start, front, last);
      var before := Run(start, front);
      forall query: nat | Find(Run(start, ops).slots, query).Some?
        ensures Find(Run(start, ops).slots, query) == Latest(start, ops, query)
      {
        OpRefines(before, last, query);
      }
    }
  }

  /**
   * The cache refines an ideal map: after any run a hit is the latest insert of that query that may be
   * cached, still within its clamped time to live, and the cache never outgrows its capacity.
   */
  lemma {:induction false} HitsAreTheLatestUnexpired(start: Cache, ops: seq<Op>, query: nat, now: nat)
    requires Valid(start) && start.slots == []
    ensures |Run(start, ops).slots| <= start.capacity
    ensures var hit, ideal := Got(Run(start, ops), query, now).1, Latest(start, ops, query);
            hit.Some? ==> ideal.Some? && hit.value == ideal.value.response && ideal.value.expireAt > now
  {
    RunRefines(start, ops);
  }

  /** `least` is one of the TTLs, and none is smaller. */
  ghost predicate IsLeast(least: nat, ttls: seq<nat>) { least in ttls && forall t <- ttls :: least <= t }

  lemma {:induction false} LeastTtlIsTheLeast(ttls: seq<nat>)
    requires ttls != []
    ensures IsLeast(LeastTtl(ttls), ttls)
  {
    assert ttls == [ttls[0]] + ttls[1..];
    if |ttls| > 1 { LeastTtlIsTheLeast(ttls[1..]); }
  }

  /** How long a response with a least TTL of `seconds` is kept: within the limits, and just that if it is within. */
  ghost predicate IsLifetime(lifetime: nat, seconds: nat, low: nat, high: nat) {
    && low <= lifetime <= high
    && (low <= seconds * 1_000_000_000 <= high ==> lifetime == seconds * 1_000_000_000)
    && (seconds * 1_000_000_000 < low ==> lifetime == low)
    && (seconds * 1_000_000_000 > high ==> lifetime == high)
  }

  /**
   * What an insert caches, and for how long: nothing without answers or with a zero TTL, and otherwise the
   * response itself until its least TTL, kept within the limits, has passed.
   */
  lemma {:induction false} InsertedLivesItsTtl(c: Cache, query: nat, response: Response, now: nat, later: nat, least: nat)
    requires Valid(c) && response.ttls != [] && IsLeast(least, response.ttls)
    ensures least == 0 ==> Inserted(c, query, response, now) == c
    ensures least > 0 ==>
              exists lifetime: nat ::
                && IsLifetime(lifetime, least, c.minTtl, c.maxTtl)
                && Got(Inserted(c, query, response, now), query, later).1 ==
                   if later < now + lifetime then Some(response) else None
  {
    LeastTtlIsTheLeast(response.ttls);
    assert least == LeastTtl(response.ttls);
    if least > 0 {
      assert IsLifetime(Clamp(least * NANOS_PER_SECOND, c.minTtl, c.maxTtl), least, c.minTtl, c.maxTtl);
    }
  }

  /** A lookup that finds its entry expired drops it; one that finds it fresh or not at all drops nothing. */
  lemma {:induction false} ExpiredEntriesAreDropped(c: Cache, query: nat, now: nat)
    requires Valid(c)
    ensures var c', hit := Got(c, query, now).0, Got(c, query, now).1;
            && |c'.slots| == |c.slots| - (if Find(c.slots, query).Some? && hit.None? then 1 else 0)
            && (Find(c'.slots, query).Some? <==> hit.Some?)
            && forall other: nat :: other != query ==> Find(c'.slots, other) == Find(c.slots, other)
  {
    WithoutShrinks(c.slots, query);
    forall other: nat | other != query ensures Find(Got(c, query, now).0.slots, other) == Find(c.slots, other) {
      WithoutKeepsTheRest(c.slots, query, other);
      if Find(c.slots, query).Some? {
        FrontOf(Slot(query, Find(c.slots, query).value), Without(c.slots, query), other);
      }
    }
  }

  // ---------------------------------------------------------------- retention

  /** The key an operation makes most recent, if any: one hit or inserted. */
  function Touches(c: Cache, op: Op): set<nat>
    requires c.minTtl <= c.maxTtl
  {
    match op
    case Get(query, now) => if Got(c, query, now).1.Some? then {query} else {}
    case Insert(query, response, now) => if Made(c, response, now).Some? then {query} else {}
  }

  ghost function Touched(c: Cache, ops: seq<Op>): set<nat>
    requires Valid(c)
    decreases ops
  {
    if ops == [] then {}
    else
      OpKeepsValid(c, ops[0]);
      Touches(c, ops[0]) + Touched(Applied(c, ops[0]), ops[1..])
  }

  /** An entry is on record with only keys from `others` used more recently. */
  ghost predicate Retained(c: Cache, query: nat, entry: Entry, others: set<nat>) {
    Find(c.slots, query) == Some(entry) && Before(c.slots, query) <= others
  }

  lemma {:induction false} OpRetains(c: Cache, op: Op, query: nat, entry: Entry, others: set<nat>)
    requires Valid(c) && Retained(c, query, entry, others)
    requires |others| < c.capacity && Touches(c, op) <= others && query !in others
    requires op.now < entry.expireAt
    ensures Retained(Applied(c, op), query, entry, others)
  {
    if op.query != query && (op.Get? ==> Find(c.slots, op.query).Some?) {
      var rest := Without(c.slots, op.query);
      WithoutKeepsTheRest(c.slots, op.query, query);
      if op.Get? {
        FrontOf(Slot(op.query, Find(c.slots, op.query).value), rest, query);
      } else if Made(c, op.response, op.now).Some? {
        InsertRetains(c, op, query, entry, others);
      }
    }
  }

  lemma {:induction false} InsertRetains(c: Cache, op: Op, query: nat, entry: Entry, others: set<nat>)
    requires Valid(c) && Retained(c, query, entry, others)
    requires |others| < c.capacity && op.query in others && query !in others
    requires op.Insert? && op.query != query && Made(c, op.response, op.now).Some?
    ensures Retained(Applied(c, op), query, entry, others)
  {
    var rest, made := Without(c.slots, op.query), Made(c, op.response, op.now).value;
    WithoutShrinks(c.slots, op.query);
    WithoutKeepsTheRest(c.slots, op.query, query);
    if |rest| >= c.capacity {
      assert Before(rest, query) <= others - {op.query};
      SmallerSet(Before(rest, query), others - {op.query});
      EvictionSparesTheRecent(rest, query);
      FrontOf(Slot(op.query, made), rest[..|rest| - 1], query);
    } else {
      FrontOf(Slot(op.query, made), rest, query);
    }
  }

  lemma {:induction false} SmallerSet(a: set<nat>, b: set<nat>)
    requires a <= b
    ensures |a| <= |b|
  {
    assert b == a + (b - a);
  }

  lemma {:induction false} RunRetains(c: Cache, ops: seq<Op>, query: nat, entry: Entry, others: set<nat>)
    requires Valid(c) && Retained(c, query, entry, others)
    requires |others| < c.capacity && Touched(c, ops) <= others && query !in others
    requires forall op <- ops :: op.now < entry.expireAt
    ensures Retained(Run(c, ops), query, entry, others)
    decreases ops
  {
    if ops != [] {
      assert ops[0] in ops;
      OpRetains(c, ops[0], query, entry, others);
      OpKeepsValid(c, ops[0]);
      RunRetains(Applied(c, ops[0]), ops[1..], query, entry, others);
    }
  }

  /** The entry a touch makes most recent. */
  function TouchedEntry(c: Cache, op: Op): Entry
    requires c.minTtl <= c.maxTtl && op.query in Touches(c, op)
  {
    match op
    case Get(query, _) => Find(c.slots, query).value
    case Insert(_, response, now) => Made(c, response, now).value
  }

  /** A touch puts its entry first. */
  lemma {:induction false} TouchComesFirst(c: Cache, op: Op)
    requires Valid(c) && op.query in Touches(c, op)
    ensures Applied(c, op).slots != [] && Applied(c, op).slots[0] == Slot(op.query, TouchedEntry(c, op))
  {
  }

  /**
   * An entry that was hit or inserted hits again, while it has not expired, as long as fewer distinct
   * other keys than the capacity have been hit or inserted since.
   */
  lemma {:induction false} RecentEntriesHit(c: Cache, touch: Op, ops: seq<Op>, now: nat)
    requires Valid(c) && touch.query in Touches(c, touch) && Valid(Applied(c, touch))
    requires touch.query !in Touched(Applied(c, touch), ops) && |Touched(Applied(c, touch), ops)| < c.capacity
    requires (forall op <- ops :: op.now <= now) && now < TouchedEntry(c, touch).expireAt
    ensures Got(Run(Applied(c, touch), ops), touch.query, now).1 == Some(TouchedEntry(c, touch).response)
  {
    TouchComesFirst(c, touch);
    RunRetains(Applied(c, touch), ops, touch.query, TouchedEntry(c, touch), Touched(Applied(c, touch), ops));
  }

  /** A response without answers or with a zero TTL among them leaves the cache as it was. */
  lemma {:induction false} ZeroTtlIsNotCached(c: Cache, query: nat, response: Response, now: nat)
    requires c.minTtl <= c.maxTtl && (response.ttls == [] || 0 in response.ttls)
    ensures Inserted(c, query, response, now) == c
  {
    LeastIsZero(response.ttls);
  }

  lemma {:induction false} LeastIsZero(ttls: seq<nat>)
    requires ttls == [] || 0 in ttls
    ensures LeastTtl(ttls) == 0
  {
    if |ttls| > 1 && ttls[0] != 0 { LeastIsZero(ttls[1..]); }
  }
}
