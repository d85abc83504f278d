/**
 * One resolver's counters, purgatory and round-trip times, as in src/health.rs. Each `record_*` call is
 * one step; `Recorded` says what it does and the class `ResolverHealth` does it in place.
 */
module ResolverHealths {
  import opened Prelude

  const RTT_MIN_WINDOW_NS: nat := 30_000_000_000

  /** The error count that benches a resolver, and the length of its sentence. */
  datatype Config = Config(threshold: nat, sentence: nat)

  datatype Health = Health(
    attempted: nat,
    answered: nat,
    empty: nat,
    timeout: nat,
    error: nat,
    consecutive: nat,
    benchedUntil: nat,
    entries: nat,
    rttEwma: nat,
    rttMin: nat,
    rttMinWindow: nat)

  const FRESH_HEALTH := Health(0, 0, 0, 0, 0, 0, 0, 0, 0, 0, 0)

  /** What is recorded against a resolver. */
  datatype Record =
    | Dispatch
    | Response(now: nat, rtt: nat, hadAnswers: bool)
    | Failure(now: nat, isTimeout: bool)

  function Responses(h: Health): nat { h.answered + h.empty }

  function Errors(h: Health): nat { h.timeout + h.error }

  predicate IsBenched(h: Health, now: nat) { h.benchedUntil > now }

  /** A round-trip sample is at least one microsecond. */
  function RttSample(rtt: nat): nat { MaxNat(rtt, 1) }

  /** The moving average: an eighth of the newest sample, shifted rather than divided. */
  function Ewma(previous: nat, sample: nat): nat {
    if previous == 0 then sample else previous - previous / 8 + sample / 8
  }

  function RttRecorded(h: Health, now: nat, rtt: nat): Health {
    var sample := RttSample(rtt);
    var h := h.(rttEwma := MaxNat(Ewma(h.rttEwma, sample), 1));
    if h.rttMin == 0 || SatSub(now, h.rttMinWindow) > RTT_MIN_WINDOW_NS then
      h.(rttMin := sample, rttMinWindow := now)
    else if sample < h.rttMin then h.(rttMin := sample)
    else h
  }

  /** A failure counts towards purgatory, and the one that reaches the threshold is discharged by it. */
  function Failed(h: Health, c: Config, now: nat): Health {
    var consecutive := h.consecutive + 1;
    if c.threshold == 0 || consecutive < c.threshold || c.sentence == 0 then
      h.(consecutive := consecutive)
    else
      h.(consecutive := 0, benchedUntil := now + c.sentence, entries := h.entries + 1)
  }

  function Recorded(h: Health, c: Config, r: Record): Health {
    match r
    case Dispatch => h.(attempted := h.attempted + 1)
    case Response(now, rtt, hadAnswers) =>
      var h := if hadAnswers then h.(answered := h.answered + 1) else h.(empty := h.empty + 1);
      RttRecorded(h.(consecutive := SatSub(h.consecutive, 1)), now, rtt)
    case Failure(now, isTimeout) =>
      Failed(if isTimeout then h.(timeout := h.timeout + 1) else h.(error := h.error + 1), c, now)
  }

  class ResolverHealth {
    const config: Config
    var active: bool
    var inflight: nat
    var attempted: nat
    var answered: nat
    var empty: nat
    var timeout: nat
    var error: nat
    var consecutiveErrors: nat
    var benchedUntilNs: nat
    var purgatoryEntries: nat
    var rttEwmaUs: nat
    var rttMinUs: nat
    var rttMinWindowNs: nat

    ghost function State(): Health reads this {
      Health(attempted, answered, empty, timeout, error, consecutiveErrors, benchedUntilNs, purgatoryEntries,
             rttEwmaUs, rttMinUs, rttMinWindowNs)
    }

    constructor (config: Config, maxInflight: nat)
      ensures this.config == config && active && inflight == MaxNat(maxInflight, 1) && State() == FRESH_HEALTH
    {
      this.config := config;
      active, inflight := true, MaxNat(maxInflight, 1);
      attempted, answered, empty, timeout, error := 0, 0, 0, 0, 0;
      consecutiveErrors, benchedUntilNs, purgatoryEntries := 0, 0, 0;
      rttEwmaUs, rttMinUs, rttMinWindowNs := 0, 0, 0;
    }

    /** A permit now or not at all. */
    method TryAcquire() returns (taken: bool)
      modifies this`inflight
      ensures taken == (old(inflight) > 0)
      ensures inflight == if taken then old(inflight) - 1 else old(inflight)
    {
      taken := inflight > 0;
      if taken {
        inflight := inflight - 1;
      }
    }

    method RecordDispatch()
      modifies this
      ensures State() == Recorded(old(State()), config, Dispatch)
      ensures inflight == old(inflight) && active == old(active)
    {
      attempted := attempted + 1;
    }

    method RecordResponse(now: nat, rtt: nat, hadAnswers: bool)
      modifies this
      ensures State() == Recorded(old(State()), config, Response(now, rtt, hadAnswers))
      ensures inflight == old(inflight) && active == old(active)
    {
      if hadAnswers {
        answered := answered + 1;
      } else {
        empty := empty + 1;
      }
      consecutiveErrors := SatSub(consecutiveErrors, 1);
      RecordRtt(now, rtt);
    }

    method RecordRtt(now: nat, rtt: nat)
      modifies this
      ensures State() == RttRecorded(old(State()), now, rtt)
      ensures inflight == old(inflight) && active == old(active)
    {
      var sample := MaxNat(rtt, 1);
      var previous := rttEwmaUs;
      var ewma := sample;
      if previous != 0 {
        ewma := previous - previous / 8 + sample / 8;
      }
      rttEwmaUs := MaxNat(ewma, 1);
      var lapsed := SatSub(now, rttMinWindowNs) > RTT_MIN_WINDOW_NS;
      if rttMinUs == 0 || lapsed {
        rttMinUs := sample;
        rttMinWindowNs := now;
      } else if sample < rttMinUs {
        rttMinUs := sample;
      }
    }

    method RecordError(now: nat, isTimeout: bool)
      modifies this
      ensures State() == Recorded(old(State()), config, Failure(now, isTimeout))
      ensures inflight == old(inflight) && active == old(active)
    {
      if isTimeout {
        timeout := timeout + 1;
      } else {
        error := error + 1;
      }
      consecutiveErrors := consecutiveErrors + 1;
      if config.threshold == 0 || consecutiveErrors < config.threshold {
        return;
      }
      if config.sentence == 0 {
        return;
      }
      benchedUntilNs := now + config.sentence;
      purgatoryEntries := purgatoryEntries + 1;
      consecutiveErrors := 0;
    }
  }

  // ---------------------------------------------------------------- histories

  function History(h: Health, c: Config, rs: seq<Record>): Health
    decreases rs
  {
    if rs == [] then h else History(Recorded(h, c, rs[0]), c, rs[1..])
  }

  ghost predicate Amortised(h: Health, c: Config) {
    && h.consecutive < c.threshold
    && c.threshold * h.entries + h.consecutive <= Errors(h)
    && c.threshold * h.entries + h.consecutive + Responses(h) >= Errors(h)
  }

  lemma {:induction false} RecordKeepsAmortised(h: Health, c: Config, r: Record)
    requires c.threshold > 0 && c.sentence > 0 && Amortised(h, c)
    ensures Amortised(Recorded(h, c, r), c)
  {
    assert c.threshold * (h.entries + 1) == c.threshold * h.entries + c.threshold;
  }

  lemma {:induction false} HistoryKeepsAmortised(h: Health, c: Config, rs: seq<Record>)
    requires c.threshold > 0 && c.sentence > 0 && Amortised(h, c)
    ensures Amortised(History(h, c, rs), c)
    decreases rs
  {
    if rs != [] {
      RecordKeepsAmortised(h, c, rs[0]);
      HistoryKeepsAmortised(Recorded(h, c, rs[0]), c, rs[1..]);
    }
  }

  lemma {:induction false} FreshIsAmortised(c: Config)
    requires c.threshold > 0
    ensures Amortised(FRESH_HEALTH, c)
  {
  }

  /**
   * Purgatory is amortised both ways over any history of a resolver: every sentence costs a full threshold
   * of errors of its own, and errors that no response pardons cannot go unpunished beyond one short of
   * the threshold.
   */
  lemma {:induction false} PurgatoryIsAmortised(c: Config, rs: seq<Record>)
    requires c.threshold > 0 && c.sentence > 0
    ensures var h := History(FRESH_HEALTH, c, rs);
            && c.threshold * h.entries + h.consecutive <= Errors(h)
            && h.consecutive < c.threshold
            && c.threshold * h.entries >= Errors(h) - Responses(h) - (c.threshold - 1)
  {
    FreshIsAmortised(c);
    HistoryKeepsAmortised(FRESH_HEALTH, c, rs);
  }

  /** Without a threshold or a sentence nothing is ever benched. */
  lemma {:induction false} DisabledPurgatoryNeverBenches(h: Health, c: Config, rs: seq<Record>, now: nat)
    requires (c.threshold == 0 || c.sentence == 0) && h.benchedUntil == 0 && h.entries == 0
    ensures !IsBenched(History(h, c, rs), now) && History(h, c, rs).entries == 0
    decreases rs
  {
    if rs != [] {
      DisabledPurgatoryNeverBenches(Recorded(h, c, rs[0]), c, rs[1..], now);
    }
  }

  /** How many records of a history are of a kind. */
  function CountOf(rs: seq<Record>, kind: Kind): nat {
    if rs == [] then 0 else (if KindOf(rs[0]) == kind then 1 else 0) + CountOf(rs[1..], kind)
  }

  datatype Kind = Sent | WithAnswers | WithoutAnswers | TimedOut | OtherError

  function KindOf(r: Record): Kind {
    match r
    case Dispatch => Sent
    case Response(_, _, hadAnswers) => if hadAnswers then WithAnswers else WithoutAnswers
    case Failure(_, isTimeout) => if isTimeout then TimedOut else OtherError
  }

  /** Every counter counts the records of its own kind. */
  lemma {:induction false} CountersCountTheirKind(h: Health, c: Config, rs: seq<Record>)
    ensures var h' := History(h, c, rs);
            && h'.attempted == h.attempted + CountOf(rs, Sent)
            && h'.answered == h.answered + CountOf(rs, WithAnswers)
            && h'.empty == h.empty + CountOf(rs, WithoutAnswers)
            && h'.timeout == h.timeout + CountOf(rs, TimedOut)
            && h'.error == h.error + CountOf(rs, OtherError)
    decreases rs
  {
    if rs != [] { CountersCountTheirKind(Recorded(h, c, rs[0]), c, rs[1..]); }
  }

  /** Failures less responses over a history. */
  function Excess(rs: seq<Record>): int {
    if rs == [] then 0 else (if rs[0].Failure? then 1 else if rs[0].Response? then -1 else 0) + Excess(rs[1..])
  }

  lemma {:induction false} ExcessOneMore(rs: seq<Record>, r: Record)
    ensures Excess(rs + [r]) == Excess(rs) + (if r.Failure? then 1 else if r.Response? then -1 else 0)
  {
    if rs == [] {
      assert rs + [r] == [r] && [r][1..] == [];
    } else {
      assert (rs + [r])[1..] == rs[1..] + [r];
      ExcessOneMore(rs[1..], r);
    }
  }

  lemma {:induction false} HistoryOneMore(h: Health, c: Config, rs: seq<Record>, r: Record)
    ensures History(h, c, rs + [r]) == Recorded(History(h, c, rs), c, r)
    decreases rs
  {
    if rs == [] {
      assert (rs + [r])[1..] == [];
    } else {
      assert (rs + [r])[1..] == rs[1..] + [r];
      HistoryOneMore(Recorded(h, c, rs[0]), c, rs[1..], r);
    }
  }

  /** `n` is the largest excess of failures over responses on any stretch that ends now, `start` counting for the whole. */
  ghost predicate IsPressure(n: nat, start: nat, rs: seq<Record>) {
    && n >= start + Excess(rs)
    && (forall i :: 0 <= i <= |rs| ==> n >= Excess(rs[i..]))
    && (n == start + Excess(rs) || exists i :: 0 <= i <= |rs| && n == Excess(rs[i..]))
  }

  lemma {:induction false} PressureMoves(n: nat, start: nat, rs: seq<Record>, r: Record, n': nat)
    requires IsPressure(n, start, rs)
    requires n' == if r.Failure? then n + 1 else if r.Response? then SatSub(n, 1) else n
    ensures IsPressure(n', start, rs + [r])
  {
    var all := rs + [r];
    ExcessOneMore(rs, r);
    assert all[|all|..] == [];
    forall i | 0 <= i <= |rs| ensures Excess(all[i..]) == Excess(rs[i..]) + Excess(all) - Excess(rs) {
      assert all[i..] == rs[i..] + [r];
      ExcessOneMore(rs[i..], r);
    }
    if n == start + Excess(rs) {
      if n' != start + Excess(all) { assert n' == Excess(all[|all|..]); }
    } else {
      var i :| 0 <= i <= |rs| && n == Excess(rs[i..]);
      if n' != Excess(all[i..]) { assert n' == Excess(all[|all|..]); }
    }
  }

  /**
   * Error pressure is the largest excess of failures over responses on any stretch up to now: while no
   * sentence is handed down, responses pardon failures one for one and nothing is saved up below zero.
   */
  lemma {:induction false} PressureIsTheLargestExcess(h: Health, c: Config, rs: seq<Record>)
    requires History(h, c, rs).entries == h.entries
    ensures IsPressure(History(h, c, rs).consecutive, h.consecutive, rs)
    decreases |rs|
  {
    if rs == [] {
      assert rs[0..] == [];
    } else {
      var n := |rs| - 1;
      var front, r := rs[..n], rs[n];
      assert rs == front + [r];
      HistoryOneMore(h, c, front, r);
      EntriesOnlyGrow(h, c, front);
      PressureIsTheLargestExcess(h, c, front);
      PressureMoves(History(h, c, front).consecutive, h.consecutive, front, r, History(h, c, rs).consecutive);
    }
  }

  lemma {:induction false} EntriesOnlyGrow(h: Health, c: Config, rs: seq<Record>)
    ensures History(h, c, rs).entries >= h.entries
    decreases rs
  {
    if rs != [] { EntriesOnlyGrow(Recorded(h, c, rs[0]), c, rs[1..]); }
  }

  /**
   * A sentence is handed down by exactly the failure that brings the pressure to the threshold. The resolver
   * is then benched for the length of the sentence, whatever is recorded meanwhile short of another
   * sentence, and starts over with no pressure.
   */
  lemma {:induction false} SentenceIsServed(h: Health, c: Config, now: nat, isTimeout: bool, rs: seq<Record>, t: nat)
    requires c.threshold > 0 && c.sentence > 0 && h.consecutive < c.threshold
    ensures var h' := Recorded(h, c, Failure(now, isTimeout));
            && (h'.entries == h.entries + 1 <==> h.consecutive + 1 == c.threshold)
            && (h'.entries == h.entries || h'.entries == h.entries + 1)
            && (h'.entries == h.entries + 1 ==>
                  && h'.consecutive == 0
                  && (History(h', c, rs).entries == h'.entries ==>
                        (IsBenched(History(h', c, rs), t) <==> t < now + c.sentence)))
            && (h'.entries == h.entries ==> h'.consecutive == h.consecutive + 1 && (IsBenched(h', t) <==> IsBenched(h, t)))
  {
    var h' := Recorded(h, c, Failure(now, isTimeout));
    if History(h', c, rs).entries == h'.entries { SentenceStands(h', c, rs); }
  }

  lemma {:induction false} SentenceStands(h: Health, c: Config, rs: seq<Record>)
    requires History(h, c, rs).entries == h.entries
    ensures History(h, c, rs).benchedUntil == h.benchedUntil
    decreases rs
  {
    if rs != [] {
      EntriesOnlyGrow(Recorded(h, c, rs[0]), c, rs[1..]);
      SentenceStands(Recorded(h, c, rs[0]), c, rs[1..]);
    }
  }

  /** Round trips on record all lie between two bounds. */
  predicate RttsWithin(rs: seq<Record>, low: nat, high: nat) {
    forall r <- rs :: r.Response? ==> low <= RttSample(r.rtt) <= high
  }

  lemma {:induction false} EwmaIsAMean(previous: nat, sample: nat)
    requires previous > 0
    ensures MinNat(previous, sample) <= Ewma(previous, sample) <= MaxNat(previous, sample)
  {
  }

  /** The moving average never leaves the range of the round trips it was fed, shifts notwithstanding. */
  lemma {:induction false} EwmaStaysInRange(h: Health, c: Config, rs: seq<Record>, low: nat, high: nat)
    requires 1 <= low && RttsWithin(rs, low, high)
    requires h.rttEwma == 0 || low <= h.rttEwma <= high
    ensures var h' := History(h, c, rs); h'.rttEwma == 0 || low <= h'.rttEwma <= high
    decreases rs
  {
    if rs != [] {
      assert rs[0] in rs;
      if rs[0].Response? && h.rttEwma > 0 {
        EwmaIsAMean(h.rttEwma, RttSample(rs[0].rtt));
      }
      EwmaStaysInRange(Recorded(h, c, rs[0]), c, rs[1..], low, high);
    }
  }

  /** The first round trip is the average; every later one moves it an eighth of the way, give or take a rounding. */
  lemma {:induction false} EwmaMovesAnEighth(h: Health, c: Config, now: nat, rtt: nat, hadAnswers: bool)
    ensures var h' := Recorded(h, c, Response(now, rtt, hadAnswers));
            var sample := if rtt >= 1 then rtt else 1;
            && (h.rttEwma == 0 ==> h'.rttEwma == sample)
            && (h.rttEwma > 0 ==> 7 * h.rttEwma + sample - 8 < 8 * h'.rttEwma < 7 * h.rttEwma + sample + 8)
  {
  }

  /** Once the window has lapsed the minimum starts over from the newest round trip. */
  lemma {:induction false} RttMinStartsOver(h: Health, c: Config, now: nat, rtt: nat, hadAnswers: bool)
    requires h.rttMin == 0 || now > h.rttMinWindow + 30_000_000_000
    ensures var h' := Recorded(h, c, Response(now, rtt, hadAnswers));
            h'.rttMin == (if rtt >= 1 then rtt else 1) && h'.rttMinWindow == now
  {
  }

  /** The smallest of a starting value and the round trips on record. */
  function LeastRtt(least: nat, rs: seq<Record>): nat
    decreases rs
  {
    if rs == [] then least
    else LeastRtt(if rs[0].Response? then MinNat(least, RttSample(rs[0].rtt)) else least, rs[1..])
  }

  /** Until its window lapses, the minimum on record is the least round trip seen since it opened. */
  lemma {:induction false} RttMinIsTheLeast(h: Health, c: Config, rs: seq<Record>)
    requires h.rttMin > 0
    requires forall r <- rs :: r.Response? ==> SatSub(r.now, h.rttMinWindow) <= RTT_MIN_WINDOW_NS
    ensures History(h, c, rs).rttMin == LeastRtt(h.rttMin, rs)
    ensures History(h, c, rs).rttMinWindow == h.rttMinWindow
    decreases rs
  {
    if rs != [] {
      assert rs[0] in rs;
      RttMinIsTheLeast(Recorded(h, c, rs[0]), c, rs[1..]);
    }
  }
}
