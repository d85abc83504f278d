/**
 * What a resolver's windows are made of: over any run of ticks every attempt, loss and answer that the
 * counters show goes into exactly one window, and what is judged is what those counters say.
 */
module LaneAccounts {
  import opened Prelude
  import opened LossJudging
  import opened ResolverLanes
  import opened LaneEpisodes
  import G = GlobalBraking

  /** The resolver's counters do not run backwards. */
  predicate NotBefore(p: Observation, q: Observation) {
    p.attempted <= q.attempted && p.lost <= q.lost && p.responded <= q.responded
  }

  ghost predicate Counting(previous: Observation, ks: seq<Look>)
    decreases ks
  {
    ks != [] ==> NotBefore(previous, ks[0].current) && Counting(ks[0].current, ks[1..])
  }

  /** The counts of a window and its length. */
  datatype Span = Span(attempted: int, lost: int, responded: int, seconds: real)

  function Sum(a: Span, b: Span): Span {
    Span(a.attempted + b.attempted, a.lost + b.lost, a.responded + b.responded, a.seconds + b.seconds)
  }

  function SumAll(spans: seq<Span>): Span {
    if spans == [] then Span(0, 0, 0, 0.0) else Sum(spans[0], SumAll(spans[1..]))
  }

  /** The open window of a lane. */
  function Open(l: Lane): Span { Span(l.window.attempted, l.window.lost, l.window.responded, l.windowSeconds) }

  /** The tick closes the window, to judge it or to give up on it. */
  predicate Closes(l: Lane, k: Look) { !Gathering(Filled(l, k), k.timeout) }

  /** The windows closed over a run, in order. */
  ghost function Closed(l: Lane, ks: seq<Look>): seq<Span>
    requires Inv(l)
    decreases ks
  {
    if ks == [] then []
    else
      TickKeepsInv(l, ks[0]);
      (if Closes(l, ks[0]) then [Open(Filled(l, ks[0]))] else []) + Closed(Ticked(l, ks[0]), ks[1..])
  }

  /** What happened between two readings of the counters, `seconds` apart. */
  function Between(p: Observation, q: Observation, seconds: real): Span {
    Span(q.attempted - p.attempted, q.lost - p.lost, q.responded - p.responded, seconds)
  }

  function LastSeen(previous: Observation, ks: seq<Look>): Observation {
    if ks == [] then previous else ks[|ks| - 1].current
  }

  function Elapsed(ks: seq<Look>): real {
    if ks == [] then 0.0 else ks[0].seconds + Elapsed(ks[1..])
  }

  /** One tick: what it adds is in the window it closes, or in the one it leaves open. */
  lemma {:induction false} TickAccounts(l: Lane, k: Look)
    requires Inv(l) && NotBefore(l.previous, k.current)
    ensures Sum(Open(l), Between(l.previous, k.current, k.seconds)) ==
            if Closes(l, k) then Open(Filled(l, k)) else Open(Ticked(l, k))
    ensures Ticked(l, k).previous == k.current
    ensures Closes(l, k) ==> Open(Ticked(l, k)) == Span(0, 0, 0, 0.0)
  {
    TickKeepsWindow(l, k);
  }

  lemma {:induction false} TickKeepsWindow(l: Lane, k: Look)
    requires Inv(l)
    ensures var l', filled := Ticked(l, k), Filled(l, k);
            && l'.previous == k.current
            && (if Closes(l, k) then l'.window == NO_OBSERVATION && l'.windowSeconds == 0.0
                else l'.window == filled.window && l'.windowSeconds == filled.windowSeconds)
  {
  }

  /**
   * Nothing is lost or counted twice: over any run with counters that do not run backwards, the windows
   * judged, the windows given up and the open one add up to what the counters and the clock say.
   */
  lemma {:induction false} NothingIsLostOrCountedTwice(l: Lane, ks: seq<Look>)
    requires Inv(l) && Counting(l.previous, ks)
    ensures Sum(SumAll(Closed(l, ks)), Open(Run(l, ks))) ==
            Sum(Open(l), Between(l.previous, LastSeen(l.previous, ks), Elapsed(ks)))
    decreases ks
  {
    if ks != [] {
      var l', rest := Ticked(l, ks[0]), ks[1..];
      TickKeepsInv(l, ks[0]);
      TickAccounts(l, ks[0]);
      NothingIsLostOrCountedTwice(l', rest);
      assert LastSeen(l.previous, ks) == LastSeen(l'.previous, rest);
      if Closes(l, ks[0]) {
        assert Closed(l, ks)[1..] == Closed(l', rest);
      } else {
        assert Closed(l, ks) == Closed(l', rest);
      }
    }
  }

  /** From a fresh lane those totals are the counters themselves. */
  lemma {:induction false} WindowsEqualCounters(ks: seq<Look>)
    requires Inv(FRESH_LANE) && Counting(FRESH_LANE.previous, ks)
    ensures var seen := LastSeen(FRESH_LANE.previous, ks);
            Sum(SumAll(Closed(FRESH_LANE, ks)), Open(Run(FRESH_LANE, ks))) ==
            Span(seen.attempted, seen.lost, seen.responded, Elapsed(ks))
  {
    NothingIsLostOrCountedTwice(FRESH_LANE, ks);
  }

  /**
   * What becomes of a window: one that is judged is at least a timeout long with at least a hundred
   * attempts, one that is given up has fewer after five timeouts, and one left open is neither.
   */
  lemma {:induction false} WindowsAreLongAndFull(l: Lane, k: Look)
    ensures var span := Open(Filled(l, k));
            if Judges(l, k) then span.attempted >= 100 && span.seconds >= k.timeout
            else if Closes(l, k) then span.attempted < 100 && span.seconds >= k.timeout && span.seconds >= 5.0 * k.timeout
            else span.seconds < k.timeout || (span.attempted < 100 && span.seconds < 5.0 * k.timeout)
  {
  }

  /** The judge sees the share of attempts lost, at most all of them, and the answers per second. */
  lemma {:induction false} ViewIsWhatWasCounted(l: Lane, k: Look)
    requires Judges(l, k) && Filled(l, k).windowSeconds >= G.SHORTEST
    ensures var span, view := Open(Filled(l, k)), ViewAt(l, k);
            && view.loss * span.attempted as real ==
               (if span.lost <= span.attempted then span.lost else span.attempted) as real
            && view.delivered * span.seconds == span.responded as real
            && ObservedRate(Filled(l, k).window, span.seconds) * span.seconds == span.attempted as real
  {
    var a, x := Filled(l, k).window.attempted as real, Filled(l, k).window.lost as real;
    assert (x / a) * a == x;
    CompareQuotient(x, a, 1.0);
  }
}
