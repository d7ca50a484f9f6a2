/** The ring of response times: which of them an adjustment averages, and what the average is. */
module ResponseTimes {
  import opened Prelude
  import opened AdaptiveLimiters

  /** The response times recorded in a run, in order. */
  function Measured(events: seq<Event>): seq<int> {
    if events == [] then []
    else (if events[0].Record? then [events[0].elapsed] else []) + Measured(events[1..])
  }

  function LastOf(s: seq<int>, n: nat): seq<int> {
    if |s| <= n then s else s[|s| - n..]
  }

  // The ring, read from its index on, is the window of the last entries of the zeros it began with and the record.

  function Window(n: nat, record: seq<int>): (r: seq<int>)
    ensures |r| == n
  {
    (seq(n, _ => 0) + record)[|record|..]
  }

  predicate IsRing(ring: seq<int>, i: nat, record: seq<int>) {
    i < |ring| && ring[i..] + ring[..i] == Window(|ring|, record)
  }

  lemma {:induction false} WindowMoves(n: nat, record: seq<int>, x: int)
    requires n > 0
    ensures Window(n, record + [x]) == Window(n, record)[1..] + [x]
  {
    var all := seq(n, _ => 0) + record;
    assert seq(n, _ => 0) + (record + [x]) == all + [x];
  }

  /** Overwriting the first entry of the ring makes it the last. */
  lemma {:induction false} RingMoves(ring: seq<int>, i: nat, x: int, j: nat)
    requires i < |ring| && j == if i + 1 == |ring| then 0 else i + 1
    ensures var t := ring[i := x]; t[j..] + t[..j] == (ring[i..] + ring[..i])[1..] + [x]
  {
    var t := ring[i := x];
    var r := t[j..] + t[..j];
    assert |r| == |ring|;
    forall k | 0 <= k < |ring| ensures r[k] == ((ring[i..] + ring[..i])[1..] + [x])[k] {}
  }

  lemma {:induction false} RecordTurnsRing(ring: seq<int>, i: nat, record: seq<int>, x: int)
    requires IsRing(ring, i, record)
    ensures IsRing(ring[i := x], (i + 1) % |ring|, record + [x])
  {
    WindowMoves(|ring|, record, x);
    RingMoves(ring, i, x, (i + 1) % |ring|);
  }

  lemma {:induction false} RunTurnsRing(o: Options, l: Limiter, record: seq<int>, events: seq<Event>)
    requires IsRing(l.times, l.index, record)
    ensures
      var n := Play(o, l, events);
      IsRing(n.times, n.index, record + Measured(events)) && |n.times| == |l.times|
    decreases |events|
  {
    if events == [] {
      assert record + [] == record;
    } else {
      var e, rest := events[0], events[1..];
      var more := if e.Record? then [e.elapsed] else [];
      assert record + more + Measured(rest) == record + (more + Measured(rest));
      if e.Record? {
        RecordTurnsRing(l.times, l.index, record, e.elapsed);
      } else {
        assert record + [] == record;
      }
      RunTurnsRing(o, Step(o, l, e), record + more, rest);
    }
  }

  // Turning the ring, and the zeros in it, do not change the average.

  lemma {:induction false} PositivesAdd(s: seq<int>, t: seq<int>)
    ensures PositiveTotal(s + t) == PositiveTotal(s) + PositiveTotal(t)
    ensures PositiveCount(s + t) == PositiveCount(s) + PositiveCount(t)
  {
    if t == [] {
      assert s + t == s;
    } else {
      assert (s + t)[..|s + t| - 1] == s + t[..|t| - 1];
      PositivesAdd(s, t[..|t| - 1]);
    }
  }

  lemma {:induction false} ZerosAreNothing(s: seq<int>)
    requires forall k | 0 <= k < |s| :: s[k] == 0
    ensures PositiveTotal(s) == 0 && PositiveCount(s) == 0
  {
    if s != [] {
      ZerosAreNothing(s[..|s| - 1]);
    }
  }

  lemma {:induction false} WindowAverage(n: nat, record: seq<int>)
    ensures Average(Window(n, record)) == Average(LastOf(record, n))
  {
    if |record| <= n {
      var zeros := seq(n - |record|, _ => 0);
      assert Window(n, record) == zeros + record;
      PositivesAdd(zeros, record);
      ZerosAreNothing(zeros);
    } else {
      assert Window(n, record) == LastOf(record, n);
    }
  }

  lemma {:induction false} RingAverage(ring: seq<int>, i: nat, record: seq<int>)
    requires IsRing(ring, i, record)
    ensures Average(ring) == Average(LastOf(record, |ring|))
  {
    var (front, back) := (ring[..i], ring[i..]);
    assert front + back == ring;
    PositivesAdd(back, front);
    PositivesAdd(front, back);
    WindowAverage(|ring|, record);
  }

  /** After any run the average is that of the last response times recorded, up to the sample size. */
  lemma {:induction false} AverageIsOfTheLast(o: Options, start: int, events: seq<Event>)
    ensures
      Average(Play(o, Started(o, start), events).times) ==
        Average(LastOf(Measured(events), if o.samples <= 0 then 100 else o.samples))
  {
    var s := Started(o, start);
    assert IsRing(s.times, 0, []);
    RunTurnsRing(o, s, [], events);
    assert [] + Measured(events) == Measured(events);
    var l := Play(o, s, events);
    RingAverage(l.times, l.index, Measured(events));
  }

  function Positives(s: seq<int>): seq<int> {
    if s == [] then [] else (if s[0] > 0 then [s[0]] else []) + Positives(s[1..])
  }

  lemma {:induction false} TotalsOfPositives(s: seq<int>)
    ensures PositiveTotal(s) == Sum(Positives(s)) && PositiveCount(s) == |Positives(s)|
  {
    if s != [] {
      var first := [s[0]];
      PositivesAdd(first, s[1..]);
      assert first + s[1..] == s;
      ZerosAreNothing(first[..0]);
      TotalsOfPositives(s[1..]);
      var rest := Positives(s[1..]);
      assert (first + rest)[1..] == rest && [] + rest == rest;
    }
  }

  /** The mean of positive numbers, rounded down, and zero if there are none. */
  predicate IsMean(p: seq<int>, a: int) {
    if p == [] then a == 0 else Times(|p|, a) <= Sum(p) < Times(|p|, a) + |p|
  }

  lemma {:induction false} QuotientIsMean(total: int, n: nat, a: int)
    requires n > 0 && a == total / n
    ensures Times(n, a) <= total < Times(n, a) + n
  {
    TimesIsProduct(n, a);
  }

  lemma {:induction false} AverageIsMean(s: seq<int>)
    ensures IsMean(Positives(s), Average(s))
  {
    TotalsOfPositives(s);
    var p := Positives(s);
    if p != [] {
      QuotientIsMean(Sum(p), |p|, Average(s));
    }
  }

  // The statistics.

  /** How many calls of a run are let through. */
  function Admitted(o: Options, l: Limiter, events: seq<Event>): nat
    requires l.index < |l.times|
    decreases |events|
  {
    if events == [] then 0
    else
      (if events[0].Call? && Called(l, events[0].now).1 then 1 else 0)
      + Admitted(o, Step(o, l, events[0]), events[1..])
  }

  function Calls(events: seq<Event>): nat {
    if events == [] then 0 else (if events[0].Call? then 1 else 0) + Calls(events[1..])
  }

  /** The counters count the calls by their answers. */
  lemma {:induction false} CountsAreExact(o: Options, l: Limiter, events: seq<Event>)
    requires l.index < |l.times|
    ensures
      var n := Play(o, l, events);
      && n.allowed == l.allowed + Admitted(o, l, events)
      && n.allowed + n.rejected == l.allowed + l.rejected + Calls(events)
    decreases |events|
  {
    if events != [] {
      CountsAreExact(o, Step(o, l, events[0]), events[1..]);
    }
  }

  /** The refusals counted as consecutive are those since the last adjustment, whatever was let through in between. */
  lemma {:induction false} RejectsSinceAdjustment(o: Options, l: Limiter, events: seq<Event>)
    requires l.index < |l.times| && forall e <- events :: !e.Adjust?
    ensures
      var n := Play(o, l, events);
      n.rejects - l.rejects == n.rejected - l.rejected && n.rate == l.rate
    ensures
      var n := Play(o, l, events);
      n.shown == if n.allowed > l.allowed then l.rate else l.shown
    decreases |events|
  {
    if events != [] {
      var s := Step(o, l, events[0]);
      RejectsSinceAdjustment(o, s, events[1..]);
      CountsAreExact(o, s, events[1..]);
    }
  }

  lemma {:induction false} StatisticsAreExact(o: Options, start: int, events: seq<Event>)
    ensures
      var (s, n) := (Started(o, start), Play(o, Started(o, start), events));
      && n.allowed == Admitted(o, s, events) && n.rejected == Calls(events) - Admitted(o, s, events)
      && ((forall e <- events :: !e.Adjust?) ==> n.rejects == n.rejected)
  {
    CountsAreExact(o, Started(o, start), events);
    if forall e <- events :: !e.Adjust? {
      RejectsSinceAdjustment(o, Started(o, start), events);
    }
  }

  /** An adjustment starts them anew and counts nothing else. */
  lemma {:induction false} AdjustmentStartsAnew(o: Options, l: Limiter, now: int, cpu: real)
    ensures var n := Adjusted(o, l, now, cpu);
      n.rejects == 0 && n.allowed == l.allowed && n.rejected == l.rejected && n.shown == l.shown && n.times == l.times
  {}
}
