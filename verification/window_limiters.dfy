/** The sliding-window and fixed-window limiters. Times are in nanoseconds, as given by the clock. */
module WindowLimiters {
  import opened Prelude

  /** The entries from a time on. */
  function Since(s: seq<int>, boundary: int): seq<int> {
    if s == [] then [] else
      Since(s[..|s| - 1], boundary) + if s[|s| - 1] < boundary then [] else [s[|s| - 1]]
  }

  // The sliding window.

  /** One request: the queue afterwards, and whether there was room. */
  function Slid(interval: int, rate: int, queue: seq<int>, now: int): (seq<int>, bool) {
    var kept := Since(queue, now - interval);
    if |kept| < rate then (kept + [now], true) else (kept, false)
  }

  class SlideWindowLimiter {
    var queue: seq<int>
    const interval: int
    const rate: int

    constructor (interval: int, rate: int)
      ensures queue == [] && this.interval == interval && this.rate == rate
    {
      this.interval, this.rate, queue := interval, rate, [];
    }

    method LimitUnary(now: int) returns (admitted: bool)
      modifies this
      ensures (queue, admitted) == Slid(interval, rate, old(queue), now)
    {
      var boundary := now - interval;
      ghost var was := queue;
      ghost var seen := 0;
      var element := 0;
      while element < |queue|
        invariant 0 <= seen <= |was| && 0 <= element <= |queue|
        invariant queue[..element] == Since(was[..seen], boundary)
        invariant queue[element..] == was[seen..]
        decreases |queue| - element
      {
        assert was[..seen + 1][..seen] == was[..seen];
        assert was[seen] == was[seen..][0] == queue[element];
        assert was[seen + 1..] == was[seen..][1..];
        if queue[element] < boundary {
          queue := queue[..element] + queue[element + 1..];
        } else {
          assert queue[..element + 1] == queue[..element] + [queue[element]];
          element := element + 1;
        }
        seen := seen + 1;
      }
      assert was[..seen] == was && queue[..element] == queue;
      if |queue| < rate {
        queue := queue + [now];
        return true;
      }
      return false;
    }
  }

  /** The limiter with its history: every admission so far, and the time of the last call. */
  datatype Sliding = Sliding(queue: seq<int>, admissions: seq<int>, last: int)

  function SlideStep(interval: int, rate: int, s: Sliding, now: int): Sliding {
    var (queue, admitted) := Slid(interval, rate, s.queue, now);
    Sliding(queue, if admitted then s.admissions + [now] else s.admissions, now)
  }

  function SlideRun(interval: int, rate: int, s: Sliding, times: seq<int>): Sliding
    decreases |times|
  {
    if times == [] then s else SlideRun(interval, rate, SlideStep(interval, rate, s, times[0]), times[1..])
  }

  predicate Ascending(clock: int, times: seq<int>)
    decreases |times|
  {
    times == [] || (clock <= times[0] && Ascending(times[0], times[1..]))
  }

  /** The admissions that fall in a closed window. */
  function Within(s: seq<int>, from: int, to: int): nat {
    if s == [] then 0 else Within(s[..|s| - 1], from, to) + if from <= s[|s| - 1] <= to then 1 else 0
  }

  function NonNegative(n: int): nat {
    if n < 0 then 0 else n
  }

  lemma {:induction false} SinceLater(s: seq<int>, a: int, b: int)
    requires a <= b
    ensures Since(Since(s, a), b) == Since(s, b)
  {
    if s != [] {
      var x, front := s[|s| - 1], s[..|s| - 1];
      SinceLater(front, a, b);
      SinceAppend(Since(front, a), x, b);
      assert x < a ==> x < b && Since(front, a) + [] == Since(front, a);
    }
  }

  lemma {:induction false} SinceAppend(s: seq<int>, x: int, b: int)
    ensures Since(s + [x], b) == Since(s, b) + if x < b then [] else [x]
  {
    assert (s + [x])[..|s|] == s;
  }

  /** Entries up to `to` that lie in [from, to] are those since `from`. */
  lemma {:induction false} WithinIsSince(s: seq<int>, from: int, to: int)
    requires forall i | 0 <= i < |s| :: s[i] <= to
    ensures Within(s, from, to) == |Since(s, from)|
  {
    if s != [] {
      WithinIsSince(s[..|s| - 1], from, to);
    }
  }

  lemma {:induction false} WithinAppend(s: seq<int>, x: int, from: int, to: int)
    ensures Within(s + [x], from, to) == Within(s, from, to) + if from <= x <= to then 1 else 0
  {
    assert (s + [x])[..|s|] == s;
  }

  lemma {:induction false} WithinShrinks(s: seq<int>, from: int, to: int, from': int, to': int)
    requires from <= from' && to' <= to
    ensures Within(s, from', to') <= Within(s, from, to)
  {
    if s != [] {
      WithinShrinks(s[..|s| - 1], from, to, from', to');
    }
  }

  /** The queue is the full history cut to the window of the last call. */
  ghost predicate SlideKept(interval: int, rate: int, s: Sliding) {
    && s.queue == Since(s.admissions, s.last - interval)
    && (forall i | 0 <= i < |s.admissions| :: s.admissions[i] <= s.last)
  }

  lemma {:induction false} SlideStepKeeps(interval: int, rate: int, s: Sliding, now: int)
    requires SlideKept(interval, rate, s) && s.last <= now && 0 <= interval
    ensures SlideKept(interval, rate, SlideStep(interval, rate, s, now))
  {
    var boundary := now - interval;
    SinceLater(s.admissions, s.last - interval, boundary);
    assert Since(s.queue, boundary) == Since(s.admissions, boundary);
    if Slid(interval, rate, s.queue, now).1 {
      SinceAppend(s.admissions, now, boundary);
      AllUpTo(s.admissions, s.last, now);
    }
  }

  lemma {:induction false} AllUpTo(s: seq<int>, last: int, now: int)
    requires last <= now && forall i | 0 <= i < |s| :: s[i] <= last
    ensures forall i | 0 <= i < |s + [now]| :: (s + [now])[i] <= now
  {}

  /** The queue at a call is the window that ends there. */
  lemma {:induction false} QueueIsWindow(interval: int, rate: int, s: Sliding, now: int)
    requires SlideKept(interval, rate, s) && s.last <= now && 0 <= interval
    ensures |Since(s.queue, now - interval)| == Within(s.admissions, now - interval, now)
  {
    SinceLater(s.admissions, s.last - interval, now - interval);
    WithinIsSince(s.admissions, now - interval, now);
  }

  /** Entries no later than `now` count the same in every window that reaches `now`. */
  lemma {:induction false} WithinUpTo(s: seq<int>, from: int, now: int, to: int)
    requires now <= to && forall i | 0 <= i < |s| :: s[i] <= now
    ensures Within(s, from, to) == Within(s, from, now)
  {
    WithinIsSince(s, from, now);
    WithinIsSince(s, from, to);
  }

  /** No closed window of one interval gets more admissions than the rate. */
  lemma {:induction false} SlideStepBounds(interval: int, rate: int, s: Sliding, now: int, from: int)
    requires SlideKept(interval, rate, s) && s.last <= now && 0 <= interval
    requires Within(s.admissions, from, from + interval) <= NonNegative(rate)
    ensures Within(SlideStep(interval, rate, s, now).admissions, from, from + interval) <= NonNegative(rate)
  {
    var to := from + interval;
    if Slid(interval, rate, s.queue, now).1 {
      WithinAppend(s.admissions, now, from, to);
      if from <= now <= to {
        QueueIsWindow(interval, rate, s, now);
        WithinUpTo(s.admissions, from, now, to);
        WithinShrinks(s.admissions, now - interval, now, from, now);
      }
    }
  }

  lemma {:induction false} SlideRunKeeps(interval: int, rate: int, s: Sliding, times: seq<int>, from: int)
    requires SlideKept(interval, rate, s) && 0 <= interval && Ascending(s.last, times)
    requires Within(s.admissions, from, from + interval) <= NonNegative(rate)
    ensures SlideKept(interval, rate, SlideRun(interval, rate, s, times))
    ensures Within(SlideRun(interval, rate, s, times).admissions, from, from + interval) <= NonNegative(rate)
    decreases |times|
  {
    if times != [] {
      SlideStepKeeps(interval, rate, s, times[0]);
      SlideStepBounds(interval, rate, s, times[0], from);
      SlideRunKeeps(interval, rate, SlideStep(interval, rate, s, times[0]), times[1..], from);
    }
  }

  /** In every run, every closed window of one interval holds at most `rate` admissions. */
  lemma {:induction false} SlidingWindowBound(interval: int, rate: int, clock: int, times: seq<int>, from: int)
    requires 0 <= interval && Ascending(clock, times)
    ensures
      Within(SlideRun(interval, rate, Sliding([], [], clock), times).admissions, from, from + interval)
        <= NonNegative(rate)
  {
    SlideRunKeeps(interval, rate, Sliding([], [], clock), times, from);
  }

  /** A request is refused exactly when the window that ends at it already holds `rate` admissions. */
  lemma {:induction false} SlidingRefusesIff(interval: int, rate: int, clock: int, times: seq<int>, now: int)
    requires 0 <= interval && Ascending(clock, times)
    requires SlideRun(interval, rate, Sliding([], [], clock), times).last <= now
    ensures
      var s := SlideRun(interval, rate, Sliding([], [], clock), times);
      !Slid(interval, rate, s.queue, now).1 <==> Within(s.admissions, now - interval, now) >= rate
  {
    var s := SlideRun(interval, rate, Sliding([], [], clock), times);
    SlideRunKeeps(interval, rate, Sliding([], [], clock), times, now);
    QueueIsWindow(interval, rate, s, now);
  }

  // The fixed window.

  class FixWindowLimiter {
    var timestamp: int
    const interval: int
    const rate: int
    var cnt: int

    ghost function View(): Fixed
      reads this
    {
      Fixed(timestamp, cnt)
    }

    constructor (interval: int, rate: int, now: int)
      ensures View() == Fixed(now, 0) && this.interval == interval && this.rate == rate
    {
      this.interval, this.rate, timestamp, cnt := interval, rate, now, 0;
    }

    method LimitUnary(current: int) returns (admitted: bool)
      modifies this
      ensures (View(), admitted) == Fixing(interval, rate, old(View()), current)
    {
      if current - timestamp >= interval {
        timestamp := current;
        cnt := 0;
      }
      cnt := cnt + 1;
      if cnt > rate {
        return false;
      }
      return true;
    }
  }

  datatype Fixed = Fixed(timestamp: int, cnt: int)

  function Fixing(interval: int, rate: int, f: Fixed, now: int): (Fixed, bool) {
    var g := if now - f.timestamp >= interval then Fixed(now, 0) else f;
    (g.(cnt := g.cnt + 1), g.cnt + 1 <= rate)
  }

  /** The limiter with every admission so far. */
  datatype History = History(f: Fixed, admissions: seq<int>)

  function FixStep(interval: int, rate: int, h: History, now: int): History {
    var (f, admitted) := Fixing(interval, rate, h.f, now);
    History(f, if admitted then h.admissions + [now] else h.admissions)
  }

  function FixRun(interval: int, rate: int, h: History, times: seq<int>): History
    decreases |times|
  {
    if times == [] then h else FixRun(interval, rate, FixStep(interval, rate, h, times[0]), times[1..])
  }

  /** The admissions in a half-open span. */
  function Span(s: seq<int>, from: int, to: int): nat {
    if s == [] then 0 else Span(s[..|s| - 1], from, to) + if from <= s[|s| - 1] < to then 1 else 0
  }

  lemma {:induction false} SpanAppend(s: seq<int>, x: int, from: int, to: int)
    ensures Span(s + [x], from, to) == Span(s, from, to) + if from <= x < to then 1 else 0
  {
    assert (s + [x])[..|s|] == s;
  }

  lemma {:induction false} SpanOutside(s: seq<int>, from: int, to: int)
    requires forall i | 0 <= i < |s| :: s[i] < from || s[i] >= to
    ensures Span(s, from, to) == 0
  {
    if s != [] {
      SpanOutside(s[..|s| - 1], from, to);
    }
  }

  /** The counter says how many of the current window's requests were admitted, and nothing lies beyond it. */
  ghost predicate FixKept(interval: int, rate: int, h: History) {
    && 0 <= h.f.cnt
    && Span(h.admissions, h.f.timestamp, h.f.timestamp + interval) == Fewer(h.f.cnt, NonNegative(rate))
    && (forall i | 0 <= i < |h.admissions| :: h.admissions[i] < h.f.timestamp + interval)
  }

  function Fewer(a: int, b: int): int {
    if a <= b then a else b
  }

  lemma {:induction false} FixStepKeeps(interval: int, rate: int, h: History, now: int)
    requires FixKept(interval, rate, h) && h.f.timestamp <= now && 0 < interval
    ensures FixKept(interval, rate, FixStep(interval, rate, h, now))
    ensures h.f.timestamp <= FixStep(interval, rate, h, now).f.timestamp <= now
  {
    if now - h.f.timestamp >= interval {
      SpanOutside(h.admissions, now, now + interval);
      CountKeeps(interval, rate, h.(f := Fixed(now, 0)), now);
    } else {
      CountKeeps(interval, rate, h, now);
    }
  }

  /** A request inside the current window. */
  lemma {:induction false} CountKeeps(interval: int, rate: int, h: History, now: int)
    requires FixKept(interval, rate, h) && 0 <= now - h.f.timestamp < interval
    ensures FixKept(interval, rate, FixStep(interval, rate, h, now))
  {
    var g, end := FixStep(interval, rate, h, now), h.f.timestamp + interval;
    assert g.f == h.f.(cnt := h.f.cnt + 1);
    if h.f.cnt < rate {
      assert g.admissions == h.admissions + [now];
      SpanAppend(h.admissions, now, h.f.timestamp, end);
      AllBelow(h.admissions, now, end);
    } else {
      assert g.admissions == h.admissions;
    }
  }

  lemma {:induction false} AllBelow(s: seq<int>, now: int, end: int)
    requires now < end && forall i | 0 <= i < |s| :: s[i] < end
    ensures forall i | 0 <= i < |s + [now]| :: (s + [now])[i] < end
  {}

  /**
   * From a time on, the admissions fill at most `full` windows besides the current one, and so many windows
   * take up that much time.
   */
  ghost predicate Filled(interval: nat, rate: int, h: History, from: int, to: int, full: nat) {
    && Span(h.admissions, from, to) <= Times(full, NonNegative(rate)) + Fewer(h.f.cnt, NonNegative(rate))
    && (full == 0 || Times(full, interval) < h.f.timestamp - from + interval)
  }

  lemma {:induction false} FixStepFills(interval: nat, rate: int, h: History, now: int, from: int, to: int, full: nat)
      returns (full': nat)
    requires FixKept(interval, rate, h) && Filled(interval, rate, h, from, to, full)
    requires h.f.timestamp <= now && 0 < interval
    ensures Filled(interval, rate, FixStep(interval, rate, h, now), from, to, full')
  {
    SpanAppend(h.admissions, now, from, to);
    full' := full;
    if now - h.f.timestamp >= interval {
      if Span(h.admissions, from, to) == 0 {
        full' := 0;
      } else {
        full' := full + 1;
        if now <= from {
          SpanOutside(h.admissions, from, to);
        }
        assert Times(full + 1, interval) == interval + Times(full, interval);
        assert Times(full + 1, NonNegative(rate)) == NonNegative(rate) + Times(full, NonNegative(rate));
      }
    }
  }

  /** Requests past the span leave its count alone. */
  lemma {:induction false} FixRunPast(
      interval: int, rate: int, h: History, clock: int, times: seq<int>, from: int, to: int)
    requires to <= clock && Ascending(clock, times)
    ensures Span(FixRun(interval, rate, h, times).admissions, from, to) == Span(h.admissions, from, to)
    decreases |times|
  {
    if times != [] {
      SpanAppend(h.admissions, times[0], from, to);
      FixRunPast(interval, rate, FixStep(interval, rate, h, times[0]), times[0], times[1..], from, to);
    }
  }

  lemma {:induction false} FilledBound(interval: nat, rate: int, h: History, from: int, to: int, full: nat, k: nat)
    requires Filled(interval, rate, h, from, to, full) && 0 < interval
    requires to == from + Times(k, interval) && (h.f.timestamp < to || full == 0)
    ensures Span(h.admissions, from, to) <= Times(k + 1, NonNegative(rate))
  {
    assert Times(k + 1, interval) == interval + Times(k, interval);
    if full > k {
      TimesMonotone(k + 1, full, interval);
    } else {
      TimesMonotone(full, k, NonNegative(rate));
    }
    assert Times(k + 1, NonNegative(rate)) == NonNegative(rate) + Times(k, NonNegative(rate));
  }

  lemma {:induction false} FixRunBound(
      interval: nat, rate: int, h: History, clock: int, times: seq<int>, from: int, to: int, full: nat, k: nat)
    requires FixKept(interval, rate, h) && Filled(interval, rate, h, from, to, full) && 0 < interval
    requires h.f.timestamp <= clock && Ascending(clock, times)
    requires to == from + Times(k, interval) && (h.f.timestamp < to || full == 0)
    ensures Span(FixRun(interval, rate, h, times).admissions, from, to) <= Times(k + 1, NonNegative(rate))
    decreases |times|
  {
    FilledBound(interval, rate, h, from, to, full, k);
    if times != [] {
      if times[0] >= to {
        FixRunPast(interval, rate, h, to, times, from, to);
      } else {
        var full' := FixStepFills(interval, rate, h, times[0], from, to, full);
        FixStepKeeps(interval, rate, h, times[0]);
        FixRunBound(interval, rate, FixStep(interval, rate, h, times[0]), times[0], times[1..], from, to, full', k);
      }
    }
  }

  /**
   * In every run, a half-open span of `k` intervals gets at most k + 1 times the rate; for one interval, at
   * most twice the rate.
   */
  lemma {:induction false} FixedWindowBound(interval: int, rate: int, start: int, times: seq<int>, from: int, k: nat)
    requires Ascending(start, times)
    ensures
      Span(FixRun(interval, rate, History(Fixed(start, 0), []), times).admissions, from, from + k * interval)
        <= (k + 1) * NonNegative(rate)
  {
    TimesIsProduct(k + 1, NonNegative(rate));
    var h := History(Fixed(start, 0), []);
    if interval <= 0 {
      MulMonotone(interval, 0, k);
      SpanOutside(FixRun(interval, rate, h, times).admissions, from, from + k * interval);
      TimesMonotone(0, k + 1, NonNegative(rate));
    } else {
      TimesIsProduct(k, interval);
      FixRunBound(interval, rate, h, start, times, from, from + k * interval, 0, k);
    }
  }

  lemma {:induction false} FixRunKeeps(interval: int, rate: int, h: History, clock: int, times: seq<int>)
    requires FixKept(interval, rate, h) && 0 < interval && h.f.timestamp <= clock && Ascending(clock, times)
    ensures FixKept(interval, rate, FixRun(interval, rate, h, times))
    decreases |times|
  {
    if times != [] {
      FixStepKeeps(interval, rate, h, times[0]);
      FixRunKeeps(interval, rate, FixStep(interval, rate, h, times[0]), times[0], times[1..]);
    }
  }

  /** A request is refused exactly when the window it falls in has admitted `rate` already. */
  lemma {:induction false} FixedRefusesIff(interval: int, rate: int, start: int, times: seq<int>, now: int)
    requires 0 < interval && Ascending(start, times)
    ensures
      var h := FixRun(interval, rate, History(Fixed(start, 0), []), times);
      var window := if now - h.f.timestamp >= interval then now else h.f.timestamp;
      !Fixing(interval, rate, h.f, now).1 <==> Span(h.admissions, window, window + interval) >= rate
  {
    FixRunKeeps(interval, rate, History(Fixed(start, 0), []), start, times);
    var h := FixRun(interval, rate, History(Fixed(start, 0), []), times);
    if now - h.f.timestamp >= interval {
      SpanOutside(h.admissions, now, now + interval);
    }
  }

  // The bound is reached.

  function Burst(t: int, n: nat): seq<int> {
    if n == 0 then [] else [t] + Burst(t, n - 1)
  }

  /** A burst that fits into the current window is admitted whole. */
  lemma {:induction false} BurstIsAdmitted(interval: int, rate: int, h: History, t: int, n: nat, from: int, to: int)
    requires 0 < interval && t - h.f.timestamp < interval && h.f.cnt + n <= rate && from <= t < to
    ensures
      var g := FixRun(interval, rate, h, Burst(t, n));
      g.f == Fixed(h.f.timestamp, h.f.cnt + n) && Span(g.admissions, from, to) == Span(h.admissions, from, to) + n
    decreases n
  {
    if n > 0 {
      SpanAppend(h.admissions, t, from, to);
      assert Burst(t, n)[1..] == Burst(t, n - 1);
      BurstIsAdmitted(interval, rate, FixStep(interval, rate, h, t), t, n - 1, from, to);
    }
  }

  /** A burst that opens a new window is admitted whole. */
  lemma {:induction false} NewBurstIsAdmitted(interval: int, rate: int, h: History, t: int, n: nat, from: int, to: int)
    requires 0 < interval <= t - h.f.timestamp && 0 < n <= rate && from <= t < to
    ensures
      var g := FixRun(interval, rate, h, Burst(t, n));
      g.f == Fixed(t, n) && Span(g.admissions, from, to) == Span(h.admissions, from, to) + n
  {
    var g := FixStep(interval, rate, h, t);
    assert g == History(Fixed(t, 1), h.admissions + [t]);
    SpanAppend(h.admissions, t, from, to);
    assert Burst(t, n)[0] == t && Burst(t, n)[1..] == Burst(t, n - 1);
    BurstIsAdmitted(interval, rate, g, t, n - 1, from, to);
  }

  lemma {:induction false} FixRunAppend(interval: int, rate: int, h: History, times: seq<int>, more: seq<int>)
    ensures FixRun(interval, rate, h, times + more) == FixRun(interval, rate, FixRun(interval, rate, h, times), more)
    decreases |times|
  {
    if times == [] {
      assert times + more == more;
    } else {
      assert (times + more)[1..] == times[1..] + more;
      FixRunAppend(interval, rate, FixStep(interval, rate, h, times[0]), times[1..], more);
    }
  }

  /** Times in order that end no later than a given one. */
  predicate Between(clock: int, times: seq<int>, end: int) {
    Ascending(clock, times) && clock <= end && (times != [] ==> times[|times| - 1] <= end)
  }

  lemma {:induction false} BurstIsConstant(t: int, n: nat)
    ensures |Burst(t, n)| == n && forall i | 0 <= i < n :: Burst(t, n)[i] == t
  {
    if n > 0 {
      BurstIsConstant(t, n - 1);
    }
  }

  lemma {:induction false} BurstIsAscending(clock: int, t: int, n: nat)
    requires clock <= t
    ensures Between(clock, Burst(t, n), t)
    decreases n
  {
    BurstIsConstant(t, n);
    if n > 0 {
      BurstIsAscending(t, t, n - 1);
      assert Burst(t, n)[1..] == Burst(t, n - 1);
    }
  }

  lemma {:induction false} BetweenAppend(clock: int, times: seq<int>, end: int, more: seq<int>, later: int)
    requires Between(clock, times, end) && Between(end, more, later)
    ensures Between(clock, times + more, later)
    decreases |times|
  {
    if times == [] {
      assert times + more == more;
    } else {
      var rest := times[1..];
      assert (times + more)[1..] == rest + more;
      assert rest != [] ==> rest[|rest| - 1] == times[|times| - 1];
      AscendingEnd(times[0], rest);
      BetweenAppend(times[0], rest, end, more, later);
      if more != [] {
        assert (times + more)[|times + more| - 1] == more[|more| - 1];
      } else {
        assert times + more == times;
      }
    }
  }

  lemma {:induction false} AscendingEnd(clock: int, times: seq<int>)
    requires Ascending(clock, times)
    ensures times != [] ==> clock <= times[|times| - 1]
    decreases |times|
  {
    if times != [] {
      AscendingEnd(times[0], times[1..]);
    }
  }

  /** A burst at the very end of the first window, then one at each of the `k` boundaries that follow. */
  lemma {:induction false} Bursts(
      interval: nat, rate: nat, start: int, from: int, to: int, k: nat, k': nat) returns (times: seq<int>)
    requires 1 < interval && 0 < rate && k <= k' && from == start + interval - 1 && to == from + Times(k', interval)
    requires k' > 0
    ensures Between(start, times, start + interval - 1 + if k == 0 then 0 else Times(k - 1, interval) + 1)
    ensures
      var h := FixRun(interval, rate, History(Fixed(start, 0), []), times);
      && Span(h.admissions, from, to) == Times(k + 1, rate)
      && h.f == Fixed(start + Times(k, interval), rate)
  {
    var h0 := History(Fixed(start, 0), []);
    TimesMonotone(1, k', interval);
    assert Times(0, rate) == 0 && Times(0, interval) == 0;
    assert Times(0 + 1, interval) == interval + Times(0, interval);
    if k == 0 {
      times := Burst(from, rate);
      BurstIsAscending(start, from, rate);
      BurstIsAdmitted(interval, rate, h0, from, rate, from, to);
      assert Times(k + 1, rate) == rate + Times(k, rate);
    } else {
      var before := Bursts(interval, rate, start, from, to, k - 1, k');
      var t := start + Times(k, interval);
      var h := FixRun(interval, rate, h0, before);
      assert Times(k, interval) == interval + Times(k - 1, interval);
      assert k > 1 ==> Times(k - 1, interval) == interval + Times(k - 2, interval);
      TimesMonotone(k, k', interval);
      NewBurstIsAdmitted(interval, rate, h, t, rate, from, to);
      var end := start + interval - 1 + if k == 1 then 0 else Times(k - 2, interval) + 1;
      BurstIsAscending(end, t, rate);
      BetweenAppend(start, before, end, Burst(t, rate), t);
      FixRunAppend(interval, rate, h0, before, Burst(t, rate));
      times := before + Burst(t, rate);
      assert Times(k + 1, rate) == rate + Times(k, rate);
    }
  }

  /** The bound is reached: for every rate and every `k`, a run admits (k + 1) times the rate within `k` intervals. */
  lemma {:induction false} FixedWindowBoundIsReached(
      interval: nat, rate: nat, start: int, k: nat) returns (times: seq<int>, from: int)
    requires 1 < interval && 0 < rate && 0 < k
    ensures Ascending(start, times)
    ensures
      Span(FixRun(interval, rate, History(Fixed(start, 0), []), times).admissions, from, from + k * interval) ==
        (k + 1) * rate
  {
    from := start + interval - 1;
    TimesIsProduct(k, interval);
    TimesIsProduct(k + 1, rate);
    times := Bursts(interval, rate, start, from, from + k * interval, k, k);
  }
}
