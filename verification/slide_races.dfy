/**
 * The sliding-window limiter with any number of callers: each reads the clock before it takes the lock, so
 * requests can be served in another order than that of their time stamps.
 */
module SlideRaces {
  import opened Prelude
  import opened WindowLimiters

  datatype Phase = Out | Stamped(now: int)

  datatype Line = Line(queue: seq<int>, admissions: seq<int>, clock: int, callers: seq<Phase>)

  datatype Event = Tick(now: int) | Enter(i: nat) | Serve(i: nat)

  function Start(n: nat, now: int): Line {
    Line([], [], now, seq(n, _ => Out))
  }

  predicate Enabled(l: Line, e: Event) {
    match e
    case Tick(now) => now >= l.clock
    case Enter(i) => i < |l.callers| && l.callers[i].Out?
    case Serve(i) => i < |l.callers| && l.callers[i].Stamped?
  }

  function Apply(interval: int, rate: int, l: Line, e: Event): Line
    requires Enabled(l, e)
  {
    match e
    case Tick(now) => l.(clock := now)
    case Enter(i) => l.(callers := l.callers[i := Stamped(l.clock)])
    case Serve(i) =>
      var now := l.callers[i].now;
      var (queue, admitted) := Slid(interval, rate, l.queue, now);
      Line(queue, if admitted then l.admissions + [now] else l.admissions, l.clock, l.callers[i := Out])
  }

  predicate Legal(interval: int, rate: int, l: Line, events: seq<Event>)
    decreases |events|
  {
    events == [] ||
    (Enabled(l, events[0]) && Legal(interval, rate, Apply(interval, rate, l, events[0]), events[1..]))
  }

  function Play(interval: int, rate: int, l: Line, events: seq<Event>): Line
    requires Legal(interval, rate, l, events)
    decreases |events|
  {
    if events == [] then l else Play(interval, rate, Apply(interval, rate, l, events[0]), events[1..])
  }

  // The bound.

  /** Whether a call was stamped no later than `to`. */
  function Late(p: Phase, to: int): int {
    if p.Stamped? && p.now <= to then 1 else 0
  }

  function Lates(callers: seq<Phase>, to: int): seq<int> {
    seq(|callers|, i requires 0 <= i < |callers| => Late(callers[i], to))
  }

  lemma {:induction false} MoveLates(callers: seq<Phase>, i: nat, p: Phase, to: int)
    requires i < |callers|
    ensures Sum(Lates(callers[i := p], to)) == Sum(Lates(callers, to)) - Late(callers[i], to) + Late(p, to)
  {
    SumUpdate(Lates(callers, to), i, Late(p, to));
    assert Lates(callers[i := p], to) == Lates(callers, to)[i := Late(p, to)];
  }

  lemma {:induction false} LatesNonNegative(callers: seq<Phase>, to: int)
    ensures Sum(Lates(callers, to)) >= 0
  {
    var none := seq(|callers|, _ => 0);
    SumOfConstant(none, 0);
    SumSqueeze(none, Lates(callers, to));
  }

  lemma {:induction false} LateOthers(callers: seq<Phase>, i: nat, to: int)
    requires i < |callers| && Late(callers[i], to) == 0
    ensures Sum(Lates(callers, to)) <= |callers| - 1
  {
    var all := seq(|callers|, _ => 1);
    SumOfConstant(all, 1);
    SumUpdate(all, i, 0);
    SumSqueeze(Lates(callers, to), all[i := 0]);
  }

  /** Cutting the queue at a boundary up to `from` leaves what lies in the window. */
  lemma {:induction false} SinceKeepsWindow(s: seq<int>, boundary: int, from: int, to: int)
    requires boundary <= from
    ensures Within(Since(s, boundary), from, to) == Within(s, from, to)
  {
    if s != [] {
      var front, x := s[..|s| - 1], s[|s| - 1];
      SinceKeepsWindow(front, boundary, from, to);
      WithinAppend(Since(front, boundary), x, from, to);
      assert Since(front, boundary) + [] == Since(front, boundary);
    }
  }

  lemma {:induction false} WithinAtMostLength(s: seq<int>, from: int, to: int)
    ensures Within(s, from, to) <= |s|
  {
    if s != [] {
      WithinAtMostLength(s[..|s| - 1], from, to);
    }
  }

  lemma {:induction false} SinceIsShorter(s: seq<int>, boundary: int)
    ensures |Since(s, boundary)| <= |s|
  {
    if s != [] {
      SinceIsShorter(s[..|s| - 1], boundary);
    }
  }

  /** Until a call stamped past the window is served, the queue holds all that the window has admitted. */
  ghost predicate Holding(rate: int, l: Line, from: int, to: int) {
    && |l.queue| <= NonNegative(rate)
    && Within(l.admissions, from, to) == Within(l.queue, from, to)
  }

  /** From then on only calls stamped in the window before can still be admitted in it. */
  ghost predicate Closing(rate: int, l: Line, from: int, to: int) {
    && to < l.clock
    && Within(l.admissions, from, to) + Sum(Lates(l.callers, to)) <= NonNegative(rate) + |l.callers| - 1
  }

  ghost predicate Stamps(l: Line) {
    forall i | 0 <= i < |l.callers| && l.callers[i].Stamped? :: l.callers[i].now <= l.clock
  }

  lemma {:induction false} SlidInWindow(interval: nat, rate: int, queue: seq<int>, now: int, from: int, to: int)
    requires |queue| <= NonNegative(rate) && now <= to == from + interval
    ensures var (q, admitted) := Slid(interval, rate, queue, now);
      && |q| <= NonNegative(rate)
      && Within(q, from, to) == Within(queue, from, to) + if admitted && from <= now then 1 else 0
  {
    SinceIsShorter(queue, now - interval);
    SinceKeepsWindow(queue, now - interval, from, to);
    WithinAppend(Since(queue, now - interval), now, from, to);
  }

  lemma {:induction false} ServeAdmits(interval: int, rate: int, l: Line, i: nat, from: int, to: int)
    requires Enabled(l, Serve(i))
    ensures var now := l.callers[i].now;
      Within(Apply(interval, rate, l, Serve(i)).admissions, from, to)
        == Within(l.admissions, from, to)
         + if Slid(interval, rate, l.queue, now).1 && from <= now <= to then 1 else 0
  {
    WithinAppend(l.admissions, l.callers[i].now, from, to);
  }

  lemma {:induction false} ServeInWindow(interval: nat, rate: int, l: Line, i: nat, from: int)
    requires Holding(rate, l, from, from + interval) && Enabled(l, Serve(i)) && l.callers[i].now <= from + interval
    ensures Holding(rate, Apply(interval, rate, l, Serve(i)), from, from + interval)
  {
    var now, to := l.callers[i].now, from + interval;
    var (queue, admitted) := Slid(interval, rate, l.queue, now);
    SlidInWindow(interval, rate, l.queue, now, from, to);
    ServeAdmits(interval, rate, l, i, from, to);
    var s := Apply(interval, rate, l, Serve(i));
    assert s.queue == queue;
    assert Within(s.admissions, from, to) == Within(l.admissions, from, to) + if admitted && from <= now then 1 else 0;
  }

  lemma {:induction false} ServePastWindow(interval: nat, rate: int, l: Line, i: nat, from: int)
    requires Holding(rate, l, from, from + interval) && Enabled(l, Serve(i)) && Stamps(l)
    requires l.callers[i].now > from + interval
    ensures Closing(rate, Apply(interval, rate, l, Serve(i)), from, from + interval)
  {
    var to := from + interval;
    ServeAdmits(interval, rate, l, i, from, to);
    WithinAtMostLength(l.queue, from, to);
    LateOthers(l.callers, i, to);
    MoveLates(l.callers, i, Out, to);
  }

  lemma {:induction false} ServeClosing(interval: nat, rate: int, l: Line, i: nat, from: int, to: int)
    requires Closing(rate, l, from, to) && Enabled(l, Serve(i))
    ensures Closing(rate, Apply(interval, rate, l, Serve(i)), from, to)
  {
    MoveLates(l.callers, i, Out, to);
    ServeAdmits(interval, rate, l, i, from, to);
  }

  ghost predicate Bounded(rate: int, l: Line, from: int, to: int) {
    Stamps(l) && (Holding(rate, l, from, to) || Closing(rate, l, from, to))
  }

  lemma {:induction false} StepBounded(interval: nat, rate: int, l: Line, e: Event, from: int)
    requires Bounded(rate, l, from, from + interval) && Enabled(l, e)
    ensures Bounded(rate, Apply(interval, rate, l, e), from, from + interval)
  {
    var to := from + interval;
    match e
    case Tick(_) =>
    case Enter(i) => MoveLates(l.callers, i, Stamped(l.clock), to);
    case Serve(i) =>
      if Holding(rate, l, from, to) {
        if l.callers[i].now <= to {
          ServeInWindow(interval, rate, l, i, from);
        } else {
          ServePastWindow(interval, rate, l, i, from);
        }
      } else {
        ServeClosing(interval, rate, l, i, from, to);
      }
  }

  lemma {:induction false} RunBounded(interval: nat, rate: int, l: Line, events: seq<Event>, from: int)
    requires Bounded(rate, l, from, from + interval) && Legal(interval, rate, l, events)
    ensures Bounded(rate, Play(interval, rate, l, events), from, from + interval)
    ensures |Play(interval, rate, l, events).callers| == |l.callers|
    decreases |events|
  {
    if events != [] {
      StepBounded(interval, rate, l, events[0], from);
      RunBounded(interval, rate, Apply(interval, rate, l, events[0]), events[1..], from);
    }
  }

  /** How many calls can be stamped before another one. */
  function Others(n: nat): nat {
    if n == 0 then 0 else n - 1
  }

  /** In whatever order `n` callers are served, every closed window of one interval holds at most rate + n - 1. */
  lemma {:induction false} LateStampBound(
      interval: nat, rate: int, n: nat, start: int, events: seq<Event>, from: int)
    requires Legal(interval, rate, Start(n, start), events)
    ensures Within(Play(interval, rate, Start(n, start), events).admissions, from, from + interval)
         <= NonNegative(rate) + Others(n)
  {
    RunBounded(interval, rate, Start(n, start), events, from);
    var l, to := Play(interval, rate, Start(n, start), events), from + interval;
    WithinAtMostLength(l.queue, from, to);
    LatesNonNegative(l.callers, to);
  }

  // At a rate of one, or none, order does not matter.

  /** Nothing is admitted at a rate of none. */
  lemma {:induction false} NoRateNoAdmission(interval: int, rate: int, l: Line, events: seq<Event>)
    requires rate <= 0 && l.admissions == [] && Legal(interval, rate, l, events)
    ensures Play(interval, rate, l, events).admissions == []
    decreases |events|
  {
    if events != [] {
      NoRateNoAdmission(interval, rate, Apply(interval, rate, l, events[0]), events[1..]);
    }
  }

  /** The queue holds an entry that keeps every late call out. */
  ghost predicate Blocked(l: Line, from: int, to: int) {
    && AllPast(l.queue, from)
    && Within(l.admissions, from, to) <= 1
  }

  lemma {:induction false} SinceOfLater(s: seq<int>, boundary: int)
    requires forall j | 0 <= j < |s| :: s[j] >= boundary
    ensures Since(s, boundary) == s
  {
    if s != [] {
      SinceOfLater(s[..|s| - 1], boundary);
      assert s == s[..|s| - 1] + [s[|s| - 1]];
    }
  }

  lemma {:induction false} SinceIsPart(s: seq<int>, boundary: int)
    ensures forall x <- Since(s, boundary) :: x >= boundary && x in s
  {
    if s != [] {
      SinceIsPart(s[..|s| - 1], boundary);
    }
  }

  predicate AllPast(s: seq<int>, from: int) {
    s != [] && forall j | 0 <= j < |s| :: s[j] > from
  }

  lemma {:induction false} SlidPast(interval: nat, rate: int, queue: seq<int>, now: int, from: int)
    requires now > from + interval && rate == 1
    ensures AllPast(Slid(interval, rate, queue, now).0, from)
  {
    var kept := Since(queue, now - interval);
    SinceIsPart(queue, now - interval);
    forall j | 0 <= j < |kept| ensures kept[j] > from {
      assert kept[j] in kept;
    }
  }

  lemma {:induction false} ServeBlocks(interval: nat, l: Line, i: nat, from: int, rate: int)
    requires Enabled(l, Serve(i)) && l.callers[i].now > from + interval && rate == 1
    requires Within(l.admissions, from, from + interval) <= 1
    ensures Blocked(Apply(interval, rate, l, Serve(i)), from, from + interval)
  {
    SlidPast(interval, rate, l.queue, l.callers[i].now, from);
    ServeAdmits(interval, rate, l, i, from, from + interval);
  }

  lemma {:induction false} SlidBlocked(interval: nat, rate: int, queue: seq<int>, now: int, from: int)
    requires AllPast(queue, from) && now <= from + interval && rate == 1
    ensures Slid(interval, rate, queue, now) == (queue, false)
  {
    forall j | 0 <= j < |queue| ensures queue[j] >= now - interval {
      assert queue[j] > from;
    }
    SinceOfLater(queue, now - interval);
  }

  lemma {:induction false} ServeBlocked(interval: nat, l: Line, i: nat, from: int, rate: int)
    requires Blocked(l, from, from + interval) && Enabled(l, Serve(i)) && l.callers[i].now <= from + interval
    requires rate == 1
    ensures Blocked(Apply(interval, rate, l, Serve(i)), from, from + interval)
  {
    SlidBlocked(interval, rate, l.queue, l.callers[i].now, from);
    ServeAdmits(interval, rate, l, i, from, from + interval);
  }

  ghost predicate OneAtATime(l: Line, from: int, to: int) {
    Holding(1, l, from, to) || Blocked(l, from, to)
  }

  lemma {:induction false} ServeOneAtATime(interval: nat, l: Line, i: nat, from: int)
    requires OneAtATime(l, from, from + interval) && Enabled(l, Serve(i))
    ensures OneAtATime(Apply(interval, 1, l, Serve(i)), from, from + interval)
  {
    var to := from + interval;
    if l.callers[i].now > to {
      WithinAtMostLength(l.queue, from, to);
      ServeBlocks(interval, l, i, from, 1);
    } else if Holding(1, l, from, to) {
      ServeInWindow(interval, 1, l, i, from);
    } else {
      ServeBlocked(interval, l, i, from, 1);
    }
  }

  lemma {:induction false} RunOneAtATime(interval: nat, l: Line, events: seq<Event>, from: int)
    requires OneAtATime(l, from, from + interval) && Legal(interval, 1, l, events)
    ensures OneAtATime(Play(interval, 1, l, events), from, from + interval)
    decreases |events|
  {
    if events != [] {
      if events[0].Serve? {
        ServeOneAtATime(interval, l, events[0].i, from);
      }
      RunOneAtATime(interval, Apply(interval, 1, l, events[0]), events[1..], from);
    }
  }

  lemma {:induction false} SmallRateHolds(interval: nat, rate: int, n: nat, events: seq<Event>, from: int)
    requires rate <= 1 && Legal(interval, rate, Start(n, 0), events)
    ensures Within(Play(interval, rate, Start(n, 0), events).admissions, from, from + interval) <= NonNegative(rate)
  {
    if rate <= 0 {
      NoRateNoAdmission(interval, rate, Start(n, 0), events);
    } else {
      RunOneAtATime(interval, Start(n, 0), events, from);
      WithinAtMostLength(Play(interval, rate, Start(n, 0), events).queue, from, from + interval);
    }
  }

  // The bound is reached.

  ghost predicate Reachable(interval: int, rate: int, n: nat, l: Line) {
    exists events :: Legal(interval, rate, Start(n, 0), events) && Play(interval, rate, Start(n, 0), events) == l
  }

  lemma {:induction false} LegalAppend(interval: int, rate: int, l: Line, events: seq<Event>, e: Event)
    requires Legal(interval, rate, l, events) && Enabled(Play(interval, rate, l, events), e)
    ensures Legal(interval, rate, l, events + [e])
    ensures Play(interval, rate, l, events + [e]) == Apply(interval, rate, Play(interval, rate, l, events), e)
    decreases |events|
  {
    if events == [] {
      assert events + [e] == [e];
    } else {
      assert (events + [e])[1..] == events[1..] + [e];
      LegalAppend(interval, rate, Apply(interval, rate, l, events[0]), events[1..], e);
    }
  }

  lemma {:induction false} Do(interval: int, rate: int, n: nat, l: Line, e: Event) returns (m: Line)
    requires Reachable(interval, rate, n, l) && Enabled(l, e)
    ensures m == Apply(interval, rate, l, e) && Reachable(interval, rate, n, m)
  {
    var events :| Legal(interval, rate, Start(n, 0), events) && Play(interval, rate, Start(n, 0), events) == l;
    LegalAppend(interval, rate, Start(n, 0), events, e);
    m := Apply(interval, rate, l, e);
  }

  /** The first `waiting` callers have been stamped at time 0 and wait for the lock. */
  predicate Waiting(l: Line, n: nat, waiting: nat) {
    && waiting <= n == |l.callers|
    && forall i | 0 <= i < n :: l.callers[i] == if i < waiting then Stamped(0) else Out
  }

  lemma {:induction false} Wait(interval: int, rate: int, n: nat, waiting: nat) returns (l: Line)
    requires waiting <= n
    ensures Reachable(interval, rate, n, l) && Waiting(l, n, waiting)
    ensures l.clock == 0 && l.queue == [] && l.admissions == []
  {
    if waiting == 0 {
      l := Start(n, 0);
      assert Legal(interval, rate, l, []) && Play(interval, rate, l, []) == l;
    } else {
      l := Wait(interval, rate, n, waiting - 1);
      l := Do(interval, rate, n, l, Enter(waiting - 1));
    }
  }

  /** A caller enters and is served at once. */
  lemma {:induction false} Call(interval: int, rate: int, n: nat, l: Line, b: nat) returns (m: Line)
    requires Reachable(interval, rate, n, l) && b < |l.callers| && l.callers[b].Out?
    ensures Reachable(interval, rate, n, m) && m.callers == l.callers && m.clock == l.clock
    ensures var (queue, admitted) := Slid(interval, rate, l.queue, l.clock);
      m.queue == queue && m.admissions == if admitted then l.admissions + [l.clock] else l.admissions
  {
    m := Do(interval, rate, n, l, Enter(b));
    m := Do(interval, rate, n, m, Serve(b));
    assert m.callers == l.callers;
  }

  predicate AllZero(s: seq<int>) {
    forall j | 0 <= j < |s| :: s[j] == 0
  }

  lemma {:induction false} SlidZeros(interval: nat, rate: int, queue: seq<int>, now: int)
    requires AllZero(queue) && |queue| < rate && now == 0
    ensures Slid(interval, rate, queue, now) == (queue + [now], true)
  {
    SinceOfLater(queue, now - interval);
  }

  lemma {:induction false} FillOne(interval: nat, rate: int, n: nat, l: Line) returns (m: Line)
    requires Reachable(interval, rate, n, l) && 0 < n == |l.callers| && l.callers[n - 1].Out?
    requires l.clock == 0 && AllZero(l.queue) && |l.queue| < rate
    ensures Reachable(interval, rate, n, m) && m.callers == l.callers && m.clock == l.clock
    ensures m.queue == l.queue + [l.clock] && m.admissions == l.admissions + [l.clock]
  {
    SlidZeros(interval, rate, l.queue, l.clock);
    m := Call(interval, rate, n, l, n - 1);
  }

  /** The last caller sends `count` requests at time 0. */
  lemma {:induction false} Fill(interval: nat, rate: int, n: nat, waiting: nat, count: nat) returns (l: Line)
    requires waiting < n && count <= rate
    ensures Reachable(interval, rate, n, l) && Waiting(l, n, waiting) && l.clock == 0
    ensures |l.queue| == count && AllZero(l.queue)
    ensures Within(l.admissions, 0, interval) == count
  {
    if count == 0 {
      l := Wait(interval, rate, n, waiting);
    } else {
      l := Fill(interval, rate, n, waiting, count - 1);
      WithinAppend(l.admissions, l.clock, 0, interval);
      l := FillOne(interval, rate, n, l);
    }
  }

  lemma {:induction false} SinceOfEarlier(s: seq<int>, boundary: int)
    requires forall j | 0 <= j < |s| :: s[j] < boundary
    ensures Since(s, boundary) == []
  {
    if s != [] {
      SinceOfEarlier(s[..|s| - 1], boundary);
    }
  }

  predicate UpToNow(l: Line) {
    forall j | 0 <= j < |l.queue| :: l.queue[j] <= l.clock
  }

  /** A request one interval on finds an empty queue. */
  lemma {:induction false} Restart(interval: nat, rate: int, n: nat, l: Line) returns (m: Line)
    requires Reachable(interval, rate, n, l) && 0 < n == |l.callers| && l.callers[n - 1].Out?
    requires 0 <= l.clock && UpToNow(l) && 1 <= rate
    ensures Reachable(interval, rate, n, m) && m.callers == l.callers && m.clock == l.clock + interval + 1
    ensures m.queue == [m.clock] && m.admissions == l.admissions + [m.clock]
    ensures Within(m.admissions, 0, interval) == Within(l.admissions, 0, interval)
  {
    var now := l.clock + interval + 1;
    m := Do(interval, rate, n, l, Tick(now));
    SinceOfEarlier(l.queue, now - interval);
    WithinAppend(l.admissions, now, 0, interval);
    m := Call(interval, rate, n, m, n - 1);
    assert [] + [now] == [now];
  }

  /** A request one interval on empties the queue, and a waiting call is let in on its old stamp. */
  lemma {:induction false} LetOneIn(interval: nat, rate: int, n: nat, l: Line, waiting: nat) returns (m: Line)
    requires Reachable(interval, rate, n, l) && Waiting(l, n, waiting) && 0 < waiting < n && 2 <= rate
    requires 0 <= l.clock && UpToNow(l)
    ensures Reachable(interval, rate, n, m) && Waiting(m, n, waiting - 1) && l.clock <= m.clock
    ensures UpToNow(m)
    ensures Within(m.admissions, 0, interval) == Within(l.admissions, 0, interval) + 1
  {
    m := Restart(interval, rate, n, l);
    SinceOfLater(m.queue, 0 - interval);
    WithinAppend(m.admissions, 0, 0, interval);
    m := Do(interval, rate, n, m, Serve(waiting - 1));
  }

  lemma {:induction false} LetAllIn(interval: nat, rate: int, n: nat, l: Line, waiting: nat) returns (m: Line)
    requires Reachable(interval, rate, n, l) && Waiting(l, n, waiting) && waiting < n && 2 <= rate
    requires 0 <= l.clock && UpToNow(l)
    ensures Reachable(interval, rate, n, m)
    ensures Within(m.admissions, 0, interval) == Within(l.admissions, 0, interval) + waiting
    decreases waiting
  {
    m := l;
    if waiting > 0 {
      m := LetOneIn(interval, rate, n, l, waiting);
      m := LetAllIn(interval, rate, n, m, waiting - 1);
    }
  }

  lemma {:induction false} LateStampBoundIsReached(interval: nat, rate: int, n: nat) returns (l: Line)
    requires 1 <= n && 2 <= rate
    ensures Reachable(interval, rate, n, l) && Within(l.admissions, 0, interval) == rate + n - 1
  {
    l := Fill(interval, rate, n, n - 1, rate);
    l := LetAllIn(interval, rate, n, l, n - 1);
  }

  predicate WithinRate(interval: nat, rate: int, l: Line, from: int) {
    Within(l.admissions, from, from + interval) <= NonNegative(rate)
  }

  /** In no run of `n` callers does a closed window of one interval hold more than the rate. */
  ghost predicate NeverMoreThanRate(interval: nat, rate: int, n: nat) {
    forall l: Line, from: int | Reachable(interval, rate, n, l) :: WithinRate(interval, rate, l, from)
  }

  /**
   * The rate bounds every window of every run if and only if there is one caller at most, or the rate is
   * one at most.
   */
  lemma {:induction false} RateHoldsIff(interval: nat, rate: int, n: nat)
    ensures NeverMoreThanRate(interval, rate, n) <==> n <= 1 || rate <= 1
  {
    if n <= 1 || rate <= 1 {
      forall l: Line, from: int | Reachable(interval, rate, n, l) ensures WithinRate(interval, rate, l, from) {
        var events :| Legal(interval, rate, Start(n, 0), events) && Play(interval, rate, Start(n, 0), events) == l;
        if rate <= 1 {
          SmallRateHolds(interval, rate, n, events, from);
        } else {
          LateStampBound(interval, rate, n, 0, events, from);
        }
      }
    } else {
      var l := LateStampBoundIsReached(interval, rate, n);
      assert !WithinRate(interval, rate, l, 0);
    }
  }
}
