/**
 * The fixed-window limiter with its atomic operations interleaved: reading the clock, loading the window
 * start, swapping it, clearing the counter and adding to it are separate steps of any number of callers.
 */
module WindowRaces {
  import opened Prelude
  import opened WindowLimiters

  datatype Phase = Out | Timed(current: int) | Loaded(current: int, timestamp: int) | Resetting | Adding

  /** `swaps` and `resets` count the successful swaps of the window start and the clearings of the counter. */
  datatype Race = Race(
    timestamp: int, cnt: int, clock: int, callers: seq<Phase>, swaps: nat, resets: nat, admissions: seq<int>)

  datatype Event = Tick(now: int) | Enter(i: nat) | Load(i: nat) | Swap(i: nat) | Reset(i: nat) | Add(i: nat)

  function Start(n: nat, now: int): Race {
    Race(now, 0, now, seq(n, _ => Out), 0, 0, [])
  }

  predicate Enabled(r: Race, e: Event) {
    match e
    case Tick(now) => now >= r.clock
    case Enter(i) => i < |r.callers| && r.callers[i].Out?
    case Load(i) => i < |r.callers| && r.callers[i].Timed?
    case Swap(i) => i < |r.callers| && r.callers[i].Loaded?
    case Reset(i) => i < |r.callers| && r.callers[i].Resetting?
    case Add(i) => i < |r.callers| && r.callers[i].Adding?
  }

  function Move(r: Race, i: nat, p: Phase): Race
    requires i < |r.callers|
  {
    r.(callers := r.callers[i := p])
  }

  /** An expired window is swapped if nobody else has; whoever swaps clears the counter next. */
  function Apply(interval: int, rate: int, r: Race, e: Event): Race
    requires Enabled(r, e)
  {
    match e
    case Tick(now) => r.(clock := now)
    case Enter(i) => Move(r, i, Timed(r.clock))
    case Load(i) => Move(r, i, Loaded(r.callers[i].current, r.timestamp))
    case Swap(i) =>
      var c := r.callers[i];
      if c.current - c.timestamp >= interval && r.timestamp == c.timestamp then
        Move(r, i, Resetting).(timestamp := c.current, swaps := r.swaps + 1)
      else Move(r, i, Adding)
    case Reset(i) => Move(r, i, Adding).(cnt := 0, resets := r.resets + 1)
    case Add(i) =>
      var admissions := if r.cnt + 1 > rate then r.admissions else r.admissions + [r.clock];
      Move(r, i, Out).(cnt := r.cnt + 1, admissions := admissions)
  }

  predicate Legal(interval: int, rate: int, r: Race, events: seq<Event>)
    decreases |events|
  {
    events == [] || (Enabled(r, events[0]) && Legal(interval, rate, Apply(interval, rate, r, events[0]), events[1..]))
  }

  function Play(interval: int, rate: int, r: Race, events: seq<Event>): Race
    requires Legal(interval, rate, r, events)
    decreases |events|
  {
    if events == [] then r else Play(interval, rate, Apply(interval, rate, r, events[0]), events[1..])
  }

  // The long run.

  function Clearing(p: Phase): int {
    if p.Resetting? then 1 else 0
  }

  function Clearings(callers: seq<Phase>): seq<int> {
    seq(|callers|, i requires 0 <= i < |callers| => Clearing(callers[i]))
  }

  /**
   * Every swap moves the window on by an interval, every clearing follows a swap, and between clearings
   * at most `rate` are admitted.
   */
  ghost predicate Kept(interval: nat, rate: int, start: int, r: Race) {
    && start + Times(r.swaps, interval) <= r.timestamp <= r.clock
    && r.resets + Sum(Clearings(r.callers)) == r.swaps
    && 0 <= r.cnt
    && |r.admissions| <= Times(r.resets, NonNegative(rate)) + Fewer(r.cnt, NonNegative(rate))
    && (forall i | 0 <= i < |r.callers| && (r.callers[i].Timed? || r.callers[i].Loaded?) ::
          r.callers[i].current <= r.clock)
  }

  lemma {:induction false} MoveClears(callers: seq<Phase>, i: nat, p: Phase)
    requires i < |callers|
    ensures Sum(Clearings(callers[i := p])) == Sum(Clearings(callers)) - Clearing(callers[i]) + Clearing(p)
  {
    SumUpdate(Clearings(callers), i, Clearing(p));
    assert Clearings(callers[i := p]) == Clearings(callers)[i := Clearing(p)];
  }

  lemma {:induction false} StepKeeps(interval: nat, rate: int, start: int, r: Race, e: Event)
    requires Kept(interval, rate, start, r) && Enabled(r, e)
    ensures Kept(interval, rate, start, Apply(interval, rate, r, e))
  {
    if !e.Tick? {
      var s := Apply(interval, rate, r, e);
      MoveClears(r.callers, e.i, s.callers[e.i]);
      assert Times(r.swaps + 1, interval) == interval + Times(r.swaps, interval);
      assert Times(r.resets + 1, NonNegative(rate)) == NonNegative(rate) + Times(r.resets, NonNegative(rate));
    }
  }

  lemma {:induction false} RunKeeps(interval: nat, rate: int, start: int, r: Race, events: seq<Event>)
    requires Kept(interval, rate, start, r) && Legal(interval, rate, r, events)
    ensures Kept(interval, rate, start, Play(interval, rate, r, events))
    decreases |events|
  {
    if events != [] {
      StepKeeps(interval, rate, start, r, events[0]);
      RunKeeps(interval, rate, start, Apply(interval, rate, r, events[0]), events[1..]);
    }
  }

  lemma {:induction false} ClearingsNonNegative(callers: seq<Phase>)
    ensures Sum(Clearings(callers)) >= 0
  {
    var none := seq(|callers|, _ => 0);
    SumOfConstant(none, 0);
    SumSqueeze(none, Clearings(callers));
  }

  lemma {:induction false} WindowsFit(swaps: nat, interval: nat, elapsed: int)
    requires interval > 0 && Times(swaps, interval) <= elapsed
    ensures swaps <= elapsed / interval
  {
    TimesIsProduct(swaps, interval);
    if swaps > elapsed / interval {
      MulMonotone(elapsed / interval + 1, swaps, interval);
    }
  }

  /**
   * However the callers interleave, the admissions up to any time number at most the rate for each interval
   * elapsed and once more: races never raise the long-run rate.
   */
  lemma {:induction false} LongRunBound(interval: nat, rate: int, n: nat, start: int, events: seq<Event>)
    requires interval > 0 && Legal(interval, rate, Start(n, start), events)
    ensures
      var r := Play(interval, rate, Start(n, start), events);
      |r.admissions| <= ((r.clock - start) / interval + 1) * NonNegative(rate)
  {
    var s := Start(n, start);
    SumOfConstant(Clearings(s.callers), 0);
    RunKeeps(interval, rate, start, s, events);
    var r := Play(interval, rate, s, events);
    ClearingsNonNegative(r.callers);
    WindowsFit(r.swaps, interval, r.clock - start);
    var q := (r.clock - start) / interval;
    TimesMonotone(r.resets + 1, q + 1, NonNegative(rate));
    TimesIsProduct(q + 1, NonNegative(rate));
    assert Times(r.resets + 1, NonNegative(rate)) == NonNegative(rate) + Times(r.resets, NonNegative(rate));
  }

  // Any stretch of time.

  /** A call that read the clock before `from` and has not decided yet. */
  function Old(p: Phase, from: int): int {
    if (p.Timed? || p.Loaded?) && p.current < from then 1 else 0
  }

  /** Whether a call may still clear the counter on account of what happened before `from`. */
  function Pending(p: Phase, from: int): int {
    Clearing(p) + Old(p, from)
  }

  function Pendings(callers: seq<Phase>, from: int): seq<int> {
    seq(|callers|, i requires 0 <= i < |callers| => Pending(callers[i], from))
  }

  lemma {:induction false} MovePends(callers: seq<Phase>, i: nat, p: Phase, from: int)
    requires i < |callers|
    ensures Sum(Pendings(callers[i := p], from))
         == Sum(Pendings(callers, from)) - Pending(callers[i], from) + Pending(p, from)
  {
    SumUpdate(Pendings(callers, from), i, Pending(p, from));
    assert Pendings(callers[i := p], from) == Pendings(callers, from)[i := Pending(p, from)];
  }

  /** All callers but one that is past its decision can be pending. */
  lemma {:induction false} PendingOthers(callers: seq<Phase>, i: nat, from: int)
    requires i < |callers| && Pending(callers[i], from) == 0
    ensures Sum(Pendings(callers, from)) <= |callers| - 1
  {
    var all := seq(|callers|, _ => 1);
    SumOfConstant(all, 1);
    SumUpdate(all, i, 0);
    SumSqueeze(Pendings(callers, from), all[i := 0]);
  }

  lemma {:induction false} PendingAll(callers: seq<Phase>, from: int)
    ensures Sum(Pendings(callers, from)) <= |callers|
  {
    var all := seq(|callers|, _ => 1);
    SumOfConstant(all, 1);
    SumSqueeze(Pendings(callers, from), all);
  }

  lemma {:induction false} PendingNonNegative(callers: seq<Phase>, from: int)
    ensures Sum(Pendings(callers, from)) >= 0
  {
    var none := seq(|callers|, _ => 0);
    SumOfConstant(none, 0);
    SumSqueeze(none, Pendings(callers, from));
  }

  /** Nothing has been read or admitted that lies in the future. */
  ghost predicate Timely(r: Race) {
    && r.timestamp <= r.clock && 0 <= r.cnt
    && (forall i | 0 <= i < |r.callers| && (r.callers[i].Timed? || r.callers[i].Loaded?) ::
          r.callers[i].current <= r.clock)
    && (forall j | 0 <= j < |r.admissions| :: r.admissions[j] <= r.clock)
  }

  /**
   * The tally of a stretch that began at `from`: `clears` clearings in it, `recent` swaps by calls that entered in
   * it, and whether anything was admitted in it before the first clearing.
   */
  datatype Tally = Tally(clears: nat, recent: nat, early: bool)

  function Early(t: Tally): nat {
    if t.early then 1 else 0
  }

  /** The most that the stretch can have admitted: `most` for each segment between clearings. */
  function Ceiling(t: Tally, cnt: int, most: nat): int {
    if t.clears == 0 then if t.early then Fewer(cnt, most) else 0
    else Times(t.clears - 1 + Early(t), most) + Fewer(cnt, most)
  }

  /** What holds while the clock is in the stretch. */
  ghost predicate Tallied(interval: nat, rate: int, r: Race, from: int, to: int, t: Tally) {
    && from <= r.clock < to && 0 <= r.cnt
    && t.clears + Sum(Pendings(r.callers, from)) + Early(t) <= |r.callers| + t.recent
    && (t.recent > 0 ==> from + Times(t.recent - 1, interval) <= r.timestamp)
    && Span(r.admissions, from, to) <= Ceiling(t, r.cnt, NonNegative(rate))
  }

  lemma {:induction false} SwapTallied(interval: nat, rate: int, r: Race, i: nat, from: int, to: int, t: Tally)
      returns (t': Tally)
    requires Timely(r) && Tallied(interval, rate, r, from, to, t) && Enabled(r, Swap(i)) && 0 < interval
    ensures Tallied(interval, rate, Apply(interval, rate, r, Swap(i)), from, to, t')
  {
    var s := Apply(interval, rate, r, Swap(i));
    var c := r.callers[i];
    MovePends(r.callers, i, s.callers[i], from);
    if s.callers[i].Resetting? && c.current >= from {
      t' := t.(recent := t.recent + 1);
      assert t.recent > 0 ==> Times(t.recent, interval) == interval + Times(t.recent - 1, interval);
    } else {
      t' := t;
    }
  }

  lemma {:induction false} CeilingAfterClearing(t: Tally, cnt: int, most: nat)
    ensures Ceiling(t, cnt, most) <= Ceiling(t.(clears := t.clears + 1), 0, most)
  {
    var top := t.clears + Early(t);
    assert top > 0 ==> Times(top, most) == most + Times(top - 1, most);
    assert Times(0, most) == 0;
  }

  lemma {:induction false} ResetTallied(interval: nat, rate: int, r: Race, i: nat, from: int, to: int, t: Tally)
      returns (t': Tally)
    requires Tallied(interval, rate, r, from, to, t) && Enabled(r, Reset(i))
    ensures Tallied(interval, rate, Apply(interval, rate, r, Reset(i)), from, to, t')
  {
    MovePends(r.callers, i, Adding, from);
    t' := t.(clears := t.clears + 1);
    CeilingAfterClearing(t, r.cnt, NonNegative(rate));
  }

  /** The tally after a request is counted: an admission before any clearing is an early one. */
  function AfterAdding(t: Tally, cnt: int, rate: int): Tally {
    if t.clears == 0 && cnt + 1 <= rate then t.(early := true) else t
  }

  lemma {:induction false} CeilingAfterAdding(t: Tally, cnt: int, rate: int)
    requires 0 <= cnt
    ensures Ceiling(t, cnt, NonNegative(rate)) + (if cnt + 1 <= rate then 1 else 0)
         <= Ceiling(AfterAdding(t, cnt, rate), cnt + 1, NonNegative(rate))
  {}

  lemma {:induction false} AddPends(interval: nat, rate: int, r: Race, i: nat, from: int)
    requires Enabled(r, Add(i))
    ensures Sum(Pendings(Apply(interval, rate, r, Add(i)).callers, from)) == Sum(Pendings(r.callers, from))
    ensures Sum(Pendings(r.callers, from)) <= |r.callers| - 1
  {
    MovePends(r.callers, i, Out, from);
    PendingOthers(r.callers, i, from);
  }

  lemma {:induction false} AddSpans(interval: nat, rate: int, r: Race, i: nat, from: int, to: int)
    requires Enabled(r, Add(i)) && from <= r.clock < to
    ensures Span(Apply(interval, rate, r, Add(i)).admissions, from, to)
         == Span(r.admissions, from, to) + if r.cnt + 1 <= rate then 1 else 0
  {
    SpanAppend(r.admissions, r.clock, from, to);
  }

  lemma {:induction false} AddTallied(interval: nat, rate: int, r: Race, i: nat, from: int, to: int, t: Tally)
      returns (t': Tally)
    requires Tallied(interval, rate, r, from, to, t) && Enabled(r, Add(i))
    ensures Tallied(interval, rate, Apply(interval, rate, r, Add(i)), from, to, t')
  {
    AddPends(interval, rate, r, i, from);
    AddSpans(interval, rate, r, i, from, to);
    CeilingAfterAdding(t, r.cnt, rate);
    t' := AfterAdding(t, r.cnt, rate);
  }

  lemma {:induction false} StepTallied(interval: nat, rate: int, r: Race, e: Event, from: int, to: int, t: Tally)
      returns (t': Tally)
    requires Timely(r) && Tallied(interval, rate, r, from, to, t) && Enabled(r, e)
    requires 0 < interval && (e.Tick? ==> e.now < to)
    ensures Tallied(interval, rate, Apply(interval, rate, r, e), from, to, t')
  {
    t' := t;
    match e
    case Tick(_) =>
    case Enter(i) => MovePends(r.callers, i, Timed(r.clock), from);
    case Load(i) => MovePends(r.callers, i, Loaded(r.callers[i].current, r.timestamp), from);
    case Swap(i) => t' := SwapTallied(interval, rate, r, i, from, to, t);
    case Reset(i) => t' := ResetTallied(interval, rate, r, i, from, to, t);
    case Add(i) => t' := AddTallied(interval, rate, r, i, from, to, t);
  }

  lemma {:induction false} CeilingBound(t: Tally, cnt: int, most: nat)
    ensures Ceiling(t, cnt, most) <= Times(t.clears + Early(t), most)
  {
    var top := t.clears + Early(t);
    assert top > 0 ==> Times(top, most) == most + Times(top - 1, most);
    if top > 0 {
      TimesMonotone(0, top - 1, most);
    }
  }

  lemma {:induction false} TalliedBound(interval: nat, rate: int, r: Race, from: int, to: int, t: Tally, k: nat)
    requires Timely(r) && Tallied(interval, rate, r, from, to, t) && to == from + Times(k, interval)
    ensures Span(r.admissions, from, to) <= Times(|r.callers| + k, NonNegative(rate))
  {
    PendingNonNegative(r.callers, from);
    if t.recent > k {
      TimesMonotone(k, t.recent - 1, interval);
    }
    CeilingBound(t, r.cnt, NonNegative(rate));
    TimesMonotone(t.clears + Early(t), |r.callers| + k, NonNegative(rate));
  }

  /** Once the stretch is over its admissions stay as they are. */
  lemma {:induction false} RacePast(interval: int, rate: int, r: Race, events: seq<Event>, from: int, to: int)
    requires to <= r.clock && Legal(interval, rate, r, events)
    ensures Span(Play(interval, rate, r, events).admissions, from, to) == Span(r.admissions, from, to)
    decreases |events|
  {
    if events != [] {
      SpanAppend(r.admissions, r.clock, from, to);
      RacePast(interval, rate, Apply(interval, rate, r, events[0]), events[1..], from, to);
    }
  }

  lemma {:induction false} RunTallied(
      interval: nat, rate: int, r: Race, events: seq<Event>, from: int, to: int, t: Tally, k: nat)
    requires Timely(r) && Tallied(interval, rate, r, from, to, t) && 0 < interval && to == from + Times(k, interval)
    requires Legal(interval, rate, r, events)
    ensures Span(Play(interval, rate, r, events).admissions, from, to) <= Times(|r.callers| + k, NonNegative(rate))
    decreases |events|
  {
    TalliedBound(interval, rate, r, from, to, t, k);
    if events != [] {
      var e := events[0];
      var s := Apply(interval, rate, r, e);
      if e.Tick? && e.now >= to {
        RacePast(interval, rate, s, events[1..], from, to);
      } else {
        StepTimely(interval, rate, r, e);
        var t' := StepTallied(interval, rate, r, e, from, to, t);
        RunTallied(interval, rate, s, events[1..], from, to, t', k);
      }
    }
  }

  lemma {:induction false} StepTimely(interval: nat, rate: int, r: Race, e: Event)
    requires Timely(r) && Enabled(r, e)
    ensures Timely(Apply(interval, rate, r, e))
  {}

  /** Up to the stretch nothing has been admitted in it. */
  lemma {:induction false} RunBefore(
      interval: nat, rate: int, r: Race, events: seq<Event>, from: int, to: int, k: nat)
    requires Timely(r) && r.clock < from && 0 < interval && 0 < k && to == from + Times(k, interval)
    requires Legal(interval, rate, r, events)
    ensures Span(Play(interval, rate, r, events).admissions, from, to) <= Times(|r.callers| + k, NonNegative(rate))
    decreases |events|
  {
    SpanOutside(r.admissions, from, to);
    TimesMonotone(0, |r.callers| + k, NonNegative(rate));
    if events != [] {
      var e := events[0];
      var s := Apply(interval, rate, r, e);
      StepTimely(interval, rate, r, e);
      if s.clock < from {
        RunBefore(interval, rate, s, events[1..], from, to, k);
      } else if s.clock >= to {
        RacePast(interval, rate, s, events[1..], from, to);
      } else {
        PendingAll(s.callers, from);
        RunTallied(interval, rate, s, events[1..], from, to, Tally(0, 0, false), k);
      }
    }
  }

  /**
   * However `n` callers interleave, a half-open stretch of `k` intervals admits at most (n + k) times the rate:
   * every call in flight when it begins can clear the counter once more.
   */
  lemma {:induction false} RaceBound(
      interval: nat, rate: int, n: nat, start: int, events: seq<Event>, from: int, k: nat)
    requires 0 < interval && Legal(interval, rate, Start(n, start), events)
    ensures Span(Play(interval, rate, Start(n, start), events).admissions, from, from + k * interval)
         <= (n + k) * NonNegative(rate)
  {
    var s, to := Start(n, start), from + k * interval;
    TimesIsProduct(k, interval);
    TimesIsProduct(n + k, NonNegative(rate));
    if k == 0 {
      SpanOutside(Play(interval, rate, s, events).admissions, from, to);
      TimesMonotone(0, n + k, NonNegative(rate));
    } else if start < from {
      RunBefore(interval, rate, s, events, from, to, k);
    } else if start < to {
      PendingAll(s.callers, from);
      RunTallied(interval, rate, s, events, from, to, Tally(0, 0, false), k);
    } else {
      RacePast(interval, rate, s, events, from, to);
      TimesMonotone(0, n + k, NonNegative(rate));
    }
  }

  // The bound is reached.

  ghost predicate Reachable(interval: int, rate: int, n: nat, r: Race) {
    exists events :: Legal(interval, rate, Start(n, 0), events) && Play(interval, rate, Start(n, 0), events) == r
  }

  lemma {:induction false} LegalAppend(interval: int, rate: int, r: Race, events: seq<Event>, e: Event)
    requires Legal(interval, rate, r, events) && Enabled(Play(interval, rate, r, events), e)
    ensures Legal(interval, rate, r, events + [e])
    ensures Play(interval, rate, r, events + [e]) == Apply(interval, rate, Play(interval, rate, r, events), e)
    decreases |events|
  {
    if events == [] {
      assert events + [e] == [e];
    } else {
      assert (events + [e])[1..] == events[1..] + [e];
      LegalAppend(interval, rate, Apply(interval, rate, r, events[0]), events[1..], e);
    }
  }

  lemma {:induction false} Do(interval: int, rate: int, n: nat, r: Race, e: Event) returns (s: Race)
    requires Reachable(interval, rate, n, r) && Enabled(r, e)
    ensures s == Apply(interval, rate, r, e) && Reachable(interval, rate, n, s)
  {
    var events :| Legal(interval, rate, Start(n, 0), events) && Play(interval, rate, Start(n, 0), events) == r;
    LegalAppend(interval, rate, Start(n, 0), events, e);
    s := Apply(interval, rate, r, e);
  }

  /** Caller `i` enters, loads and decides. */
  lemma {:induction false} Decide(interval: int, rate: int, n: nat, r: Race, i: nat) returns (s: Race)
    requires Reachable(interval, rate, n, r) && i < |r.callers| && r.callers[i].Out?
    ensures Reachable(interval, rate, n, s)
    ensures s ==
      if r.clock - r.timestamp >= interval then Move(r, i, Resetting).(timestamp := r.clock, swaps := r.swaps + 1)
      else Move(r, i, Adding)
  {
    s := Do(interval, rate, n, r, Enter(i));
    s := Do(interval, rate, n, s, Load(i));
    assert s == Move(r, i, Loaded(r.clock, r.timestamp));
    s := Do(interval, rate, n, s, Swap(i));
  }

  /** The last caller sends `m` requests that fit into the current window. */
  lemma {:induction false} BurstGoes(interval: int, rate: int, n: nat, r: Race, b: nat, m: nat, from: int, to: int)
      returns (s: Race)
    requires Reachable(interval, rate, n, r) && b < |r.callers| && r.callers[b].Out? && from <= r.clock < to
    requires r.clock - r.timestamp < interval && r.cnt + m <= rate
    ensures Reachable(interval, rate, n, s) && s == r.(cnt := r.cnt + m, admissions := s.admissions)
    ensures Span(s.admissions, from, to) == Span(r.admissions, from, to) + m
    decreases m
  {
    s := r;
    if m > 0 {
      s := Decide(interval, rate, n, r, b);
      s := Do(interval, rate, n, s, Add(b));
      assert s.callers == r.callers;
      SpanAppend(r.admissions, r.clock, from, to);
      s := BurstGoes(interval, rate, n, s, b, m - 1, from, to);
    }
  }

  /** A parked caller clears the counter and is admitted, and the last caller fills up the rate. */
  lemma {:induction false} ClearAndFill(
      interval: int, rate: int, n: nat, r: Race, i: nat, b: nat, from: int, to: int) returns (s: Race)
    requires Reachable(interval, rate, n, r) && i < |r.callers| && b < |r.callers| && from <= r.clock < to
    requires r.callers[i].Resetting? && (i == b || r.callers[b].Out?) && r.clock - r.timestamp < interval && 1 <= rate
    ensures Reachable(interval, rate, n, s) && |s.callers| == |r.callers|
    ensures s.callers == r.callers[i := Out] && s.timestamp == r.timestamp && s.clock == r.clock
    ensures Span(s.admissions, from, to) == Span(r.admissions, from, to) + rate
  {
    s := Do(interval, rate, n, r, Reset(i));
    s := Do(interval, rate, n, s, Add(i));
    assert s.callers == r.callers[i := Out];
    SpanAppend(r.admissions, r.clock, from, to);
    s := BurstGoes(interval, rate, n, s, b, rate - 1, from, to);
  }

  /** The first `parked` callers have each swapped a window and are still about to clear the counter. */
  predicate Parked(r: Race, n: nat, parked: nat) {
    && parked <= n == |r.callers|
    && forall i | 0 <= i < n :: r.callers[i] == if i < parked then Resetting else Out
  }

  lemma {:induction false} Park(interval: nat, rate: int, n: nat, parked: nat) returns (r: Race)
    requires parked < n && 0 < interval
    ensures Reachable(interval, rate, n, r) && Parked(r, n, parked)
    ensures r.clock == r.timestamp && r.cnt == 0 && r.admissions == []
  {
    if parked == 0 {
      r := Start(n, 0);
      assert Legal(interval, rate, r, []) && Play(interval, rate, r, []) == r;
    } else {
      r := Park(interval, rate, n, parked - 1);
      r := Do(interval, rate, n, r, Tick(r.clock + interval));
      r := Decide(interval, rate, n, r, parked - 1);
    }
  }

  /** One parked caller after another clears the counter, each time for another full rate. */
  lemma {:induction false} ReleaseAll(
      interval: int, rate: int, n: nat, r: Race, parked: nat, from: int, to: int) returns (s: Race)
    requires Reachable(interval, rate, n, r) && Parked(r, n, parked) && parked < n && from <= r.clock < to
    requires r.clock - r.timestamp < interval && 1 <= rate
    ensures Reachable(interval, rate, n, s) && Parked(s, n, 0)
    ensures s.timestamp == r.timestamp && s.clock == r.clock
    ensures Span(s.admissions, from, to) == Span(r.admissions, from, to) + Times(parked, rate)
    decreases parked
  {
    s := r;
    if parked > 0 {
      s := ClearAndFill(interval, rate, n, r, parked - 1, n - 1, from, to);
      s := ReleaseAll(interval, rate, n, s, parked - 1, from, to);
    }
  }

  /** The last caller opens `m` windows in a row and fills each. */
  lemma {:induction false} FillWindows(
      interval: nat, rate: int, n: nat, r: Race, m: nat, from: int, to: int) returns (s: Race)
    requires Reachable(interval, rate, n, r) && Parked(r, n, 0) && 0 < n && 0 < interval && 1 <= rate
    requires r.clock <= r.timestamp + interval && from <= r.clock
    requires m > 0 ==> r.timestamp + Times(m, interval) < to
    ensures Reachable(interval, rate, n, s)
    ensures Span(s.admissions, from, to) == Span(r.admissions, from, to) + Times(m, rate)
    decreases m
  {
    s := r;
    if m > 0 {
      assert Times(m, interval) == interval + Times(m - 1, interval);
      TimesMonotone(0, m - 1, interval);
      s := Do(interval, rate, n, r, Tick(r.timestamp + interval));
      s := Decide(interval, rate, n, s, n - 1);
      s := ClearAndFill(interval, rate, n, s, n - 1, n - 1, from, to);
      assert Times(m, rate) == rate + Times(m - 1, rate);
      s := FillWindows(interval, rate, n, s, m - 1, from, to);
    }
  }

  /**
   * The bound is reached: n - 1 callers that swapped earlier windows clear the counter late, while the last one
   * sends a burst after each clearing and into each new window.
   */
  lemma {:induction false} RaceBoundIsReached(interval: nat, rate: int, n: nat, k: nat) returns (r: Race, from: int)
    requires 1 < interval && 1 <= rate && 1 <= n && 1 <= k
    ensures Reachable(interval, rate, n, r)
    ensures Span(r.admissions, from, from + k * interval) == (n + k) * rate
  {
    r := Park(interval, rate, n, n - 1);
    from := r.timestamp + interval - 1;
    var to := from + k * interval;
    TimesIsProduct(k, interval);
    MulMonotone(1, k, interval);
    r := Do(interval, rate, n, r, Tick(from));
    r := BurstGoes(interval, rate, n, r, n - 1, rate, from, to);
    r := ReleaseAll(interval, rate, n, r, n - 1, from, to);
    r := FillWindows(interval, rate, n, r, k, from, to);
    TimesIsProduct(n - 1, rate);
    TimesIsProduct(k, rate);
    assert (n + k) * rate == rate + (n - 1) * rate + k * rate;
  }

  predicate WithinTwice(interval: nat, rate: int, r: Race, from: int) {
    Span(r.admissions, from, from + interval) <= 2 * rate
  }

  /** In no run of `n` callers does one interval admit more than twice the rate. */
  ghost predicate NeverMoreThanTwice(interval: nat, rate: int, n: nat) {
    forall r: Race, from: int | Reachable(interval, rate, n, r) :: WithinTwice(interval, rate, r, from)
  }

  lemma {:induction false} OneInterval(
      interval: nat, rate: int, n: nat, events: seq<Event>, from: int, most: nat)
    requires 0 < interval && 0 <= rate && Legal(interval, rate, Start(n, 0), events) && n <= most
    ensures Span(Play(interval, rate, Start(n, 0), events).admissions, from, from + interval) <= (most + 1) * rate
  {
    var k := 1;
    RaceBound(interval, rate, n, 0, events, from, k);
    assert k * interval == interval;
    MulMonotone(n + k, most + 1, rate);
  }

  lemma {:induction false} OneIntervalIsReached(interval: nat, rate: int, n: nat) returns (r: Race, from: int)
    requires 1 < interval && 1 <= rate && 2 <= n
    ensures Reachable(interval, rate, n, r) && Span(r.admissions, from, from + interval) > 2 * rate
  {
    var k := 1;
    r, from := RaceBoundIsReached(interval, rate, n, k);
    assert k * interval == interval;
    MulMonotone(3, n + k, rate);
  }

  /** Twice the rate bounds every interval of every run if and only if there is at most one caller. */
  lemma {:induction false} TwiceTheRateIff(interval: nat, rate: int, n: nat)
    requires 1 < interval && 1 <= rate
    ensures NeverMoreThanTwice(interval, rate, n) <==> n <= 1
  {
    if n <= 1 {
      forall r: Race, from: int | Reachable(interval, rate, n, r) ensures WithinTwice(interval, rate, r, from) {
        var events :| Legal(interval, rate, Start(n, 0), events) && Play(interval, rate, Start(n, 0), events) == r;
        OneInterval(interval, rate, n, events, from, 1);
      }
    } else {
      var r, from := OneIntervalIsReached(interval, rate, n);
      assert !WithinTwice(interval, rate, r, from);
    }
  }
}
