/**
 * The circuit breaker: a class in the shape of the code, its methods tied to steps on values, and what
 * every run of those steps keeps. Times are integers read from one non-decreasing clock.
 */
module CircuitBreaker {
  import opened Prelude

  datatype State = Closed | HalfOpen | Open
  datatype Answer = Granted | OpenState | TooManyConcurrent

  type Factor = x: real | x >= 0.0

  datatype Options = Options(
    threshold: nat, timeout: int, halfOpenMax: nat, factor: Factor,
    maxConcurrent: nat, windowSize: int, successThreshold: nat)

  /** Permits gained by a success that does not yet close the breaker. */
  function Gain(o: Options): nat {
    (o.halfOpenMax as real * o.factor).Floor
  }

  datatype Breaker = Breaker(
    state: State, failures: nat, successes: nat, lastStateChange: int, halfOpenAllowed: nat,
    concurrent: nat, window: seq<int>, lastFailure: int, consecutiveFailures: nat)

  function New(o: Options, now: int): Breaker {
    Breaker(Closed, 0, 0, now, o.halfOpenMax, 0, [], 0, 0)
  }

  function ChangeState(o: Options, b: Breaker, s: State, now: int): Breaker {
    var c := b.(state := s, lastStateChange := now);
    match s
    case Closed => c.(failures := 0, window := [], consecutiveFailures := 0)
    case HalfOpen => c.(successes := 0, halfOpenAllowed := o.halfOpenMax)
    case Open => c
  }

  function Verdict(o: Options, b: Breaker, now: int): Answer {
    if o.maxConcurrent > 0 && b.concurrent >= o.maxConcurrent then TooManyConcurrent
    else match b.state
      case Closed => Granted
      case Open => if now - b.lastStateChange > o.timeout then Granted else OpenState
      case HalfOpen => if b.halfOpenAllowed > 0 then Granted else OpenState
  }

  function Allowed(o: Options, b: Breaker, now: int): Breaker {
    if Verdict(o, b, now) != Granted then b
    else
      var c := match b.state
        case Closed => b
        case Open => ChangeState(o, b, HalfOpen, now)
        case HalfOpen => if b.halfOpenAllowed > 0 then b.(halfOpenAllowed := b.halfOpenAllowed - 1) else b;
      c.(concurrent := c.concurrent + 1)
  }

  function Leave(b: Breaker): Breaker {
    if b.concurrent > 0 then b.(concurrent := b.concurrent - 1) else b
  }

  function Succeeded(o: Options, b: Breaker, now: int): Breaker {
    var c := Leave(b).(consecutiveFailures := 0);
    if c.state != HalfOpen then c.(failures := 0, window := [])
    else
      var d := c.(successes := c.successes + 1);
      if d.successes >= o.successThreshold then ChangeState(o, d, Closed, now)
      else d.(halfOpenAllowed := d.halfOpenAllowed + Gain(o))
  }

  /** The times later than `cutoff`, in order. */
  function Recent(times: seq<int>, cutoff: int): (r: seq<int>)
    ensures |r| <= |times|
  {
    if times == [] then []
    else
      var last := times[|times| - 1];
      Recent(times[..|times| - 1], cutoff) + if last > cutoff then [last] else []
  }

  function Counted(o: Options, b: Breaker, now: int): Breaker {
    if o.windowSize > 0 then
      var w := Recent(b.window + [now], now - o.windowSize);
      b.(window := w, failures := |w|)
    else b.(failures := b.failures + 1)
  }

  function Failed(o: Options, b: Breaker, now: int): Breaker {
    var c := Leave(b).(lastFailure := now, consecutiveFailures := b.consecutiveFailures + 1);
    var d := Counted(o, c, now);
    if d.state == HalfOpen || (d.state == Closed && (d.failures >= o.threshold || d.consecutiveFailures >= o.threshold))
    then ChangeState(o, d, Open, now)
    else d
  }

  function WasReset(o: Options, b: Breaker, now: int): Breaker {
    Breaker(Closed, 0, 0, now, o.halfOpenMax, 0, [], b.lastFailure, 0)
  }

  class CircuitBreaker {
    const opts: Options
    var state: State
    var failures: nat
    var successes: nat
    var lastStateChange: int
    var halfOpenAllowed: nat
    var concurrent: nat
    var failuresWindow: seq<int>
    var lastFailure: int
    var consecutiveFailures: nat

    ghost function View(): Breaker
      reads this
    {
      Breaker(state, failures, successes, lastStateChange, halfOpenAllowed, concurrent, failuresWindow,
              lastFailure, consecutiveFailures)
    }

    constructor (opts: Options, now: int)
      ensures this.opts == opts && View() == New(opts, now)
    {
      this.opts := opts;
      state, failures, successes, lastStateChange := Closed, 0, 0, now;
      halfOpenAllowed, concurrent := opts.halfOpenMax, 0;
      failuresWindow, lastFailure, consecutiveFailures := [], 0, 0;
    }

    method Allow(now: int) returns (answer: Answer)
      modifies this
      ensures answer == Verdict(opts, old(View()), now)
      ensures View() == Allowed(opts, old(View()), now)
    {
      if opts.maxConcurrent > 0 && concurrent >= opts.maxConcurrent {
        return TooManyConcurrent;
      }
      match state
      case Closed =>
        concurrent := concurrent + 1;
        return Granted;
      case Open =>
        if now - lastStateChange > opts.timeout {
          SetState(HalfOpen, now);
          concurrent := concurrent + 1;
          return Granted;
        }
        return OpenState;
      case HalfOpen =>
        if halfOpenAllowed > 0 {
          halfOpenAllowed := halfOpenAllowed - 1;
          concurrent := concurrent + 1;
          return Granted;
        }
        return OpenState;
    }

    method Success(now: int)
      modifies this
      ensures View() == Succeeded(opts, old(View()), now)
    {
      if concurrent > 0 {
        concurrent := concurrent - 1;
      }
      consecutiveFailures := 0;
      if state == HalfOpen {
        successes := successes + 1;
        if successes >= opts.successThreshold {
          SetState(Closed, now);
        } else {
          var newAllowed := (opts.halfOpenMax as real * opts.factor).Floor;
          if newAllowed > 0 {
            halfOpenAllowed := halfOpenAllowed + newAllowed;
          }
        }
        return;
      }
      failures := 0;
      failuresWindow := [];
    }

    /** The part of Failure that keeps the failure count. */
    method CountFailure(now: int)
      modifies this`failures, this`failuresWindow
      ensures View() == Counted(opts, old(View()), now)
    {
      if opts.windowSize > 0 {
        failuresWindow := failuresWindow + [now];
        var cutoff := now - opts.windowSize;
        var newWindow := [];
        for i := 0 to |failuresWindow|
          invariant newWindow == Recent(failuresWindow[..i], cutoff)
        {
          assert failuresWindow[..i + 1][..i] == failuresWindow[..i];
          if failuresWindow[i] > cutoff {
            newWindow := newWindow + [failuresWindow[i]];
          }
        }
        assert failuresWindow[..|failuresWindow|] == failuresWindow;
        failuresWindow := newWindow;
        failures := |failuresWindow|;
      } else {
        failures := failures + 1;
      }
    }

    method Failure(now: int)
      modifies this
      ensures View() == Failed(opts, old(View()), now)
    {
      if concurrent > 0 {
        concurrent := concurrent - 1;
      }
      lastFailure := now;
      consecutiveFailures := consecutiveFailures + 1;
      assert View() ==
        Leave(old(View())).(lastFailure := now, consecutiveFailures := old(View()).consecutiveFailures + 1);
      CountFailure(now);
      if state == HalfOpen {
        SetState(Open, now);
        return;
      }
      if state == Closed && (failures >= opts.threshold || consecutiveFailures >= opts.threshold) {
        SetState(Open, now);
      }
    }

    method SetState(newState: State, now: int)
      modifies this
      ensures View() == ChangeState(opts, old(View()), newState, now)
    {
      state := newState;
      lastStateChange := now;
      if newState == Closed {
        failures := 0;
        failuresWindow := [];
        consecutiveFailures := 0;
      } else if newState == HalfOpen {
        successes := 0;
        halfOpenAllowed := opts.halfOpenMax;
      }
    }

    method ForceOpen(now: int)
      modifies this
      ensures View() == ChangeState(opts, old(View()), Open, now)
    {
      SetState(Open, now);
    }

    method ForceClosed(now: int)
      modifies this
      ensures View() == ChangeState(opts, old(View()), Closed, now)
    {
      SetState(Closed, now);
    }

    method Reset(now: int)
      modifies this
      ensures View() == WasReset(opts, old(View()), now)
    {
      SetState(Closed, now);
      failures := 0;
      successes := 0;
      failuresWindow := [];
      halfOpenAllowed := opts.halfOpenMax;
      concurrent := 0;
      consecutiveFailures := 0;
    }
  }

  // The failure window never matters.

  datatype Op = Allow | Success | Failure | ForceOpen | ForceClosed | Reset

  function Step(o: Options, b: Breaker, op: Op, now: int): Breaker {
    match op
    case Allow => Allowed(o, b, now)
    case Success => Succeeded(o, b, now)
    case Failure => Failed(o, b, now)
    case ForceOpen => ChangeState(o, b, Open, now)
    case ForceClosed => ChangeState(o, b, Closed, now)
    case Reset => WasReset(o, b, now)
  }

  /** What callers see of a run: the answer to every Allow, and the state after every call. */
  function Seen(o: Options, b: Breaker, calls: seq<(Op, int)>): seq<(Answer, State)>
    decreases |calls|
  {
    if calls == [] then []
    else
      var (op, now) := calls[0];
      var c := Step(o, b, op, now);
      [(if op.Allow? then Verdict(o, b, now) else Granted, c.state)] + Seen(o, c, calls[1..])
  }

  /** In the closed state the windowed count never exceeds the consecutive count. */
  predicate WindowIsIdle(b: Breaker) {
    b.state == Closed ==> b.failures <= b.consecutiveFailures
  }

  predicate SameButWindow(b: Breaker, c: Breaker) {
    b == c.(failures := b.failures, window := b.window)
  }

  /** Two breakers with different windows that the run cannot tell apart. */
  predicate Twins(o: Options, b: Breaker, size: int, c: Breaker) {
    && WindowIsIdle(b) && WindowIsIdle(c) && SameButWindow(b, c)
    && (o.windowSize > 0 ==> |b.window| == b.failures)
    && (size > 0 ==> |c.window| == c.failures)
  }

  lemma {:induction false} CountedKeeps(o: Options, b: Breaker, now: int)
    requires o.windowSize > 0 ==> |b.window| == b.failures
    ensures var d := Counted(o, b, now);
      && d == b.(failures := d.failures, window := d.window)
      && d.failures <= b.failures + 1
      && (o.windowSize > 0 ==> |d.window| == d.failures)
  {}

  lemma {:induction false} FailureIgnoresWindow(o: Options, size: int, b: Breaker, c: Breaker, now: int)
    requires Twins(o, b, size, c)
    ensures Twins(o, Failed(o, b, now), size, Failed(o.(windowSize := size), c, now))
  {
    CountedKeeps(o, Leave(b).(lastFailure := now, consecutiveFailures := b.consecutiveFailures + 1), now);
    CountedKeeps(o.(windowSize := size),
      Leave(c).(lastFailure := now, consecutiveFailures := c.consecutiveFailures + 1), now);
  }

  lemma {:induction false} SuccessIgnoresWindow(o: Options, size: int, b: Breaker, c: Breaker, now: int)
    requires Twins(o, b, size, c)
    ensures Twins(o, Succeeded(o, b, now), size, Succeeded(o.(windowSize := size), c, now))
  {}

  lemma {:induction false} AllowIgnoresWindow(o: Options, size: int, b: Breaker, c: Breaker, now: int)
    requires Twins(o, b, size, c)
    ensures Verdict(o, b, now) == Verdict(o.(windowSize := size), c, now)
    ensures Twins(o, Allowed(o, b, now), size, Allowed(o.(windowSize := size), c, now))
  {}

  lemma {:induction false} StepIgnoresWindow(o: Options, size: int, b: Breaker, c: Breaker, op: Op, now: int)
    requires Twins(o, b, size, c)
    ensures Twins(o, Step(o, b, op, now), size, Step(o.(windowSize := size), c, op, now))
  {
    match op
    case Allow => AllowIgnoresWindow(o, size, b, c, now);
    case Success => SuccessIgnoresWindow(o, size, b, c, now);
    case Failure => FailureIgnoresWindow(o, size, b, c, now);
    case _ =>
  }

  lemma {:induction false} RunIgnoresWindow(o: Options, size: int, b: Breaker, c: Breaker, calls: seq<(Op, int)>)
    requires Twins(o, b, size, c)
    ensures Seen(o, b, calls) == Seen(o.(windowSize := size), c, calls)
    decreases |calls|
  {
    if calls != [] {
      var (op, now) := calls[0];
      AllowIgnoresWindow(o, size, b, c, now);
      StepIgnoresWindow(o, size, b, c, op, now);
      RunIgnoresWindow(o, size, Step(o, b, op, now), Step(o.(windowSize := size), c, op, now), calls[1..]);
    }
  }

  /** Two new breakers differing only in WindowSize give the same answers and states on every run. */
  lemma {:induction false} WindowSizeIsInvisible(o: Options, size: int, start: int, calls: seq<(Op, int)>)
    ensures Seen(o, New(o, start), calls) == Seen(o.(windowSize := size), New(o.(windowSize := size), start), calls)
  {
    RunIgnoresWindow(o, size, New(o, start), New(o.(windowSize := size), start), calls);
  }

  // Runs in which every admitted request reports once.

  /** One call; `id` names the request for Allow and for the report that ends it. */
  datatype Event = Event(op: Op, id: nat, now: int)

  /**
   * The breaker, the clock, the requests ever admitted and still outstanding, those admitted in the
   * latest half-open episode, and the failure times since the failure count was last cleared.
   */
  datatype World = World(
    b: Breaker, clock: int, used: set<nat>, outstanding: set<nat>, episode: set<nat>, history: seq<int>)

  function Start(o: Options, now: int): World {
    World(New(o, now), now, {}, {}, {}, [])
  }

  predicate Enabled(w: World, e: Event) {
    && e.now >= w.clock
    && (e.op == Allow ==> e.id !in w.used)
    && (e.op == Success || e.op == Failure ==> e.id in w.outstanding)
  }

  predicate Clears(o: Options, b: Breaker, e: Event) {
    match e.op
    case Success => b.state != HalfOpen || Succeeded(o, b, e.now).state == Closed
    case ForceClosed => true
    case Reset => true
    case _ => false
  }

  function Apply(o: Options, w: World, e: Event): World {
    var b := Step(o, w.b, e.op, e.now);
    var history := if Clears(o, w.b, e) then [] else if e.op == Failure then w.history + [e.now] else w.history;
    var v := w.(b := b, clock := e.now, history := history);
    match e.op
    case Allow =>
      if Verdict(o, w.b, e.now) != Granted then v
      else
        var episode :=
          if b.state != HalfOpen then w.episode
          else if w.b.state == HalfOpen then w.episode + {e.id}
          else {e.id};
        v.(used := w.used + {e.id}, outstanding := w.outstanding + {e.id}, episode := episode)
    case Success => v.(outstanding := w.outstanding - {e.id})
    case Failure => v.(outstanding := w.outstanding - {e.id})
    case _ => v
  }

  function Play(o: Options, w: World, events: seq<Event>): World
    decreases |events|
  {
    if events == [] then w else Play(o, Apply(o, w, events[0]), events[1..])
  }

  predicate Legal(o: Options, w: World, events: seq<Event>)
    decreases |events|
  {
    events == [] || (Enabled(w, events[0]) && Legal(o, Apply(o, w, events[0]), events[1..]))
  }

  ghost predicate Reachable(o: Options, w: World) {
    exists start: int, events: seq<Event> ::
      Legal(o, Start(o, start), events) && Play(o, Start(o, start), events) == w
  }

  /** Rounds of success that close a half-open breaker. */
  function Needed(o: Options): nat {
    if o.successThreshold == 0 then 1 else o.successThreshold
  }

  /** The most requests one half-open episode can admit. */
  function EpisodeLimit(o: Options): int {
    1 + o.halfOpenMax + Times(Needed(o) - 1, Gain(o))
  }

  predicate RequestsKept(w: World) {
    && w.outstanding <= w.used
    && w.episode <= w.used
    && w.b.concurrent <= |w.outstanding|
  }

  /** The half-open ledger. */
  predicate LedgerKept(o: Options, w: World) {
    && |w.episode| <= EpisodeLimit(o)
    && (w.b.state == HalfOpen ==>
      && |w.episode| + w.b.halfOpenAllowed == 1 + o.halfOpenMax + Times(w.b.successes, Gain(o))
      && w.b.successes < Needed(o)
      && |w.episode - w.outstanding| <= w.b.successes)
  }

  /** The failure count is a full recount of the history. */
  predicate Recounted(o: Options, b: Breaker, history: seq<int>, clock: int) {
    && (history != [] ==> b.lastFailure <= clock)
    && (o.windowSize > 0 ==> b.window == Recent(history, b.lastFailure - o.windowSize))
    && b.failures == if o.windowSize > 0 then |b.window| else |history|
  }

  predicate CountKept(o: Options, w: World) {
    Recounted(o, w.b, w.history, w.clock)
  }

  ghost predicate Inv(o: Options, w: World) {
    RequestsKept(w) && LedgerKept(o, w) && CountKept(o, w)
  }

  /** Ending one request adds at most one to the reported ones. */
  lemma {:induction false} OneMoreReported(s: set<nat>, t: set<nat>, x: nat)
    ensures |s - (t - {x})| <= |s - t| + 1
  {
    Subset(s - (t - {x}), (s - t) + {x});
  }

  lemma {:induction false} Subset(s: set<nat>, t: set<nat>)
    requires s <= t
    ensures |s| <= |t|
  {
    if s != {} {
      var x :| x in s;
      Subset(s - {x}, t - {x});
    }
  }

  lemma {:induction false} RecentSnoc(times: seq<int>, t: int, c: int)
    ensures Recent(times + [t], c) == Recent(times, c) + if t > c then [t] else []
  {
    assert (times + [t])[..|times|] == times;
  }

  lemma {:induction false} RecentOfRecent(times: seq<int>, c: int, d: int)
    requires c <= d
    ensures Recent(Recent(times, c), d) == Recent(times, d)
  {
    if times != [] {
      var last, init := times[|times| - 1], times[..|times| - 1];
      RecentOfRecent(init, c, d);
      RecentSnoc(Recent(init, c), last, d);
      assert Recent(init, c) + [] == Recent(init, c);
    }
  }

  lemma {:induction false} StepKeepsRequests(o: Options, w: World, e: Event)
    requires RequestsKept(w) && Enabled(w, e)
    ensures RequestsKept(Apply(o, w, e))
  {
    if e.op == Allow && Verdict(o, w.b, e.now) == Granted {
      AddOne(w.outstanding, e.id);
    } else if e.op == Success || e.op == Failure {
      DropOne(w.outstanding, e.id);
    }
  }

  lemma {:induction false} ProbeKeepsLedger(o: Options, w: World, e: Event)
    requires RequestsKept(w) && LedgerKept(o, w) && Enabled(w, e) && e.op == Allow
    requires w.b.state == HalfOpen && Verdict(o, w.b, e.now) == Granted
    ensures LedgerKept(o, Apply(o, w, e))
  {
    var v := Apply(o, w, e);
    assert v.b == w.b.(halfOpenAllowed := w.b.halfOpenAllowed - 1, concurrent := w.b.concurrent + 1);
    assert v.episode == w.episode + {e.id} && v.outstanding == w.outstanding + {e.id};
    NewProbe(w.episode, w.outstanding, e.id);
    TimesMonotone(w.b.successes, Needed(o) - 1, Gain(o));
  }

  /** A probe just admitted has not reported. */
  lemma {:induction false} NewProbe(episode: set<nat>, outstanding: set<nat>, id: nat)
    requires id !in episode && id !in outstanding
    ensures |episode + {id}| == |episode| + 1
    ensures (episode + {id}) - (outstanding + {id}) == episode - outstanding
  {}

  lemma {:induction false} FirstProbeKeepsLedger(o: Options, w: World, e: Event)
    requires RequestsKept(w) && LedgerKept(o, w) && Enabled(w, e) && e.op == Allow
    requires w.b.state == Open && Verdict(o, w.b, e.now) == Granted
    ensures LedgerKept(o, Apply(o, w, e))
  {
    var v := Apply(o, w, e);
    assert v.b.successes == 0 && v.b.halfOpenAllowed == o.halfOpenMax && v.b.state == HalfOpen;
    assert v.episode == {e.id};
    assert v.episode - v.outstanding == {};
    TimesMonotone(0, Needed(o) - 1, Gain(o));
  }

  lemma {:induction false} AllowKeepsLedger(o: Options, w: World, e: Event)
    requires RequestsKept(w) && LedgerKept(o, w) && Enabled(w, e) && e.op == Allow
    ensures LedgerKept(o, Apply(o, w, e))
  {
    if Verdict(o, w.b, e.now) == Granted && w.b.state == HalfOpen {
      ProbeKeepsLedger(o, w, e);
    } else if Verdict(o, w.b, e.now) == Granted && w.b.state == Open {
      FirstProbeKeepsLedger(o, w, e);
    }
  }

  lemma {:induction false} SuccessKeepsLedger(o: Options, w: World, e: Event)
    requires RequestsKept(w) && LedgerKept(o, w) && Enabled(w, e) && e.op == Success
    ensures LedgerKept(o, Apply(o, w, e))
  {
    OneMoreReported(w.episode, w.outstanding, e.id);
  }

  lemma {:induction false} StepKeepsLedger(o: Options, w: World, e: Event)
    requires RequestsKept(w) && LedgerKept(o, w) && Enabled(w, e)
    ensures LedgerKept(o, Apply(o, w, e))
  {
    match e.op
    case Allow => AllowKeepsLedger(o, w, e);
    case Success => SuccessKeepsLedger(o, w, e);
    case Failure => assert Failed(o, w.b, e.now).state != HalfOpen;
    case _ =>
  }

  /** Filtering the kept window anew is filtering the whole history anew. */
  lemma {:induction false} WindowForgetsNothing(window: seq<int>, history: seq<int>, c: int, now: int, d: int)
    requires window == Recent(history, c) && (history != [] ==> c <= d)
    ensures Recent(window + [now], d) == Recent(history + [now], d)
  {
    RecentSnoc(window, now, d);
    RecentSnoc(history, now, d);
    if history != [] {
      RecentOfRecent(history, c, d);
    }
  }

  /** What a failure does to the count. */
  predicate CountsFailure(o: Options, b: Breaker, f: Breaker, now: int) {
    && f.lastFailure == now
    && f.window == (if o.windowSize > 0 then Recent(b.window + [now], now - o.windowSize) else b.window)
    && f.failures == (if o.windowSize > 0 then |f.window| else b.failures + 1)
  }

  lemma {:induction false} FailedCounts(o: Options, b: Breaker, now: int)
    ensures CountsFailure(o, b, Failed(o, b, now), now)
  {}

  lemma {:induction false} RecountedAfter(o: Options, b: Breaker, f: Breaker, history: seq<int>, clock: int, now: int)
    requires Recounted(o, b, history, clock) && now >= clock && CountsFailure(o, b, f, now)
    ensures Recounted(o, f, history + [now], now)
  {
    if o.windowSize > 0 {
      WindowForgetsNothing(b.window, history, b.lastFailure - o.windowSize, now, now - o.windowSize);
    }
  }

  lemma {:induction false} FailureKeepsCount(o: Options, w: World, e: Event)
    requires CountKept(o, w) && Enabled(w, e) && e.op == Failure
    ensures CountKept(o, Apply(o, w, e))
  {
    FailedCounts(o, w.b, e.now);
    RecountedAfter(o, w.b, Failed(o, w.b, e.now), w.history, w.clock, e.now);
  }

  lemma {:induction false} StepKeepsCount(o: Options, w: World, e: Event)
    requires CountKept(o, w) && Enabled(w, e)
    ensures CountKept(o, Apply(o, w, e))
  {
    match e.op
    case Failure => FailureKeepsCount(o, w, e);
    case _ =>
  }

  lemma {:induction false} RunKeepsInv(o: Options, w: World, events: seq<Event>)
    requires Inv(o, w) && Legal(o, w, events)
    ensures Inv(o, Play(o, w, events))
    decreases |events|
  {
    if events != [] {
      var e := events[0];
      StepKeepsRequests(o, w, e);
      StepKeepsLedger(o, w, e);
      StepKeepsCount(o, w, e);
      RunKeepsInv(o, Apply(o, w, e), events[1..]);
    }
  }

  lemma {:induction false} ReachableKeepsInv(o: Options, w: World)
    requires Reachable(o, w)
    ensures Inv(o, w)
  {
    var start, events :| Legal(o, Start(o, start), events) && Play(o, Start(o, start), events) == w;
    TimesMonotone(0, Needed(o) - 1, Gain(o));
    RunKeepsInv(o, Start(o, start), events);
  }

  /** In every reachable state the failure count is a full recount of the failures since the last clear. */
  lemma {:induction false} FailuresAreARecount(o: Options, w: World)
    requires Reachable(o, w)
    ensures o.windowSize > 0 ==> w.b.failures == |Recent(w.history, w.b.lastFailure - o.windowSize)|
    ensures o.windowSize <= 0 ==> w.b.failures == |w.history|
  {
    ReachableKeepsInv(o, w);
  }

  /** The half-open ledger of every reachable state, and the bound on what one episode admits. */
  lemma {:induction false} HalfOpenLedger(o: Options, w: World)
    requires Reachable(o, w)
    ensures w.b.state == HalfOpen ==>
      |w.episode| + w.b.halfOpenAllowed == 1 + o.halfOpenMax + w.b.successes * Gain(o)
    ensures |w.episode| <= 1 + o.halfOpenMax + (Needed(o) - 1) * Gain(o)
  {
    ReachableKeepsInv(o, w);
    TimesIsProduct(w.b.successes, Gain(o));
    TimesIsProduct(Needed(o) - 1, Gain(o));
  }

  // Progress.

  /** Nothing is outstanding, and an open breaker's timeout has elapsed. */
  predicate Quiet(o: Options, w: World, now: int) {
    && w.outstanding == {}
    && now >= w.clock
    && (w.b.state == Open ==> now - w.b.lastStateChange > o.timeout)
  }

  /** The condition a caller can check on the options alone. */
  predicate NeverStarves(o: Options) {
    Gain(o) >= 1 || 1 + o.halfOpenMax >= o.successThreshold
  }

  lemma {:induction false} TimesAtLeast(n: nat, x: nat)
    requires x >= 1
    ensures Times(n, x) >= n
  {
    if n > 0 {
      TimesAtLeast(n - 1, x);
    }
  }

  lemma {:induction false} TimesOfZero(n: nat)
    ensures Times(n, 0) == 0
  {
    if n > 0 {
      TimesOfZero(n - 1);
    }
  }

  lemma {:induction false} QuietIsGranted(o: Options, w: World, now: int)
    requires Inv(o, w) && Quiet(o, w, now) && NeverStarves(o)
    ensures Verdict(o, w.b, now) == Granted
  {
    if w.b.state == HalfOpen {
      assert w.episode - w.outstanding == w.episode;
      if Gain(o) >= 1 {
        TimesAtLeast(w.b.successes, Gain(o));
      } else {
        TimesOfZero(w.b.successes);
      }
    }
  }

  /** One caller at a time: a request is admitted, then succeeds. */
  function Round(o: Options, w: World, id: nat, admit: int, report: int): World {
    Apply(o, Apply(o, w, Event(Allow, id, admit)), Event(Success, id, report))
  }

  function Rounds(o: Options, w: World, rounds: seq<(nat, int, int)>): World
    decreases |rounds|
  {
    if rounds == [] then w
    else Rounds(o, Round(o, w, rounds[0].0, rounds[0].1, rounds[0].2), rounds[1..])
  }

  /** The rounds follow the clock, use new requests, and start once the breaker is quiet. */
  predicate Orderly(o: Options, w: World, rounds: seq<(nat, int, int)>)
    decreases |rounds|
  {
    rounds == [] ||
      var (id, admit, report) := rounds[0];
      && id !in w.used && Quiet(o, w, admit) && admit <= report
      && Orderly(o, Round(o, w, id, admit, report), rounds[1..])
  }

  lemma {:induction false} QuietAdmission(o: Options, w: World, e: Event)
    requires Inv(o, w) && NeverStarves(o) && Enabled(w, e) && e.op == Allow && Quiet(o, w, e.now)
    ensures var u := Apply(o, w, e);
      && Inv(o, u)
      && u.outstanding == {e.id}
      && u.b.state == (if w.b.state == Closed then Closed else HalfOpen)
      && u.b.successes == (if w.b.state == Open then 0 else w.b.successes)
  {
    QuietIsGranted(o, w, e.now);
    StepKeepsRequests(o, w, e);
    StepKeepsLedger(o, w, e);
    StepKeepsCount(o, w, e);
  }

  lemma {:induction false} SuccessProgress(o: Options, u: World, f: Event)
    requires Inv(o, u) && Enabled(u, f) && f.op == Success && u.outstanding == {f.id} && u.b.state != Open
    ensures var v := Apply(o, u, f);
      && Inv(o, v)
      && v.outstanding == {}
      && (v.b.state == Closed ||
          (v.b.state == HalfOpen && u.b.state == HalfOpen && v.b.successes == u.b.successes + 1))
  {
    StepKeepsRequests(o, u, f);
    StepKeepsLedger(o, u, f);
    StepKeepsCount(o, u, f);
  }

  lemma {:induction false} RoundProgress(o: Options, w: World, id: nat, admit: int, report: int)
    requires Inv(o, w) && NeverStarves(o) && id !in w.used && Quiet(o, w, admit) && admit <= report
    ensures var v := Round(o, w, id, admit, report);
      && Inv(o, v)
      && v.outstanding == {}
      && (v.b.state == Closed ||
          (v.b.state == HalfOpen && w.b.state != Closed
           && v.b.successes == if w.b.state == HalfOpen then w.b.successes + 1 else 1))
  {
    QuietAdmission(o, w, Event(Allow, id, admit));
    SuccessProgress(o, Apply(o, w, Event(Allow, id, admit)), Event(Success, id, report));
  }

  lemma {:induction false} RoundsClose(o: Options, w: World, rounds: seq<(nat, int, int)>)
    requires Inv(o, w) && NeverStarves(o) && Orderly(o, w, rounds)
    requires w.b.state == Closed || |rounds| >= Needed(o) - if w.b.state == HalfOpen then w.b.successes else 0
    ensures Rounds(o, w, rounds).b.state == Closed
    decreases |rounds|
  {
    if rounds != [] {
      var (id, admit, report) := rounds[0];
      RoundProgress(o, w, id, admit, report);
      RoundsClose(o, Round(o, w, id, admit, report), rounds[1..]);
    }
  }

  /** From any reachable state, max(1, SuccessThreshold) orderly rounds leave the breaker closed. */
  lemma {:induction false} RecoversInTime(o: Options, w: World, rounds: seq<(nat, int, int)>)
    requires Reachable(o, w) && NeverStarves(o) && Orderly(o, w, rounds) && |rounds| >= Needed(o)
    ensures Rounds(o, w, rounds).b.state == Closed
  {
    ReachableKeepsInv(o, w);
    RoundsClose(o, w, rounds);
  }

  /** The half-open breaker that has spent its permits after `k` further successes. */
  predicate Spent(o: Options, w: World, k: nat) {
    && w.b.state == HalfOpen
    && w.b.successes == 1 + k
    && w.b.halfOpenAllowed == o.halfOpenMax - k
    && w.b.concurrent == 0
    && w.outstanding == {}
    && (forall id <- w.used :: id <= k)
  }

  lemma {:induction false} LegalAppend(o: Options, w: World, events: seq<Event>, more: seq<Event>)
    requires Legal(o, w, events) && Legal(o, Play(o, w, events), more)
    ensures Legal(o, w, events + more)
    ensures Play(o, w, events + more) == Play(o, Play(o, w, events), more)
    decreases |events|
  {
    if events == [] {
      assert events + more == more;
    } else {
      assert (events + more)[1..] == events[1..] + more;
      LegalAppend(o, Apply(o, w, events[0]), events[1..], more);
    }
  }

  lemma {:induction false} ReachableStep(o: Options, w: World, e: Event)
    requires Reachable(o, w) && Enabled(w, e)
    ensures Reachable(o, Apply(o, w, e))
  {
    var start, events :| Legal(o, Start(o, start), events) && Play(o, Start(o, start), events) == w;
    var u := Apply(o, w, e);
    assert [e][1..] == [] && Legal(o, u, []) && Play(o, u, []) == u;
    assert Legal(o, w, [e]) && Play(o, w, [e]) == u;
    LegalAppend(o, Start(o, start), events, [e]);
  }

  lemma {:induction false} ReachableStart(o: Options, start: int)
    ensures Reachable(o, Start(o, start))
  {
    assert Legal(o, Start(o, start), []) && Play(o, Start(o, start), []) == Start(o, start);
  }

  /** Without progressive gain, `k` successes beyond the first use up `k` permits for good. */
  lemma {:induction false} SpendPermits(o: Options, k: nat) returns (w: World)
    requires Gain(o) == 0 && k <= o.halfOpenMax && 1 + o.halfOpenMax < o.successThreshold
    ensures Reachable(o, w) && Spent(o, w, k)
  {
    if k == 0 {
      var timeout := if o.timeout > 0 then o.timeout + 1 else 1;
      w := Start(o, 0);
      ReachableStart(o, 0);
      var e := Event(ForceOpen, 0, 0);
      ReachableStep(o, w, e);
      w := Apply(o, w, e);
      e := Event(Allow, 0, timeout);
      ReachableStep(o, w, e);
      w := Apply(o, w, e);
      e := Event(Success, 0, timeout);
      ReachableStep(o, w, e);
      w := Apply(o, w, e);
    } else {
      w := SpendPermits(o, k - 1);
      var e := Event(Allow, k, w.clock);
      ReachableStep(o, w, e);
      w := Apply(o, w, e);
      e := Event(Success, k, w.clock);
      ReachableStep(o, w, e);
      w := Apply(o, w, e);
    }
  }

  /**
   * The breaker can never be stuck if and only if a success adds at least one permit or the initial
   * permits cover the success threshold.
   */
  lemma {:induction false} NeverStuckIff(o: Options)
    ensures (forall w: World, now: int | Reachable(o, w) && Quiet(o, w, now) :: Verdict(o, w.b, now) == Granted)
       <==> o.halfOpenMax as real * o.factor >= 1.0 || 1 + o.halfOpenMax >= o.successThreshold
  {
    assert NeverStarves(o) <==> o.halfOpenMax as real * o.factor >= 1.0 || 1 + o.halfOpenMax >= o.successThreshold;
    if NeverStarves(o) {
      forall w: World, now: int | Reachable(o, w) && Quiet(o, w, now) ensures Verdict(o, w.b, now) == Granted {
        ReachableKeepsInv(o, w);
        QuietIsGranted(o, w, now);
      }
    } else {
      var w := SpendPermits(o, o.halfOpenMax);
      assert Reachable(o, w) && Quiet(o, w, w.clock) && Verdict(o, w.b, w.clock) == OpenState;
    }
  }

  // The concurrency limit.

  /** The concurrency count is exact and within the limit. */
  predicate ExactlyCounted(o: Options, w: World) {
    && w.outstanding <= w.used
    && w.b.concurrent == |w.outstanding|
    && (o.maxConcurrent > 0 ==> |w.outstanding| <= o.maxConcurrent)
  }

  lemma {:induction false} AllowCountsExactly(o: Options, w: World, e: Event)
    requires ExactlyCounted(o, w) && Enabled(w, e) && e.op == Allow
    ensures ExactlyCounted(o, Apply(o, w, e))
  {
    if Verdict(o, w.b, e.now) == Granted {
      AddOne(w.outstanding, e.id);
    }
  }

  lemma {:induction false} ReportCountsExactly(o: Options, w: World, e: Event)
    requires ExactlyCounted(o, w) && Enabled(w, e) && (e.op == Success || e.op == Failure)
    ensures ExactlyCounted(o, Apply(o, w, e))
  {
    DropOne(w.outstanding, e.id);
    var v := Apply(o, w, e);
    assert v.b.concurrent == w.b.concurrent - 1;
  }

  lemma {:induction false} StepCountsExactly(o: Options, w: World, e: Event)
    requires ExactlyCounted(o, w) && Enabled(w, e) && e.op != Reset
    ensures ExactlyCounted(o, Apply(o, w, e))
  {
    match e.op
    case Allow => AllowCountsExactly(o, w, e);
    case Success => ReportCountsExactly(o, w, e);
    case Failure => ReportCountsExactly(o, w, e);
    case _ =>
  }

  /** In every state of the run the concurrency count is the number of outstanding requests. */
  predicate CountedThroughout(o: Options, w: World, events: seq<Event>)
    decreases |events|
  {
    w.b.concurrent == |w.outstanding| && (events == [] || CountedThroughout(o, Apply(o, w, events[0]), events[1..]))
  }

  /** In every state of the run the outstanding requests respect the limit. */
  predicate LimitedThroughout(o: Options, w: World, events: seq<Event>)
    decreases |events|
  {
    && (o.maxConcurrent > 0 ==> |w.outstanding| <= o.maxConcurrent)
    && (events == [] || LimitedThroughout(o, Apply(o, w, events[0]), events[1..]))
  }

  /** Reset is only called when nothing is outstanding. */
  predicate QuietResets(o: Options, w: World, events: seq<Event>)
    decreases |events|
  {
    events == [] ||
    ((events[0].op == Reset ==> w.outstanding == {}) && QuietResets(o, Apply(o, w, events[0]), events[1..]))
  }

  lemma {:induction false} QuietResetCountsExactly(o: Options, w: World, e: Event)
    requires ExactlyCounted(o, w) && Enabled(w, e) && (e.op == Reset ==> w.outstanding == {})
    ensures ExactlyCounted(o, Apply(o, w, e))
  {
    if e.op != Reset {
      StepCountsExactly(o, w, e);
    }
  }

  lemma {:induction false} RunCountsExactlyIff(o: Options, w: World, events: seq<Event>)
    requires ExactlyCounted(o, w) && Legal(o, w, events)
    ensures CountedThroughout(o, w, events) <==> QuietResets(o, w, events)
    ensures QuietResets(o, w, events) ==> LimitedThroughout(o, w, events)
    decreases |events|
  {
    if events != [] {
      var e := events[0];
      var v := Apply(o, w, e);
      if e.op == Reset && w.outstanding != {} {
        assert v.b.concurrent == 0 && v.outstanding == w.outstanding;
      } else {
        QuietResetCountsExactly(o, w, e);
        RunCountsExactlyIff(o, v, events[1..]);
      }
    }
  }

  /**
   * The concurrency count is exact throughout a run if and only if every Reset in it happens with nothing
   * outstanding; and then the limit holds on what is really outstanding.
   */
  lemma {:induction false} ConcurrencyIsExactIff(o: Options, start: int, events: seq<Event>)
    requires Legal(o, Start(o, start), events)
    ensures CountedThroughout(o, Start(o, start), events) <==> QuietResets(o, Start(o, start), events)
    ensures QuietResets(o, Start(o, start), events) ==> LimitedThroughout(o, Start(o, start), events)
  {
    RunCountsExactlyIff(o, Start(o, start), events);
  }

  /** Reset forgets the outstanding requests, so under any limit any number can be outstanding at once. */
  lemma {:induction false} ResetUnboundsConcurrency(o: Options, m: nat) returns (w: World)
    ensures Reachable(o, w) && |w.outstanding| == m
    ensures w.b.state == Closed && w.b.concurrent == 0 && forall id <- w.used :: id < m
  {
    if m == 0 {
      w := Start(o, 0);
      ReachableStart(o, 0);
    } else {
      w := ResetUnboundsConcurrency(o, m - 1);
      ReachableKeepsInv(o, w);
      AddOne(w.outstanding, m - 1);
      var e := Event(Allow, m - 1, w.clock);
      ReachableStep(o, w, e);
      w := Apply(o, w, e);
      e := Event(Reset, 0, w.clock);
      ReachableStep(o, w, e);
      w := Apply(o, w, e);
    }
  }
}
