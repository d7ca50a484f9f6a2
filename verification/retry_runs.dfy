/**
 * Any number of callers sharing one retry budget. Checking the budget and registering the retry are separate
 * steps, and so are the two checks and the two counts, so callers interleave between them.
 */
module RetryRuns {
  import opened Prelude
  import opened RetryBudget

  /** Between calls; invoking attempt `n`; past the first check; past both; counted once; giving permits back. */
  datatype Phase =
    Idle | Invoking(n: nat) | Checking(n: nat) | Admitted(n: nat) | Armed(n: nat) | Counted(n: nat) | Leaving

  datatype Caller = Caller(phase: Phase, held: nat)

  datatype State = State(c: Counters, callers: seq<Caller>)

  datatype Event =
    | Begin
    | Settle
    | Fail
    | CheckConcurrency
    | CheckRatio
    | Cancel
    | CountCurrent
    | CountRetried
    | Release
    | Return

  function Start(n: nat): State {
    State(Counters(0, 0, 0), seq(n, _ => Caller(Idle, 0)))
  }

  /** Whether a caller can take a step. */
  predicate Enabled(p: Policy, who: Caller, e: Event) {
    match e
    case Begin => who.phase.Idle?
    case Settle => who.phase.Invoking?
    case Fail => who.phase.Invoking? && who.phase.n < p.maxAttempts
    case CheckConcurrency => who.phase.Checking?
    case CheckRatio => who.phase.Admitted?
    case Cancel => who.phase.Armed?
    case CountCurrent => who.phase.Armed?
    case CountRetried => who.phase.Counted?
    case Release => who.phase.Leaving? && who.held > 0
    case Return => who.phase.Leaving? && who.held == 0
  }

  function Moved(l: Limits, c: Counters, who: Caller, e: Event): (Counters, Caller) {
    match e
    case Begin => (c.(total := c.total + 1), Caller(Invoking(0), 0))
    case Settle => (c, who.(phase := Leaving))
    case Fail => (c, if who.phase.Invoking? then who.(phase := Checking(who.phase.n)) else who)
    case CheckConcurrency =>
      (c, if who.phase.Checking? && Roomy(l, c.current) then who.(phase := Admitted(who.phase.n))
        else who.(phase := Leaving))
    case CheckRatio =>
      (c, if who.phase.Admitted? && WithinRatio(l, c.total, c.retried) then who.(phase := Armed(who.phase.n))
        else who.(phase := Leaving))
    case Cancel => (c, who.(phase := Leaving))
    case CountCurrent =>
      (c.(current := c.current + 1), if who.phase.Armed? then Caller(Counted(who.phase.n), who.held + 1) else who)
    case CountRetried =>
      (c.(retried := c.retried + 1), if who.phase.Counted? then who.(phase := Invoking(who.phase.n + 1)) else who)
    case Release => (c.(current := c.current - 1), if who.held > 0 then who.(held := who.held - 1) else who)
    case Return => (c, Caller(Idle, 0))
  }

  function Step(l: Limits, s: State, i: nat, e: Event): State
    requires i < |s.callers|
  {
    var (c, who) := Moved(l, s.c, s.callers[i], e);
    State(c, s.callers[i := who])
  }

  predicate Legal(p: Policy, l: Limits, s: State, events: seq<(nat, Event)>)
    decreases |events|
  {
    events == [] ||
    var (i, e) := events[0];
    i < |s.callers| && Enabled(p, s.callers[i], e) && Legal(p, l, Step(l, s, i, e), events[1..])
  }

  function Play(p: Policy, l: Limits, s: State, events: seq<(nat, Event)>): State
    requires Legal(p, l, s, events)
    decreases |events|
  {
    if events == [] then s else Play(p, l, Step(l, s, events[0].0, events[0].1), events[1..])
  }

  // What the callers hold or are about to take, as sums over them.

  function HeldBy(who: Caller): int {
    who.held
  }

  /** Past the concurrency check but not yet in the current count. */
  function Entering(who: Caller): int {
    if who.phase.Admitted? || who.phase.Armed? then 1 else 0
  }

  /** Past the ratio check but not yet in the retry count. */
  function Spending(who: Caller): int {
    if who.phase.Armed? || who.phase.Counted? then 1 else 0
  }

  function Over(f: Caller -> int, s: seq<Caller>): seq<int> {
    seq(|s|, i requires 0 <= i < |s| => f(s[i]))
  }

  function All(f: Caller -> int, s: seq<Caller>): int {
    Sum(Over(f, s))
  }

  lemma {:induction false} AllUpdate(f: Caller -> int, s: seq<Caller>, i: nat, who: Caller)
    requires i < |s|
    ensures All(f, s[i := who]) == All(f, s) - f(s[i]) + f(who)
  {
    SumUpdate(Over(f, s), i, f(who));
    assert Over(f, s[i := who]) == Over(f, s)[i := f(who)];
  }

  lemma {:induction false} SumAtMostLength(s: seq<int>)
    requires forall i | 0 <= i < |s| :: s[i] <= 1
    ensures Sum(s) <= |s|
  {
    if s != [] {
      SumAtMostLength(s[1..]);
    }
  }

  /** One caller who adds nothing leaves at most the others. */
  lemma {:induction false} AllBelow(f: Caller -> int, s: seq<Caller>, i: nat)
    requires i < |s| && f(s[i]) == 0 && forall k | 0 <= k < |s| :: f(s[k]) <= 1
    ensures All(f, s) <= |s| - 1
  {
    SumUpdate(Over(f, s), i, 1);
    SumAtMostLength(Over(f, s)[i := 1]);
  }

  lemma {:induction false} AllZero(f: Caller -> int, s: seq<Caller>)
    requires forall i | 0 <= i < |s| :: f(s[i]) == 0
    ensures All(f, s) == 0
  {
    SumOfConstant(Over(f, s), 0);
  }

  function Ratio(l: Limits): real {
    if l.maxRatio < 0.0 then 0.0 else l.maxRatio
  }

  predicate CallerKept(p: Policy, who: Caller) {
    match who.phase
    case Idle => who.held == 0
    case Invoking(n) => who.held == n && n <= p.maxAttempts
    case Checking(n) => who.held == n && n < p.maxAttempts
    case Admitted(n) => who.held == n && n < p.maxAttempts
    case Armed(n) => who.held == n && n < p.maxAttempts
    case Counted(n) => who.held == n + 1 && n < p.maxAttempts
    case Leaving => who.held <= p.maxAttempts
  }

  /** The room the permits take: those held and those about to be taken. */
  ghost predicate RoomKept(l: Limits, s: State) {
    && s.c.current == All(HeldBy, s.callers)
    && s.c.current + All(Entering, s.callers) <= Allowance(l, |s.callers|)
  }

  /** The most the current count can reach with `n` callers. */
  function Allowance(l: Limits, n: nat): nat {
    if l.maxConcurrent <= 0 || n == 0 then 0 else l.maxConcurrent + n - 1
  }

  ghost predicate RatioKept(l: Limits, s: State) {
    (s.c.retried + All(Spending, s.callers)) as real <= Ratio(l) * s.c.total as real + |s.callers| as real
  }

  ghost predicate Kept(p: Policy, l: Limits, s: State) {
    && (forall i | 0 <= i < |s.callers| :: CallerKept(p, s.callers[i]))
    && (forall i | 0 <= i < |s.callers| :: !s.callers[i].phase.Idle? ==> s.c.total > 0)
    && RoomKept(l, s) && RatioKept(l, s)
  }

  lemma {:induction false} StepKeepsRoom(p: Policy, l: Limits, s: State, i: nat, e: Event)
    requires RoomKept(l, s) && i < |s.callers| && Enabled(p, s.callers[i], e) && CallerKept(p, s.callers[i])
    ensures RoomKept(l, Step(l, s, i, e))
  {
    var who := Moved(l, s.c, s.callers[i], e).1;
    AllUpdate(HeldBy, s.callers, i, who);
    AllUpdate(Entering, s.callers, i, who);
    if e.CheckConcurrency? {
      AllNonNegative(HeldBy, s.callers);
      AllBelow(Entering, s.callers, i);
    }
  }

  /** A retry count below the ratio of the total, in products. */
  lemma {:induction false} RatioInProducts(l: Limits, total: nat, retried: nat)
    requires total > 0 && WithinRatio(l, total, retried)
    ensures retried as real <= Ratio(l) * total as real
  {
    var q, t := retried as real / total as real, total as real;
    assert q * t == retried as real;
    assert q >= 0.0;
    assert (Ratio(l) - q) * t >= 0.0;
  }

  lemma {:induction false} RatioGrows(l: Limits, total: nat)
    ensures Ratio(l) * total as real <= Ratio(l) * (total + 1) as real
  {}

  lemma {:induction false} StepKeepsRatio(p: Policy, l: Limits, s: State, i: nat, e: Event)
    requires RatioKept(l, s) && i < |s.callers| && Enabled(p, s.callers[i], e)
    requires !s.callers[i].phase.Idle? ==> s.c.total > 0
    ensures RatioKept(l, Step(l, s, i, e))
  {
    var who := Moved(l, s.c, s.callers[i], e).1;
    AllUpdate(Spending, s.callers, i, who);
    if e.Begin? {
      RatioGrows(l, s.c.total);
    } else if e.CheckRatio? && WithinRatio(l, s.c.total, s.c.retried) {
      AllBelow(Spending, s.callers, i);
      RatioInProducts(l, s.c.total, s.c.retried);
    }
  }

  lemma {:induction false} StepKeeps(p: Policy, l: Limits, s: State, i: nat, e: Event)
    requires Kept(p, l, s) && i < |s.callers| && Enabled(p, s.callers[i], e)
    ensures Kept(p, l, Step(l, s, i, e))
  {
    StepKeepsRoom(p, l, s, i, e);
    StepKeepsRatio(p, l, s, i, e);
  }

  lemma {:induction false} RunKeeps(p: Policy, l: Limits, s: State, events: seq<(nat, Event)>)
    requires Kept(p, l, s) && Legal(p, l, s, events)
    ensures Kept(p, l, Play(p, l, s, events)) && |Play(p, l, s, events).callers| == |s.callers|
    decreases |events|
  {
    if events != [] {
      StepKeeps(p, l, s, events[0].0, events[0].1);
      RunKeeps(p, l, Step(l, s, events[0].0, events[0].1), events[1..]);
    }
  }

  lemma {:induction false} StartKept(p: Policy, l: Limits, n: nat)
    ensures Kept(p, l, Start(n))
  {
    var s := Start(n);
    AllZero(HeldBy, s.callers);
    AllZero(Entering, s.callers);
    AllZero(Spending, s.callers);
    assert Ratio(l) * 0.0 == 0.0;
  }

  /**
   * In every reachable state of `n` callers: the current retries are the permits held, at most the limit
   * plus n - 1; the retries so far exceed the allowed share of the requests by at most n; nobody makes more
   * attempts than the policy allows; and once all callers have returned no permit is out.
   */
  lemma {:induction false} BudgetBounds(p: Policy, l: Limits, n: nat, events: seq<(nat, Event)>)
    requires Legal(p, l, Start(n), events)
    ensures
      var s := Play(p, l, Start(n), events);
      && |s.callers| == n
      && s.c.current == All(HeldBy, s.callers)
      && s.c.current <= (if l.maxConcurrent <= 0 || n == 0 then 0 else l.maxConcurrent + n - 1)
      && s.c.retried as real <= Ratio(l) * s.c.total as real + n as real
      && (forall i | 0 <= i < n :: s.callers[i].held <= p.maxAttempts)
      && ((forall i | 0 <= i < n :: s.callers[i].phase.Idle?) ==> s.c.current == 0)
  {
    StartKept(p, l, n);
    RunKeeps(p, l, Start(n), events);
    KeptBounds(p, l, Play(p, l, Start(n), events));
  }

  lemma {:induction false} KeptBounds(p: Policy, l: Limits, s: State)
    requires Kept(p, l, s)
    ensures s.c.current == All(HeldBy, s.callers)
    ensures s.c.current <= Allowance(l, |s.callers|)
    ensures s.c.retried as real <= Ratio(l) * s.c.total as real + |s.callers| as real
    ensures forall i | 0 <= i < |s.callers| :: s.callers[i].held <= p.maxAttempts
    ensures (forall i | 0 <= i < |s.callers| :: s.callers[i].phase.Idle?) ==> s.c.current == 0
  {
    AllNonNegative(Entering, s.callers);
    AllNonNegative(Spending, s.callers);
    forall i | 0 <= i < |s.callers| ensures s.callers[i].held <= p.maxAttempts {
      assert CallerKept(p, s.callers[i]);
    }
    if forall i | 0 <= i < |s.callers| :: s.callers[i].phase.Idle? {
      forall i | 0 <= i < |s.callers| ensures HeldBy(s.callers[i]) == 0 {
        assert CallerKept(p, s.callers[i]);
      }
      AllZero(HeldBy, s.callers);
    }
  }

  lemma {:induction false} AllNonNegative(f: Caller -> int, s: seq<Caller>)
    requires forall i | 0 <= i < |s| :: f(s[i]) >= 0
    ensures All(f, s) >= 0
  {
    var zeros := seq(|s|, i => 0);
    SumSqueeze(zeros, Over(f, s));
    SumOfConstant(zeros, 0);
  }

  // The most that can be in flight at once, exactly.

  /** The peak: everyone waits at the limit less one, or holds all the attempts but one, and then retries together. */
  function Peak(p: Policy, l: Limits, n: nat): nat {
    if l.maxConcurrent <= 0 || l.maxRatio <= 0.0 || n == 0 then 0
    else if n * p.maxAttempts <= l.maxConcurrent + n - 1 then n * p.maxAttempts
    else l.maxConcurrent + n - 1
  }

  /** Without a positive ratio nobody gets past the checks. */
  ghost predicate NoneRetries(s: State) {
    && s.c.current == 0
    && forall i | 0 <= i < |s.callers| ::
      s.callers[i].held == 0 && !s.callers[i].phase.Armed? && !s.callers[i].phase.Counted? &&
        (s.callers[i].phase.Idle? || s.c.total > 0)
  }

  lemma {:induction false} NoRatioNoRetry(p: Policy, l: Limits, s: State, events: seq<(nat, Event)>)
    requires l.maxRatio <= 0.0 && NoneRetries(s) && Legal(p, l, s, events)
    ensures Play(p, l, s, events).c.current == 0
    decreases |events|
  {
    if events != [] {
      var (i, e) := events[0];
      NoRatioStep(p, l, s, i, e);
      NoRatioNoRetry(p, l, Step(l, s, i, e), events[1..]);
    }
  }

  lemma {:induction false} NoRatioStep(p: Policy, l: Limits, s: State, i: nat, e: Event)
    requires l.maxRatio <= 0.0 && NoneRetries(s) && i < |s.callers| && Enabled(p, s.callers[i], e)
    ensures NoneRetries(Step(l, s, i, e))
  {
    if e.CheckRatio? {
      assert s.c.retried as real / s.c.total as real >= 0.0;
    }
  }

  lemma {:induction false} HeldAtMost(s: seq<int>, m: nat)
    requires forall i | 0 <= i < |s| :: s[i] <= m
    ensures Sum(s) <= |s| * m
  {
    var full := seq(|s|, _ => m);
    SumSqueeze(s, full);
    SumOfConstant(full, m);
  }

  lemma {:induction false} PeakBounds(p: Policy, l: Limits, n: nat, events: seq<(nat, Event)>)
    requires Legal(p, l, Start(n), events)
    ensures Play(p, l, Start(n), events).c.current <= Peak(p, l, n)
  {
    if l.maxRatio <= 0.0 {
      NoRatioNoRetry(p, l, Start(n), events);
    } else {
      BudgetBounds(p, l, n, events);
      var s := Play(p, l, Start(n), events);
      forall i | 0 <= i < n ensures Over(HeldBy, s.callers)[i] <= p.maxAttempts {
        assert Over(HeldBy, s.callers)[i] == HeldBy(s.callers[i]);
        assert s.callers[i].held <= p.maxAttempts;
      }
      HeldAtMost(Over(HeldBy, s.callers), p.maxAttempts);
    }
  }

  // Reaching it.

  ghost predicate Reachable(p: Policy, l: Limits, n: nat, s: State) {
    exists events :: Legal(p, l, Start(n), events) && Play(p, l, Start(n), events) == s
  }

  lemma {:induction false} LegalAppend(p: Policy, l: Limits, s: State, events: seq<(nat, Event)>, i: nat, e: Event)
    requires Legal(p, l, s, events) && var t := Play(p, l, s, events); i < |t.callers| && Enabled(p, t.callers[i], e)
    ensures Legal(p, l, s, events + [(i, e)])
    ensures Play(p, l, s, events + [(i, e)]) == Step(l, Play(p, l, s, events), i, e)
    decreases |events|
  {
    if events == [] {
      assert events + [(i, e)] == [(i, e)];
    } else {
      assert (events + [(i, e)])[1..] == events[1..] + [(i, e)];
      LegalAppend(p, l, Step(l, s, events[0].0, events[0].1), events[1..], i, e);
    }
  }

  lemma {:induction false} ReachableStep(p: Policy, l: Limits, n: nat, s: State, i: nat, e: Event) returns (t: State)
    requires Reachable(p, l, n, s) && i < |s.callers| && Enabled(p, s.callers[i], e)
    ensures t == Step(l, s, i, e) && Reachable(p, l, n, t)
  {
    t := Step(l, s, i, e);
    var events :| Legal(p, l, Start(n), events) && Play(p, l, Start(n), events) == s;
    LegalAppend(p, l, Start(n), events, i, e);
  }

  /** The first `begun` callers have failed once, the rest are idle. */
  function Failed(n: nat, begun: nat, total: nat): State {
    State(Counters(0, total, 0), seq(n, i => if i < begun then Caller(Checking(0), 0) else Caller(Idle, 0)))
  }

  /** Successful calls raise the number of requests and leave nothing else behind. */
  lemma {:induction false} ManyRequests(p: Policy, l: Limits, n: nat, total: nat)
    requires n > 0
    ensures Reachable(p, l, n, Failed(n, 0, total))
  {
    if total == 0 {
      assert Legal(p, l, Start(n), []) && Play(p, l, Start(n), []) == Start(n);
      assert Failed(n, 0, total).callers == Start(n).callers;
    } else {
      ManyRequests(p, l, n, total - 1);
      var s := ReachableStep(p, l, n, Failed(n, 0, total - 1), 0, Begin);
      s := ReachableStep(p, l, n, s, 0, Settle);
      s := ReachableStep(p, l, n, s, 0, Return);
      assert s.callers == Failed(n, 0, total).callers;
    }
  }

  /** One caller after another begins and fails. */
  lemma {:induction false} AllFail(p: Policy, l: Limits, n: nat, begun: nat, total: nat)
    requires begun <= n && 0 < n && begun <= total && 0 < p.maxAttempts
    ensures Reachable(p, l, n, Failed(n, begun, total))
  {
    if begun == 0 {
      ManyRequests(p, l, n, total);
    } else {
      var k := begun - 1;
      AllFail(p, l, n, k, total - 1);
      var s := ReachableStep(p, l, n, Failed(n, k, total - 1), k, Begin);
      s := ReachableStep(p, l, n, s, k, Fail);
      assert s.callers == Failed(n, begun, total).callers;
    }
  }

  /**
   * Caller i holds h[i] permits and its next attempt has failed; `armed` callers are past both checks, the
   * first `counted` of them in the current count.
   */
  function Lined(h: seq<nat>, total: nat, armed: nat, counted: nat): State {
    State(Counters(Sum(h) + counted, total, if Sum(h) < 0 then 0 else Sum(h)),
      seq(|h|, i requires 0 <= i < |h| =>
        if i < counted then Caller(Counted(h[i]), h[i] + 1)
        else if i < armed then Caller(Armed(h[i]), h[i])
        else Caller(Checking(h[i]), h[i])))
  }

  /** A caller passes both checks. */
  lemma {:induction false} PassOne(p: Policy, l: Limits, n: nat, s: State, i: nat, a: nat) returns (t: State)
    requires i < |s.callers| && Reachable(p, l, n, s) && s.callers[i].phase == Checking(a)
    requires Roomy(l, s.c.current) && WithinRatio(l, s.c.total, s.c.retried)
    ensures t == State(s.c, s.callers[i := Caller(Armed(a), s.callers[i].held)]) && Reachable(p, l, n, t)
  {
    t := ReachableStep(p, l, n, s, i, CheckConcurrency);
    t := ReachableStep(p, l, n, t, i, CheckRatio);
  }

  lemma {:induction false} ArmOne(p: Policy, l: Limits, n: nat, h: seq<nat>, total: nat, k: nat)
    requires k < n == |h| && Reachable(p, l, n, Lined(h, total, k, 0))
    requires Sum(h) < l.maxConcurrent && 0 <= Sum(h) && WithinRatio(l, total, Sum(h))
    ensures Reachable(p, l, n, Lined(h, total, k + 1, 0))
  {
    var s := PassOne(p, l, n, Lined(h, total, k, 0), k, h[k]);
    assert s.callers == Lined(h, total, k + 1, 0).callers;
  }

  /** A caller past both checks retries and fails again. */
  lemma {:induction false} FailAgain(p: Policy, l: Limits, n: nat, s: State, i: nat, a: nat) returns (t: State)
    requires i < |s.callers| && Reachable(p, l, n, s) && s.callers[i].phase == Armed(a) && a + 1 < p.maxAttempts
    ensures t.c == Counters(s.c.current + 1, s.c.total, s.c.retried + 1)
    ensures t.callers == s.callers[i := Caller(Checking(a + 1), s.callers[i].held + 1)] && Reachable(p, l, n, t)
  {
    t := ReachableStep(p, l, n, s, i, CountCurrent);
    t := ReachableStep(p, l, n, t, i, CountRetried);
    t := ReachableStep(p, l, n, t, i, Fail);
  }

  /** A caller passes both checks alone, retries and fails again. */
  lemma {:induction false} RetryOne(p: Policy, l: Limits, n: nat, h: seq<nat>, total: nat, i: nat)
    requires i < n == |h| && Reachable(p, l, n, Lined(h, total, 0, 0)) && h[i] + 1 < p.maxAttempts
    requires Sum(h) < l.maxConcurrent && 0 <= Sum(h) && WithinRatio(l, total, Sum(h))
    ensures Reachable(p, l, n, Lined(h[i := h[i] + 1], total, 0, 0))
  {
    SumUpdate(h, i, h[i] + 1);
    var s := PassOne(p, l, n, Lined(h, total, 0, 0), i, h[i]);
    s := FailAgain(p, l, n, s, i, h[i]);
    assert s.callers == Lined(h[i := h[i] + 1], total, 0, 0).callers;
  }

  lemma {:induction false} ArmAll(p: Policy, l: Limits, n: nat, h: seq<nat>, total: nat, k: nat)
    requires k <= n == |h| && Reachable(p, l, n, Lined(h, total, 0, 0))
    requires Sum(h) < l.maxConcurrent && 0 <= Sum(h) && WithinRatio(l, total, Sum(h))
    ensures Reachable(p, l, n, Lined(h, total, k, 0))
  {
    if k > 0 {
      ArmAll(p, l, n, h, total, k - 1);
      ArmOne(p, l, n, h, total, k - 1);
    }
  }

  lemma {:induction false} CountAll(p: Policy, l: Limits, n: nat, h: seq<nat>, total: nat, k: nat)
    requires k <= n == |h| && Reachable(p, l, n, Lined(h, total, n, 0))
    ensures Reachable(p, l, n, Lined(h, total, n, k))
  {
    if k > 0 {
      CountAll(p, l, n, h, total, k - 1);
      var s := ReachableStep(p, l, n, Lined(h, total, n, k - 1), k - 1, CountCurrent);
      assert s.callers == Lined(h, total, n, k).callers;
    }
  }

  /** The number of requests is so large that the ratio lets `k` retries pass. */
  ghost predicate RatioRoom(l: Limits, total: nat, k: int) {
    forall r: nat | r <= k :: WithinRatio(l, total, r)
  }

  lemma {:induction false} EnoughRequests(l: Limits, n: nat, k: nat) returns (total: nat)
    requires l.maxRatio > 0.0
    ensures total >= n && RatioRoom(l, total, k)
  {
    var q := k as real / l.maxRatio;
    var enough := q.Floor + 1;
    assert q >= 0.0;
    total := if enough < n then n else enough;
    assert q < total as real;
    Quotient(k as real, l.maxRatio, q, total as real);
    forall r: nat | r <= k ensures WithinRatio(l, total, r) {
      RatioFits(l, total, r);
    }
  }

  lemma {:induction false} Quotient(k: real, m: real, q: real, t: real)
    requires m > 0.0 && q == k / m && q < t
    ensures k < t * m
  {
    assert q * m == k;
    assert (t - q) * m > 0.0;
  }

  lemma {:induction false} RatioFits(l: Limits, total: nat, r: nat)
    requires total > 0 && r as real < total as real * l.maxRatio
    ensures WithinRatio(l, total, r)
  {
    var q, t := r as real / total as real, total as real;
    assert q * t == r as real;
    assert (l.maxRatio - q) * t > 0.0;
  }

  lemma {:induction false} SomeoneHasAttemptsLeft(h: seq<nat>, m: nat) returns (i: nat)
    requires Sum(h) < |h| * m
    ensures i < |h| && h[i] < m
  {
    if j: nat :| j < |h| && h[j] < m {
      i := j;
    } else {
      var full := seq(|h|, _ => m);
      SumSqueeze(full, h);
      SumOfConstant(full, m);
      assert false;
    }
  }

  /** The callers pile up `k` permits, each keeping an attempt in hand. */
  lemma {:induction false} PileUp(p: Policy, l: Limits, n: nat, total: nat, k: nat) returns (h: seq<nat>)
    requires 0 < n <= total && 0 < p.maxAttempts && k <= l.maxConcurrent && k <= n * (p.maxAttempts - 1)
    requires RatioRoom(l, total, k)
    ensures |h| == n && Sum(h) == k && Reachable(p, l, n, Lined(h, total, 0, 0))
    ensures forall i | 0 <= i < n :: h[i] < p.maxAttempts
  {
    if k == 0 {
      h := seq(n, _ => 0);
      SumOfConstant(h, 0);
      AllFail(p, l, n, n, total);
      assert Lined(h, total, 0, 0).callers == Failed(n, n, total).callers;
    } else {
      h := PileUp(p, l, n, total, k - 1);
      var i := SomeoneHasAttemptsLeft(h, p.maxAttempts - 1);
      RetryOne(p, l, n, h, total, i);
      SumUpdate(h, i, h[i] + 1);
      h := h[i := h[i] + 1];
    }
  }

  lemma {:induction false} PeakIsReached(p: Policy, l: Limits, n: nat) returns (s: State)
    ensures Reachable(p, l, n, s) && s.c.current == Peak(p, l, n)
  {
    if Peak(p, l, n) == 0 {
      s := Start(n);
      assert Legal(p, l, Start(n), []) && Play(p, l, Start(n), []) == s;
    } else {
      var spare := n * (p.maxAttempts - 1);
      assert n * p.maxAttempts == spare + n;
      NoAttemptsNoPeak(p, l, n);
      var k := if spare <= l.maxConcurrent - 1 then spare else l.maxConcurrent - 1;
      MulMonotone(1, p.maxAttempts, n);
      var total := EnoughRequests(l, n, k);
      var h := PileUp(p, l, n, total, k);
      ArmAll(p, l, n, h, total, n);
      CountAll(p, l, n, h, total, n);
      s := Lined(h, total, n, n);
    }
  }

  lemma {:induction false} NoAttemptsNoPeak(p: Policy, l: Limits, n: nat)
    requires Peak(p, l, n) > 0
    ensures p.maxAttempts > 0 && n > 0 && l.maxConcurrent > 0 && l.maxRatio > 0.0
  {}

  /**
   * The peak is exact for every limit, policy and number of callers: no interleaving has more retries in
   * flight, and some interleaving has as many.
   */
  lemma {:induction false} PeakIsExact(p: Policy, l: Limits, n: nat)
    ensures forall events | Legal(p, l, Start(n), events) :: Play(p, l, Start(n), events).c.current <= Peak(p, l, n)
    ensures exists events :: Legal(p, l, Start(n), events) && Play(p, l, Start(n), events).c.current == Peak(p, l, n)
  {
    forall events | Legal(p, l, Start(n), events) ensures Play(p, l, Start(n), events).c.current <= Peak(p, l, n) {
      PeakBounds(p, l, n, events);
    }
    var s := PeakIsReached(p, l, n);
  }
}
