/** When the breaker opens and what it answers, told from the calls alone. */
module BreakerAnswers {
  import opened Prelude
  import opened CircuitBreaker

  function LastOf(events: seq<Event>): Event
    requires events != []
  {
    events[|events| - 1]
  }

  function Before(events: seq<Event>): seq<Event>
    requires events != []
  {
    events[..|events| - 1]
  }

  /** The failures reported since the last success, closing or reset. */
  function Streak(events: seq<Event>): nat
    decreases |events|
  {
    if events == [] then 0
    else match LastOf(events).op
      case Failure => Streak(Before(events)) + 1
      case Success => 0
      case ForceClosed => 0
      case Reset => 0
      case _ => Streak(Before(events))
  }

  /** When the breaker was last opened: by force, or by a call that left it open and found it otherwise. */
  function OpenedAt(o: Options, start: int, events: seq<Event>): int
    decreases |events|
  {
    if events == [] then start
    else
      var before, after := Play(o, Start(o, start), Before(events)).b.state, Play(o, Start(o, start), events).b.state;
      if LastOf(events).op == ForceOpen || (after == Open && before != Open) then LastOf(events).now
      else OpenedAt(o, start, Before(events))
  }

  /** The last call of a run. */
  lemma {:induction false} LastStep(o: Options, w: World, events: seq<Event>)
    requires Legal(o, w, events) && events != []
    ensures Legal(o, w, Before(events)) && Enabled(Play(o, w, Before(events)), LastOf(events))
    ensures Play(o, w, events) == Apply(o, Play(o, w, Before(events)), LastOf(events))
    decreases |events|
  {
    if |events| > 1 {
      var rest := events[1..];
      assert Before(events)[1..] == Before(rest) && LastOf(events) == LastOf(rest);
      LastStep(o, Apply(o, w, events[0]), rest);
    }
  }

  lemma {:induction false} StreakIsCounted(o: Options, start: int, events: seq<Event>)
    requires Legal(o, Start(o, start), events)
    ensures Play(o, Start(o, start), events).b.consecutiveFailures == Streak(events)
    decreases |events|
  {
    if events != [] {
      LastStep(o, Start(o, start), events);
      StreakIsCounted(o, start, Before(events));
    }
  }

  lemma {:induction false} OpeningIsDated(o: Options, start: int, events: seq<Event>)
    requires Legal(o, Start(o, start), events)
    ensures var b := Play(o, Start(o, start), events).b;
      b.state == Open ==> b.lastStateChange == OpenedAt(o, start, events)
    decreases |events|
  {
    if events != [] {
      LastStep(o, Start(o, start), events);
      OpeningIsDated(o, start, Before(events));
    }
  }

  /** The failures in a row that open a closed breaker. */
  function Trip(o: Options): nat {
    if o.threshold == 0 then 1 else o.threshold
  }

  predicate UnderThreshold(o: Options, b: Breaker) {
    WindowIsIdle(b) && (o.windowSize > 0 ==> |b.window| == b.failures)
    && (b.state == Closed ==> b.consecutiveFailures < Trip(o))
  }

  lemma {:induction false} FailureTrips(o: Options, b: Breaker, now: int)
    requires UnderThreshold(o, b)
    ensures UnderThreshold(o, Failed(o, b, now))
    ensures Failed(o, b, now).state ==
      if b.state == Closed && b.consecutiveFailures + 1 < Trip(o) then Closed else Open
  {
    CountedKeeps(o, Leave(b).(lastFailure := now, consecutiveFailures := b.consecutiveFailures + 1), now);
  }

  lemma {:induction false} StepStaysUnder(o: Options, b: Breaker, op: Op, now: int)
    requires UnderThreshold(o, b)
    ensures UnderThreshold(o, Step(o, b, op, now))
  {
    if op == Failure {
      FailureTrips(o, b, now);
    }
  }

  lemma {:induction false} RunStaysUnder(o: Options, start: int, events: seq<Event>)
    requires Legal(o, Start(o, start), events)
    ensures UnderThreshold(o, Play(o, Start(o, start), events).b)
    decreases |events|
  {
    if events != [] {
      LastStep(o, Start(o, start), events);
      RunStaysUnder(o, start, Before(events));
      var e := LastOf(events);
      StepStaysUnder(o, Play(o, Start(o, start), Before(events)).b, e.op, e.now);
    }
  }

  /** While the breaker is closed, fewer failures than the threshold have been reported in a row. */
  lemma {:induction false} ClosedIsUnderThreshold(o: Options, start: int, events: seq<Event>)
    requires Legal(o, Start(o, start), events) && Play(o, Start(o, start), events).b.state == Closed
    ensures Streak(events) < if o.threshold == 0 then 1 else o.threshold
  {
    RunStaysUnder(o, start, events);
    StreakIsCounted(o, start, events);
  }

  /**
   * A reported failure opens a closed breaker if and only if it makes as many in a row as the threshold, at least
   * one; a half-open breaker opens at any failure, and an open one stays open.
   */
  lemma {:induction false} FailureOpensIff(o: Options, start: int, events: seq<Event>)
    requires Legal(o, Start(o, start), events) && events != [] && LastOf(events).op == Failure
    ensures
      var before := Play(o, Start(o, start), Before(events)).b.state;
      Play(o, Start(o, start), events).b.state ==
        if before == Closed && Streak(events) < (if o.threshold == 0 then 1 else o.threshold) then Closed else Open
  {
    LastStep(o, Start(o, start), events);
    RunStaysUnder(o, start, Before(events));
    StreakIsCounted(o, start, Before(events));
    FailureTrips(o, Play(o, Start(o, start), Before(events)).b, LastOf(events).now);
  }

  lemma {:induction false} QuietIsExact(o: Options, w: World, events: seq<Event>)
    requires ExactlyCounted(o, w) && Legal(o, w, events) && QuietResets(o, w, events)
    ensures ExactlyCounted(o, Play(o, w, events))
    decreases |events|
  {
    if events != [] {
      QuietResetCountsExactly(o, w, events[0]);
      QuietIsExact(o, Apply(o, w, events[0]), events[1..]);
    }
  }

  /**
   * What a call of Allow is answered after any run whose Resets are quiet: too many requests exactly when as many
   * as the limit are outstanding; otherwise a closed breaker grants, an open one grants once the timeout has passed
   * since it opened, and a half-open one as long as its episode has admitted fewer than its permits.
   */
  lemma {:induction false} AllowAnswers(o: Options, start: int, events: seq<Event>, now: int)
    requires Legal(o, Start(o, start), events) && QuietResets(o, Start(o, start), events)
    ensures
      var w := Play(o, Start(o, start), events);
      Verdict(o, w.b, now) ==
        if o.maxConcurrent > 0 && |w.outstanding| >= o.maxConcurrent then TooManyConcurrent
        else match w.b.state
          case Closed => Granted
          case Open => if now - OpenedAt(o, start, events) > o.timeout then Granted else OpenState
          case HalfOpen =>
            if |w.episode| < 1 + o.halfOpenMax + w.b.successes * Gain(o) then Granted else OpenState
  {
    var w := Play(o, Start(o, start), events);
    assert Reachable(o, w);
    HalfOpenLedger(o, w);
    OpeningIsDated(o, start, events);
    QuietIsExact(o, Start(o, start), events);
  }
}
