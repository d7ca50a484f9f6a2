/** The limiter that retunes a token bucket from the processor load and the response times seen. */
module AdaptiveLimiters {
  import opened TokenBuckets

  datatype Options = Options(
    initialRate: real, minRate: real, maxRate: real, high: real, low: real, decrease: real, increase: real, slow: int,
    samples: int)

  /** `times` is a ring of the last response times, in nanoseconds; `shown` the rate in the statistics. */
  datatype Limiter = Limiter(
    bucket: Bucket, rate: real, times: seq<int>, index: nat, allowed: nat, rejected: nat, shown: real, rejects: nat)

  function SampleSize(o: Options): nat {
    if o.samples <= 0 then 100 else o.samples
  }

  function Started(o: Options, now: int): Limiter {
    Limiter(Bucket(o.initialRate, o.initialRate / 10.0, o.initialRate / 10.0, now),
      o.initialRate, seq(SampleSize(o), _ => 0), 0, 0, 0, o.initialRate, 0)
  }

  // The average response time, over the slots that hold one.

  function PositiveTotal(s: seq<int>): (r: int)
    ensures r >= 0
  {
    if s == [] then 0 else PositiveTotal(s[..|s| - 1]) + if s[|s| - 1] > 0 then s[|s| - 1] else 0
  }

  function PositiveCount(s: seq<int>): nat {
    if s == [] then 0 else PositiveCount(s[..|s| - 1]) + if s[|s| - 1] > 0 then 1 else 0
  }

  function Average(s: seq<int>): (r: int) {
    if PositiveCount(s) == 0 then 0 else PositiveTotal(s) / PositiveCount(s)
  }

  // The new rate.

  function Clamp(r: real, low: real, high: real): real {
    if r < low then low else if r > high then high else r
  }

  /** The rate the load calls for: lowered, raised, or as it is. */
  function Loaded(o: Options, rate: real, lowered: real, raised: real, cpu: real, average: int): real {
    if cpu > o.high then lowered else if cpu < o.low && average < o.slow then raised else rate
  }

  function Slowed(o: Options, rate: real, average: int): real {
    Clamp(if average > o.slow then rate * 0.95 else rate, o.minRate, o.maxRate)
  }

  function Tuned(o: Options, rate: real, lowered: real, raised: real, cpu: real, average: int): real {
    Slowed(o, Loaded(o, rate, lowered, raised, cpu, average), average)
  }

  function NewRate(o: Options, rate: real, cpu: real, average: int): real {
    Tuned(o, rate, rate * o.decrease, rate * o.increase, cpu, average)
  }

  function Called(l: Limiter, now: int): (Limiter, bool) {
    var (b, ok) := Taken(l.bucket, now);
    if ok then (l.(bucket := b, allowed := l.allowed + 1, shown := l.rate), true)
    else (l.(bucket := b, rejected := l.rejected + 1, rejects := l.rejects + 1), false)
  }

  function Recorded(l: Limiter, elapsed: int): Limiter
    requires l.index < |l.times|
  {
    l.(times := l.times[l.index := elapsed], index := (l.index + 1) % |l.times|)
  }

  function Adjusted(o: Options, l: Limiter, now: int, cpu: real): Limiter {
    var r := NewRate(o, l.rate, cpu, Average(l.times));
    l.(bucket := Retuned(l.bucket, now, r), rate := r, rejects := 0)
  }

  class AdaptiveLimiter {
    const opts: Options
    var currentRate: real
    const tokenBucket: TokenBucket
    const responseTimes: array<int>
    var responseTimeIndex: nat
    var allowedRequests: nat
    var rejectedRequests: nat
    var statsRate: real
    var consecutiveRejects: nat

    ghost predicate Valid()
      reads this
    {
      responseTimeIndex < responseTimes.Length
    }

    ghost function View(): Limiter
      reads this, tokenBucket, responseTimes
    {
      Limiter(tokenBucket.View(), currentRate, responseTimes[..], responseTimeIndex,
        allowedRequests, rejectedRequests, statsRate, consecutiveRejects)
    }

    constructor (opts: Options, now: int)
      ensures Valid() && fresh(tokenBucket) && fresh(responseTimes) && this.opts == opts
      ensures View() == Started(opts, now)
    {
      this.opts, currentRate, statsRate := opts, opts.initialRate, opts.initialRate;
      responseTimeIndex, allowedRequests, rejectedRequests, consecutiveRejects := 0, 0, 0, 0;
      responseTimes := new int[SampleSize(opts)](_ => 0);
      tokenBucket := new TokenBucket(opts.initialRate, opts.initialRate / 10.0, now);
      new;
      assert responseTimes[..] == Started(opts, now).times;
    }

    method Allow(now: int) returns (allowed: bool)
      requires Valid()
      modifies this, tokenBucket
      ensures Valid() && (View(), allowed) == Called(old(View()), now)
    {
      allowed := tokenBucket.Allow(now);
      if allowed {
        allowedRequests := allowedRequests + 1;
        statsRate := currentRate;
      } else {
        rejectedRequests := rejectedRequests + 1;
        consecutiveRejects := consecutiveRejects + 1;
      }
    }

    method RecordMetrics(responseTime: int)
      requires Valid()
      modifies this, responseTimes
      ensures Valid() && View() == Recorded(old(View()), responseTime)
    {
      responseTimes[responseTimeIndex] := responseTime;
      responseTimeIndex := (responseTimeIndex + 1) % responseTimes.Length;
    }

    method AverageResponseTime() returns (average: int)
      ensures average == Average(responseTimes[..])
    {
      var totalTime, count := 0, 0;
      for i := 0 to responseTimes.Length
        invariant totalTime == PositiveTotal(responseTimes[..i])
        invariant count == PositiveCount(responseTimes[..i])
      {
        var t := responseTimes[i];
        assert responseTimes[..i + 1][..i] == responseTimes[..i];
        if t > 0 {
          totalTime := totalTime + t;
          count := count + 1;
        }
      }
      assert responseTimes[..responseTimes.Length] == responseTimes[..];
      average := 0;
      if count > 0 {
        average := totalTime / count;
      }
    }

    /** The rate adjustments of adjustRate. */
    method TunedRate(rate: real, cpuUsage: real, avgResponseTime: int) returns (newRate: real)
      ensures newRate == NewRate(opts, rate, cpuUsage, avgResponseTime)
    {
      newRate := rate;
      if cpuUsage > opts.high {
        newRate := rate * opts.decrease;
      } else if cpuUsage < opts.low && avgResponseTime < opts.slow {
        newRate := rate * opts.increase;
      }
      ghost var loaded := newRate;
      assert loaded == Loaded(opts, rate, rate * opts.decrease, rate * opts.increase, cpuUsage, avgResponseTime);
      if avgResponseTime > opts.slow {
        newRate := newRate * 0.95;
      }
      if newRate < opts.minRate {
        newRate := opts.minRate;
      } else if newRate > opts.maxRate {
        newRate := opts.maxRate;
      }
      assert newRate == Slowed(opts, loaded, avgResponseTime);
    }

    method AdjustRate(now: int, cpuUsage: real)
      requires Valid()
      modifies this, tokenBucket
      ensures Valid() && View() == Adjusted(opts, old(View()), now, cpuUsage)
    {
      var avgResponseTime := AverageResponseTime();
      var newRate := TunedRate(currentRate, cpuUsage, avgResponseTime);
      currentRate := newRate;
      tokenBucket.UpdateRate(now, newRate);
      consecutiveRejects := 0;
    }
  }

  /**
   * More load, or slower responses, never give a higher rate, whatever the lowered and raised rates are on
   * either side of the current one.
   */
  lemma {:induction false} MoreLoadNeverRaisesTheRate(
      o: Options, rate: real, lowered: real, raised: real, cpu: real, average: int, cpu': real, average': int)
    requires 0.0 <= lowered <= rate <= raised && o.low <= o.high && o.minRate <= o.maxRate
    requires cpu <= cpu' && average <= average'
    ensures Tuned(o, rate, lowered, raised, cpu', average') <= Tuned(o, rate, lowered, raised, cpu, average)
  {
    assert 0.0 <= Loaded(o, rate, lowered, raised, cpu', average') <= Loaded(o, rate, lowered, raised, cpu, average);
  }

  /** A load above the high threshold never raises the rate, and lowers it if the factor does and there is room. */
  lemma {:induction false} HighLoadLowers(o: Options, rate: real, cpu: real, average: int)
    requires o.minRate <= rate <= o.maxRate && 0.0 <= rate && cpu > o.high && 0.0 <= o.decrease <= 1.0
    ensures NewRate(o, rate, cpu, average) <= rate
    ensures o.decrease < 1.0 && o.minRate < rate && 0.0 < rate ==> NewRate(o, rate, cpu, average) < rate
    ensures average <= o.slow ==>
      NewRate(o, rate, cpu, average) == if rate * o.decrease < o.minRate then o.minRate else rate * o.decrease
  {
    var lowered := rate * o.decrease;
    LoweredRate(rate, o.decrease, lowered);
  }

  lemma {:induction false} LoweredRate(rate: real, factor: real, lowered: real)
    requires 0.0 <= rate && 0.0 <= factor <= 1.0 && lowered == rate * factor
    ensures 0.0 <= lowered <= rate
    ensures factor < 1.0 && 0.0 < rate ==> lowered < rate
  {
    assert rate * (1.0 - factor) >= 0.0;
    assert rate * (1.0 - factor) == rate - lowered;
    if factor < 1.0 && 0.0 < rate {
      assert rate * (1.0 - factor) > 0.0;
    }
  }

  /** A load below the low threshold, with quick responses, never lowers it, and raises it if it can. */
  lemma {:induction false} LowLoadRaises(o: Options, rate: real, cpu: real, average: int)
    requires o.minRate <= rate <= o.maxRate && 0.0 <= rate && cpu <= o.high && cpu < o.low && average < o.slow
    requires 1.0 <= o.increase
    ensures NewRate(o, rate, cpu, average) >= rate
    ensures 1.0 < o.increase && rate < o.maxRate && 0.0 < rate ==> NewRate(o, rate, cpu, average) > rate
    ensures NewRate(o, rate, cpu, average) == if rate * o.increase > o.maxRate then o.maxRate else rate * o.increase
  {
    var raised := rate * o.increase;
    RaisedRate(rate, o.increase, raised);
  }

  lemma {:induction false} RaisedRate(rate: real, factor: real, raised: real)
    requires 0.0 <= rate && 1.0 <= factor && raised == rate * factor
    ensures rate <= raised
    ensures 1.0 < factor && 0.0 < rate ==> rate < raised
  {
    assert rate * (factor - 1.0) >= 0.0;
    assert rate * (factor - 1.0) == raised - rate;
    if 1.0 < factor && 0.0 < rate {
      assert rate * (factor - 1.0) > 0.0;
    }
  }

  /** In between nothing changes, except that slow responses take off a twentieth. */
  lemma {:induction false} MiddleLoadKeeps(o: Options, rate: real, cpu: real, average: int)
    requires o.minRate <= rate <= o.maxRate && cpu <= o.high && (cpu >= o.low || average >= o.slow)
    ensures average <= o.slow ==> NewRate(o, rate, cpu, average) == rate
    ensures average > o.slow && 0.0 <= rate ==>
      NewRate(o, rate, cpu, average) == if rate * 0.95 < o.minRate then o.minRate else rate * 0.95
  {}

  // Runs.

  datatype Event = Call(now: int) | Record(elapsed: int, now: int) | Adjust(cpu: real, now: int)

  predicate Sane(o: Options) {
    0.0 <= o.minRate <= o.initialRate <= o.maxRate
  }

  predicate Kept(o: Options, l: Limiter) {
    && TokenBuckets.Kept(l.bucket, o.minRate, o.maxRate)
    && l.bucket.burst == o.initialRate / 10.0 && l.bucket.rate == l.rate
    && l.index < |l.times|
  }

  function Step(o: Options, l: Limiter, e: Event): (n: Limiter)
    requires l.index < |l.times|
    ensures n.index < |n.times|
  {
    match e
    case Call(now) => Called(l, now).0
    case Record(elapsed, _) => Recorded(l, elapsed)
    case Adjust(cpu, now) => Adjusted(o, l, now, cpu)
  }

  function Play(o: Options, l: Limiter, events: seq<Event>): (n: Limiter)
    requires l.index < |l.times|
    ensures n.index < |n.times|
    decreases |events|
  {
    if events == [] then l else Play(o, Step(o, l, events[0]), events[1..])
  }

  /** The clock does not go back. */
  predicate Ordered(clock: int, events: seq<Event>)
    decreases |events|
  {
    events == [] || (clock <= events[0].now && Ordered(events[0].now, events[1..]))
  }

  lemma {:induction false} StepKeeps(o: Options, l: Limiter, e: Event)
    requires Sane(o) && Kept(o, l) && l.bucket.last <= e.now
    ensures Kept(o, Step(o, l, e))
    ensures l.bucket.last <= Step(o, l, e).bucket.last <= e.now
  {
    RefillGain(l.bucket, o.minRate, o.maxRate, e.now);
  }

  /** Requests let through and tokens left, less what the highest rate could have added up to now. */
  function Level(o: Options, l: Limiter): real {
    l.allowed as real + l.bucket.tokens - Earned(l.bucket.last, o.maxRate)
  }

  /** A request that gets through costs one token, so the level never rises. */
  lemma {:induction false} StepSpends(o: Options, l: Limiter, e: Event)
    requires Sane(o) && Kept(o, l) && l.bucket.last <= e.now
    ensures Level(o, Step(o, l, e)) <= Level(o, l)
    ensures
      var n := Step(o, l, e);
      !e.Record? ==> (n.allowed - l.allowed) as real + n.bucket.tokens <= o.initialRate / 10.0 && n.bucket.last == e.now
  {
    RefillGain(l.bucket, o.minRate, o.maxRate, e.now);
    EarnedAdds(l.bucket.last, e.now - l.bucket.last, o.maxRate);
  }

  lemma {:induction false} RunSpends(o: Options, l: Limiter, clock: int, events: seq<Event>)
    requires Sane(o) && Kept(o, l) && l.bucket.last <= clock && Ordered(clock, events)
    ensures
      var n := Play(o, l, events);
      Kept(o, n) && n.bucket.last <= End(clock, events) && Level(o, n) <= Level(o, l)
    decreases |events|
  {
    if events != [] {
      StepKeeps(o, l, events[0]);
      StepSpends(o, l, events[0]);
      RunSpends(o, Step(o, l, events[0]), events[0].now, events[1..]);
    }
  }

  /** The time of the last event. */
  function End(clock: int, events: seq<Event>): int {
    if events == [] then clock else events[|events| - 1].now
  }

  /** What is spent after an instant at which the bucket was at most full. */
  lemma {:induction false} LevelBounds(o: Options, s: Limiter, n: Limiter, end: int)
    requires Sane(o) && Level(o, n) <= Level(o, s) && n.bucket.last <= end && n.bucket.tokens >= 0.0
    ensures (n.allowed - s.allowed) as real <=
      s.bucket.tokens + Earned(end, o.maxRate) - Earned(s.bucket.last, o.maxRate)
  {
    EarnedAdds(n.bucket.last, end - n.bucket.last, o.maxRate);
    EarnedMonotone(end - n.bucket.last, o.maxRate, o.maxRate);
  }

  lemma {:induction false} SpanIsBounded(o: Options, l: Limiter, clock: int, events: seq<Event>)
    requires Sane(o) && Kept(o, l) && l.bucket.last <= clock && Ordered(clock, events) && events != []
    ensures
      (Play(o, l, events).allowed - l.allowed) as real
        <= o.initialRate / 10.0 + Earned(End(clock, events), o.maxRate) - Earned(events[0].now, o.maxRate)
    decreases |events|
  {
    var e, rest := events[0], events[1..];
    var s := Step(o, l, e);
    StepKeeps(o, l, e);
    StepSpends(o, l, e);
    if !e.Record? {
      RunSpends(o, s, e.now, rest);
      LevelBounds(o, s, Play(o, s, rest), End(clock, events));
    } else if rest == [] {
      assert Play(o, s, rest) == s;
    } else {
      SpanIsBounded(o, s, e.now, rest);
      assert events[|events| - 1] == rest[|rest| - 1];
      EarnedAdds(e.now, rest[0].now - e.now, o.maxRate);
      EarnedMonotone(rest[0].now - e.now, o.maxRate, o.maxRate);
    }
  }

  lemma {:induction false} StartKept(o: Options, now: int)
    requires Sane(o)
    ensures Kept(o, Started(o, now))
  {}

  lemma {:induction false} OrderedSplit(clock: int, before: seq<Event>, after: seq<Event>)
    requires Ordered(clock, before + after)
    ensures Ordered(clock, before)
    ensures Ordered(End(clock, before), after)
    decreases |before|
  {
    if before == [] {
      assert before + after == after;
    } else {
      assert (before + after)[1..] == before[1..] + after;
      OrderedSplit(before[0].now, before[1..], after);
    }
  }

  lemma {:induction false} OrderedEnd(clock: int, events: seq<Event>)
    requires Ordered(clock, events) && events != []
    ensures events[0].now <= End(clock, events)
    decreases |events|
  {
    if |events| > 1 {
      OrderedEnd(events[0].now, events[1..]);
      assert events[|events| - 1] == events[1..][|events| - 2];
    }
  }

  /**
   * The rate bound: within any run, the requests let through during any stretch of it number at most the
   * bucket size plus the highest rate times the length of the stretch, whatever the load readings were.
   */
  lemma {:induction false} RateBound(o: Options, start: int, before: seq<Event>, during: seq<Event>)
    requires Sane(o) && Ordered(start, before + during) && during != []
    ensures
      var l := Play(o, Started(o, start), before);
      (Play(o, l, during).allowed - l.allowed) as real
        <= o.initialRate / 10.0 + Earned(End(start, during) - during[0].now, o.maxRate)
  {
    StartKept(o, start);
    OrderedSplit(start, before, during);
    RunSpends(o, Started(o, start), start, before);
    SpanIsBounded(o, Play(o, Started(o, start), before), End(start, before), during);
    OrderedEnd(End(start, before), during);
    EarnedAdds(during[0].now, End(start, during) - during[0].now, o.maxRate);
  }

  /** Every request comes at least 1/MinRate after the one before it, the first after `last`. */
  predicate Paced(o: Options, last: int, events: seq<Event>)
    decreases |events|
  {
    events == [] ||
    (if events[0].Call? then Earned(events[0].now - last, o.minRate) >= 1.0 && Paced(o, events[0].now, events[1..])
     else Paced(o, last, events[1..]))
  }

  /** The lowest rate has refilled the bucket since `last`. */
  predicate Recovering(o: Options, l: Limiter, last: int) {
    l.bucket.tokens >= Least(l.bucket.burst, Earned(l.bucket.last - last, o.minRate))
  }

  lemma {:induction false} StepRecovers(o: Options, l: Limiter, last: int, e: Event)
    requires Sane(o) && Kept(o, l) && Recovering(o, l, last) && l.bucket.last <= e.now
    requires o.initialRate >= 10.0 && (e.Call? ==> Earned(e.now - last, o.minRate) >= 1.0)
    ensures Recovering(o, Step(o, l, e), if e.Call? then e.now else last)
    ensures Step(o, l, e).rejected == l.rejected
  {
    RefillGain(l.bucket, o.minRate, o.maxRate, e.now);
    var b := l.bucket;
    EarnedAdds(b.last - last, e.now - b.last, o.minRate);
    assert b.last - last + (e.now - b.last) == e.now - last;
    EarnedMonotone(e.now - b.last, o.minRate, o.minRate);
  }

  lemma {:induction false} RunRecovers(o: Options, l: Limiter, clock: int, last: int, events: seq<Event>)
    requires Sane(o) && Kept(o, l) && Recovering(o, l, last) && l.bucket.last <= clock && Ordered(clock, events)
    requires o.initialRate >= 10.0 && Paced(o, last, events)
    ensures Play(o, l, events).rejected == l.rejected
    decreases |events|
  {
    if events != [] {
      StepKeeps(o, l, events[0]);
      StepRecovers(o, l, last, events[0]);
      var next := if events[0].Call? then events[0].now else last;
      RunRecovers(o, Step(o, l, events[0]), events[0].now, next, events[1..]);
    }
  }

  /** A caller who waits 1/MinRate between requests is never rejected, if the bucket holds a whole token. */
  lemma {:induction false} PacedIsNeverRejected(o: Options, start: int, last: int, events: seq<Event>)
    requires Sane(o) && o.initialRate >= 10.0 && Ordered(start, events) && Paced(o, last, events)
    ensures Play(o, Started(o, start), events).rejected == 0
  {
    StartKept(o, start);
    RunRecovers(o, Started(o, start), start, last, events);
  }

  lemma {:induction false} PlayAppend(o: Options, l: Limiter, before: seq<Event>, after: seq<Event>)
    requires l.index < |l.times|
    ensures Play(o, l, before + after) == Play(o, Play(o, l, before), after)
    decreases |before|
  {
    if before == [] {
      assert before + after == after;
    } else {
      assert (before + after)[1..] == before[1..] + after;
      PlayAppend(o, Step(o, l, before[0]), before[1..], after);
    }
  }

  /** Right after a request the bucket holds no less than nothing. */
  lemma {:induction false} CallStartsRecovery(o: Options, l: Limiter, t: int)
    requires Sane(o) && Kept(o, l) && l.bucket.last <= t
    ensures Kept(o, Step(o, l, Call(t))) && Recovering(o, Step(o, l, Call(t)), t) &&
      Step(o, l, Call(t)).bucket.last == t
  {
    StepKeeps(o, l, Call(t));
  }

  /**
   * A gap of 1/MinRate is enough: after any run, however crowded, and one more request at `t`, requests that
   * keep that distance from it and from each other are never rejected, whatever is adjusted in between.
   */
  lemma {:induction false} GapIsEnough(o: Options, start: int, before: seq<Event>, t: int, after: seq<Event>)
    requires Sane(o) && o.initialRate >= 10.0
    requires Ordered(start, before + ([Call(t)] + after)) && Paced(o, t, after)
    ensures
      Play(o, Started(o, start), before + ([Call(t)] + after)).rejected ==
        Play(o, Started(o, start), before + [Call(t)]).rejected
  {
    var s, clock := Started(o, start), End(start, before);
    var l := Play(o, s, before);
    StartKept(o, start);
    OrderedSplit(start, before, [Call(t)] + after);
    OrderedSplit(clock, [Call(t)], after);
    RunSpends(o, s, start, before);
    CallStartsRecovery(o, l, t);
    var n := Step(o, l, Call(t));
    assert [Call(t)][1..] == [] && Play(o, n, []) == n && Play(o, l, [Call(t)]) == n;
    PlayAppend(o, s, before, [Call(t)] + after);
    PlayAppend(o, s, before, [Call(t)]);
    PlayAppend(o, l, [Call(t)], after);
    RunRecovers(o, n, t, t, after);
  }

  /** With a bucket smaller than one token nothing is ever let through, whatever the rate grows to. */
  lemma {:induction false} SmallBucketStarves(o: Options, l: Limiter, clock: int, events: seq<Event>)
    requires Sane(o) && o.initialRate < 10.0 && Kept(o, l) && l.bucket.last <= clock && Ordered(clock, events)
    ensures Play(o, l, events).allowed == l.allowed
    decreases |events|
  {
    if events != [] {
      StepKeeps(o, l, events[0]);
      SmallBucketStarves(o, Step(o, l, events[0]), events[0].now, events[1..]);
    }
  }

  /** The limiter can ever let a request through exactly when the initial rate is at least 10. */
  lemma {:induction false} ServesIff(o: Options, start: int)
    requires Sane(o)
    ensures
      o.initialRate >= 10.0 <==>
        exists events :: Ordered(start, events) && Play(o, Started(o, start), events).allowed > 0
  {
    StartKept(o, start);
    var l := Started(o, start);
    if o.initialRate >= 10.0 {
      var e := Call(start);
      var n := Step(o, l, e);
      assert n.allowed == 1 && Play(o, n, []) == n;
      assert [e][1..] == [] && Play(o, l, [e]) == n;
      assert Ordered(start, []) && Ordered(start, [e]);
    } else {
      forall events | Ordered(start, events) ensures Play(o, l, events).allowed == 0 {
        SmallBucketStarves(o, l, start, events);
      }
    }
  }
}
