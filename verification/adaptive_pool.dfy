/** Resizing by the adaptive pool, and what it means for the capacity of the base pool. */
module AdaptivePool {
  import opened Prelude
  import opened ConnPool
  import opened PoolRuns

  type Factor = x: real | x >= 0.0

  datatype AdaptiveOptions = AdaptiveOptions(
    highLoad: real, lowLoad: real, up: Factor, down: Factor, minConnections: int, maxConnections: int, cooldown: int)

  function Scaled(limit: int, factor: Factor): int {
    if limit >= 0 then (limit as real * factor).Floor else -((-limit) as real * factor).Floor
  }

  function LoadFactor(active: int, limit: int): real {
    if limit > 0 then active as real / limit as real else 0.0
  }

  /** The limit after a check that read `active`, `waitCount` and `limit` from the pool. */
  function Adjusted(o: AdaptiveOptions, active: int, waitCount: int, limit: int, elapsed: int): int {
    if elapsed < o.cooldown then limit
    else if LoadFactor(active, limit) >= o.highLoad then
      var up := Scaled(limit, o.up);
      var n := if up > o.maxConnections then o.maxConnections else up;
      if n > limit then n else limit
    else if LoadFactor(active, limit) <= o.lowLoad && waitCount == 0 then
      var down := Scaled(limit, o.down);
      var n := if down < o.minConnections then o.minConnections else down;
      if n < limit then n else limit
    else limit
  }

  class AdaptivePool {
    const basePool: ConnPool
    const opts: AdaptiveOptions
    var lastScaleTime: int
    var scaleUpEvents: nat
    var scaleDownEvents: nat

    constructor (basePool: ConnPool, opts: AdaptiveOptions, now: int)
      ensures this.basePool == basePool && this.opts == opts && lastScaleTime == now
      ensures scaleUpEvents == scaleDownEvents == 0
    {
      this.basePool := basePool;
      this.opts := opts;
      lastScaleTime, scaleUpEvents, scaleDownEvents := now, 0, 0;
    }

    method CheckAndAdjustPool(now: int)
      modifies this, basePool`maxActive
      ensures basePool.maxActive ==
        Adjusted(opts, basePool.active, basePool.waitCount, old(basePool.maxActive), now - old(lastScaleTime))
      ensures lastScaleTime == if basePool.maxActive == old(basePool.maxActive) then old(lastScaleTime) else now
      ensures scaleUpEvents == old(scaleUpEvents) + if basePool.maxActive > old(basePool.maxActive) then 1 else 0
      ensures scaleDownEvents == old(scaleDownEvents) + if basePool.maxActive < old(basePool.maxActive) then 1 else 0
    {
      if now - lastScaleTime < opts.cooldown {
        return;
      }
      var currentMaxActive := basePool.maxActive;
      var loadFactor := 0.0;
      if currentMaxActive > 0 {
        loadFactor := basePool.active as real / currentMaxActive as real;
      }
      if loadFactor >= opts.highLoad {
        var newMaxActive := Scaled(currentMaxActive, opts.up);
        if newMaxActive > opts.maxConnections {
          newMaxActive := opts.maxConnections;
        }
        if newMaxActive > currentMaxActive {
          basePool.maxActive := newMaxActive;
          scaleUpEvents := scaleUpEvents + 1;
          lastScaleTime := now;
        }
      } else if loadFactor <= opts.lowLoad && basePool.waitCount == 0 {
        var newMaxActive := Scaled(currentMaxActive, opts.down);
        if newMaxActive < opts.minConnections {
          newMaxActive := opts.minConnections;
        }
        if newMaxActive < currentMaxActive {
          basePool.maxActive := newMaxActive;
          scaleDownEvents := scaleDownEvents + 1;
          lastScaleTime := now;
        }
      }
    }
  }

  // Runs: the base pool's steps, and adjustments that read the pool as it is.

  datatype AdaptiveEvent = Base(e: Event) | Adjust(now: int)

  datatype AdaptiveWorld = AdaptiveWorld(w: World, lastScale: int)

  function AdaptiveStart(limit: int, now: int): AdaptiveWorld {
    AdaptiveWorld(Start(limit, now), now)
  }

  predicate AdaptiveEnabled(a: AdaptiveWorld, e: AdaptiveEvent) {
    match e
    case Base(e) => !e.Resize? && Enabled(a.w, e)
    case Adjust(now) => now >= a.w.clock
  }

  function AdjustedLimit(o: AdaptiveOptions, a: AdaptiveWorld, now: int): int {
    Adjusted(o, a.w.p.active, a.w.p.waitCount, a.w.p.limit, now - a.lastScale)
  }

  function AdaptiveApply(p: Options, o: AdaptiveOptions, a: AdaptiveWorld, e: AdaptiveEvent): AdaptiveWorld {
    match e
    case Base(e) => a.(w := Apply(p, a.w, e))
    case Adjust(now) =>
      var limit := AdjustedLimit(o, a, now);
      AdaptiveWorld(Apply(p, a.w, Resize(limit)).(clock := now), if limit == a.w.p.limit then a.lastScale else now)
  }

  predicate AdaptiveLegal(p: Options, o: AdaptiveOptions, a: AdaptiveWorld, events: seq<AdaptiveEvent>)
    decreases |events|
  {
    events == [] ||
    (AdaptiveEnabled(a, events[0]) && AdaptiveLegal(p, o, AdaptiveApply(p, o, a, events[0]), events[1..]))
  }

  function AdaptivePlay(p: Options, o: AdaptiveOptions, a: AdaptiveWorld, events: seq<AdaptiveEvent>): AdaptiveWorld
    decreases |events|
  {
    if events == [] then a else AdaptivePlay(p, o, AdaptiveApply(p, o, a, events[0]), events[1..])
  }

  /** The options let an idle pool be scaled down again and again, to no minimum. */
  predicate ScalesToZero(o: AdaptiveOptions) {
    o.minConnections <= 0 && o.down < 1.0 && 0.0 <= o.lowLoad && 0.0 < o.highLoad
  }

  lemma {:induction false} LoadFactorNonNegative(active: int, limit: int)
    requires active >= 0
    ensures LoadFactor(active, limit) >= 0.0
  {}

  lemma {:induction false} ScaledDown(limit: int, factor: Factor)
    requires limit > 0
    ensures 0 <= Scaled(limit, factor)
    ensures factor < 1.0 ==> Scaled(limit, factor) < limit
    ensures factor >= 1.0 ==> Scaled(limit, factor) >= limit
  {
    var x := limit as real;
    ProductNonNegative(x, factor);
    if factor < 1.0 {
      ProductPositive(x, 1.0 - factor);
      assert x * (1.0 - factor) == x - x * factor;
    } else {
      ProductNonNegative(x, factor - 1.0);
      assert x * (factor - 1.0) == x * factor - x;
    }
  }

  lemma {:induction false} ProductPositive(x: real, y: real)
    requires x > 0.0 && y > 0.0
    ensures x * y > 0.0
  {}

  /** Scaling rounds the product towards zero, whatever the sign of the limit. */
  lemma {:induction false} ScaledTruncates(limit: int, factor: Factor)
    ensures
      var (x, r) := (limit as real * factor, Scaled(limit, factor) as real);
      (limit >= 0 ==> r <= x < r + 1.0) && (limit <= 0 ==> r - 1.0 < x <= r)
  {
    assert (-limit) as real * factor == -(limit as real * factor);
  }

  /** A check after the cooldown raises the limit exactly when the load is high and scaling up gives more. */
  lemma {:induction false} GrowsIff(o: AdaptiveOptions, active: int, waitCount: int, limit: int, elapsed: int)
    requires limit > 0
    ensures Adjusted(o, active, waitCount, limit, elapsed) > limit <==>
      && elapsed >= o.cooldown && active as real / limit as real >= o.highLoad
      && (limit as real * o.up).Floor > limit && o.maxConnections > limit
    ensures Adjusted(o, active, waitCount, limit, elapsed) > limit ==>
      var up := (limit as real * o.up).Floor;
      Adjusted(o, active, waitCount, limit, elapsed) == if up < o.maxConnections then up else o.maxConnections
  {}

  /** It lowers the limit exactly when the load is low, nobody waits and scaling down gives less. */
  lemma {:induction false} ShrinksIff(o: AdaptiveOptions, active: int, waitCount: int, limit: int, elapsed: int)
    requires limit > 0
    ensures Adjusted(o, active, waitCount, limit, elapsed) < limit <==>
      && elapsed >= o.cooldown && active as real / limit as real < o.highLoad
      && active as real / limit as real <= o.lowLoad && waitCount == 0
      && (limit as real * o.down).Floor < limit && o.minConnections < limit
    ensures Adjusted(o, active, waitCount, limit, elapsed) < limit ==>
      var down := (limit as real * o.down).Floor;
      Adjusted(o, active, waitCount, limit, elapsed) == if down > o.minConnections then down else o.minConnections
  {}

  /** A pool in full use whose factor at least doubles grows, up to its maximum, at the next check. */
  lemma {:induction false} FullPoolGrows(p: Options, o: AdaptiveOptions, a: AdaptiveWorld, now: int)
    requires AdaptiveEnabled(a, Adjust(now)) && now - a.lastScale >= o.cooldown && o.highLoad <= 1.0 && o.up >= 2.0
    requires 0 < a.w.p.limit <= a.w.p.active
    ensures
      var limit, v := a.w.p.limit, AdaptiveApply(p, o, a, Adjust(now));
      && (limit < o.maxConnections ==> v.w.p.limit > limit && v.lastScale == now)
      && (limit >= o.maxConnections ==> v.w.p.limit == limit && v.lastScale == a.lastScale)
  {
    var x := a.w.p.limit as real;
    ProductNonNegative(x, o.up - 2.0);
    assert x * (o.up - 2.0) == x * o.up - 2.0 * x;
    Quotient(a.w.p.active as real, x);
    GrowsIff(o, a.w.p.active, a.w.p.waitCount, a.w.p.limit, now - a.lastScale);
  }

  lemma {:induction false} Quotient(a: real, x: real)
    requires 0.0 < x <= a
    ensures a / x >= 1.0
  {
    assert a / x * x == a;
  }

  /** Unless the options scale to zero, an adjustment keeps the limit between one and its maximum. */
  lemma {:induction false} AdjustedStaysInRange(
      o: AdaptiveOptions, active: int, waitCount: int, limit: int, elapsed: int)
    requires !ScalesToZero(o) && 0 <= active && 1 <= limit <= o.maxConnections
    ensures 1 <= Adjusted(o, active, waitCount, limit, elapsed) <= o.maxConnections
  {
    LoadFactorNonNegative(active, limit);
    ScaledDown(limit, o.down);
  }

  /**
   * An adjustment sets the limit to zero exactly when it scales down to no minimum and the scaled limit
   * is below one.
   */
  lemma {:induction false} BecomesUnlimitedIff(
      o: AdaptiveOptions, active: int, waitCount: int, limit: int, elapsed: int)
    requires limit > 0
    ensures Adjusted(o, active, waitCount, limit, elapsed) == 0 <==>
      && elapsed >= o.cooldown
      && LoadFactor(active, limit) < o.highLoad
      && LoadFactor(active, limit) <= o.lowLoad
      && waitCount == 0
      && o.minConnections <= 0
      && limit as real * o.down < 1.0
  {
    ProductNonNegative(limit as real, o.down);
    FloorIsZero(limit as real * o.down);
  }

  lemma {:induction false} FloorIsZero(x: real)
    requires x >= 0.0
    ensures x.Floor >= 0
    ensures x.Floor == 0 <==> x < 1.0
  {}

  lemma {:induction false} ProductNonNegative(x: real, y: real)
    requires x >= 0.0 && y >= 0.0
    ensures x * y >= 0.0
  {}

  // Where the limit holds.

  /** What every adaptive run keeps of the base pool. */
  ghost predicate BaseKept(p: Options, w: World) {
    Ledger(w) && Counted(p, w) && w.p.active >= w.pending
  }

  ghost predicate WithinMaximum(o: AdaptiveOptions, w: World) {
    1 <= w.p.limit <= o.maxConnections && Load(w.p) <= o.maxConnections
  }

  lemma {:induction false} AcquireKeepsActive(p: Options, w: World, q: Pool, now: int, full: Outcome)
    requires w.p.active >= w.pending && q.active == w.p.active && (full == Waiting || full == Exhausted)
    ensures var v := Took(w, Acquire(p, q, now, full), now); v.p.active >= v.pending
  {}

  lemma {:induction false} BaseStepKeeps(p: Options, w: World, e: Event)
    requires BaseKept(p, w) && Enabled(w, e)
    ensures BaseKept(p, Apply(p, w, e))
  {
    StepKeepsLedger(p, w, e);
    StepKeepsCount(p, w, e);
    match e
    case Begin(now) => AcquireKeepsActive(p, w, w.p, now, if p.wait then Waiting else Exhausted);
    case Woken(now) => AcquireKeepsActive(p, w, w.p.(waitCount := w.p.waitCount - 1), now, Exhausted);
    case _ =>
  }

  lemma {:induction false} LaterKeeps(p: Options, w: World, now: int)
    requires BaseKept(p, w)
    ensures BaseKept(p, w.(clock := now))
  {
    NothingMoved(w, w.(clock := now));
  }

  lemma {:induction false} AdjustKeeps(p: Options, o: AdaptiveOptions, a: AdaptiveWorld, now: int)
    requires BaseKept(p, a.w) && WithinMaximum(o, a.w) && now >= a.w.clock && !ScalesToZero(o)
    ensures var v := AdaptiveApply(p, o, a, Adjust(now)).w; BaseKept(p, v) && WithinMaximum(o, v)
  {
    var r := Resize(AdjustedLimit(o, a, now));
    AdjustedStaysInRange(o, a.w.p.active, a.w.p.waitCount, a.w.p.limit, now - a.lastScale);
    BaseStepKeeps(p, a.w, r);
    LaterKeeps(p, Apply(p, a.w, r), now);
  }

  lemma {:induction false} AdaptiveRunKeeps(
      p: Options, o: AdaptiveOptions, a: AdaptiveWorld, events: seq<AdaptiveEvent>)
    requires BaseKept(p, a.w) && WithinMaximum(o, a.w) && AdaptiveLegal(p, o, a, events) && !ScalesToZero(o)
    ensures WithinMaximum(o, AdaptivePlay(p, o, a, events).w)
    decreases |events|
  {
    if events != [] {
      match events[0] {
        case Base(e) =>
          BaseStepKeeps(p, a.w, e);
          StepRespectsLimit(p, a.w, e);
        case Adjust(now) => AdjustKeeps(p, o, a, now);
      }
      AdaptiveRunKeeps(p, o, AdaptiveApply(p, o, a, events[0]), events[1..]);
    }
  }

  lemma {:induction false} StartKept(p: Options, limit: int, now: int)
    ensures BaseKept(p, Start(limit, now))
  {
    forall id: nat ensures Places(Start(limit, now), id) == 0 {}
  }

  // Where it does not.

  lemma {:induction false} AdaptiveAppend(
      p: Options, o: AdaptiveOptions, a: AdaptiveWorld, events: seq<AdaptiveEvent>, more: seq<AdaptiveEvent>)
    requires AdaptiveLegal(p, o, a, events) && AdaptiveLegal(p, o, AdaptivePlay(p, o, a, events), more)
    ensures AdaptiveLegal(p, o, a, events + more)
    ensures AdaptivePlay(p, o, a, events + more) == AdaptivePlay(p, o, AdaptivePlay(p, o, a, events), more)
    decreases |events|
  {
    if events == [] {
      assert events + more == more;
    } else {
      assert (events + more)[1..] == events[1..] + more;
      AdaptiveAppend(p, o, AdaptiveApply(p, o, a, events[0]), events[1..], more);
    }
  }

  predicate Untouched(w: World) {
    w.p.idle == [] && w.p.active == 0 && w.p.waitCount == 0 && !w.p.closed
  }

  /** A check of an idle pool, when the cooldown is over, scales it down. */
  lemma {:induction false} ScaleDownOnce(p: Options, o: AdaptiveOptions, a: AdaptiveWorld) returns (e: AdaptiveEvent)
    requires ScalesToZero(o) && Untouched(a.w) && 0 < a.w.p.limit
    ensures AdaptiveEnabled(a, e)
    ensures var b := AdaptiveApply(p, o, a, e).w; Untouched(b) && 0 <= b.p.limit < a.w.p.limit
  {
    var due := a.lastScale + o.cooldown;
    e := Adjust(if due < a.w.clock then a.w.clock else due);
    ScaledDown(a.w.p.limit, o.down);
  }

  /** Checks of an idle pool, one cooldown apart, scale it down to no limit. */
  lemma {:induction false} ScaleDownToZero(
      p: Options, o: AdaptiveOptions, a: AdaptiveWorld) returns (events: seq<AdaptiveEvent>)
    requires ScalesToZero(o) && Untouched(a.w) && 0 <= a.w.p.limit
    ensures AdaptiveLegal(p, o, a, events)
    ensures var b := AdaptivePlay(p, o, a, events).w; Untouched(b) && b.p.limit == 0
    decreases a.w.p.limit
  {
    if a.w.p.limit == 0 {
      events := [];
    } else {
      var e := ScaleDownOnce(p, o, a);
      var rest := ScaleDownToZero(p, o, AdaptiveApply(p, o, a, e));
      events := [e] + rest;
      assert events[1..] == rest;
    }
  }

  /** On a pool without limit, creations raise the load by as much as one likes. */
  lemma {:induction false} Grow(
      p: Options, o: AdaptiveOptions, a: AdaptiveWorld, n: nat) returns (events: seq<AdaptiveEvent>)
    requires a.w.p.limit == 0 && a.w.p.idle == [] && !a.w.p.closed
    ensures AdaptiveLegal(p, o, a, events)
    ensures Load(AdaptivePlay(p, o, a, events).w.p) == Load(a.w.p) + n
    decreases n
  {
    if n == 0 {
      events := [];
    } else {
      var e := Base(Begin(a.w.clock));
      var rest := Grow(p, o, AdaptiveApply(p, o, a, e), n - 1);
      events := [e] + rest;
      assert events[1..] == rest;
    }
  }

  /** Some adaptive run from `limit` holds more than MaxConnections. */
  ghost predicate CanExceed(p: Options, o: AdaptiveOptions, limit: int) {
    exists now: int, events ::
      && AdaptiveLegal(p, o, AdaptiveStart(limit, now), events)
      && Load(AdaptivePlay(p, o, AdaptiveStart(limit, now), events).w.p) > o.maxConnections
  }

  lemma {:induction false} Exceeds(p: Options, o: AdaptiveOptions, limit: int)
    requires ScalesToZero(o) && 1 <= limit <= o.maxConnections
    ensures CanExceed(p, o, limit)
  {
    var a := AdaptiveStart(limit, 0);
    var down := ScaleDownToZero(p, o, a);
    var up := Grow(p, o, AdaptivePlay(p, o, a, down), o.maxConnections + 1);
    AdaptiveAppend(p, o, a, down, up);
  }

  /**
   * Under adaptive resizing from a limit in 1..MaxConnections, active + idle can exceed MaxConnections if and
   * only if the options scale an idle pool down to no limit: no positive minimum, a factor below one, and
   * thresholds that let an idle pool be scaled down.
   */
  lemma {:induction false} ExceedsMaximumIff(p: Options, o: AdaptiveOptions, limit: int)
    requires 1 <= limit <= o.maxConnections
    ensures CanExceed(p, o, limit) <==> ScalesToZero(o)
  {
    if ScalesToZero(o) {
      Exceeds(p, o, limit);
    } else {
      forall now: int, events | AdaptiveLegal(p, o, AdaptiveStart(limit, now), events)
        ensures Load(AdaptivePlay(p, o, AdaptiveStart(limit, now), events).w.p) <= o.maxConnections
      {
        StartKept(p, limit, now);
        AdaptiveRunKeeps(p, o, AdaptiveStart(limit, now), events);
      }
    }
  }
}
