/** Every run of the batcher: arrival order, completion exactly once, and the concurrency limit. */
module BatchRuns {
  import opened Prelude
  import opened BatchProcessing

  datatype Event =
    | Accept(id: nat)
    | Receive(waited: int)
    | Fire
    | Flush
    | Processed(k: nat, load: real)
    | Finish(k: nat)
    | Stop

  /**
   * The batcher's queue and current batch size; every request accepted, in order; the batches launched, in
   * order; the indices of those still running, launched by the loop or by Flush; the requests whose Done has
   * been closed, in order; how many Flush batches have finished; and whether the loop has stopped. A batch
   * that finishes without having been processed found its requests cancelled or had no way to merge them.
   */
  datatype World = World(
    q: Queue<nat>, size: int, arrivals: seq<nat>, launched: seq<seq<nat>>, byLoop: set<nat>, byFlush: set<nat>,
    done: seq<nat>, flushed: nat, stopped: bool)

  function Start(o: Options): World {
    World(Queue([], [], 0, false), o.maxBatchSize, [], [], {}, {}, [], 0, false)
  }

  predicate Running(w: World, k: nat) {
    (k in w.byLoop || k in w.byFlush) && k < |w.launched|
  }

  predicate Enabled(o: Options, w: World, e: Event) {
    match e
    case Accept(id) => id !in w.arrivals && |w.q.channel| < 2 * o.maxBatchSize
    case Receive(waited) => !w.stopped && w.q.channel != [] && waited >= 0
    case Fire => !w.stopped && w.q.timerActive
    case Processed(k, _) => Running(w, k)
    case Finish(k) => Running(w, k)
    case Flush => true
    case Stop => true
  }

  function Launched(w: World, r: (Queue<nat>, Option<seq<nat>>), byLoop: bool): World {
    var k := |w.launched|;
    match r.1
    case None => w.(q := r.0)
    case Some(batch) =>
      var v := w.(q := r.0, launched := w.launched + [batch]);
      if byLoop then v.(byLoop := w.byLoop + {k}) else v.(byFlush := w.byFlush + {k})
  }

  function Apply(o: Options, w: World, e: Event): World
    requires Enabled(o, w, e)
  {
    match e
    case Accept(id) => w.(q := w.q.(channel := w.q.channel + [id]), arrivals := w.arrivals + [id])
    case Receive(waited) => Launched(w, Received(o, w.q, w.size, waited), true)
    case Fire => Launched(w, Fired(o, w.q), true)
    case Flush => Launched(w, Flushed(w.q), false)
    case Processed(_, load) => w.(size := Resized(o, w.size, load))
    case Finish(k) =>
      w.(q := w.q.(activeCount := w.q.activeCount - 1), byLoop := w.byLoop - {k}, byFlush := w.byFlush - {k},
         done := w.done + w.launched[k], flushed := w.flushed + if k in w.byFlush then 1 else 0)
    case Stop => w.(stopped := true)
  }

  predicate Legal(o: Options, w: World, events: seq<Event>)
    decreases |events|
  {
    events == [] || (Enabled(o, w, events[0]) && Legal(o, Apply(o, w, events[0]), events[1..]))
  }

  function Play(o: Options, w: World, events: seq<Event>): World
    requires Legal(o, w, events)
    decreases |events|
  {
    if events == [] then w else Play(o, Apply(o, w, events[0]), events[1..])
  }

  function Concat(batches: seq<seq<nat>>): seq<nat> {
    if batches == [] then [] else Concat(batches[..|batches| - 1]) + batches[|batches| - 1]
  }

  /** Occurrences of `id` in the first `n` batches that are not running. */
  function Finished(batches: seq<seq<nat>>, running: set<nat>, n: nat, id: nat): nat
    requires n <= |batches|
  {
    if n == 0 then 0
    else Finished(batches, running, n - 1, id) + if n - 1 in running then 0 else Count(batches[n - 1], id)
  }

  /** Arrival order is kept through the batches, the pending list and the channel. */
  predicate Ordered(w: World) {
    Concat(w.launched) + w.q.items + w.q.channel == w.arrivals
  }

  predicate Indexed(w: World) {
    && w.byLoop !! w.byFlush
    && (forall k <- w.byLoop :: k < |w.launched|)
    && (forall k <- w.byFlush :: k < |w.launched|)
  }

  /** What has been completed is what the finished batches held, with multiplicity. */
  ghost predicate Completed(w: World) {
    forall id: nat :: Count(w.done, id) == Finished(w.launched, w.byLoop + w.byFlush, |w.launched|, id)
  }

  ghost predicate Once(s: seq<nat>) {
    forall id: nat :: Count(s, id) <= 1
  }

  /** The active count is exact up to the batches Flush has finished, each of which gave back a slot it never took. */
  predicate Slots(o: Options, w: World) {
    && w.q.activeCount == |w.byLoop| - w.flushed
    && |w.byLoop| <= (if o.maxConcurrentBatches < 0 then 0 else o.maxConcurrentBatches) + w.flushed
  }

  ghost predicate Inv(o: Options, w: World) {
    Ordered(w) && Indexed(w) && Completed(w) && Once(w.arrivals) && Slots(o, w)
  }

  // Steps that may launch a batch.

  /** A turn of the loop or a Flush: requests move along, or the whole pending list becomes a batch. */
  predicate Moves(q: Queue<nat>, r: (Queue<nat>, Option<seq<nat>>)) {
    (if r.1.Some? then r.1.value else []) + r.0.items + r.0.channel == q.items + q.channel
  }

  lemma {:induction false} ReceivedMoves(o: Options, q: Queue<nat>, size: int, waited: int)
    requires q.channel != []
    ensures Moves(q, Received(o, q, size, waited))
  {
    assert q.channel == [q.channel[0]] + q.channel[1..];
    assert (q.items + [q.channel[0]]) + [] + q.channel[1..] == q.items + q.channel;
    assert [] + (q.items + [q.channel[0]]) + q.channel[1..] == q.items + q.channel;
  }

  lemma {:induction false} FiredMoves(o: Options, q: Queue<nat>)
    ensures Moves(q, Fired(o, q)) && Moves(q, Flushed(q))
  {}

  lemma {:induction false} ConcatSnoc(batches: seq<seq<nat>>, batch: seq<nat>)
    ensures Concat(batches + [batch]) == Concat(batches) + batch
  {
    assert (batches + [batch])[..|batches|] == batches;
  }

  lemma {:induction false} LaunchedKeepsOrder(w: World, r: (Queue<nat>, Option<seq<nat>>), byLoop: bool)
    requires Ordered(w) && Moves(w.q, r)
    ensures Ordered(Launched(w, r, byLoop))
  {
    var c := Concat(w.launched);
    if r.1.Some? {
      ConcatSnoc(w.launched, r.1.value);
      Regroup(c, r.1.value, r.0.items, r.0.channel, w.q.items, w.q.channel);
    } else {
      Regroup(c, [], r.0.items, r.0.channel, w.q.items, w.q.channel);
      assert c + [] == c;
    }
  }

  lemma {:induction false} Regroup(c: seq<nat>, b: seq<nat>, i: seq<nat>, h: seq<nat>, j: seq<nat>, k: seq<nat>)
    requires b + i + h == j + k
    ensures c + b + i + h == c + j + k
  {
    assert c + b + i + h == c + (b + i + h);
    assert c + j + k == c + (j + k);
  }

  lemma {:induction false} FinishedIgnores(
      batches: seq<seq<nat>>, more: seq<seq<nat>>, r: set<nat>, t: set<nat>, n: nat, id: nat)
    requires n <= |batches| && batches <= more
    requires forall k: nat | k < n :: k in r <==> k in t
    ensures Finished(batches, r, n, id) == Finished(more, t, n, id)
  {
    if n > 0 {
      FinishedIgnores(batches, more, r, t, n - 1, id);
    }
  }

  lemma {:induction false} LaunchedKeepsCompleted(w: World, r: (Queue<nat>, Option<seq<nat>>), byLoop: bool)
    requires Completed(w) && Indexed(w)
    ensures Completed(Launched(w, r, byLoop)) && Indexed(Launched(w, r, byLoop))
  {
    var v := Launched(w, r, byLoop);
    if r.1.Some? {
      var n := |w.launched|;
      assert n !in w.byLoop && n !in w.byFlush;
      forall id: nat ensures Count(v.done, id) == Finished(v.launched, v.byLoop + v.byFlush, |v.launched|, id) {
        FinishedIgnores(w.launched, v.launched, w.byLoop + w.byFlush, v.byLoop + v.byFlush, n, id);
      }
    }
  }

  // The batch that finishes.

  lemma {:induction false} FinishOne(batches: seq<seq<nat>>, running: set<nat>, k: nat, n: nat, id: nat)
    requires n <= |batches| && k in running && k < |batches|
    ensures Finished(batches, running - {k}, n, id) ==
      Finished(batches, running, n, id) + if k < n then Count(batches[k], id) else 0
  {
    if n > 0 {
      FinishOne(batches, running, k, n - 1, id);
    }
  }

  lemma {:induction false} FinishKeepsCompleted(o: Options, w: World, k: nat)
    requires Completed(w) && Indexed(w) && Enabled(o, w, Finish(k))
    ensures Completed(Apply(o, w, Finish(k)))
  {
    var v := Apply(o, w, Finish(k));
    assert v.byLoop + v.byFlush == w.byLoop + w.byFlush - {k};
    forall id: nat ensures Count(v.done, id) == Finished(v.launched, v.byLoop + v.byFlush, |v.launched|, id) {
      CountAppend(w.done, w.launched[k], id);
      FinishOne(w.launched, w.byLoop + w.byFlush, k, |w.launched|, id);
    }
  }

  // Every step.

  lemma {:induction false} StepKeepsOrder(o: Options, w: World, e: Event)
    requires Ordered(w) && Enabled(o, w, e)
    ensures Ordered(Apply(o, w, e))
  {
    match e
    case Receive(waited) =>
      ReceivedMoves(o, w.q, w.size, waited);
      LaunchedKeepsOrder(w, Received(o, w.q, w.size, waited), true);
    case Fire =>
      FiredMoves(o, w.q);
      LaunchedKeepsOrder(w, Fired(o, w.q), true);
    case Flush =>
      FiredMoves(o, w.q);
      LaunchedKeepsOrder(w, Flushed(w.q), false);
    case _ =>
  }

  lemma {:induction false} StepKeepsCompleted(o: Options, w: World, e: Event)
    requires Completed(w) && Indexed(w) && Enabled(o, w, e)
    ensures Completed(Apply(o, w, e)) && Indexed(Apply(o, w, e))
  {
    match e
    case Receive(waited) =>
      LaunchedKeepsCompleted(w, Received(o, w.q, w.size, waited), true);
    case Fire => LaunchedKeepsCompleted(w, Fired(o, w.q), true);
    case Flush => LaunchedKeepsCompleted(w, Flushed(w.q), false);
    case Finish(k) => FinishKeepsCompleted(o, w, k);
    case _ =>
  }

  lemma {:induction false} StepKeepsOnce(o: Options, w: World, e: Event)
    requires Once(w.arrivals) && Enabled(o, w, e)
    ensures Once(Apply(o, w, e).arrivals)
  {
    if e.Accept? {
      forall id: nat ensures Count(w.arrivals + [e.id], id) <= 1 {
        CountAppend(w.arrivals, [e.id], id);
        CountMember(w.arrivals, id);
        assert [e.id][..0] == [];
      }
    }
  }

  lemma {:induction false} LaunchedKeepsSlots(o: Options, w: World, r: (Queue<nat>, Option<seq<nat>>))
    requires Slots(o, w) && Indexed(w)
    requires r.0.activeCount == w.q.activeCount + if r.1.Some? then 1 else 0
    requires r.1.Some? ==> w.q.activeCount < o.maxConcurrentBatches
    ensures Slots(o, Launched(w, r, true))
  {
    assert |w.launched| !in w.byLoop;
    AddOne(w.byLoop, |w.launched|);
  }

  lemma {:induction false} StepKeepsSlots(o: Options, w: World, e: Event)
    requires Slots(o, w) && Indexed(w) && Enabled(o, w, e)
    ensures Slots(o, Apply(o, w, e))
  {
    match e
    case Receive(waited) =>
      LaunchedKeepsSlots(o, w, Received(o, w.q, w.size, waited));
    case Fire => LaunchedKeepsSlots(o, w, Fired(o, w.q));
    case Finish(k) =>
      if k in w.byLoop {
        DropOne(w.byLoop, k);
      } else {
        assert w.byLoop - {k} == w.byLoop;
      }
    case _ =>
  }

  lemma {:induction false} RunKeepsInv(o: Options, w: World, events: seq<Event>)
    requires Inv(o, w) && Legal(o, w, events)
    ensures Inv(o, Play(o, w, events))
    decreases |events|
  {
    if events != [] {
      var e := events[0];
      StepKeepsOrder(o, w, e);
      StepKeepsCompleted(o, w, e);
      StepKeepsOnce(o, w, e);
      StepKeepsSlots(o, w, e);
      RunKeepsInv(o, Apply(o, w, e), events[1..]);
    }
  }

  ghost predicate Reachable(o: Options, w: World) {
    exists events: seq<Event> :: Legal(o, Start(o), events) && Play(o, Start(o), events) == w
  }

  lemma {:induction false} ReachableKeepsInv(o: Options, w: World)
    requires Reachable(o, w)
    ensures Inv(o, w)
  {
    var events: seq<Event> :| Legal(o, Start(o), events) && Play(o, Start(o), events) == w;
    assert Inv(o, Start(o));
    RunKeepsInv(o, Start(o), events);
  }

  /** In every run the batches launched, then the pending list, then the channel, are the arrivals in order. */
  lemma {:induction false} ArrivalOrder(o: Options, w: World)
    requires Reachable(o, w)
    ensures Concat(w.launched) + w.q.items + w.q.channel == w.arrivals
  {
    ReachableKeepsInv(o, w);
  }

  lemma {:induction false} FinishedWithin(batches: seq<seq<nat>>, running: set<nat>, n: nat, id: nat)
    requires n <= |batches|
    ensures Finished(batches, running, n, id) <= Count(Concat(batches[..n]), id)
    ensures running == {} ==> Finished(batches, running, n, id) == Count(Concat(batches[..n]), id)
  {
    if n > 0 {
      FinishedWithin(batches, running, n - 1, id);
      ConcatNext(batches, n - 1, id);
    }
  }

  lemma {:induction false} ConcatNext(batches: seq<seq<nat>>, n: nat, id: nat)
    requires n < |batches|
    ensures Count(Concat(batches[..n + 1]), id) == Count(Concat(batches[..n]), id) + Count(batches[n], id)
  {
    assert batches[..n + 1] == batches[..n] + [batches[n]];
    ConcatSnoc(batches[..n], batches[n]);
    CountAppend(Concat(batches[..n]), batches[n], id);
  }

  lemma {:induction false} FinishedCovers(batches: seq<seq<nat>>, running: set<nat>, n: nat, k: nat, id: nat)
    requires k < n <= |batches| && k !in running
    ensures Count(batches[k], id) <= Finished(batches, running, n, id)
  {
    if k < n - 1 {
      FinishedCovers(batches, running, n - 1, k, id);
    }
  }

  /**
   * Done is closed at most once for every request; exactly once for each request of a batch that has
   * finished; and exactly once for every accepted request once nothing is running, pending or queued.
   */
  lemma {:induction false} DoneExactlyOnce(o: Options, w: World, id: nat)
    requires Reachable(o, w)
    ensures Count(w.done, id) <= Count(w.arrivals, id) <= 1
    ensures forall k: nat | k < |w.launched| && k !in w.byLoop + w.byFlush && id in w.launched[k] ::
      Count(w.done, id) == 1
    ensures w.byLoop + w.byFlush == {} && w.q.items == [] && w.q.channel == [] && id in w.arrivals ==>
      Count(w.done, id) == 1
  {
    ReachableKeepsInv(o, w);
    var n := |w.launched|;
    assert w.launched[..n] == w.launched;
    FinishedWithin(w.launched, w.byLoop + w.byFlush, n, id);
    CountAppend(Concat(w.launched) + w.q.items, w.q.channel, id);
    CountAppend(Concat(w.launched), w.q.items, id);
    CountMember(w.arrivals, id);
    forall k: nat | k < n && k !in w.byLoop + w.byFlush && id in w.launched[k] ensures Count(w.done, id) == 1 {
      CountMember(w.launched[k], id);
      FinishedCovers(w.launched, w.byLoop + w.byFlush, n, k, id);
    }
  }

  /**
   * The loop's concurrency: the active count is exact up to finished Flush batches, which widen the limit
   * by one each; so without Flush the limit holds.
   */
  lemma {:induction false} ConcurrencyLimit(o: Options, w: World)
    requires Reachable(o, w) && o.maxConcurrentBatches >= 0
    ensures |w.byLoop| == w.q.activeCount + w.flushed <= o.maxConcurrentBatches + w.flushed
    ensures w.flushed == 0 ==> |w.byLoop| == w.q.activeCount <= o.maxConcurrentBatches
  {
    ReachableKeepsInv(o, w);
  }

  /**
   * A received request launches a batch exactly when the pending ones have reached the batch size, or the minimum
   * with the first of them waiting long enough, and a slot is free; the batch is all that is pending.
   */
  lemma {:induction false} ReceiveLaunchesIff(o: Options, w: World, waited: int)
    requires Enabled(o, w, Receive(waited))
    ensures
      var (n, v) := (|w.q.items| + 1, Apply(o, w, Receive(waited)));
      var full := n >= w.size || (n >= o.minBatchSize && waited >= o.maxLatency);
      var launches := full && w.q.activeCount < o.maxConcurrentBatches;
      && v.launched == w.launched + (if launches then [w.q.items + [w.q.channel[0]]] else [])
      && v.q.items == (if launches then [] else w.q.items + [w.q.channel[0]])
      && v.q.activeCount == w.q.activeCount + (if launches then 1 else 0)
      && v.q.timerActive == (w.q.timerActive || !full)
      && v.q.channel == w.q.channel[1..]
  {
    assert w.launched + [] == w.launched;
  }

  /** A timer tick launches all that is pending exactly when there is something and a slot is free. */
  lemma {:induction false} FireLaunchesIff(o: Options, w: World)
    requires Enabled(o, w, Fire)
    ensures
      var v := Apply(o, w, Fire);
      var launches := w.q.items != [] && w.q.activeCount < o.maxConcurrentBatches;
      && v.launched == w.launched + (if launches then [w.q.items] else [])
      && v.q.items == (if launches then [] else w.q.items)
      && v.q.activeCount == w.q.activeCount + (if launches then 1 else 0) && !v.q.timerActive
  {
    assert w.launched + [] == w.launched;
  }

  /** A Flush launches all that is pending, whatever slots are taken. */
  lemma {:induction false} FlushLaunchesIff(o: Options, w: World)
    ensures
      var v := Apply(o, w, Flush);
      && v.launched == w.launched + (if w.q.items != [] then [w.q.items] else [])
      && v.q.items == [] && v.q.activeCount == w.q.activeCount && v.q.timerActive == w.q.timerActive
  {
    assert w.launched + [] == w.launched;
  }

  /** The batch size falls under high load and rises under low load, and respects the bound on its side. */
  lemma {:induction false} SizeFollowsLoad(o: Options, w: World, k: nat, load: real)
    requires Enabled(o, w, Processed(k, load)) && 0 <= w.size
    requires o.highLoadFactor <= 1.0 <= o.lowLoadFactor && o.minBatchSize <= w.size <= o.maxBatchSize
    ensures
      var v := Apply(o, w, Processed(k, load));
      && o.minBatchSize <= v.size <= o.maxBatchSize
      && (load > o.highLoad ==> v.size <= w.size)
      && (load <= o.highLoad && load < o.lowLoad ==> v.size >= w.size)
      && (load <= o.highLoad && load >= o.lowLoad ==> v.size == w.size)
  {
    ProcessedResizes(o, w, k, load);
    ResizedFollows(o, w.size, load);
  }

  lemma {:induction false} ProcessedResizes(o: Options, w: World, k: nat, load: real)
    requires Enabled(o, w, Processed(k, load))
    ensures Apply(o, w, Processed(k, load)).size == Resized(o, w.size, load)
  {}

  /** The new size is the scaled one, cut off at the bound on its side. */
  lemma {:induction false} SizeIsScaled(o: Options, w: World, k: nat, load: real)
    requires Enabled(o, w, Processed(k, load))
    ensures
      var (size, low, high) := (Apply(o, w, Processed(k, load)).size,
        Truncated(w.size as real * o.highLoadFactor), Truncated(w.size as real * o.lowLoadFactor));
      && (load > o.highLoad ==> size == if low > o.minBatchSize then low else o.minBatchSize)
      && (load <= o.highLoad && load < o.lowLoad ==> size == if high < o.maxBatchSize then high else o.maxBatchSize)
  {
    ProcessedResizes(o, w, k, load);
  }

  lemma {:induction false} ResizedFollows(o: Options, size: int, load: real)
    requires 0 <= size && o.minBatchSize <= size <= o.maxBatchSize
    requires o.highLoadFactor <= 1.0 <= o.lowLoadFactor
    ensures o.minBatchSize <= Resized(o, size, load) <= o.maxBatchSize
    ensures load > o.highLoad ==> Resized(o, size, load) <= size
    ensures load <= o.highLoad && load < o.lowLoad ==> Resized(o, size, load) >= size
    ensures load <= o.highLoad && load >= o.lowLoad ==> Resized(o, size, load) == size
  {
    ScaledDown(size, o.highLoadFactor);
    ScaledUp(size, o.lowLoadFactor);
  }

  lemma {:induction false} ScaledDown(size: nat, factor: Factor)
    requires factor <= 1.0
    ensures 0 <= Truncated(size as real * factor) <= size
  {
    var x := size as real;
    assert x * factor >= 0.0;
    assert x * (1.0 - factor) >= 0.0;
    assert x * (1.0 - factor) == x - x * factor;
  }

  lemma {:induction false} ScaledUp(size: nat, factor: Factor)
    requires factor >= 1.0
    ensures Truncated(size as real * factor) >= size
  {
    var x := size as real;
    assert x * (factor - 1.0) >= 0.0;
    assert x * (factor - 1.0) == x * factor - x;
  }

  // Refused launches.

  /** Pending requests have a timer running. */
  predicate Attended(w: World) {
    w.q.items != [] ==> w.q.timerActive
  }

  /** The loop has a batch to launch and finds the active count at its limit. */
  predicate Refuses(o: Options, w: World, e: Event) {
    && w.q.activeCount >= o.maxConcurrentBatches
    && match e
      case Receive(waited) => Ready(o, w.size, |w.q.items| + 1, waited)
      case Fire => w.q.items != []
      case _ => false
  }

  /** The pending list loses its timer exactly when a launch is refused and no timer is left running. */
  lemma {:induction false} BecomesUnattendedIff(o: Options, w: World, e: Event)
    requires Attended(w) && Enabled(o, w, e)
    ensures !Attended(Apply(o, w, e)) <==> Refuses(o, w, e) && (e.Fire? || !w.q.timerActive)
  {}

  predicate SomeRefusal(o: Options, w: World, events: seq<Event>)
    requires Legal(o, w, events)
    decreases |events|
  {
    events != [] && (Refuses(o, w, events[0]) || SomeRefusal(o, Apply(o, w, events[0]), events[1..]))
  }

  lemma {:induction false} StaysAttended(o: Options, w: World, events: seq<Event>)
    requires Attended(w) && Legal(o, w, events) && !SomeRefusal(o, w, events)
    ensures Attended(Play(o, w, events))
    decreases |events|
  {
    if events != [] {
      BecomesUnattendedIff(o, w, events[0]);
      StaysAttended(o, Apply(o, w, events[0]), events[1..]);
    }
  }

  /** Requests pending without a timer mean that the run met a launch with the active count at its limit. */
  lemma {:induction false} UnattendedMeansRefused(o: Options, events: seq<Event>)
    requires Legal(o, Start(o), events)
    ensures !Attended(Play(o, Start(o), events)) ==> SomeRefusal(o, Start(o), events)
  {
    if !SomeRefusal(o, Start(o), events) {
      StaysAttended(o, Start(o), events);
    }
  }

  // What the code does not keep.

  lemma {:induction false} LegalAppend(o: Options, w: World, events: seq<Event>, e: Event)
    requires Legal(o, w, events) && Enabled(o, Play(o, w, events), e)
    ensures Legal(o, w, events + [e]) && Play(o, w, events + [e]) == Apply(o, Play(o, w, events), e)
    decreases |events|
  {
    if events == [] {
      assert events + [e] == [e];
    } else {
      assert (events + [e])[1..] == events[1..] + [e];
      LegalAppend(o, Apply(o, w, events[0]), events[1..], e);
    }
  }

  lemma {:induction false} ReachableStep(o: Options, w: World, e: Event)
    requires Reachable(o, w) && Enabled(o, w, e)
    ensures Reachable(o, Apply(o, w, e))
  {
    var events: seq<Event> :| Legal(o, Start(o), events) && Play(o, Start(o), events) == w;
    LegalAppend(o, Start(o), events, e);
  }

  lemma {:induction false} ReachableStart(o: Options)
    ensures Reachable(o, Start(o))
  {
    assert Legal(o, Start(o), []) && Play(o, Start(o), []) == Start(o);
  }

  /** Nothing queued, pending or being flushed, no timer, and the batch size still the initial one. */
  predicate Idle(o: Options, w: World, m: nat) {
    && w.q == Queue([], [], w.q.activeCount, false)
    && w.size == o.maxBatchSize
    && w.byFlush == {}
    && !w.stopped
    && forall id <- w.arrivals :: id < m
  }

  /** A request arrives and is received at once. */
  lemma {:induction false} AcceptAndReceive(o: Options, w: World, m: nat) returns (v: World)
    requires Reachable(o, w) && Idle(o, w, m) && o.maxBatchSize >= 1
    ensures Reachable(o, v)
    ensures v.arrivals == w.arrivals + [m]
    ensures v == Launched(w.(arrivals := v.arrivals), Received(o, w.q.(channel := [m]), w.size, 0), true)
  {
    ReachableStep(o, w, Accept(m));
    v := Apply(o, w, Accept(m));
    assert v.q.channel == [m];
    ReachableStep(o, v, Receive(0));
    v := Apply(o, v, Receive(0));
  }

  /** While every slot is taken a request stays pending, with or without a timer. */
  lemma {:induction false} LeaveOnePending(o: Options, w: World, m: nat) returns (v: World)
    requires Reachable(o, w) && Idle(o, w, m) && o.maxBatchSize >= 1 && w.q.activeCount >= o.maxConcurrentBatches
    ensures Reachable(o, v) && v.arrivals == w.arrivals + [m]
    ensures v == w.(arrivals := v.arrivals, q := Queue([], [m], w.q.activeCount, v.q.timerActive))
  {
    v := AcceptAndReceive(o, w, m);
  }

  /** An idle timer runs out. */
  lemma {:induction false} StopTimer(o: Options, w: World) returns (v: World)
    requires Reachable(o, w) && !w.stopped && (w.q.items == [] || w.q.activeCount >= o.maxConcurrentBatches)
    ensures Reachable(o, v) && v == w.(q := w.q.(timerActive := false))
  {
    v := w;
    if w.q.timerActive {
      ReachableStep(o, w, Fire);
      v := Apply(o, w, Fire);
    }
  }

  /** With every slot taken, a request leaves by Flush and is cancelled: the active count drops by one. */
  lemma {:induction false} LeaveByFlush(o: Options, w: World, m: nat) returns (v: World)
    requires Reachable(o, w) && Idle(o, w, m) && o.maxBatchSize >= 1 && w.q.activeCount >= o.maxConcurrentBatches
    ensures Reachable(o, v) && Idle(o, v, m + 1)
    ensures v.byLoop == w.byLoop && v.q.activeCount == w.q.activeCount - 1
  {
    ReachableKeepsInv(o, w);
    v := LeaveOnePending(o, w, m);
    var k := |w.launched|;
    ReachableStep(o, v, Flush);
    v := Apply(o, v, Flush);
    assert k !in w.byLoop && v.byFlush == {k};
    ReachableStep(o, v, Finish(k));
    v := Apply(o, v, Finish(k));
    v := StopTimer(o, v);
  }

  /** A request is launched by the loop if a slot is free: at once if one request is a batch, else by the timer. */
  lemma {:induction false} LeaveByLoop(o: Options, w: World, m: nat) returns (v: World)
    requires Reachable(o, w) && Idle(o, w, m) && o.maxBatchSize >= 1 && w.q.activeCount < o.maxConcurrentBatches
    ensures Reachable(o, v) && Idle(o, v, m + 1)
    ensures v.byLoop == w.byLoop + {|w.launched|} && v.q.activeCount == w.q.activeCount + 1
    ensures |v.byLoop| == |w.byLoop| + 1
  {
    ReachableKeepsInv(o, w);
    v := AcceptAndReceive(o, w, m);
    if v.q.timerActive {
      ReachableStep(o, v, Fire);
      v := Apply(o, v, Fire);
    }
    assert |w.launched| !in w.byLoop;
    AddOne(w.byLoop, |w.launched|);
  }

  /** With Flush the number of batches the loop runs at once has no bound, whatever the limit. */
  lemma {:induction false} FlushUnboundsConcurrency(o: Options, n: nat) returns (w: World, m: nat)
    requires o.maxBatchSize >= 1 && o.maxConcurrentBatches >= 1
    ensures Reachable(o, w) && Idle(o, w, m) && |w.byLoop| == n
    ensures w.q.activeCount <= o.maxConcurrentBatches
  {
    if n == 0 {
      ReachableStart(o);
      w, m := Start(o), 0;
    } else {
      w, m := FlushUnboundsConcurrency(o, n - 1);
      if w.q.activeCount >= o.maxConcurrentBatches {
        w := LeaveByFlush(o, w, m);
        m := m + 1;
      }
      w := LeaveByLoop(o, w, m);
      m := m + 1;
    }
  }

  /** The loop's batches take the slots one by one. */
  lemma {:induction false} FillSlots(o: Options, n: nat) returns (w: World)
    requires o.maxBatchSize >= 1 && n <= o.maxConcurrentBatches
    ensures Reachable(o, w) && Idle(o, w, n) && w.q.activeCount == n
  {
    if n == 0 {
      ReachableStart(o);
      w := Start(o);
    } else {
      w := FillSlots(o, n - 1);
      w := LeaveByLoop(o, w, n - 1);
    }
  }

  /** All running batches finish. */
  lemma {:induction false} FinishAll(o: Options, w: World) returns (v: World)
    requires Reachable(o, w) && w.byFlush == {}
    ensures Reachable(o, v) && v.byLoop == {} && v.byFlush == {}
    ensures v.q == w.q.(activeCount := v.q.activeCount) && v.stopped == w.stopped
    decreases w.byLoop
  {
    v := w;
    if w.byLoop != {} {
      var k :| k in w.byLoop;
      ReachableKeepsInv(o, w);
      ReachableStep(o, w, Finish(k));
      v := Apply(o, w, Finish(k));
      assert v.byFlush == {};
      v := FinishAll(o, v);
    }
  }

  /**
   * A refused launch can strand a request: under any limit, a request can be left pending with nothing
   * running, nothing queued and no timer.
   */
  lemma {:induction false} RefusalStrands(o: Options) returns (w: World)
    requires o.maxBatchSize >= 1 && o.maxConcurrentBatches >= 1
    ensures Reachable(o, w) && |w.q.items| == 1 && !w.q.timerActive
    ensures w.q.channel == [] && w.byLoop == {} && w.byFlush == {} && !w.stopped
  {
    w := FillSlots(o, o.maxConcurrentBatches);
    w := LeaveOnePending(o, w, o.maxConcurrentBatches);
    w := StopTimer(o, w);
    w := FinishAll(o, w);
  }

  /** Once the loop has stopped, a request still in the channel is never completed. */
  lemma {:induction false} ChannelIsNeverCompleted(o: Options, w: World, events: seq<Event>, id: nat)
    requires Reachable(o, w) && w.stopped && id in w.q.channel && Legal(o, w, events)
    ensures id in Play(o, w, events).q.channel && Count(Play(o, w, events).done, id) == 0
    decreases |events|
  {
    if events == [] {
      ReachableKeepsInv(o, w);
      DoneExactlyOnce(o, w, id);
      var n := |w.launched|;
      assert w.launched[..n] == w.launched;
      FinishedWithin(w.launched, w.byLoop + w.byFlush, n, id);
      CountAppend(Concat(w.launched) + w.q.items, w.q.channel, id);
      CountAppend(Concat(w.launched), w.q.items, id);
      CountMember(w.q.channel, id);
    } else {
      ReachableStep(o, w, events[0]);
      ChannelIsNeverCompleted(o, Apply(o, w, events[0]), events[1..], id);
    }
  }

  /** Some continuation completes the request. */
  ghost predicate CanComplete(o: Options, w: World, id: nat) {
    exists events :: Legal(o, w, events) && Count(Play(o, w, events).done, id) > 0
  }

  lemma {:induction false} CompletesNow(o: Options, w: World, id: nat)
    requires Count(w.done, id) > 0
    ensures CanComplete(o, w, id)
  {
    assert Legal(o, w, []) && Play(o, w, []) == w;
  }

  lemma {:induction false} CompletesAfter(o: Options, w: World, e: Event, id: nat)
    requires Enabled(o, w, e) && CanComplete(o, Apply(o, w, e), id)
    ensures CanComplete(o, w, id)
  {
    var v := Apply(o, w, e);
    var rest :| Legal(o, v, rest) && Count(Play(o, v, rest).done, id) > 0;
    var events := [e] + rest;
    assert events[0] == e && events[1..] == rest;
    assert Legal(o, w, events) && Play(o, w, events) == Play(o, v, rest);
  }

  /** A request in a batch that was launched is completed when the batch finishes, if it has not finished yet. */
  lemma {:induction false} LaunchedCompletes(o: Options, w: World, k: nat, id: nat)
    requires Reachable(o, w) && k < |w.launched| && id in w.launched[k]
    ensures CanComplete(o, w, id)
  {
    CountMember(w.launched[k], id);
    if Running(w, k) {
      CountAppend(w.done, w.launched[k], id);
      CompletesNow(o, Apply(o, w, Finish(k)), id);
      CompletesAfter(o, w, Finish(k), id);
    } else {
      ReachableKeepsInv(o, w);
      FinishedCovers(w.launched, w.byLoop + w.byFlush, |w.launched|, k, id);
      CompletesNow(o, w, id);
    }
  }

  lemma {:induction false} InSomeBatch(batches: seq<seq<nat>>, id: nat) returns (k: nat)
    requires id in Concat(batches)
    ensures k < |batches| && id in batches[k]
  {
    var n := |batches| - 1;
    if id in batches[n] {
      k := n;
    } else {
      k := InSomeBatch(batches[..n], id);
    }
  }

  /** A pending request is completed by a Flush and the end of its batch. */
  lemma {:induction false} PendingCompletes(o: Options, w: World, id: nat)
    requires Reachable(o, w) && id in w.q.items
    ensures CanComplete(o, w, id)
  {
    var v := Apply(o, w, Flush);
    ReachableStep(o, w, Flush);
    assert v.launched[|w.launched|] == w.q.items;
    LaunchedCompletes(o, v, |w.launched|, id);
    CompletesAfter(o, w, Flush, id);
  }

  /**
   * Once the loop has stopped, an accepted request is abandoned, no continuation ever completing it, if and only
   * if it is still in the channel.
   */
  lemma {:induction false} AbandonedIff(o: Options, w: World, id: nat)
    requires Reachable(o, w) && w.stopped && id in w.arrivals
    ensures !CanComplete(o, w, id) <==> id in w.q.channel
  {
    if id in w.q.channel {
      forall events | Legal(o, w, events) ensures Count(Play(o, w, events).done, id) == 0 {
        ChannelIsNeverCompleted(o, w, events, id);
      }
    } else {
      ArrivalOrder(o, w);
      if id in w.q.items {
        PendingCompletes(o, w, id);
      } else {
        assert id in Concat(w.launched);
        var k := InSomeBatch(w.launched, id);
        LaunchedCompletes(o, w, k, id);
      }
    }
  }

  /** A request accepted just before the loop stops is abandoned. */
  lemma {:induction false} StopAbandons(o: Options, id: nat) returns (w: World)
    requires o.maxBatchSize >= 1
    ensures Reachable(o, w) && w.stopped && w.arrivals == [id] && !CanComplete(o, w, id)
  {
    ReachableStart(o);
    ReachableStep(o, Start(o), Accept(id));
    w := Apply(o, Start(o), Accept(id));
    ReachableStep(o, w, Stop);
    w := Apply(o, w, Stop);
    assert w.q.channel == [id];
    AbandonedIff(o, w, id);
  }
}
