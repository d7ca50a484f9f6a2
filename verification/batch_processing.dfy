/**
 * The body of one batch of the adaptive batcher: what each request of the batch is answered, and the
 * method that answers it, whichever exit it takes.
 */
module BatchProcessing {
  import opened Prelude

  /** Requests and responses have dynamic type. */
  datatype Value = Atom(n: int) | List(values: seq<Value>)

  datatype Fault = Canceled | NoBatchRequestFunc | NoSplitResponseFunc | TooFewResponses | ProcessorFault(code: int)

  datatype Reply = Reply(value: Value, error: Option<Fault>)

  type Factor = x: real | x >= 0.0

  datatype Options = Options(
    merge: Option<seq<Value> -> Value>,
    split: Option<(Value, nat) -> seq<Value>>,
    handler: Option<Fault -> Option<Fault>>,
    maxBatchSize: int, minBatchSize: int, maxConcurrentBatches: int, maxLatency: int,
    highLoadFactor: Factor, lowLoadFactor: Factor, highLoad: real, lowLoad: real)

  datatype Outcome = Outcome(response: Option<Value>, error: Option<Fault>)

  /** The requests still live when the batch starts, in order. */
  function Live<T>(items: seq<T>, canceled: seq<bool>): (r: seq<T>)
    requires |items| == |canceled|
    ensures |r| <= |items|
  {
    if items == [] then []
    else
      var n := |items| - 1;
      Live(items[..n], canceled[..n]) + if canceled[n] then [] else [items[n]]
  }

  /** The position of item `i` among the live ones. */
  function Rank(canceled: seq<bool>, i: nat): (k: nat)
    requires i <= |canceled|
  {
    if i == 0 then 0 else Rank(canceled, i - 1) + if canceled[i - 1] then 0 else 1
  }

  function Merged(o: Options, requests: seq<Value>): Value
    requires requests != []
  {
    match o.merge
    case Some(merge) => merge(requests)
    case None => requests[0]
  }

  /** What the live request number `k` of a batch is answered. */
  function LiveOutcome(o: Options, process: Value -> Reply, requests: seq<Value>, k: nat): Outcome
    requires k < |requests|
  {
    if o.merge.None? && |requests| > 1 then Outcome(None, Some(NoBatchRequestFunc))
    else
      var reply := process(Merged(o, requests));
      if reply.error.Some? then
        Outcome(None, if o.handler.Some? then (o.handler.value)(reply.error.value) else reply.error)
      else if |requests| == 1 then Outcome(Some(reply.value), None)
      else if o.split.None? then Outcome(None, Some(NoSplitResponseFunc))
      else
        var responses := (o.split.value)(reply.value, |requests|);
        if k < |responses| then Outcome(Some(responses[k]), None) else Outcome(None, Some(TooFewResponses))
  }

  lemma {:induction false} LiveAtRank<T>(items: seq<T>, canceled: seq<bool>, i: nat)
    requires |items| == |canceled| && i < |items|
    ensures |Live(items, canceled)| == Rank(canceled, |canceled|)
    ensures Rank(canceled, i) <= |Live(items, canceled)|
    ensures !canceled[i] ==>
      Rank(canceled, i) < |Live(items, canceled)| && Live(items, canceled)[Rank(canceled, i)] == items[i]
  {
    var n := |items| - 1;
    RankOfPrefix(canceled, n, n);
    if i < n {
      LiveAtRank(items[..n], canceled[..n], i);
      RankOfPrefix(canceled, n, i);
    } else if n > 0 {
      LiveAtRank(items[..n], canceled[..n], n - 1);
    }
  }

  lemma {:induction false} RankOfPrefix(canceled: seq<bool>, n: nat, i: nat)
    requires i <= n <= |canceled|
    ensures Rank(canceled[..n], i) == Rank(canceled, i)
  {
    if i > 0 {
      RankOfPrefix(canceled, n, i - 1);
    }
  }

  /** What every item of a batch is answered. */
  function Answer(o: Options, process: Value -> Reply, requests: seq<Value>, canceled: seq<bool>, i: nat): Outcome
    requires i < |requests| == |canceled|
  {
    if canceled[i] then Outcome(None, Some(Canceled))
    else
      LiveAtRank(requests, canceled, i);
      LiveOutcome(o, process, Live(requests, canceled), Rank(canceled, i))
  }

  // Batching preserves meaning.

  function Pointwise(f: Value -> Value, requests: seq<Value>): (r: seq<Value>)
    ensures |r| == |requests|
  {
    seq(|requests|, i requires 0 <= i < |requests| => f(requests[i]))
  }

  /** Merging, processing and splitting a list of at least `least` requests acts as `f` on each. */
  ghost predicate ActsPointwise(o: Options, process: Value -> Reply, f: Value -> Value, least: nat) {
    && o.merge.Some?
    && o.split.Some?
    && forall requests: seq<Value> | |requests| >= least ::
      var reply := process((o.merge.value)(requests));
      reply.error.None? && (o.split.value)(reply.value, |requests|) == Pointwise(f, requests)
  }

  /**
   * If merge, process and split together act as `f` on each request, every live item of a batch with at
   * least two live items is answered `f` of its own request, whatever was cancelled around it.
   */
  lemma {:induction false} BatchingPreservesMeaning(
      o: Options, process: Value -> Reply, f: Value -> Value, requests: seq<Value>, canceled: seq<bool>, i: nat)
    requires ActsPointwise(o, process, f, 2)
    requires i < |requests| == |canceled| && !canceled[i] && |Live(requests, canceled)| >= 2
    ensures Answer(o, process, requests, canceled, i) == Outcome(Some(f(requests[i])), None)
  {
    LiveAtRank(requests, canceled, i);
    var live := Live(requests, canceled);
    assert process((o.merge.value)(live)).error.None?;
  }

  /** A batch with one live item answers it the reply to the merged singleton, unsplit. */
  lemma {:induction false} LoneAnswer(
      o: Options, process: Value -> Reply, requests: seq<Value>, canceled: seq<bool>, i: nat)
    requires i < |requests| == |canceled| && !canceled[i] && |Live(requests, canceled)| == 1
    requires o.merge.Some? && process((o.merge.value)([requests[i]])).error.None?
    ensures Answer(o, process, requests, canceled, i) ==
      Outcome(Some(process((o.merge.value)([requests[i]])).value), None)
  {
    LiveAtRank(requests, canceled, i);
    assert Live(requests, canceled) == [requests[i]];
  }

  // Every other exit.

  /** The request that the processor gets: the merged live ones, or the only one. */
  function Sent(o: Options, live: seq<Value>): Value
    requires live != []
  {
    if o.merge.Some? then (o.merge.value)(live) else live[0]
  }

  /** A cancelled item is answered so, whatever else happens. */
  lemma {:induction false} CanceledIsTold(
      o: Options, process: Value -> Reply, requests: seq<Value>, canceled: seq<bool>, i: nat)
    requires i < |requests| == |canceled| && canceled[i]
    ensures Answer(o, process, requests, canceled, i).response == None
    ensures Answer(o, process, requests, canceled, i).error == Some(Canceled)
  {}

  /**
   * A processor's fault reaches every live item of the batch, in place of a response; with a handler, what the
   * handler makes of it.
   */
  lemma {:induction false} FaultReachesEveryone(
      o: Options, process: Value -> Reply, requests: seq<Value>, canceled: seq<bool>, i: nat, fault: Fault)
    requires i < |requests| == |canceled| && !canceled[i]
    requires var live := Live(requests, canceled);
      |live| > 0 && (o.merge.Some? || |live| == 1) && process(Sent(o, live)).error == Some(fault)
    ensures Answer(o, process, requests, canceled, i).response == None
    ensures o.handler.None? ==> Answer(o, process, requests, canceled, i).error == Some(fault)
    ensures o.handler.Some? ==> Answer(o, process, requests, canceled, i).error == (o.handler.value)(fault)
  {
    LiveAtRank(requests, canceled, i);
  }

  /** Several live items without a way to merge them all fail for that reason, and the processor is not asked. */
  lemma {:induction false} UnmergeableFails(
      o: Options, process: Value -> Reply, process': Value -> Reply, requests: seq<Value>, canceled: seq<bool>, i: nat)
    requires i < |requests| == |canceled| && !canceled[i] && o.merge.None? && |Live(requests, canceled)| > 1
    ensures Answer(o, process, requests, canceled, i) == Answer(o, process', requests, canceled, i)
    ensures Answer(o, process, requests, canceled, i).response == None
    ensures Answer(o, process, requests, canceled, i).error == Some(NoBatchRequestFunc)
  {
    LiveAtRank(requests, canceled, i);
  }

  /**
   * A live item gets a response exactly when the batch could be sent, was processed without fault, and the item is
   * alone or the split reply reaches its rank; the response is then the whole reply, or the item's part of it.
   */
  lemma {:induction false} ResponseIff(
      o: Options, process: Value -> Reply, requests: seq<Value>, canceled: seq<bool>, i: nat)
    requires i < |requests| == |canceled| && !canceled[i] && |Live(requests, canceled)| > 0
    ensures
      var (live, k, answer) :=
        (Live(requests, canceled), Rank(canceled, i), Answer(o, process, requests, canceled, i));
      var reply := process(Sent(o, live));
      && k < |live| && live[k] == requests[i]
      && (answer.response.Some? <==>
            && (o.merge.Some? || |live| == 1) && reply.error.None?
            && (|live| == 1 || (o.split.Some? && k < |(o.split.value)(reply.value, |live|)|)))
      && (answer.response.Some? ==>
            answer.response.value ==
              if |live| == 1 then reply.value else (o.split.value)(reply.value, |live|)[k])
  {
    LiveAtRank(requests, canceled, i);
  }

  /** The error of a live item among several, when the batch was sent and processed without fault. */
  lemma {:induction false} SplitErrors(
      o: Options, process: Value -> Reply, requests: seq<Value>, canceled: seq<bool>, i: nat)
    requires i < |requests| == |canceled| && !canceled[i] && |Live(requests, canceled)| > 1 && o.merge.Some?
    requires process(Sent(o, Live(requests, canceled))).error.None?
    ensures
      var (n, k) := (|Live(requests, canceled)|, Rank(canceled, i));
      Answer(o, process, requests, canceled, i).error ==
        if o.split.None? then Some(NoSplitResponseFunc)
        else if |(o.split.value)(process(Sent(o, Live(requests, canceled))).value, n)| <= k then Some(TooFewResponses)
        else None
  {
    LiveAtRank(requests, canceled, i);
  }

  /** Without a handler every item ends with exactly one of a response and an error. */
  lemma {:induction false} ExactlyOneAnswer(
      o: Options, process: Value -> Reply, requests: seq<Value>, canceled: seq<bool>, i: nat)
    requires i < |requests| == |canceled| && o.handler.None?
    ensures Answer(o, process, requests, canceled, i).response.Some? <==>
      Answer(o, process, requests, canceled, i).error.None?
  {
    LiveAtRank(requests, canceled, i);
  }

  /** A processor that fails whatever it is sent. */
  function Failing(code: int): Value -> Reply {
    _ => Reply(Atom(0), Some(ProcessorFault(code)))
  }

  lemma {:induction false} SomeLive(canceled: seq<bool>) returns (i: nat)
    requires Rank(canceled, |canceled|) > 0
    ensures i < |canceled| && !canceled[i]
  {
    var n := |canceled| - 1;
    if canceled[n] {
      RankOfPrefix(canceled, n, n);
      i := SomeLive(canceled[..n]);
    } else {
      i := n;
    }
  }

  /** A batch gets as far as the processor exactly when a failing processor makes itself felt. */
  lemma {:induction false} ProcessesIff(o: Options, requests: seq<Value>, canceled: seq<bool>, code: int)
    requires |requests| == |canceled| && o.handler.None?
    ensures Processes(o, |Live(requests, canceled)|) <==>
      exists i: nat | i < |requests| ::
        Answer(o, Failing(code), requests, canceled, i) == Outcome(None, Some(ProcessorFault(code)))
  {
    var live := Live(requests, canceled);
    forall i: nat | i < |requests| && !canceled[i]
      ensures Processes(o, |live|) <==>
        Answer(o, Failing(code), requests, canceled, i) == Outcome(None, Some(ProcessorFault(code)))
    {
      LiveAtRank(requests, canceled, i);
    }
    if Processes(o, |live|) {
      LiveAtRank(requests, canceled, |requests| - 1);
      var i := SomeLive(canceled);
    }
  }

  // Transparency.

  /** Whatever it is batched with and whatever is cancelled, every live item is answered `f` of its own request. */
  ghost predicate Transparent(o: Options, process: Value -> Reply, f: Value -> Value) {
    forall requests: seq<Value>, canceled: seq<bool>, i: nat | i < |requests| == |canceled| && !canceled[i] ::
      Answer(o, process, requests, canceled, i) == Outcome(Some(f(requests[i])), None)
  }

  /** Splitting the reply to a single request leaves it as it is. */
  ghost predicate SplitKeepsSingles(o: Options, process: Value -> Reply) {
    && o.merge.Some? && o.split.Some?
    && forall request: Value :: SplitKeeps(o.split.value, process((o.merge.value)([request])).value)
  }

  predicate SplitKeeps(split: (Value, nat) -> seq<Value>, reply: Value) {
    split(reply, 1) == [reply]
  }

  lemma {:induction false} SingleActs(o: Options, process: Value -> Reply, f: Value -> Value, request: Value)
    requires ActsPointwise(o, process, f, 1)
    ensures var reply := process((o.merge.value)([request]));
      reply.error.None? && (o.split.value)(reply.value, 1) == [f(request)]
  {
    assert Pointwise(f, [request]) == [f(request)];
    assert |[request]| == 1;
  }

  /**
   * When merge, process and split act as `f` on every list, single requests included, batching is transparent
   * if and only if splitting the reply to a single request leaves it as it is: the batch of one is not split.
   */
  lemma {:induction false} TransparentIff(o: Options, process: Value -> Reply, f: Value -> Value)
    requires ActsPointwise(o, process, f, 1)
    ensures Transparent(o, process, f) <==> SplitKeepsSingles(o, process)
  {
    if Transparent(o, process, f) {
      forall request: Value ensures SplitKeeps(o.split.value, process((o.merge.value)([request])).value) {
        SingleActs(o, process, f, request);
        SingleIsLive(request);
        LoneAnswer(o, process, [request], [false], 0);
        assert Answer(o, process, [request], [false], 0) == Outcome(Some(f([request][0])), None);
      }
    }
    if SplitKeepsSingles(o, process) {
      forall requests: seq<Value>, canceled: seq<bool>, i: nat | i < |requests| == |canceled| && !canceled[i]
        ensures Answer(o, process, requests, canceled, i) == Outcome(Some(f(requests[i])), None)
      {
        SplitKeepsAnswers(o, process, f, requests, canceled, i);
      }
    }
  }

  lemma {:induction false} SingleIsLive(request: Value)
    ensures Live([request], [false]) == [request]
  {
    assert [request][..0] == [] && [false][..0] == [];
  }

  lemma {:induction false} SplitKeepsAnswers(
      o: Options, process: Value -> Reply, f: Value -> Value, requests: seq<Value>, canceled: seq<bool>, i: nat)
    requires ActsPointwise(o, process, f, 1) && SplitKeepsSingles(o, process)
    requires i < |requests| == |canceled| && !canceled[i]
    ensures Answer(o, process, requests, canceled, i) == Outcome(Some(f(requests[i])), None)
  {
    LiveAtRank(requests, canceled, i);
    if |Live(requests, canceled)| >= 2 {
      BatchingPreservesMeaning(o, process, f, requests, canceled, i);
    } else {
      SingleActs(o, process, f, requests[i]);
      LoneAnswer(o, process, requests, canceled, i);
      assert SplitKeeps(o.split.value, process((o.merge.value)([requests[i]])).value);
    }
  }

  // The batcher that NewMultiProcessorBatcher builds from a processor of independent requests.

  /** Responses and errors, one of each per request if the processor keeps its word. */
  type Many = seq<Value> -> (seq<Value>, seq<Value>)

  function MultiOptions(o: Options): Options {
    o.(merge := if o.merge.Some? then o.merge else Some((requests: seq<Value>) => List(requests)),
       split := if o.split.Some? then o.split else Some((reply: Value, count: nat) =>
         if reply.List? && |reply.values| == 2 && reply.values[0].List? then reply.values[0].values
         else seq(count, _ => Atom(0))))
  }

  function MultiProcess(many: Many): Value -> Reply {
    (request: Value) =>
      if request.List? then
        var (responses, errors) := many(request.values);
        Reply(List([List(responses), List(errors)]), None)
      else Reply(Atom(0), Some(ProcessorFault(0)))
  }

  /** With the default merge and split it acts as the processor's responses, whatever errors come with them. */
  lemma {:induction false} MultiActsPointwise(o: Options, many: Many, f: Value -> Value)
    requires o.merge.None? && o.split.None? && forall requests :: many(requests).0 == Pointwise(f, requests)
    ensures ActsPointwise(MultiOptions(o), MultiProcess(many), f, 1)
  {
    var m := MultiOptions(o);
    forall requests: seq<Value> | |requests| >= 1
      ensures var reply := MultiProcess(many)((m.merge.value)(requests));
        reply.error.None? && (m.split.value)(reply.value, |requests|) == Pointwise(f, requests)
    {
      assert (m.merge.value)(requests) == List(requests);
    }
  }

  /** Such a batcher hands the only live item of any batch the whole reply record instead of its response. */
  lemma {:induction false} MultiLoneRequest(o: Options, many: Many, requests: seq<Value>, canceled: seq<bool>, i: nat)
    requires o.merge.None? && i < |requests| == |canceled| && !canceled[i] && |Live(requests, canceled)| == 1
    ensures
      var (responses, errors) := many([requests[i]]);
      Answer(MultiOptions(o), MultiProcess(many), requests, canceled, i) ==
        Outcome(Some(List([List(responses), List(errors)])), None)
  {
    var m := MultiOptions(o);
    assert (m.merge.value)([requests[i]]) == List([requests[i]]);
    LoneAnswer(m, MultiProcess(many), requests, canceled, i);
  }

  /** So it is never transparent: a lone request never gets its own response. */
  lemma {:induction false} MultiIsNeverTransparent(o: Options, many: Many, f: Value -> Value)
    requires o.merge.None? && o.split.None? && forall requests :: many(requests).0 == Pointwise(f, requests)
    ensures !Transparent(MultiOptions(o), MultiProcess(many), f)
  {
    var request := Atom(0);
    SingleIsLive(request);
    MultiLoneRequest(o, many, [request], [false], 0);
    assert many([request]).0 == Pointwise(f, [request]) == [f(request)];
    NotItsOwnPart(f(request), many([request]).1);
    assert Answer(MultiOptions(o), MultiProcess(many), [request], [false], 0) != Outcome(Some(f([request][0])), None);
  }

  lemma {:induction false} NotItsOwnPart(x: Value, errors: seq<Value>)
    ensures x != List([List([x]), List(errors)])
  {
    var inner := List([x]);
    assert x in inner.values && inner in [inner, List(errors)];
  }

  // The code.

  class RequestItem {
    const request: Value
    const arrivedAt: int
    var response: Option<Value>
    var error: Option<Fault>
    /** How often Done has been closed; a second time would panic. */
    var closes: nat

    constructor (request: Value, now: int)
      ensures this.request == request && arrivedAt == now && response == None && error == None && closes == 0
    {
      this.request, this.arrivedAt := request, now;
      response, error, closes := None, None, 0;
    }

    ghost predicate Waiting()
      reads this
    {
      response == None && error == None && closes == 0
    }

    ghost predicate Answered(outcome: Outcome)
      reads this
    {
      response == outcome.response && error == outcome.error && closes == 1
    }

    method Fail(fault: Option<Fault>)
      requires Waiting()
      modifies this
      ensures Answered(Outcome(None, fault))
    {
      error := fault;
      closes := closes + 1;
    }

    method Respond(value: Value)
      requires Waiting()
      modifies this
      ensures Answered(Outcome(Some(value), None))
    {
      response := Some(value);
      closes := closes + 1;
    }
  }

  ghost predicate Distinct(items: seq<RequestItem>) {
    forall i, j | 0 <= i < j < |items| :: items[i] != items[j]
  }

  ghost function Requests(items: seq<RequestItem>): (r: seq<Value>)
    ensures |r| == |items|
  {
    seq(|items|, i requires 0 <= i < |items| => items[i].request)
  }

  /** The live items are distinct items of the batch, and none of them is cancelled. */
  lemma {:induction false} LiveDistinct(items: seq<RequestItem>, canceled: seq<bool>)
    requires |items| == |canceled| && Distinct(items)
    ensures Distinct(Live(items, canceled))
    ensures forall c <- Live(items, canceled) :: c in items
    ensures forall i | 0 <= i < |items| && canceled[i] :: items[i] !in Live(items, canceled)
  {
    if items != [] {
      var n := |items| - 1;
      var k := Live(items[..n], canceled[..n]);
      LiveDistinct(items[..n], canceled[..n]);
      assert forall c <- k :: c in items[..n];
      assert items[n] !in items[..n];
      forall i | 0 <= i < |items| && canceled[i] ensures items[i] !in Live(items, canceled) {
        if i < n {
          assert items[..n][i] == items[i] && canceled[..n][i];
        }
      }
      assert Live(items, canceled) == if canceled[n] then k else k + [items[n]];
    }
  }

  lemma {:induction false} LiveRequests(items: seq<RequestItem>, canceled: seq<bool>)
    requires |items| == |canceled|
    ensures Requests(Live(items, canceled)) == Live(Requests(items), canceled)
  {
    if items != [] {
      var n := |items| - 1;
      LiveRequests(items[..n], canceled[..n]);
      assert Requests(items)[..n] == Requests(items[..n]);
    }
  }

  method FailAll(items: seq<RequestItem>, fault: Option<Fault>)
    requires Distinct(items) && forall c <- items :: c.Waiting()
    modifies items
    ensures forall c <- items :: c.Answered(Outcome(None, fault))
  {
    for k := 0 to |items|
      invariant forall m | 0 <= m < k :: items[m].Answered(Outcome(None, fault))
      invariant forall m | k <= m < |items| :: items[m].Waiting()
    {
      items[k].Fail(fault);
    }
  }

  /** Hand out split responses in order; items beyond them fail. */
  method Distribute(items: seq<RequestItem>, responses: seq<Value>)
    requires Distinct(items) && forall c <- items :: c.Waiting()
    modifies items
    ensures forall m | 0 <= m < |items| :: items[m].Answered(
      if m < |responses| then Outcome(Some(responses[m]), None) else Outcome(None, Some(TooFewResponses)))
  {
    for k := 0 to |items|
      invariant forall m | 0 <= m < k :: items[m].Answered(
        if m < |responses| then Outcome(Some(responses[m]), None) else Outcome(None, Some(TooFewResponses)))
      invariant forall m | k <= m < |items| :: items[m].Waiting()
    {
      if k < |responses| {
        items[k].Respond(responses[k]);
      } else {
        items[k].Fail(Some(TooFewResponses));
      }
    }
  }

  /** The batch size after a processed batch, given the load measured by the statistics loop. */
  function Resized(o: Options, size: int, load: real): int {
    if load > o.highLoad then
      var n := Truncated(size as real * o.highLoadFactor);
      if n < o.minBatchSize then o.minBatchSize else n
    else if load < o.lowLoad then
      var n := Truncated(size as real * o.lowLoadFactor);
      if n > o.maxBatchSize then o.maxBatchSize else n
    else size
  }

  function Truncated(x: real): int {
    if x >= 0.0 then x.Floor else -(-x).Floor
  }

  /** The batcher between batches: the channel, the pending list, the count of active batches and the timer. */
  datatype Queue<T> = Queue(channel: seq<T>, items: seq<T>, activeCount: int, timerActive: bool)

  /** Take the pending list as a batch if a slot is free. */
  function Launch<T>(o: Options, q: Queue<T>): (Queue<T>, Option<seq<T>>) {
    if q.activeCount >= o.maxConcurrentBatches then (q, None)
    else (q.(items := [], activeCount := q.activeCount + 1), Some(q.items))
  }

  /** Whether `count` pending items are a batch, given the size in force and how long the first has waited. */
  predicate Ready(o: Options, size: int, count: nat, waited: int) {
    count >= size || (count >= o.minBatchSize && waited >= o.maxLatency)
  }

  /** The loop receives the next request. */
  function Received<T>(o: Options, q: Queue<T>, size: int, waited: int): (Queue<T>, Option<seq<T>>)
    requires q.channel != []
  {
    var r := q.(channel := q.channel[1..], items := q.items + [q.channel[0]]);
    if Ready(o, size, |r.items|, waited) then Launch(o, r) else (r.(timerActive := true), None)
  }

  /** The timer fires. */
  function Fired<T>(o: Options, q: Queue<T>): (Queue<T>, Option<seq<T>>) {
    var r := q.(timerActive := false);
    if q.items == [] then (r, None) else Launch(o, r)
  }

  /** Flush takes the pending list without taking a slot. */
  function Flushed<T>(q: Queue<T>): (Queue<T>, Option<seq<T>>) {
    if q.items == [] then (q, None) else (q.(items := []), Some(q.items))
  }

  /** Whether a batch gets as far as the processor. */
  predicate Processes(o: Options, live: nat) {
    live == 1 || (live > 1 && o.merge.Some?)
  }

  function Normalised(o: Options): Options {
    o.(maxBatchSize := if o.maxBatchSize <= 0 then 100 else o.maxBatchSize,
       minBatchSize := if o.minBatchSize <= 0 then 1 else o.minBatchSize,
       maxConcurrentBatches := if o.maxConcurrentBatches <= 0 then 10 else o.maxConcurrentBatches,
       maxLatency := if o.maxLatency <= 0 then 100 else o.maxLatency)
  }

  /** The limits a batcher works with are positive, and those asked for wherever these are. */
  lemma {:induction false} LimitsArePositive(o: Options)
    ensures var n := Normalised(o);
      && n.maxBatchSize == (if o.maxBatchSize > 0 then o.maxBatchSize else 100)
      && n.minBatchSize == (if o.minBatchSize > 0 then o.minBatchSize else 1)
      && n.maxConcurrentBatches == (if o.maxConcurrentBatches > 0 then o.maxConcurrentBatches else 10)
      && n.maxLatency == (if o.maxLatency > 0 then o.maxLatency else 100)
      && n.maxBatchSize > 0 && n.minBatchSize > 0 && n.maxConcurrentBatches > 0 && n.maxLatency > 0
    ensures Normalised(Normalised(o)) == Normalised(o)
  {}

  /** Sizes are rounded towards zero. */
  lemma {:induction false} TruncatedIsTowardsZero(x: real)
    ensures x >= 0.0 ==> Truncated(x) as real <= x < Truncated(x) as real + 1.0
    ensures x <= 0.0 ==> Truncated(x) as real - 1.0 < x <= Truncated(x) as real
  {}

  class AdaptiveBatcher {
    const opts: Options
    var requestChan: seq<RequestItem>
    var items: seq<RequestItem>
    var activeCount: int
    var timerActive: bool
    var currentBatchSize: int

    ghost function View(): Queue<RequestItem>
      reads this
    {
      Queue(requestChan, items, activeCount, timerActive)
    }

    /** Limits that are not positive get defaults; times are in milliseconds. */
    constructor (options: Options)
      ensures opts == Normalised(options) && currentBatchSize == opts.maxBatchSize
      ensures View() == Queue([], [], 0, false)
    {
      var o := options;
      if o.maxBatchSize <= 0 {
        o := o.(maxBatchSize := 100);
      }
      if o.minBatchSize <= 0 {
        o := o.(minBatchSize := 1);
      }
      if o.maxConcurrentBatches <= 0 {
        o := o.(maxConcurrentBatches := 10);
      }
      if o.maxLatency <= 0 {
        o := o.(maxLatency := 100);
      }
      this.opts := o;
      requestChan, items, activeCount, timerActive := [], [], 0, false;
      currentBatchSize := o.maxBatchSize;
    }

    /** Reserve a slot for a batch unless all are taken. */
    method TryActivate() returns (canProcess: bool)
      modifies this`activeCount
      ensures canProcess == (old(activeCount) < opts.maxConcurrentBatches)
      ensures activeCount == old(activeCount) + if canProcess then 1 else 0
    {
      canProcess := true;
      if activeCount >= opts.maxConcurrentBatches {
        canProcess := false;
      } else {
        activeCount := activeCount + 1;
      }
    }

    /** One turn of the loop that receives a request; a batch returned is to be processed on its own. */
    method Receive(now: int) returns (batch: Option<seq<RequestItem>>)
      requires requestChan != []
      modifies this
      ensures var first := (old(items) + [old(requestChan)[0]])[0];
        (View(), batch) == Received(opts, old(View()), currentBatchSize, now - first.arrivedAt)
      ensures currentBatchSize == old(currentBatchSize)
    {
      var item := requestChan[0];
      requestChan := requestChan[1..];
      items := items + [item];
      var itemCount := |items|;
      var shouldProcess := false;
      if itemCount >= currentBatchSize {
        shouldProcess := true;
      } else if itemCount >= opts.minBatchSize {
        shouldProcess := now - items[0].arrivedAt >= opts.maxLatency;
      }
      if !shouldProcess && !timerActive && itemCount > 0 {
        timerActive := true;
      }
      if shouldProcess {
        var canProcess := TryActivate();
        if canProcess {
          batch := Some(items);
          items := [];
          return;
        }
      }
      batch := None;
    }

    /** One turn of the loop in which the timer has fired. */
    method TimerFired() returns (batch: Option<seq<RequestItem>>)
      modifies this
      ensures (View(), batch) == Fired(opts, old(View()))
      ensures currentBatchSize == old(currentBatchSize)
    {
      timerActive := false;
      if |items| > 0 {
        var canProcess := TryActivate();
        if canProcess {
          batch := Some(items);
          items := [];
          return;
        }
      }
      batch := None;
    }

    /** The critical section of Flush; a batch returned is processed by the caller of Flush. */
    method TakeForFlush() returns (batch: Option<seq<RequestItem>>)
      modifies this`items
      ensures (View(), batch) == Flushed(old(View()))
    {
      if |items| > 0 {
        batch := Some(items);
        items := [];
      } else {
        batch := None;
      }
    }

    /** The first loop: fail the cancelled items and collect the others. */
    method DropCanceled(items: seq<RequestItem>, canceled: seq<bool>) returns (validItems: seq<RequestItem>)
      requires |items| == |canceled| && Distinct(items) && forall c <- items :: c.Waiting()
      modifies items
      ensures validItems == Live(items, canceled)
      ensures forall i | 0 <= i < |items| ::
        if canceled[i] then items[i].Answered(Outcome(None, Some(Canceled))) else items[i].Waiting()
    {
      validItems := [];
      for i := 0 to |items|
        invariant validItems == Live(items[..i], canceled[..i])
        invariant forall j | 0 <= j < i ::
          if canceled[j] then items[j].Answered(Outcome(None, Some(Canceled))) else items[j].Waiting()
        invariant forall j | i <= j < |items| :: items[j].Waiting()
      {
        assert items[..i + 1][..i] == items[..i] && canceled[..i + 1][..i] == canceled[..i];
        if !canceled[i] {
          validItems := validItems + [items[i]];
        } else {
          items[i].Fail(Some(Canceled));
        }
      }
      assert items[..|items|] == items && canceled[..|items|] == canceled;
    }

    /** Everything after the cancellation check; `load` is the measured load factor. */
    method AnswerLive(validItems: seq<RequestItem>, process: Value -> Reply, load: real)
      requires validItems != [] && Distinct(validItems) && forall c <- validItems :: c.Waiting()
      modifies this`activeCount, this`currentBatchSize, validItems
      ensures forall k | 0 <= k < |validItems| ::
        validItems[k].Answered(LiveOutcome(opts, process, Requests(validItems), k))
      ensures activeCount == old(activeCount) - 1
      ensures currentBatchSize ==
        if Processes(opts, |validItems|) then Resized(opts, old(currentBatchSize), load) else old(currentBatchSize)
    {
      var batchRequest;
      if opts.merge.Some? {
        var requests := seq(|validItems|, i requires 0 <= i < |validItems| => validItems[i].request);
        batchRequest := (opts.merge.value)(requests);
      } else if |validItems| == 1 {
        batchRequest := validItems[0].request;
      } else {
        FailAll(validItems, Some(NoBatchRequestFunc));
        activeCount := activeCount - 1;
        return;
      }
      var reply := process(batchRequest);
      currentBatchSize := Resized(opts, currentBatchSize, load);
      if reply.error.Some? {
        var err := reply.error;
        if opts.handler.Some? {
          err := (opts.handler.value)(reply.error.value);
        }
        FailAll(validItems, err);
      } else if opts.split.Some? && |validItems| > 1 {
        var responses := (opts.split.value)(reply.value, |validItems|);
        Distribute(validItems, responses);
      } else if |validItems| == 1 {
        validItems[0].Respond(reply.value);
      } else {
        FailAll(validItems, Some(NoSplitResponseFunc));
      }
      activeCount := activeCount - 1;
    }

    /**
     * One batch. Every item is answered and its Done closed exactly once, whichever exit is taken, and the
     * active count drops by one.
     */
    method ProcessBatch(batch: seq<RequestItem>, canceled: seq<bool>, process: Value -> Reply, load: real)
      requires |batch| == |canceled| && Distinct(batch) && forall c <- batch :: c.Waiting()
      modifies this`activeCount, this`currentBatchSize, batch
      ensures forall i | 0 <= i < |batch| ::
        batch[i].Answered(Answer(opts, process, Requests(batch), canceled, i))
      ensures activeCount == old(activeCount) - if batch == [] then 0 else 1
      ensures currentBatchSize ==
        if Processes(opts, |Live(batch, canceled)|) then Resized(opts, old(currentBatchSize), load)
        else old(currentBatchSize)
    {
      if |batch| == 0 {
        return;
      }
      var validItems := DropCanceled(batch, canceled);
      LiveDistinct(batch, canceled);
      LiveRequests(batch, canceled);
      if |validItems| == 0 {
        forall i | 0 <= i < |batch| ensures canceled[i] {
          LiveAtRank(batch, canceled, i);
        }
        activeCount := activeCount - 1;
        return;
      }
      assert forall k | 0 <= k < |validItems| :: validItems[k] in batch;
      AnswerLive(validItems, process, load);
      forall i | 0 <= i < |batch|
        ensures batch[i].Answered(Answer(opts, process, Requests(batch), canceled, i))
      {
        LiveAtRank(batch, canceled, i);
        LiveAtRank(Requests(batch), canceled, i);
      }
    }
  }
}
