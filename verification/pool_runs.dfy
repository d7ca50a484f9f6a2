/** Every interleaving of the pool's critical sections: capacity, the ledger of connections, idle order. */
module PoolRuns {
  import opened Prelude
  import opened ConnPool

  datatype Event =
    | Begin(now: int)
    | Woken(now: int)
    | GaveUp
    | Made(id: nat)
    | FactoryFailed
    | Return(id: nat, now: int)
    | CloseAll
    | Tick(now: int)
    | HealthCheck(bad: set<nat>)
    | Resize(limit: int)

  /**
   * The pool; the latest time used; the connections checked out and the creations in flight; and every
   * connection ever made, every one whose client was closed (in order), and those dropped by Put.
   */
  datatype World = World(
    p: Pool, clock: int, out: set<nat>, pending: nat, made: set<nat>, shut: seq<nat>, lost: set<nat>)

  function Start(limit: int, now: int): World {
    World(Pool([], 0, 0, limit, false), now, {}, 0, {}, [], {})
  }

  function TimeOf(w: World, e: Event): int {
    match e
    case Begin(now) => now
    case Woken(now) => now
    case Return(_, now) => now
    case Tick(now) => now
    case _ => w.clock
  }

  /** A checked-out connection is returned once; waiters are the only ones to be woken or give up. */
  predicate Enabled(w: World, e: Event) {
    && TimeOf(w, e) >= w.clock
    && match e
      case Woken(_) => w.p.waitCount > 0
      case GaveUp => w.p.waitCount > 0
      case Made(id) => w.pending > 0 && id !in w.made
      case FactoryFailed => w.pending > 0
      case Return(id, _) => id in w.out
      case _ => true
  }

  function Took(w: World, e: Effect, now: int): World {
    var v := w.(p := e.pool, clock := now, shut := w.shut + e.shut);
    match e.outcome
    case Reused(c) => v.(out := w.out + {c.id})
    case Reserved => v.(pending := w.pending + 1)
    case _ => v
  }

  function Swept(w: World, r: (Pool, seq<nat>), now: int): World {
    w.(p := r.0, clock := now, shut := w.shut + r.1)
  }

  function Apply(o: Options, w: World, e: Event): World {
    match e
    case Begin(now) => Took(w, Began(o, w.p, now), now)
    case Woken(now) => Took(w, Retried(o, w.p, now), now)
    case GaveUp => w.(p := w.p.(waitCount := w.p.waitCount - 1))
    case Made(id) =>
      w.(pending := if w.pending > 0 then w.pending - 1 else 0, out := w.out + {id}, made := w.made + {id})
    case FactoryFailed => w.(pending := if w.pending > 0 then w.pending - 1 else 0, p := w.p.(active := w.p.active - 1))
    case Return(id, now) =>
      Swept(w, Returned(o, w.p, id, now), now).(
        out := w.out - {id}, lost := w.lost + if FateOf(o, w.p) == Dropped then {id} else {})
    case CloseAll => Swept(w, ShutDown(w.p), w.clock)
    case Tick(now) => Swept(w, Cleaned(o, w.p, now), now)
    case HealthCheck(bad) => Swept(w, Checked(w.p, bad), w.clock)
    case Resize(limit) => w.(p := w.p.(limit := limit))
  }

  function Play(o: Options, w: World, events: seq<Event>): World
    decreases |events|
  {
    if events == [] then w else Play(o, Apply(o, w, events[0]), events[1..])
  }

  predicate Legal(o: Options, w: World, events: seq<Event>)
    decreases |events|
  {
    events == [] || (Enabled(w, events[0]) && Legal(o, Apply(o, w, events[0]), events[1..]))
  }

  // Capacity.

  function Load(p: Pool): int {
    p.active + |p.idle|
  }

  /** No step but a resize raises active + idle above both its value and a positive limit. */
  lemma {:induction false} StepRespectsLimit(o: Options, w: World, e: Event)
    requires Enabled(w, e) && !e.Resize? && w.p.limit > 0
    ensures Load(Apply(o, w, e).p) <= Load(w.p) || Load(Apply(o, w, e).p) <= w.p.limit
    ensures Apply(o, w, e).p.limit == w.p.limit
  {}

  /** While every limit in force lies in 1..peak, active + idle never exceeds `peak`. */
  lemma {:induction false} LoadStaysBelowPeak(o: Options, w: World, events: seq<Event>, peak: int)
    requires Legal(o, w, events) && Load(w.p) <= peak && 0 < w.p.limit <= peak
    requires forall e <- events :: e.Resize? ==> 0 < e.limit <= peak
    ensures Load(Play(o, w, events).p) <= peak
    decreases |events|
  {
    if events != [] {
      var e := events[0];
      assert e in events;
      if !e.Resize? {
        StepRespectsLimit(o, w, e);
      }
      LoadStaysBelowPeak(o, Apply(o, w, e), events[1..], peak);
    }
  }

  /** The capacity of a pool whose MaxActive is positive and fixed, over all interleavings. */
  lemma {:induction false} Capacity(o: Options, limit: int, now: int, events: seq<Event>)
    requires limit > 0 && Legal(o, Start(limit, now), events)
    requires forall e <- events :: !e.Resize?
    ensures Load(Play(o, Start(limit, now), events).p) <= limit
  {
    LoadStaysBelowPeak(o, Start(limit, now), events, limit);
  }

  /** On an open pool `active` is what is checked out plus what is being created. */
  predicate Counted(o: Options, w: World) {
    && (!w.p.closed ==> w.p.active == |w.out| + w.pending)
    && w.p.waitCount >= 0
    && (w.p.closed ==> w.p.idle == [])
    && (!o.wait ==> w.p.waitCount == 0 && w.lost == {})
  }

  // The ledger.

  function CountIdle(v: seq<Conn>, id: nat): nat {
    if v == [] then 0 else CountIdle(v[..|v| - 1], id) + if v[|v| - 1].id == id then 1 else 0
  }

  /** In how many places a connection is, counting repetitions. */
  function Places(w: World, id: nat): nat {
    (if id in w.out then 1 else 0) + CountIdle(w.p.idle, id) + Count(w.shut, id) + (if id in w.lost then 1 else 0)
  }

  ghost predicate Ledger(w: World) {
    forall id: nat :: Places(w, id) == if id in w.made then 1 else 0
  }

  lemma {:induction false} CountIdleSnoc(v: seq<Conn>, c: Conn, id: nat)
    ensures CountIdle(v + [c], id) == CountIdle(v, id) + if c.id == id then 1 else 0
  {
    assert (v + [c])[..|v|] == v;
  }

  lemma {:induction false} CountIds(v: seq<Conn>, id: nat)
    ensures Count(Ids(v), id) == CountIdle(v, id)
  {
    if v != [] {
      CountIds(v[..|v| - 1], id);
      CountAppend(Ids(v[..|v| - 1]), [v[|v| - 1].id], id);
    }
  }

  /** Sifting parts the idle connections into those kept and those shut. */
  lemma {:induction false} SiftParts(v: seq<Conn>, test: Conn -> bool, id: nat)
    ensures CountIdle(v, id) == CountIdle(Keep(v, test), id) + Count(Discard(v, test), id)
  {
    if v != [] {
      var init, last := v[..|v| - 1], v[|v| - 1];
      SiftParts(init, test, id);
      if test(last) {
        CountIdleSnoc(Keep(init, test), last, id);
        assert Discard(init, test) + [] == Discard(init, test);
      } else {
        assert Keep(init, test) + [] == Keep(init, test);
        CountAppend(Discard(init, test), [last.id], id);
      }
    }
  }

  function Handed(outcome: Outcome, id: nat): nat {
    if outcome.Reused? && outcome.conn.id == id then 1 else 0
  }

  /** An effect parts the idle connections into those still idle, those shut and the one handed out. */
  predicate Parts(v: seq<Conn>, e: Effect, id: nat) {
    CountIdle(v, id) == CountIdle(e.pool.idle, id) + Count(e.shut, id) + Handed(e.outcome, id)
  }

  lemma {:induction false} AcquireParts(o: Options, p: Pool, now: int, full: Outcome, id: nat)
    requires full == Waiting || full == Exhausted
    ensures Parts(p.idle, Acquire(o, p, now, full), id)
  {
    if !p.closed && p.idle != [] {
      var last, e := p.idle[|p.idle| - 1], Acquire(o, p, now, full);
      assert e.pool.idle == p.idle[..|p.idle| - 1];
      if Expired(o, last, now) {
        assert e.shut == [last.id] && !e.outcome.Reused?;
        CountOne(last.id, id);
      } else {
        assert e.shut == [] && e.outcome == Reused(last);
      }
    }
  }

  lemma {:induction false} TookKeepsPlaces(w: World, e: Effect, now: int, id: nat)
    requires Ledger(w) && Parts(w.p.idle, e, id)
    ensures Places(Took(w, e, now), id) == Places(w, id)
    ensures Handed(e.outcome, id) == 1 ==> id !in w.out
  {
    CountAppend(w.shut, e.shut, id);
    assert Places(w, id) <= 1;
  }

  lemma {:induction false} TookKeepsLedger(w: World, e: Effect, now: int)
    requires Ledger(w) && forall id: nat :: Parts(w.p.idle, e, id)
    ensures Ledger(Took(w, e, now))
    ensures e.outcome.Reused? ==> e.outcome.conn.id !in w.out
  {
    forall id: nat ensures Places(Took(w, e, now), id) == if id in w.made then 1 else 0 {
      TookKeepsPlaces(w, e, now, id);
    }
    if e.outcome.Reused? {
      TookKeepsPlaces(w, e, now, e.outcome.conn.id);
    }
  }

  lemma {:induction false} AcquireKeepsLedger(o: Options, w: World, p: Pool, now: int, full: Outcome)
    requires Ledger(w) && p.idle == w.p.idle && (full == Waiting || full == Exhausted)
    ensures var e := Acquire(o, p, now, full);
      Ledger(Took(w, e, now)) && (e.outcome.Reused? ==> e.outcome.conn.id !in w.out)
  {
    forall id: nat ensures Parts(w.p.idle, Acquire(o, p, now, full), id) {
      AcquireParts(o, p, now, full, id);
    }
    TookKeepsLedger(w, Acquire(o, p, now, full), now);
  }

  lemma {:induction false} SiftKeepsLedger(w: World, test: Conn -> bool, now: int)
    requires Ledger(w)
    ensures Ledger(Swept(w, Sifted(w.p, test), now))
  {
    var v := Swept(w, Sifted(w.p, test), now);
    forall id: nat ensures Places(v, id) == Places(w, id) {
      SiftParts(w.p.idle, test, id);
      CountAppend(w.shut, Discard(w.p.idle, test), id);
    }
  }

  lemma {:induction false} CloseKeepsLedger(w: World)
    requires Ledger(w)
    ensures Ledger(Swept(w, ShutDown(w.p), w.clock))
  {
    var v := Swept(w, ShutDown(w.p), w.clock);
    forall id: nat ensures Places(v, id) == Places(w, id) {
      CountIds(w.p.idle, id);
      CountAppend(w.shut, ShutDown(w.p).1, id);
    }
  }

  /** Wherever a returned connection goes, it goes there from the checked-out ones. */
  lemma {:induction false} ReturnKeepsPlaces(o: Options, w: World, id: nat, now: int, i: nat)
    requires id in w.out && id !in w.lost
    ensures Places(Apply(o, w, Return(id, now)), i) == Places(w, i)
  {
    var v := Apply(o, w, Return(id, now));
    match FateOf(o, w.p)
    case Kept =>
      assert v.p.idle == w.p.idle + [Conn(id, now)] && v.shut == w.shut && v.lost == w.lost;
      CountIdleSnoc(w.p.idle, Conn(id, now), i);
    case Shut =>
      assert v.p.idle == w.p.idle && v.shut == w.shut + [id] && v.lost == w.lost;
      CountAppend(w.shut, [id], i);
    case Dropped =>
      assert v.p.idle == w.p.idle && v.shut == w.shut;
  }

  lemma {:induction false} ReturnKeepsLedger(o: Options, w: World, id: nat, now: int)
    requires Ledger(w) && id in w.out
    ensures Ledger(Apply(o, w, Return(id, now)))
  {
    assert Places(w, id) <= 1;
    forall i: nat ensures Places(Apply(o, w, Return(id, now)), i) == if i in w.made then 1 else 0 {
      ReturnKeepsPlaces(o, w, id, now, i);
    }
  }

  lemma {:induction false} MadeKeepsLedger(o: Options, w: World, id: nat)
    requires Ledger(w) && id !in w.made
    ensures Ledger(Apply(o, w, Made(id))) && id !in w.out
  {
    var v := Apply(o, w, Made(id));
    assert Places(w, id) == 0;
    forall i: nat ensures Places(v, i) == if i in v.made then 1 else 0 {
      assert Places(w, i) == if i in w.made then 1 else 0;
    }
  }

  /** Every step keeps every connection ever made in exactly one place. */
  lemma {:induction false} StepKeepsLedger(o: Options, w: World, e: Event)
    requires Ledger(w) && Enabled(w, e)
    ensures Ledger(Apply(o, w, e))
  {
    match e
    case Begin(now) => AcquireKeepsLedger(o, w, w.p, now, if o.wait then Waiting else Exhausted);
    case Woken(now) => AcquireKeepsLedger(o, w, w.p.(waitCount := w.p.waitCount - 1), now, Exhausted);
    case Made(id) => MadeKeepsLedger(o, w, id);
    case Return(id, now) => ReturnKeepsLedger(o, w, id, now);
    case CloseAll => CloseKeepsLedger(w);
    case Tick(now) =>
      if w.p.closed || o.idleTimeout <= 0 {
        NothingMoved(w, Apply(o, w, e));
      } else {
        SiftKeepsLedger(w, Fresh(o, now), now);
      }
    case HealthCheck(bad) => SiftKeepsLedger(w, Healthy(bad), w.clock);
    case _ => NothingMoved(w, Apply(o, w, e));
  }

  lemma {:induction false} NothingMoved(w: World, v: World)
    requires Ledger(w)
    requires w.out == v.out && w.p.idle == v.p.idle && w.shut == v.shut && w.lost == v.lost && w.made == v.made
    ensures Ledger(v)
  {
    forall id: nat ensures Places(v, id) == if id in v.made then 1 else 0 {
      assert Places(w, id) == if id in w.made then 1 else 0;
    }
  }

  lemma {:induction false} AcquireKeepsCount(o: Options, w: World, p: Pool, now: int, full: Outcome)
    requires Counted(o, w) && p == w.p.(waitCount := p.waitCount) && p.waitCount >= 0
    requires full == (if o.wait then Waiting else Exhausted) || full == Exhausted
    requires !o.wait ==> p.waitCount == 0
    requires var e := Acquire(o, p, now, full); e.outcome.Reused? ==> e.outcome.conn.id !in w.out
    ensures Counted(o, Took(w, Acquire(o, p, now, full), now))
  {
    var e := Acquire(o, p, now, full);
    if e.outcome.Reused? {
      AddOne(w.out, e.outcome.conn.id);
    }
  }

  lemma {:induction false} GetKeepsCount(o: Options, w: World, p: Pool, now: int, full: Outcome)
    requires Counted(o, w) && Ledger(w) && p == w.p.(waitCount := p.waitCount) && 0 <= p.waitCount <= w.p.waitCount
    requires full == (if o.wait then Waiting else Exhausted) || full == Exhausted
    ensures Counted(o, Took(w, Acquire(o, p, now, full), now))
  {
    AcquireKeepsLedger(o, w, p, now, full);
    AcquireKeepsCount(o, w, p, now, full);
  }

  lemma {:induction false} ReturnKeepsCount(o: Options, w: World, id: nat, now: int)
    requires Counted(o, w) && id in w.out
    ensures Counted(o, Apply(o, w, Return(id, now)))
  {
    DropOne(w.out, id);
  }

  lemma {:induction false} MadeKeepsCount(o: Options, w: World, id: nat)
    requires Counted(o, w) && Ledger(w) && w.pending > 0 && id !in w.made
    ensures Counted(o, Apply(o, w, Made(id)))
  {
    MadeKeepsLedger(o, w, id);
    AddOne(w.out, id);
  }

  lemma {:induction false} StepKeepsCount(o: Options, w: World, e: Event)
    requires Counted(o, w) && Ledger(w) && Enabled(w, e)
    ensures Counted(o, Apply(o, w, e))
  {
    match e
    case Begin(now) => GetKeepsCount(o, w, w.p, now, if o.wait then Waiting else Exhausted);
    case Woken(now) => GetKeepsCount(o, w, w.p.(waitCount := w.p.waitCount - 1), now, Exhausted);
    case Made(id) => MadeKeepsCount(o, w, id);
    case Return(id, now) => ReturnKeepsCount(o, w, id, now);
    case _ =>
  }

  // Idle order.

  /** Sorted by last use, none later than `bound`. */
  predicate Sorted(v: seq<Conn>, bound: int) {
    && (forall i, j | 0 <= i < j < |v| :: v[i].lastUsed <= v[j].lastUsed)
    && (forall i | 0 <= i < |v| :: v[i].lastUsed <= bound)
  }

  lemma {:induction false} SortedSnoc(v: seq<Conn>, c: Conn, bound: int)
    requires Sorted(v, c.lastUsed) && c.lastUsed <= bound
    ensures Sorted(v + [c], bound) && Sorted(v, bound)
  {}

  lemma {:induction false} SortedPrefix(v: seq<Conn>, bound: int, later: int)
    requires Sorted(v, bound) && bound <= later
    ensures Sorted(v, later)
    ensures v != [] ==> Sorted(v[..|v| - 1], later) && Sorted(v[..|v| - 1], v[|v| - 1].lastUsed)
  {}

  lemma {:induction false} KeepKeepsOrder(v: seq<Conn>, test: Conn -> bool, bound: int)
    requires Sorted(v, bound)
    ensures Sorted(Keep(v, test), bound)
  {
    if v != [] {
      var init, last := v[..|v| - 1], v[|v| - 1];
      SortedPrefix(v, bound, bound);
      KeepKeepsOrder(init, test, last.lastUsed);
      SortedSnoc(Keep(init, test), last, bound);
      assert Keep(init, test) + [] == Keep(init, test);
    }
  }

  lemma {:induction false} AcquireKeepsOrder(o: Options, p: Pool, now: int, full: Outcome, bound: int)
    requires Sorted(p.idle, bound) && bound <= now
    ensures Sorted(Acquire(o, p, now, full).pool.idle, now)
  {
    SortedPrefix(p.idle, bound, now);
  }

  lemma {:induction false} StepKeepsOrder(o: Options, w: World, e: Event)
    requires Sorted(w.p.idle, w.clock) && Enabled(w, e)
    ensures Sorted(Apply(o, w, e).p.idle, Apply(o, w, e).clock)
  {
    SortedPrefix(w.p.idle, w.clock, TimeOf(w, e));
    match e
    case Begin(now) => AcquireKeepsOrder(o, w.p, now, if o.wait then Waiting else Exhausted, w.clock);
    case Woken(now) => AcquireKeepsOrder(o, w.p.(waitCount := w.p.waitCount - 1), now, Exhausted, w.clock);
    case Tick(now) => KeepKeepsOrder(w.p.idle, Fresh(o, now), now);
    case HealthCheck(bad) => KeepKeepsOrder(w.p.idle, Healthy(bad), w.clock);
    case Return(id, now) =>
      SortedSnoc(w.p.idle, Conn(id, now), now);
      assert w.p.idle + [] == w.p.idle;
    case _ =>
  }

  // Every reachable pool.

  ghost predicate Inv(o: Options, w: World) {
    Ledger(w) && Counted(o, w) && Sorted(w.p.idle, w.clock)
  }

  lemma {:induction false} RunKeepsInv(o: Options, w: World, events: seq<Event>)
    requires Inv(o, w) && Legal(o, w, events)
    ensures Inv(o, Play(o, w, events))
    decreases |events|
  {
    if events != [] {
      StepKeepsLedger(o, w, events[0]);
      StepKeepsCount(o, w, events[0]);
      StepKeepsOrder(o, w, events[0]);
      RunKeepsInv(o, Apply(o, w, events[0]), events[1..]);
    }
  }

  ghost predicate Reachable(o: Options, w: World) {
    exists limit: int, now: int, events: seq<Event> ::
      Legal(o, Start(limit, now), events) && Play(o, Start(limit, now), events) == w
  }

  lemma {:induction false} ReachableKeepsInv(o: Options, w: World)
    requires Reachable(o, w)
    ensures Inv(o, w)
  {
    var limit: int, now: int, events: seq<Event> :|
      Legal(o, Start(limit, now), events) && Play(o, Start(limit, now), events) == w;
    assert Inv(o, Start(limit, now));
    RunKeepsInv(o, Start(limit, now), events);
  }

  /** On every reachable open pool, `active` is what is checked out plus what is being created. */
  lemma {:induction false} ActiveIsExact(o: Options, w: World)
    requires Reachable(o, w) && !w.p.closed
    ensures w.p.active == |w.out| + w.pending
  {
    ReachableKeepsInv(o, w);
  }

  /**
   * Every connection made is in exactly one of: checked out, idle, closed, or dropped by a Put that saw
   * a waiter; none is closed twice; and without waiting none is dropped.
   */
  lemma {:induction false} EveryConnectionInOnePlace(o: Options, w: World, id: nat)
    requires Reachable(o, w)
    ensures (if id in w.out then 1 else 0) + Count(Ids(w.p.idle), id) + Count(w.shut, id) +
      (if id in w.lost then 1 else 0)
         == if id in w.made then 1 else 0
    ensures !o.wait ==> w.lost == {}
  {
    ReachableKeepsInv(o, w);
    CountIds(w.p.idle, id);
    assert Places(w, id) == if id in w.made then 1 else 0;
  }

  /** After Close and the return of everything checked out, every connection not dropped is closed, exactly once. */
  lemma {:induction false} EverythingIsClosed(o: Options, w: World, id: nat)
    requires Reachable(o, w) && w.p.closed && w.out == {}
    ensures Count(w.shut, id) == if id in w.made - w.lost then 1 else 0
    ensures !o.wait ==> w.made - w.lost == w.made
  {
    ReachableKeepsInv(o, w);
    assert Places(w, id) == if id in w.made then 1 else 0;
  }

  /** A connection is dropped exactly when it is returned to an open pool on which someone waits. */
  lemma {:induction false} DroppedIff(o: Options, w: World, e: Event, id: nat)
    requires Enabled(w, e) && id !in w.lost
    ensures id in Apply(o, w, e).lost <==> e.Return? && e.id == id && !w.p.closed && w.p.waitCount > 0
  {}

  lemma {:induction false} LegalAppend(o: Options, w: World, events: seq<Event>, e: Event)
    requires Legal(o, w, events) && Enabled(Play(o, w, events), e)
    ensures Legal(o, w, events + [e]) && Play(o, w, events + [e]) == Apply(o, Play(o, w, events), e)
    decreases |events|
  {
    if events == [] {
      assert events + [e] == [e];
    } else {
      assert (events + [e])[1..] == events[1..] + [e];
      LegalAppend(o, Apply(o, w, events[0]), events[1..], e);
    }
  }

  lemma {:induction false} ReachableStep(o: Options, w: World, e: Event)
    requires Reachable(o, w) && Enabled(w, e)
    ensures Reachable(o, Apply(o, w, e))
  {
    var limit: int, now: int, events: seq<Event> :|
      Legal(o, Start(limit, now), events) && Play(o, Start(limit, now), events) == w;
    LegalAppend(o, Start(limit, now), events, e);
  }

  lemma {:induction false} ReachableStart(o: Options, limit: int, now: int)
    ensures Reachable(o, Start(limit, now))
  {
    assert Legal(o, Start(limit, now), []) && Play(o, Start(limit, now), []) == Start(limit, now);
  }

  /** One connection, one waiter, one return: the connection is dropped, neither idle nor closed. */
  lemma {:induction false} DropWitness(o: Options, id: nat) returns (w: World)
    requires o.wait
    ensures Reachable(o, w) && w.lost == {id} && w.made == {id} && w.p.idle == [] && w.shut == [] && w.out == {}
  {
    ReachableStart(o, 1, 0);
    w := Start(1, 0);
    ReachableStep(o, w, Begin(0));
    w := Apply(o, w, Begin(0));
    ReachableStep(o, w, Made(id));
    w := Apply(o, w, Made(id));
    assert w.out == {id} && w.p.active == 1;
    ReachableStep(o, w, Begin(0));
    w := Apply(o, w, Begin(0));
    assert w.p.waitCount == 1 && w.out == {id};
    ReachableStep(o, w, Return(id, 0));
    w := Apply(o, w, Return(id, 0));
  }

  /** Some run drops a connection if and only if waiting is enabled. */
  lemma {:induction false} DropsIff(o: Options)
    ensures (exists w :: Reachable(o, w) && w.lost != {}) <==> o.wait
  {
    if o.wait {
      var w := DropWitness(o, 0);
      assert 0 in w.lost;
    } else {
      forall w | Reachable(o, w) ensures w.lost == {} {
        ReachableKeepsInv(o, w);
      }
    }
  }

  /**
   * Get shuts an idle connection as expired only when every idle one has expired; otherwise, on an open
   * pool, it returns the most recently used one.
   */
  lemma {:induction false} MostRecentlyUsedFirst(o: Options, w: World, now: int)
    requires Reachable(o, w) && now >= w.clock && !w.p.closed && w.p.idle != []
    ensures var e := Began(o, w.p, now);
      if forall c <- w.p.idle :: o.idleTimeout > 0 && c.lastUsed + o.idleTimeout < now then
        !e.outcome.Reused? && e.shut == [w.p.idle[|w.p.idle| - 1].id]
      else
        && e.shut == []
        && e.outcome.Reused?
        && e.outcome.conn in w.p.idle
        && forall c <- w.p.idle :: c.lastUsed <= e.outcome.conn.lastUsed
  {
    ReachableKeepsInv(o, w);
    var last := w.p.idle[|w.p.idle| - 1];
    assert forall c <- w.p.idle :: c.lastUsed <= last.lastUsed;
    assert last in w.p.idle;
  }

  // How many stay idle, and which.

  function IdleRoom(o: Options): nat {
    if o.maxIdle < 0 then 0 else o.maxIdle
  }

  lemma {:induction false} StepKeepsRoom(o: Options, w: World, e: Event)
    requires |w.p.idle| <= IdleRoom(o) && Enabled(w, e)
    ensures |Apply(o, w, e).p.idle| <= IdleRoom(o)
  {}

  lemma {:induction false} RunKeepsRoom(o: Options, w: World, events: seq<Event>)
    requires |w.p.idle| <= IdleRoom(o) && Legal(o, w, events)
    ensures |Play(o, w, events).p.idle| <= IdleRoom(o)
    decreases |events|
  {
    if events != [] {
      StepKeepsRoom(o, w, events[0]);
      RunKeepsRoom(o, Apply(o, w, events[0]), events[1..]);
    }
  }

  /** No reachable pool holds more idle connections than MaxIdle. */
  lemma {:induction false} IdleIsBounded(o: Options, w: World)
    requires Reachable(o, w)
    ensures |w.p.idle| <= if o.maxIdle < 0 then 0 else o.maxIdle
  {
    var limit: int, now: int, events: seq<Event> :|
      Legal(o, Start(limit, now), events) && Play(o, Start(limit, now), events) == w;
    RunKeepsRoom(o, Start(limit, now), events);
  }

  lemma {:induction false} ReturnTakesEffect(o: Options, w: World, id: nat, now: int)
    requires Enabled(w, Return(id, now)) && (w.p.closed || w.p.waitCount == 0)
    ensures
      var v := Apply(o, w, Return(id, now));
      var kept := !w.p.closed && |w.p.idle| < o.maxIdle;
      && v.p.idle == w.p.idle + (if kept then [Conn(id, now)] else [])
      && v.shut == w.shut + (if kept then [] else [id])
      && v.lost == w.lost && v.out == w.out - {id} && v.made == w.made && v.pending == w.pending
      && v.p.active == w.p.active - (if w.p.closed then 0 else 1)
  {
    assert w.shut + [] == w.shut && w.p.idle + [] == w.p.idle;
  }

  lemma {:induction false} OutIsNotShut(o: Options, w: World, id: nat)
    requires Reachable(o, w) && id in w.out
    ensures Count(w.shut, id) == 0
  {
    ReachableKeepsInv(o, w);
    EveryConnectionInOnePlace(o, w, id);
  }

  /**
   * A connection returned to an open pool without waiters ends up last among the idle ones if and only if fewer
   * than MaxIdle were idle, and otherwise is closed; returned to a closed pool it is closed.
   */
  lemma {:induction false} ReturnedIff(o: Options, w: World, id: nat, now: int)
    requires Reachable(o, w) && Enabled(w, Return(id, now)) && (w.p.closed || w.p.waitCount == 0)
    ensures
      var v := Apply(o, w, Return(id, now));
      var kept := !w.p.closed && |w.p.idle| < o.maxIdle;
      && v.p.idle == w.p.idle + (if kept then [Conn(id, now)] else [])
      && v.shut == w.shut + (if kept then [] else [id])
      && Count(v.shut, id) == (if kept then 0 else 1)
      && v.lost == w.lost && v.out == w.out - {id} && v.made == w.made && v.pending == w.pending
      && v.p.active == w.p.active - (if w.p.closed then 0 else 1)
  {
    ReturnTakesEffect(o, w, id, now);
    OutIsNotShut(o, w, id);
    CountOne(id, id);
    CountAppend(w.shut, [id], id);
    assert w.shut + [] == w.shut;
  }

  /** A connection returned with room to spare is the next one handed out, unless it expires in between. */
  lemma {:induction false} ReturnedIsReused(o: Options, w: World, id: nat, now: int, later: int)
    requires Reachable(o, w) && Enabled(w, Return(id, now)) && !w.p.closed && w.p.waitCount == 0
    requires |w.p.idle| < o.maxIdle && now <= later && (o.idleTimeout > 0 ==> later <= now + o.idleTimeout)
    ensures
      var v := Apply(o, w, Return(id, now));
      Began(o, v.p, later).outcome == Reused(Conn(id, now)) && Apply(o, v, Begin(later)).out == w.out
  {
    ReturnedIff(o, w, id, now);
    var v := Apply(o, w, Return(id, now));
    assert v.p.idle[|v.p.idle| - 1] == Conn(id, now);
    assert w.out - {id} + {id} == w.out;
  }

  /** A connection is created exactly when none is handed out and there is room under the limit. */
  lemma {:induction false} CreatedIff(o: Options, w: World, now: int)
    requires Reachable(o, w) && !w.p.closed && w.p.idle == []
    ensures
      Began(o, w.p, now).outcome ==
        if w.p.limit == 0 || |w.out| + w.pending < w.p.limit then Reserved
        else if o.wait then Waiting
        else Exhausted
    ensures
      w.p.waitCount > 0 ==>
        Retried(o, w.p, now).outcome ==
          if w.p.limit == 0 || |w.out| + w.pending < w.p.limit then Reserved else Exhausted
  {
    ReachableKeepsInv(o, w);
  }

  /** A closed pool hands out nothing. */
  lemma {:induction false} ClosedIsClosed(o: Options, w: World, now: int, events: seq<Event>)
    requires w.p.closed && Legal(o, w, events)
    ensures Play(o, w, events).p.closed && Began(o, Play(o, w, events).p, now).outcome == PoolClosed
    decreases |events|
  {
    if events != [] {
      ClosedIsClosed(o, Apply(o, w, events[0]), now, events[1..]);
    }
  }

  // What the cleaner and the health check keep.

  lemma {:induction false} KeptIff(v: seq<Conn>, test: Conn -> bool, c: Conn)
    ensures c in Keep(v, test) <==> c in v && test(c)
  {
    if v != [] {
      KeptIff(v[..|v| - 1], test, c);
      assert v == v[..|v| - 1] + [v[|v| - 1]];
    }
  }

  lemma {:induction false} DiscardedIff(v: seq<Conn>, test: Conn -> bool, id: nat)
    ensures id in Discard(v, test) <==> exists c <- v :: c.id == id && !test(c)
  {
    if v != [] {
      var front, last := v[..|v| - 1], v[|v| - 1];
      DiscardedIff(front, test, id);
      assert v == front + [last];
    }
  }

  /** A cleaner tick keeps exactly the idle connections used within the timeout, and closes exactly the others. */
  lemma {:induction false} TickKeeps(o: Options, w: World, now: int, c: Conn)
    requires Reachable(o, w) && Enabled(w, Tick(now)) && c in w.p.idle
    ensures
      var v := Apply(o, w, Tick(now));
      && (c in v.p.idle <==> o.idleTimeout <= 0 || c.lastUsed + o.idleTimeout > now)
      && (c.id in v.shut <==> o.idleTimeout > 0 && c.lastUsed + o.idleTimeout <= now)
  {
    ReachableKeepsInv(o, w);
    SweepKeeps(o, w, Fresh(o, now), c);
  }

  /** A health check keeps exactly the idle connections not found bad, and closes exactly the bad ones. */
  lemma {:induction false} HealthCheckKeeps(o: Options, w: World, bad: set<nat>, c: Conn)
    requires Reachable(o, w) && c in w.p.idle
    ensures
      var v := Apply(o, w, HealthCheck(bad));
      (c in v.p.idle <==> c.id !in bad) && (c.id in v.shut <==> c.id in bad)
  {
    SweepKeeps(o, w, Healthy(bad), c);
  }

  lemma {:induction false} SweepKeeps(o: Options, w: World, test: Conn -> bool, c: Conn)
    requires Reachable(o, w) && c in w.p.idle
    ensures c in Keep(w.p.idle, test) <==> test(c)
    ensures c.id !in w.shut
    ensures c.id in Discard(w.p.idle, test) <==> !test(c)
  {
    ReachableKeepsInv(o, w);
    KeptIff(w.p.idle, test, c);
    DiscardedIff(w.p.idle, test, c.id);
    assert Places(w, c.id) <= 1;
    CountIdleMember(w.p.idle, c);
    CountMember(w.shut, c.id);
    forall d | d in w.p.idle && d.id == c.id ensures d == c {
      OneOfEach(w.p.idle, c, d);
    }
  }

  lemma {:induction false} CountIdleMember(v: seq<Conn>, c: Conn)
    requires c in v
    ensures CountIdle(v, c.id) >= 1
  {
    var front, last := v[..|v| - 1], v[|v| - 1];
    assert v == front + [last];
    if c in front {
      CountIdleMember(front, c);
    }
  }

  lemma {:induction false} OneOfEach(v: seq<Conn>, c: Conn, d: Conn)
    requires c in v && d in v && c.id == d.id && CountIdle(v, c.id) <= 1
    ensures c == d
  {
    var front, last := v[..|v| - 1], v[|v| - 1];
    assert v == front + [last];
    if c in front && d in front {
      OneOfEach(front, c, d);
    } else if c in front {
      CountIdleMember(front, c);
    } else if d in front {
      CountIdleMember(front, d);
    }
  }
}
