/**
 * The connection pool. Each method is one critical section of the code; a Get that has to create a
 * connection is two of them, with the factory running in between. The steps on values that the methods
 * refine are then interleaved freely.
 */
module ConnPool {
  import opened Prelude

  datatype Options = Options(maxIdle: int, idleTimeout: int, wait: bool)

  datatype Conn = Conn(id: nat, lastUsed: int)

  /** `limit` is MaxActive, which the adaptive pool rewrites. */
  datatype Pool = Pool(idle: seq<Conn>, active: int, waitCount: int, limit: int, closed: bool)

  datatype Outcome = PoolClosed | Reused(conn: Conn) | Reserved | Waiting | Exhausted

  /** What a critical section leaves behind: the pool, its outcome, and the connections it shut. */
  datatype Effect = Effect(pool: Pool, outcome: Outcome, shut: seq<nat>)

  predicate Expired(o: Options, c: Conn, now: int) {
    o.idleTimeout > 0 && c.lastUsed + o.idleTimeout < now
  }

  function Room(p: Pool): bool {
    p.limit == 0 || p.active < p.limit
  }

  /** Take the last idle connection; an expired one is shut instead, and only that one is looked at. */
  function TakeIdle(o: Options, p: Pool, now: int): (Pool, Option<Conn>, seq<nat>) {
    var n := |p.idle|;
    if n == 0 then (p, None, [])
    else
      var q := p.(idle := p.idle[..n - 1]);
      if Expired(o, p.idle[n - 1], now) then (q, None, [p.idle[n - 1].id])
      else (q, Some(p.idle[n - 1]), [])
  }

  function Acquire(o: Options, p: Pool, now: int, full: Outcome): Effect {
    if p.closed then Effect(p, PoolClosed, [])
    else
      var (q, conn, shut) := TakeIdle(o, p, now);
      if conn.Some? then Effect(q.(active := q.active + 1), Reused(conn.value), shut)
      else if Room(q) then Effect(q.(active := q.active + 1), Reserved, shut)
      else Effect(if full == Waiting then q.(waitCount := q.waitCount + 1) else q, full, shut)
  }

  function Began(o: Options, p: Pool, now: int): Effect {
    Acquire(o, p, now, if o.wait then Waiting else Exhausted)
  }

  /** A woken waiter tries once more, and does not wait again. */
  function Retried(o: Options, p: Pool, now: int): Effect {
    Acquire(o, p.(waitCount := p.waitCount - 1), now, Exhausted)
  }

  datatype Fate = Kept | Shut | Dropped

  /** What becomes of a returned connection. */
  function FateOf(o: Options, p: Pool): Fate {
    if p.closed then Shut
    else if p.waitCount > 0 then Dropped
    else if o.maxIdle > 0 && |p.idle| < o.maxIdle then Kept
    else Shut
  }

  function Returned(o: Options, p: Pool, id: nat, now: int): (Pool, seq<nat>) {
    var fate := FateOf(o, p);
    (if p.closed then p
     else p.(active := p.active - 1, idle := p.idle + if fate == Kept then [Conn(id, now)] else []),
     if fate == Shut then [id] else [])
  }

  /** The connections that pass the test, in order. */
  function Keep(idle: seq<Conn>, test: Conn -> bool): (r: seq<Conn>)
    ensures |r| <= |idle|
  {
    if idle == [] then []
    else
      var last := idle[|idle| - 1];
      Keep(idle[..|idle| - 1], test) + if test(last) then [last] else []
  }

  /** The identities of the connections that fail the test, in order. */
  function Discard(idle: seq<Conn>, test: Conn -> bool): (r: seq<nat>)
    ensures |r| <= |idle|
  {
    if idle == [] then []
    else
      var last := idle[|idle| - 1];
      Discard(idle[..|idle| - 1], test) + if test(last) then [] else [last.id]
  }

  function Ids(idle: seq<Conn>): (r: seq<nat>)
    ensures |r| == |idle|
  {
    if idle == [] then [] else Ids(idle[..|idle| - 1]) + [idle[|idle| - 1].id]
  }

  function Fresh(o: Options, now: int): Conn -> bool {
    (c: Conn) => c.lastUsed > now - o.idleTimeout
  }

  function Healthy(bad: set<nat>): Conn -> bool {
    (c: Conn) => c.id !in bad
  }

  /** Keep the idle connections passing the test and shut the others. */
  function Sifted(p: Pool, test: Conn -> bool): (Pool, seq<nat>) {
    (p.(idle := Keep(p.idle, test)), Discard(p.idle, test))
  }

  function Cleaned(o: Options, p: Pool, now: int): (Pool, seq<nat>) {
    if p.closed || o.idleTimeout <= 0 then (p, []) else Sifted(p, Fresh(o, now))
  }

  function Checked(p: Pool, bad: set<nat>): (Pool, seq<nat>) {
    Sifted(p, Healthy(bad))
  }

  function ShutDown(p: Pool): (Pool, seq<nat>) {
    if p.closed then (p, []) else (p.(closed := true, idle := []), Ids(p.idle))
  }

  class PoolConn {
    const id: nat
    var lastUsed: int

    constructor (id: nat, now: int)
      ensures this.id == id && lastUsed == now
    {
      this.id := id;
      lastUsed := now;
    }
  }

  class ConnPool {
    const opts: Options
    var idle: seq<PoolConn>
    var active: int
    var waitCount: int
    var maxActive: int
    var closed: bool
    /** The client connections closed so far, in order: closing one is an effect outside the pool. */
    var shut: seq<nat>

    ghost function View(): Pool
      reads this, idle
    {
      Pool(Views(idle), active, waitCount, maxActive, closed)
    }

    constructor (opts: Options, maxActive: int)
      ensures this.opts == opts && View() == Pool([], 0, 0, maxActive, false) && shut == []
    {
      this.opts := opts;
      this.maxActive := maxActive;
      idle, active, waitCount, closed, shut := [], 0, 0, false, [];
    }

    method CloseClient(conn: PoolConn)
      modifies this`shut
      ensures shut == old(shut) + [conn.id]
    {
      shut := shut + [conn.id];
    }

    method GetIdleConn(now: int) returns (conn: PoolConn?)
      modifies this`idle, this`shut
      ensures var (q, got, gone) := TakeIdle(opts, old(View()), now);
        && View() == q
        && shut == old(shut) + gone
        && (conn == null <==> got.None?)
        && (conn != null ==> conn in old(idle) && Conn(conn.id, conn.lastUsed) == got.value)
    {
      var n := |idle|;
      if n == 0 {
        return null;
      }
      conn := idle[n - 1];
      idle := idle[..n - 1];
      if opts.idleTimeout > 0 && conn.lastUsed + opts.idleTimeout < now {
        CloseClient(conn);
        return null;
      }
    }

    /** The first critical section of Get. */
    method BeginGet(now: int) returns (outcome: Outcome, conn: PoolConn?)
      modifies this
      ensures var e := Began(opts, old(View()), now);
        && View() == e.pool
        && outcome == e.outcome
        && shut == old(shut) + e.shut
        && (outcome.Reused? <==> conn != null)
        && (conn != null ==> conn in old(idle) && Conn(conn.id, conn.lastUsed) == outcome.conn)
    {
      if closed {
        return PoolClosed, null;
      }
      conn := GetIdleConn(now);
      if conn != null {
        active := active + 1;
        return Reused(Conn(conn.id, conn.lastUsed)), conn;
      }
      if maxActive == 0 || active < maxActive {
        active := active + 1;
        return Reserved, null;
      }
      if !opts.wait {
        return Exhausted, null;
      }
      waitCount := waitCount + 1;
      return Waiting, null;
    }

    /** The critical section of a waiter that was woken. */
    method Retry(now: int) returns (outcome: Outcome, conn: PoolConn?)
      modifies this
      ensures var e := Retried(opts, old(View()), now);
        && View() == e.pool
        && outcome == e.outcome
        && shut == old(shut) + e.shut
        && (outcome.Reused? <==> conn != null)
        && (conn != null ==> conn in old(idle) && Conn(conn.id, conn.lastUsed) == outcome.conn)
    {
      waitCount := waitCount - 1;
      if closed {
        return PoolClosed, null;
      }
      conn := GetIdleConn(now);
      if conn != null {
        active := active + 1;
        return Reused(Conn(conn.id, conn.lastUsed)), conn;
      }
      if maxActive == 0 || active < maxActive {
        active := active + 1;
        return Reserved, null;
      }
      return Exhausted, null;
    }

    /** The critical section of a Get whose factory failed. */
    method RollBack()
      modifies this`active
      ensures active == old(active) - 1
    {
      active := active - 1;
    }

    /** A waiter that timed out or was cancelled. */
    method GiveUp()
      modifies this`waitCount
      ensures waitCount == old(waitCount) - 1
    {
      waitCount := waitCount - 1;
    }

    /**
     * The time of use is written before the idle list is looked at, so a connection that is returned a second
     * time is refreshed where it already stands, and then kept, closed or dropped like any other.
     */
    method Put(conn: PoolConn, now: int)
      modifies this, conn
      ensures old(closed) ==> View() == old(View()) && conn.lastUsed == old(conn.lastUsed)
      ensures !old(closed) ==>
        && View() ==
          Returned(opts, old(View()).(idle := Touched(old(idle), old(View()).idle, conn, now)), conn.id, now).0
        && conn.lastUsed == now
      ensures shut == old(shut) + Returned(opts, old(View()), conn.id, now).1
    {
      if closed {
        CloseClient(conn);
        return;
      }
      active := active - 1;
      conn.lastUsed := now;
      if waitCount > 0 {
        return;
      }
      if opts.maxIdle > 0 && |idle| < opts.maxIdle {
        idle := idle + [conn];
        return;
      }
      CloseClient(conn);
    }

    method Close()
      modifies this
      ensures var (q, gone) := ShutDown(old(View())); View() == q && shut == old(shut) + gone
    {
      if closed {
        return;
      }
      closed := true;
      ghost var v := Views(idle);
      for i := 0 to |idle|
        invariant unchanged(this`idle, this`active, this`waitCount, this`maxActive) && closed
        invariant shut == old(shut) + Ids(v[..i])
      {
        SiftNext(v, i, _ => false);
        CloseClient(idle[i]);
      }
      assert v[..|v|] == v;
      idle := [];
    }

    /** One tick of the cleaner. */
    method Clean(now: int)
      modifies this
      ensures var (q, gone) := Cleaned(opts, old(View()), now); View() == q && shut == old(shut) + gone
    {
      if closed || opts.idleTimeout <= 0 {
        return;
      }
      var expiredTime := now - opts.idleTimeout;
      var valid: seq<PoolConn> := [];
      ghost var v, test := Views(idle), Fresh(opts, now);
      for i := 0 to |idle|
        invariant unchanged(this`idle, this`active, this`waitCount, this`maxActive, this`closed)
        invariant Views(valid) == Keep(v[..i], test)
        invariant shut == old(shut) + Discard(v[..i], test)
      {
        SiftNext(v, i, test);
        var conn := idle[i];
        if conn.lastUsed > expiredTime {
          valid := valid + [conn];
        } else {
          CloseClient(conn);
        }
      }
      assert v[..|v|] == v;
      idle := valid;
    }

    /** The scan of the health check: close the unhealthy connections and collect the others. */
    method ScanHealth(bad: set<nat>) returns (healthyIdle: seq<PoolConn>, unhealthyCount: nat)
      modifies this`shut
      ensures Views(healthyIdle) == Keep(old(View()).idle, Healthy(bad))
      ensures shut == old(shut) + Discard(old(View()).idle, Healthy(bad))
      ensures unhealthyCount == |idle| - |healthyIdle|
    {
      healthyIdle, unhealthyCount := [], 0;
      ghost var v, test := Views(idle), Healthy(bad);
      for i := 0 to |idle|
        invariant Views(healthyIdle) == Keep(v[..i], test)
        invariant shut == old(shut) + Discard(v[..i], test)
        invariant unhealthyCount == i - |healthyIdle|
      {
        SiftNext(v, i, test);
        var conn := idle[i];
        if conn.id !in bad {
          healthyIdle := healthyIdle + [conn];
        } else {
          CloseClient(conn);
          unhealthyCount := unhealthyCount + 1;
        }
      }
      assert v[..|v|] == v;
    }

    /** The health check of the adaptive pool; `bad` names the connections it finds unhealthy. */
    method CheckHealth(bad: set<nat>)
      modifies this
      ensures var (q, gone) := Checked(old(View()), bad); View() == q && shut == old(shut) + gone
    {
      var healthyIdle, unhealthyCount := ScanHealth(bad);
      KeepAll(Views(idle), Healthy(bad));
      if unhealthyCount > 0 {
        idle := healthyIdle;
      }
    }
  }

  /** The idle connections as seen once `conn` has been used at `now`. */
  ghost function Touched(conns: seq<PoolConn>, views: seq<Conn>, conn: PoolConn, now: int): (v: seq<Conn>)
    requires |conns| == |views|
    ensures |v| == |views|
    ensures conn !in conns ==> v == views
  {
    seq(|conns|, i requires 0 <= i < |conns| => if conns[i] == conn then Conn(conn.id, now) else views[i])
  }

  ghost function Views(conns: seq<PoolConn>): (v: seq<Conn>)
    reads conns
    ensures |v| == |conns|
  {
    seq(|conns|, i requires 0 <= i < |conns| reads conns => Conn(conns[i].id, conns[i].lastUsed))
  }

  /** Unfolds the filters by the next connection of a scan. */
  lemma {:induction false} SiftNext(v: seq<Conn>, i: nat, test: Conn -> bool)
    requires i < |v|
    ensures Ids(v[..i + 1]) == Ids(v[..i]) + [v[i].id]
    ensures Keep(v[..i + 1], test) == Keep(v[..i], test) + if test(v[i]) then [v[i]] else []
    ensures Discard(v[..i + 1], test) == Discard(v[..i], test) + if test(v[i]) then [] else [v[i].id]
  {
    assert v[..i + 1][..i] == v[..i];
  }

  lemma {:induction false} KeepAll(idle: seq<Conn>, test: Conn -> bool)
    ensures |Keep(idle, test)| == |idle| ==> Keep(idle, test) == idle
  {
    if idle != [] {
      KeepAll(idle[..|idle| - 1], test);
    }
  }
}
