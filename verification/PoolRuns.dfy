/** The connection pool under any interleaving, at their awaits, of the calls that use it. */
module PoolRuns {
  import opened Common
  import opened PoolSpec

  /** Where a call of `connect` is. */
  datatype Stage =
    | Queued(key: Key)     // it awaits its waiter
    | Cancelled(key: Key)  // its waiter was cancelled, it has not seen that yet
    | Woken(key: Key)      // its waiter was released, it has not seen that yet
    | Creating(key: Key)   // its connection is being made
    | Gone

  /** A connection that was made is in use; or it is not, and may be kept idle for its host. */
  datatype Place = InUse(key: Key) | Out(key: Key)

  datatype World = World(pool: Pool, tasks: map<nat, Stage>, conns: map<nat, Place>)

  const EMPTY_WORLD := World(EMPTY_POOL, map[], map[])

  datatype Event =
    | Connects(t: nat, key: Key, connected: set<nat>, now: int)
    | Resumes(t: nat, connected: set<nat>, now: int)
    | CancelsQueued(t: nat)
    | Unwinds(t: nat)
    | CancelsWoken(t: nat)
    | Creates(t: nat, conn: nat)
    | Fails(t: nat, order: seq<Key>)
    | Releases(conn: nat, shouldClose: bool, now: int, order: seq<Key>)
    | CleansUp(connected: set<nat>, now: int)

  predicate At(w: World, t: nat, s: Stage) { t in w.tasks && w.tasks[t] == s }

  predicate IsWoken(w: World, t: nat) { t in w.tasks && w.tasks[t].Woken? }

  /** All hosts with a queue are visited, in any order. */
  ghost predicate Visits(order: seq<Key>, p: Pool)
  {
    forall k :: k in order <==> k in p.waiters
  }

  function CancelledIn(w: World): set<nat>
  {
    set t | t in w.tasks && w.tasks[t].Cancelled?
  }

  ghost predicate Enabled(w: World, e: Event)
  {
    match e
    case Connects(t, _, _, _) => t !in w.tasks
    case Resumes(t, _, _) => IsWoken(w, t)
    case CancelsQueued(t) => t in w.tasks && w.tasks[t].Queued?
    case Unwinds(t) => t in w.tasks && w.tasks[t].Cancelled?
    case CancelsWoken(t) => IsWoken(w, t)
    case Creates(t, conn) => t in w.tasks && w.tasks[t].Creating? && conn !in w.conns
    case Fails(t, order) => t in w.tasks && w.tasks[t].Creating? && Visits(order, w.pool)
    case Releases(conn, _, _, order) => conn in w.conns && w.conns[conn].InUse? && Visits(order, w.pool)
    case CleansUp(_, _) => true
  }

  function Settle(w: World, t: nat, key: Key, p: Pool, r: Outcome): World
  {
    match r
    case Reuses(conn) => World(p, w.tasks[t := Gone], w.conns[conn := InUse(key)])
    case Waits => World(p, w.tasks[t := Queued(key)], w.conns)
    case Begins => World(p, w.tasks[t := Creating(key)], w.conns)
  }

  /** The waiter that was released, if any, belongs to a call that can now go on. */
  function Wake(tasks: map<nat, Stage>, u: Option<nat>): map<nat, Stage>
  {
    match u
    case None => tasks
    case Some(t) => if t in tasks && tasks[t].Queued? then tasks[t := Woken(tasks[t].key)] else tasks
  }

  ghost function Step(c: Config, w: World, e: Event): World
    requires Enabled(w, e)
  {
    match e
    case Connects(t, key, connected, now) =>
      var (p, r) := Connect(c, w.pool, key, t, connected, now);
      Settle(w, t, key, p, r)
    case Resumes(t, connected, now) =>
      var key := w.tasks[t].key;
      var (p, r) := Resume(c, w.pool, key, t, connected, now);
      Settle(w, t, key, p, r)
    case CancelsQueued(t) => w.(tasks := w.tasks[t := Cancelled(w.tasks[t].key)])
    case Unwinds(t) => World(Leave(w.pool, w.tasks[t].key, t), w.tasks[t := Gone], w.conns)
    case CancelsWoken(t) => World(Leave(w.pool, w.tasks[t].key, t), w.tasks[t := Gone], w.conns)
    case Creates(t, conn) =>
      var key := w.tasks[t].key;
      World(Swap(c, w.pool, key, t, conn), w.tasks[t := Gone], w.conns[conn := InUse(key)])
    case Fails(t, order) =>
      var (p, u) := ReleaseAcquired(c, w.pool, w.tasks[t].key, Placeholder(t), order, CancelledIn(w));
      World(p, Wake(w.tasks[t := Gone], u), w.conns)
    case Releases(conn, shouldClose, now, order) =>
      var key := w.conns[conn].key;
      var (p, u) := Release(c, w.pool, key, conn, shouldClose, now, order, CancelledIn(w));
      World(p, Wake(w.tasks, u), w.conns[conn := Out(key)])
    case CleansUp(connected, now) => w.(pool := Cleanup(c, w.pool, connected, now))
  }

  // ----- what every step keeps -----

  /** The host for which a handle is in use. */
  function Holder(tasks: map<nat, Stage>, conns: map<nat, Place>, h: Handle): Option<Key>
  {
    match h
    case Placeholder(t) => if t in tasks && tasks[t].Creating? then Some(tasks[t].key) else None
    case Conn(n) => if n in conns && conns[n].InUse? then Some(conns[n].key) else None
  }

  /** The acquired handles are the ones in use; with a limit per host the sets of the hosts partition them. */
  ghost predicate HoldersOk(c: Config, p: Pool, tasks: map<nat, Stage>, conns: map<nat, Place>)
  {
    && (forall h :: h in p.acquired <==> Holder(tasks, conns, h).Some?)
    && (if c.perHost == 0 then p.perHost == map[]
        else
          && (forall k, h :: h in Host(p, k) <==> Holder(tasks, conns, h) == Some(k))
          && (forall k :: k in p.perHost ==> p.perHost[k] != {}))
  }

  ghost predicate NoTwinConns(q: seq<Idle>)
  {
    forall i, j :: 0 <= i < j < |q| ==> q[i].conn != q[j].conn
  }

  ghost predicate ParkedAt(q: seq<Idle>, k: Key, conns: map<nat, Place>)
  {
    forall i :: 0 <= i < |q| ==> q[i].conn in conns && conns[q[i].conn] == Out(k)
  }

  /** Idle queues are not empty, and no connection is in two places. */
  ghost predicate IdleOk(idle: map<Key, seq<Idle>>, conns: map<nat, Place>)
  {
    forall k :: k in idle ==> idle[k] != [] && NoTwinConns(idle[k]) && ParkedAt(idle[k], k, conns)
  }

  ghost predicate WaitAt(q: seq<nat>, k: Key, tasks: map<nat, Stage>)
  {
    forall t :: t in q ==> t in tasks && (tasks[t] == Queued(k) || tasks[t] == Cancelled(k))
  }

  /** Queues hold the waiters that are not released, each once; cancelled ones may be gone already. */
  ghost predicate QueuesOk(waiters: map<Key, seq<nat>>, tasks: map<nat, Stage>)
  {
    && (forall k :: k in waiters ==> NoDuplicates(waiters[k]) && WaitAt(waiters[k], k, tasks))
    && (forall t :: t in tasks && tasks[t].Queued? ==> tasks[t].key in waiters && t in waiters[tasks[t].key])
  }

  ghost predicate Kept(c: Config, w: World)
  {
    HoldersOk(c, w.pool, w.tasks, w.conns) && IdleOk(w.pool.idle, w.conns) && QueuesOk(w.pool.waiters, w.tasks)
  }

  // ----- handles -----

  lemma AcquirePlaceholder(c: Config, p: Pool, tasks: map<nat, Stage>, conns: map<nat, Place>, key: Key, t: nat)
    requires HoldersOk(c, p, tasks, conns) && Holder(tasks, conns, Placeholder(t)) == None
    ensures HoldersOk(c, Acquire(c, p, key, Placeholder(t)), tasks[t := Creating(key)], conns)
  {
    var h := Placeholder(t);
    forall g
      ensures Holder(tasks[t := Creating(key)], conns, g) == if g == h then Some(key) else Holder(tasks, conns, g)
    {
    }
    AcquireOk(c, p, tasks, conns, tasks[t := Creating(key)], conns, key, h);
  }

  lemma AcquireConn(c: Config, p: Pool, tasks: map<nat, Stage>, conns: map<nat, Place>, key: Key, n: nat)
    requires HoldersOk(c, p, tasks, conns) && Holder(tasks, conns, Conn(n)) == None
    ensures HoldersOk(c, Acquire(c, p, key, Conn(n)), tasks, conns[n := InUse(key)])
  {
    var h := Conn(n);
    forall g
      ensures Holder(tasks, conns[n := InUse(key)], g) == if g == h then Some(key) else Holder(tasks, conns, g)
    {
    }
    AcquireOk(c, p, tasks, conns, tasks, conns[n := InUse(key)], key, h);
  }

  lemma AcquireOk(
      c: Config, p: Pool, tasks: map<nat, Stage>, conns: map<nat, Place>,
      tasks': map<nat, Stage>, conns': map<nat, Place>, key: Key, h: Handle)
    requires HoldersOk(c, p, tasks, conns) && Holder(tasks, conns, h) == None
    requires forall g :: Holder(tasks', conns', g) == if g == h then Some(key) else Holder(tasks, conns, g)
    ensures HoldersOk(c, Acquire(c, p, key, h), tasks', conns')
  {
    var q := Acquire(c, p, key, h);
    if c.perHost != 0 {
      forall k, g
        ensures g in Host(q, k) <==> Holder(tasks', conns', g) == Some(k)
      {
        assert Host(q, k) == if k == key then Host(p, key) + {h} else Host(p, k);
      }
    }
  }

  lemma DiscardOk(
      c: Config, p: Pool, tasks: map<nat, Stage>, conns: map<nat, Place>,
      tasks': map<nat, Stage>, conns': map<nat, Place>, key: Key, h: Handle)
    requires HoldersOk(c, p, tasks, conns) && Holder(tasks, conns, h) == Some(key)
    requires forall g :: Holder(tasks', conns', g) == if g == h then None else Holder(tasks, conns, g)
    ensures HoldersOk(c, Discard(c, p, key, h), tasks', conns')
  {
    var q := Discard(c, p, key, h);
    if c.perHost != 0 {
      assert h in Host(p, key);
      forall k, g
        ensures g in Host(q, k) <==> Holder(tasks', conns', g) == Some(k)
      {
        assert Host(q, k) == if k == key then Host(p, key) - {h} else Host(p, k);
      }
    }
  }

  lemma SwapOk(c: Config, p: Pool, tasks: map<nat, Stage>, conns: map<nat, Place>, key: Key, t: nat, n: nat)
    requires HoldersOk(c, p, tasks, conns) && Holder(tasks, conns, Placeholder(t)) == Some(key) && n !in conns
    ensures HoldersOk(c, Swap(c, p, key, t, n), tasks[t := Gone], conns[n := InUse(key)])
  {
    var g0, g1 := Placeholder(t), Conn(n);
    var q := Swap(c, p, key, t, n);
    assert Holder(tasks, conns, g1) == None;
    forall g
      ensures Holder(tasks[t := Gone], conns[n := InUse(key)], g)
           == if g == g1 then Some(key) else if g == g0 then None else Holder(tasks, conns, g)
    {
    }
    if c.perHost != 0 {
      forall k, g
        ensures g in Host(q, k) <==> Holder(tasks[t := Gone], conns[n := InUse(key)], g) == Some(k)
      {
        assert Host(q, k) == if k == key then Host(p, key) - {g0} + {g1} else Host(p, k);
        assert g in Host(p, k) <==> Holder(tasks, conns, g) == Some(k);
      }
    }
  }

  /** Swapping a placeholder for its connection changes no count. */
  lemma SwapKeepsCounts(c: Config, w: World, t: nat, conn: nat, k: Key)
    requires Kept(c, w) && Enabled(w, Creates(t, conn))
    ensures var p := Step(c, w, Creates(t, conn)).pool;
            |p.acquired| == |w.pool.acquired| && |Host(p, k)| == |Host(w.pool, k)|
  {
    var key := w.tasks[t].key;
    assert Holder(w.tasks, w.conns, Placeholder(t)) == Some(key) && Holder(w.tasks, w.conns, Conn(conn)) == None;
    assert |w.pool.acquired - {Placeholder(t)}| == |w.pool.acquired| - 1;
    if c.perHost != 0 {
      assert Placeholder(t) in Host(w.pool, key) && Conn(conn) !in Host(w.pool, key);
      assert |Host(w.pool, key) - {Placeholder(t)}| == |Host(w.pool, key)| - 1;
    }
  }

  /** Only stages of creating calls matter for the handles. */
  lemma OtherStages(
      c: Config, p: Pool, q: Pool, tasks: map<nat, Stage>, conns: map<nat, Place>, tasks': map<nat, Stage>)
    requires HoldersOk(c, p, tasks, conns) && q.acquired == p.acquired && q.perHost == p.perHost
    requires forall g :: Holder(tasks', conns, g) == Holder(tasks, conns, g)
    ensures HoldersOk(c, q, tasks', conns)
  {
    if c.perHost != 0 {
      forall k
        ensures Host(q, k) == Host(p, k)
      {
      }
    }
  }
}
