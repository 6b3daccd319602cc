/** Safety and progress of the connection pool over whole runs. */
module PoolSafety {
  import opened Common
  import opened PoolSpec
  import opened PoolRuns
  import opened PoolKeeps

  /** A call that is not part of the pool's state. */
  predicate Free(w: World, t: nat) { t in w.tasks ==> w.tasks[t] == Gone }

  // ----- connect -----

  lemma ReuseKeeps(c: Config, w: World, t: nat, key: Key, connected: set<nat>, now: int)
    requires Kept(c, w) && Free(w, t) && Get(c, w.pool, key, connected, now).1.Some?
    ensures var (q, got) := Get(c, w.pool, key, connected, now);
            Kept(c, World(q, w.tasks[t := Gone], w.conns[got.value := InUse(key)]))
  {
    var (q, got) := Get(c, w.pool, key, connected, now);
    GetIdle(c, w.pool, w.conns, key, connected, now);
    var idle :| q == Acquire(c, w.pool.(idle := idle), key, Conn(got.value));
    var p := w.pool.(idle := idle);
    OtherStages(c, w.pool, p, w.tasks, w.conns, w.tasks[t := Gone]);
    AcquireConn(c, p, w.tasks[t := Gone], w.conns, key, got.value);
    NotWaiting(w.pool.waiters, w.tasks, t, Gone);
  }

  lemma NoReuseKeeps(c: Config, w: World, key: Key, connected: set<nat>, now: int)
    requires Kept(c, w) && Get(c, w.pool, key, connected, now).1.None?
    ensures Kept(c, w.(pool := Get(c, w.pool, key, connected, now).0))
  {
    GetIdle(c, w.pool, w.conns, key, connected, now);
    OtherStages(c, w.pool, Get(c, w.pool, key, connected, now).0, w.tasks, w.conns, w.tasks);
  }

  lemma BeginKeeps(c: Config, w: World, t: nat, key: Key)
    requires Kept(c, w) && Free(w, t)
    ensures Kept(c, World(Acquire(c, w.pool, key, Placeholder(t)), w.tasks[t := Creating(key)], w.conns))
  {
    AcquirePlaceholder(c, w.pool, w.tasks, w.conns, key, t);
    NotWaiting(w.pool.waiters, w.tasks, t, Creating(key));
  }

  lemma WaitKeeps(c: Config, w: World, t: nat, key: Key, front: bool)
    requires Kept(c, w) && Free(w, t)
    ensures Kept(c, World(Enqueue(w.pool, key, t, front), w.tasks[t := Queued(key)], w.conns))
  {
    var q := Enqueue(w.pool, key, t, front);
    OtherStages(c, w.pool, q, w.tasks, w.conns, w.tasks[t := Queued(key)]);
    EnqueueOk(w.pool, w.tasks, key, t, front);
  }

  lemma LeaveKeeps(c: Config, w: World, t: nat)
    requires Kept(c, w) && t in w.tasks && (w.tasks[t].Queued? || w.tasks[t].Cancelled? || w.tasks[t].Woken?)
    ensures Kept(c, World(Leave(w.pool, w.tasks[t].key, t), w.tasks[t := Gone], w.conns))
  {
    var key := w.tasks[t].key;
    OtherStages(c, w.pool, Leave(w.pool, key, t), w.tasks, w.conns, w.tasks[t := Gone]);
    LeaveOk(w.pool, w.tasks, key, t, Gone);
  }

  /** From a pool to which a call is free: reuse, or begin. */
  lemma StartKeeps(c: Config, w: World, t: nat, key: Key, connected: set<nat>, now: int)
    requires Kept(c, w) && Free(w, t)
    ensures var (q, got) := Get(c, w.pool, key, connected, now);
            if got.Some? then Kept(c, World(q, w.tasks[t := Gone], w.conns[got.value := InUse(key)]))
            else Kept(c, World(Acquire(c, q, key, Placeholder(t)), w.tasks[t := Creating(key)], w.conns))
  {
    var (q, got) := Get(c, w.pool, key, connected, now);
    if got.Some? {
      ReuseKeeps(c, w, t, key, connected, now);
    } else {
      NoReuseKeeps(c, w, key, connected, now);
      BeginKeeps(c, w.(pool := q), t, key);
    }
  }

  lemma ConnectsKeeps(c: Config, w: World, e: Event)
    requires Kept(c, w) && Enabled(w, e) && e.Connects?
    ensures Kept(c, Step(c, w, e))
  {
    var Connects(t, key, connected, now) := e;
    var (q, got) := Get(c, w.pool, key, connected, now);
    StartKeeps(c, w, t, key, connected, now);
    if got.None? && Available(c, q, key) <= 0 {
      NoReuseKeeps(c, w, key, connected, now);
      WaitKeeps(c, w.(pool := q), t, key, false);
    }
  }

  lemma ResumesKeeps(c: Config, w: World, e: Event)
    requires Kept(c, w) && Enabled(w, e) && e.Resumes?
    ensures Kept(c, Step(c, w, e))
  {
    var Resumes(t, connected, now) := e;
    var key := w.tasks[t].key;
    LeaveKeeps(c, w, t);
    var left := World(Leave(w.pool, key, t), w.tasks[t := Gone], w.conns);
    assert left.tasks[t := Gone] == w.tasks[t := Gone];
    assert left.tasks[t := Queued(key)] == w.tasks[t := Queued(key)];
    assert left.tasks[t := Creating(key)] == w.tasks[t := Creating(key)];
    if Available(c, left.pool, key) <= 0 {
      WaitKeeps(c, left, t, key, true);
    } else {
      StartKeeps(c, left, t, key, connected, now);
    }
  }

  // ----- release -----

  lemma QueuesApart(waiters: map<Key, seq<nat>>, tasks: map<nat, Stage>)
    requires QueuesOk(waiters, tasks)
    ensures AllDistinct(waiters) && Apart(waiters)
  {
  }

  lemma WakeKeeps(c: Config, w: World, order: seq<Key>)
    requires HoldersOk(c, w.pool, w.tasks, w.conns) && QueuesOk(w.pool.waiters, w.tasks)
    ensures var (q, u) := WakeFirst(c, w.pool, order, CancelledIn(w));
            && q == w.pool.(waiters := q.waiters)
            && HoldersOk(c, q, Wake(w.tasks, u), w.conns) && QueuesOk(q.waiters, Wake(w.tasks, u))
            && (u.Some? ==> u.value in w.tasks && w.tasks[u.value].Queued?)
  {
    var (q, u) := WakeFirst(c, w.pool, order, CancelledIn(w));
    QueuesApart(w.pool.waiters, w.tasks);
    WakeFirstPops(c, w.pool, order, CancelledIn(w));
    WakeFirstPicks(c, w.pool, order, CancelledIn(w));
    OtherStages(c, w.pool, q, w.tasks, w.conns, Wake(w.tasks, u));
    PoppedOk(w.pool.waiters, q.waiters, w.tasks, CancelledIn(w), u);
  }

  lemma PoppedOk(
      before: map<Key, seq<nat>>, after: map<Key, seq<nat>>, tasks: map<nat, Stage>, cancelled: set<nat>,
      u: Option<nat>)
    requires QueuesOk(before, tasks) && Popped(before, after, cancelled, u)
    requires forall t :: t in cancelled <==> t in tasks && tasks[t].Cancelled?
    ensures QueuesOk(after, Wake(tasks, u))
  {
    forall k | k in after
      ensures WaitAt(after[k], k, Wake(tasks, u))
    {
      assert WaitAt(before[k], k, tasks);
    }
    forall t | t in Wake(tasks, u) && Wake(tasks, u)[t].Queued?
      ensures tasks[t].key in after && t in after[tasks[t].key]
    {
      assert t in tasks && tasks[t].Queued? && u != Some(t);
    }
  }

  /** The world in which a failed attempt has given its placeholder back. */
  function AfterFailure(c: Config, w: World, t: nat): World
    requires t in w.tasks && w.tasks[t].Creating?
  {
    World(Discard(c, w.pool, w.tasks[t].key, Placeholder(t)), w.tasks[t := Gone], w.conns)
  }

  lemma FailsKeeps(c: Config, w: World, e: Event)
    requires Kept(c, w) && Enabled(w, e) && e.Fails?
    ensures Kept(c, Step(c, w, e)) && Kept(c, AfterFailure(c, w, e.t))
    ensures CancelledIn(AfterFailure(c, w, e.t)) == CancelledIn(w)
  {
    var Fails(t, order) := e;
    var key := w.tasks[t].key;
    var given := AfterFailure(c, w, t);
    assert Holder(w.tasks, w.conns, Placeholder(t)) == Some(key);
    DiscardOk(c, w.pool, w.tasks, w.conns, given.tasks, w.conns, key, Placeholder(t));
    NotWaiting(w.pool.waiters, w.tasks, t, Gone);
    assert CancelledIn(given) == CancelledIn(w);
    WakeKeeps(c, given, order);
  }

  /** The world in which a released connection is no longer in use. */
  function AfterRelease(c: Config, w: World, conn: nat): World
    requires conn in w.conns && w.conns[conn].InUse?
  {
    var key := w.conns[conn].key;
    World(Discard(c, w.pool, key, Conn(conn)), w.tasks, w.conns[conn := Out(key)])
  }

  lemma ReleasesKeeps(c: Config, w: World, e: Event)
    requires Kept(c, w) && Enabled(w, e) && e.Releases?
    ensures Kept(c, Step(c, w, e)) && Kept(c, AfterRelease(c, w, e.conn))
  {
    var Releases(conn, shouldClose, now, order) := e;
    var key := w.conns[conn].key;
    var given := AfterRelease(c, w, conn);
    assert Holder(w.tasks, w.conns, Conn(conn)) == Some(key);
    DiscardOk(c, w.pool, w.tasks, w.conns, w.tasks, given.conns, key, Conn(conn));
    ParkOk(w.pool.idle, w.conns, key, conn, now);
    WakeKeeps(c, given, order);
    var (q, u) := WakeFirst(c, given.pool, order, CancelledIn(w));
    assert CancelledIn(given) == CancelledIn(w);
    var parked := q.(idle := q.idle[key := IdleAt(q, key) + [Idle(conn, now)]]);
    OtherStages(c, q, parked, Wake(w.tasks, u), given.conns, Wake(w.tasks, u));
  }

  // ----- every step, every run -----

  /** Every step keeps the books of the pool. */
  lemma StepKeeps(c: Config, w: World, e: Event)
    requires Kept(c, w) && Enabled(w, e)
    ensures Kept(c, Step(c, w, e))
  {
    match e
    case Connects(_, _, _, _) => ConnectsKeeps(c, w, e);
    case Resumes(_, _, _) => ResumesKeeps(c, w, e);
    case CancelsQueued(t) =>
      var s := Cancelled(w.tasks[t].key);
      OtherStages(c, w.pool, w.pool, w.tasks, w.conns, w.tasks[t := s]);
      CancelOk(w.pool.waiters, w.tasks, t);
    case Unwinds(t) => LeaveKeeps(c, w, t);
    case CancelsWoken(t) => LeaveKeeps(c, w, t);
    case Creates(t, conn) =>
      SwapOk(c, w.pool, w.tasks, w.conns, w.tasks[t].key, t, conn);
      NewConnIdle(w.pool.idle, w.conns, w.tasks[t].key, conn);
      NotWaiting(w.pool.waiters, w.tasks, t, Gone);
    case Fails(_, _) => FailsKeeps(c, w, e);
    case Releases(_, _, _, _) => ReleasesKeeps(c, w, e);
    case CleansUp(connected, now) =>
      OtherStages(c, w.pool, Cleanup(c, w.pool, connected, now), w.tasks, w.conns, w.tasks);
      CleanupOk(c, w.pool, w.conns, connected, now);
  }

  ghost predicate Legal(c: Config, w: World, es: seq<Event>)
    decreases |es|
  {
    es == [] || (Enabled(w, es[0]) && Legal(c, Step(c, w, es[0]), es[1..]))
  }

  ghost function Run(c: Config, w: World, es: seq<Event>): World
    requires Legal(c, w, es)
    decreases |es|
  {
    if es == [] then w else Run(c, Step(c, w, es[0]), es[1..])
  }

  lemma EmptyIsKept(c: Config)
    ensures Kept(c, EMPTY_WORLD)
  {
  }

  lemma {:induction false} RunKeeps(c: Config, w: World, es: seq<Event>)
    requires Kept(c, w) && Legal(c, w, es)
    ensures Kept(c, Run(c, w, es))
    decreases |es|
  {
    if es != [] {
      StepKeeps(c, w, es[0]);
      RunKeeps(c, Step(c, w, es[0]), es[1..]);
    }
  }

  /** A handle is in use for exactly one host, or for none. */
  ghost predicate Partitioned(p: Pool)
  {
    && (forall h :: h in p.acquired <==> exists k :: k in p.perHost && h in p.perHost[k])
    && (forall k, l :: k in p.perHost && l in p.perHost && k != l ==> p.perHost[k] !! p.perHost[l])
  }

  ghost predicate IdleIsApart(p: Pool)
  {
    && (forall k :: k in p.idle ==> p.idle[k] != [])
    && (forall k, e :: k in p.idle && e in p.idle[k] ==> Conn(e.conn) !in p.acquired)
    && (forall k, l, e, f :: k in p.idle && e in p.idle[k] && l in p.idle && f in p.idle[l] ==>
          (e.conn == f.conn ==> k == l && e == f))
  }

  lemma KeptIsApart(c: Config, w: World)
    requires Kept(c, w)
    ensures IdleIsApart(w.pool)
  {
    forall k, e | k in w.pool.idle && e in w.pool.idle[k]
      ensures e.conn in w.conns && w.conns[e.conn] == Out(k)
    {
      assert ParkedAt(w.pool.idle[k], k, w.conns);
    }
    forall k, e | k in w.pool.idle && e in w.pool.idle[k]
      ensures Conn(e.conn) !in w.pool.acquired
    {
      assert Holder(w.tasks, w.conns, Conn(e.conn)) == None;
    }
  }

  lemma KeptIsPartitioned(c: Config, w: World)
    requires Kept(c, w) && c.perHost != 0
    ensures Partitioned(w.pool)
  {
    var p := w.pool;
    forall k, h | k in p.perHost && h in p.perHost[k]
      ensures Holder(w.tasks, w.conns, h) == Some(k)
    {
      assert h in Host(p, k);
    }
    forall k, l, h | k in p.perHost && l in p.perHost && h in p.perHost[k] && h in p.perHost[l]
      ensures k == l
    {
      assert Holder(w.tasks, w.conns, h) == Some(k) == Some(l);
    }
    forall h | h in p.acquired
      ensures exists k :: k in p.perHost && h in p.perHost[k]
    {
      var k := Holder(w.tasks, w.conns, h).value;
      assert h in Host(p, k);
    }
  }

  /**
   * In every state of every run idle and acquired connections are disjoint, no connection is idle
   * twice, no idle queue is empty, and the sets of the hosts partition the acquired set.
   */
  lemma PoolIsConsistent(c: Config, es: seq<Event>)
    requires Legal(c, EMPTY_WORLD, es)
    ensures IdleIsApart(Run(c, EMPTY_WORLD, es).pool)
    ensures c.perHost != 0 ==> Partitioned(Run(c, EMPTY_WORLD, es).pool)
  {
    EmptyIsKept(c);
    RunKeeps(c, EMPTY_WORLD, es);
    KeptIsApart(c, Run(c, EMPTY_WORLD, es));
    if c.perHost != 0 {
      KeptIsPartitioned(c, Run(c, EMPTY_WORLD, es));
    }
  }

  // ----- limits -----

  predicate WithinLimits(c: Config, p: Pool, key: Key)
  {
    (c.limit != 0 ==> |p.acquired| <= c.limit) && (c.perHost != 0 ==> |Host(p, key)| <= c.perHost)
  }

  lemma BegunWithinLimits(c: Config, p: Pool, key: Key, h: Handle)
    requires Available(c, p, key) > 0
    ensures WithinLimits(c, Acquire(c, p, key, h), key)
  {
  }

  lemma ConnectsWithin(c: Config, w: World, e: Event)
    requires Enabled(w, e) && e.Connects? && At(Step(c, w, e), e.t, Creating(e.key))
    ensures WithinLimits(c, Step(c, w, e).pool, e.key)
  {
    var (q, got) := Get(c, w.pool, e.key, e.connected, e.now);
    assert got.None? && Available(c, q, e.key) > 0;
    BegunWithinLimits(c, q, e.key, Placeholder(e.t));
  }

  lemma ResumesWithin(c: Config, w: World, e: Event)
    requires Enabled(w, e) && e.Resumes? && At(Step(c, w, e), e.t, Creating(w.tasks[e.t].key))
    ensures WithinLimits(c, Step(c, w, e).pool, w.tasks[e.t].key)
  {
    var key := w.tasks[e.t].key;
    var left := Leave(w.pool, key, e.t);
    assert Available(c, left, key) > 0;
    var (q, got) := Get(c, left, key, e.connected, e.now);
    assert got.None? && q.acquired == left.acquired && q.perHost == left.perHost;
    BegunWithinLimits(c, q, key, Placeholder(e.t));
  }

  /**
   * Only a call of `connect` that just started or was woken begins to make a connection, and it is
   * the one that ran.
   */
  lemma OnlyTheseBegin(c: Config, w: World, e: Event, t: nat, key: Key)
    requires Enabled(w, e) && At(Step(c, w, e), t, Creating(key)) && !At(w, t, Creating(key))
    ensures (e.Connects? && e.t == t && e.key == key) || (e.Resumes? && e.t == t && w.tasks[t].key == key)
  {
  }

  /** A step after which a call makes a new connection that it did not make before respects both limits. */
  lemma BeginsWithinLimits(c: Config, w: World, e: Event, t: nat, key: Key)
    requires Enabled(w, e) && At(Step(c, w, e), t, Creating(key)) && !At(w, t, Creating(key))
    ensures WithinLimits(c, Step(c, w, e).pool, key)
  {
    OnlyTheseBegin(c, w, e, t, key);
    if e.Connects? {
      ConnectsWithin(c, w, e);
    } else {
      ResumesWithin(c, w, e);
    }
  }
}
