/** What each step of the pool means for the call or the connection it is about; none of them is ever held up. */
module PoolSteps {
  import opened Common
  import opened PoolSpec
  import opened PoolRuns
  import opened PoolKeeps
  import opened PoolReuse

  /** Some connection idle for the host can be reused. */
  predicate Reusable(c: Config, w: World, key: Key, connected: set<nat>, now: int)
  {
    AnyInTime(IdleAt(w.pool, key), connected, now, c.keepalive)
  }

  /** Where a call is, once it reused a connection of its host, began one, or waits. */
  ghost predicate Settled(w: World, v: World, t: nat, key: Key)
  {
    && t in v.tasks && v.tasks == w.tasks[t := v.tasks[t]]
    && match v.tasks[t]
       case Gone =>
         exists e ::
           e in IdleAt(w.pool, key) && v.conns == w.conns[e.conn := InUse(key)] && Conn(e.conn) in v.pool.acquired
       case Creating(k) => k == key && v.conns == w.conns && Placeholder(t) in v.pool.acquired
       case Queued(k) => k == key && v.conns == w.conns && t in Queue(v.pool, key)
       case _ => false
  }

  /** A new call reuses a connection if it can, else begins one if there is room, else waits. */
  lemma CallGoesOn(c: Config, w: World, t: nat, key: Key, connected: set<nat>, now: int)
    requires t !in w.tasks
    ensures Enabled(w, Connects(t, key, connected, now))
    ensures var v := Step(c, w, Connects(t, key, connected, now));
            && Settled(w, v, t, key)
            && v.tasks[t] == if Reusable(c, w, key, connected, now) then Gone
                             else if HasRoom(c, w.pool, key) then Creating(key) else Queued(key)
  {
    ConnectReuses(c, w.pool, key, t, connected, now);
    var (p, r) := Connect(c, w.pool, key, t, connected, now);
    if r.Reuses? {
      var i: nat :| FirstInTime(IdleAt(w.pool, key), i, connected, now, c.keepalive)
                    && IdleAt(w.pool, key)[i].conn == r.conn;
      assert IdleAt(w.pool, key)[i] in IdleAt(w.pool, key);
    }
  }

  /** A woken call does so if there is room for it, and else waits again. */
  lemma WokenGoesOn(c: Config, w: World, t: nat, key: Key, connected: set<nat>, now: int)
    requires At(w, t, Woken(key))
    ensures Enabled(w, Resumes(t, connected, now))
    ensures var v := Step(c, w, Resumes(t, connected, now));
            && Settled(w, v, t, key)
            && v.tasks[t] == (if !HasRoom(c, w.pool, key) then Queued(key)
                              else if Reusable(c, w, key, connected, now) then Gone else Creating(key))
            && (v.tasks[t] == Queued(key) ==> Queue(v.pool, key) == [t] + Without(Queue(w.pool, key), t))
  {
    ResumeReuses(c, w.pool, key, t, connected, now);
    var (p, r) := Resume(c, w.pool, key, t, connected, now);
    if r.Reuses? {
      var i: nat :| FirstInTime(IdleAt(w.pool, key), i, connected, now, c.keepalive)
                    && IdleAt(w.pool, key)[i].conn == r.conn;
      assert IdleAt(w.pool, key)[i] in IdleAt(w.pool, key);
    }
  }

  /** A call that waits can be cancelled; when it sees that, or was woken before, it takes itself off its queue. */
  ghost predicate Left(w: World, v: World, t: nat, key: Key)
  {
    && v.tasks == w.tasks[t := Gone] && v.conns == w.conns
    && Queue(v.pool, key) == Without(Queue(w.pool, key), t)
    && (key in v.pool.waiters <==> Without(Queue(w.pool, key), t) != [])
    && (forall k :: k != key ==> Queue(v.pool, k) == Queue(w.pool, k))
    && v.pool == w.pool.(waiters := v.pool.waiters)
  }

  lemma CancelGoesOn(c: Config, w: World, t: nat, key: Key)
    requires At(w, t, Queued(key))
    ensures Enabled(w, CancelsQueued(t))
    ensures var v := Step(c, w, CancelsQueued(t));
            && v == w.(tasks := w.tasks[t := Cancelled(key)]) && Enabled(v, Unwinds(t))
            && Left(v, Step(c, v, Unwinds(t)), t, key)
  {
  }

  lemma CancelWokenGoesOn(c: Config, w: World, t: nat, key: Key)
    requires At(w, t, Woken(key))
    ensures Enabled(w, CancelsWoken(t)) && Left(w, Step(c, w, CancelsWoken(t)), t, key)
  {
  }

  /** A connection that was made takes the place of its placeholder. */
  lemma CreatedGoesOn(c: Config, w: World, t: nat, key: Key, conn: nat)
    requires At(w, t, Creating(key)) && conn !in w.conns
    ensures Enabled(w, Creates(t, conn))
    ensures var v := Step(c, w, Creates(t, conn));
            && v.tasks == w.tasks[t := Gone] && v.conns == w.conns[conn := InUse(key)]
            && v.pool.acquired == w.pool.acquired - {Placeholder(t)} + {Conn(conn)}
            && v.pool.idle == w.pool.idle && v.pool.waiters == w.pool.waiters
  {
  }

  /** At most one call that waits is woken, and the others stay where they are. */
  predicate Wakes(before: map<nat, Stage>, after: map<nat, Stage>, u: Option<nat>)
  {
    match u
    case None => after == before
    case Some(t) => t in before && before[t].Queued? && after == before[t := Woken(before[t].key)]
  }

  ghost predicate WakesOneAtMost(before: map<nat, Stage>, after: map<nat, Stage>)
  {
    exists u :: Wakes(before, after, u)
  }

  lemma KeptQueues(c: Config, w: World)
    requires Kept(c, w)
    ensures AllDistinct(w.pool.waiters) && Apart(w.pool.waiters)
  {
  }

  /** A waiter that is woken is one that waits. */
  lemma WokenWaits(c: Config, w: World, p: Pool, order: seq<Key>)
    requires Kept(c, w) && p.waiters == w.pool.waiters
    ensures var u := WakeFirst(c, p, order, CancelledIn(w)).1;
            u.Some? ==> u.value in w.tasks && w.tasks[u.value].Queued?
  {
    KeptQueues(c, w);
    WakeFirstPicks(c, p, order, CancelledIn(w));
  }

  /** A connection in use can be released: it is kept idle unless it is to be closed. */
  lemma ReleaseGoesOn(c: Config, w: World, conn: nat, key: Key, shouldClose: bool, now: int, order: seq<Key>)
    requires Kept(c, w) && conn in w.conns && w.conns[conn] == InUse(key) && Visits(order, w.pool)
    ensures Enabled(w, Releases(conn, shouldClose, now, order))
    ensures var v := Step(c, w, Releases(conn, shouldClose, now, order));
            && v.conns == w.conns[conn := Out(key)] && v.pool.acquired == w.pool.acquired - {Conn(conn)}
            && IdleAt(v.pool, key)
               == IdleAt(w.pool, key) + (if c.forceClose || shouldClose then [] else [Idle(conn, now)])
            && WakesOneAtMost(w.tasks, v.tasks)
  {
    KeptQueues(c, w);
    ReleaseKeepsIdle(c, w.pool, key, conn, shouldClose, now, order, CancelledIn(w));
    var u := WakeFirst(c, Discard(c, w.pool, key, Conn(conn)), order, CancelledIn(w)).1;
    WokenWaits(c, w, Discard(c, w.pool, key, Conn(conn)), order);
    assert Wakes(w.tasks, Step(c, w, Releases(conn, shouldClose, now, order)).tasks, u);
  }

  /** An attempt to make a connection can fail; its place is free for another call. */
  lemma FailureGoesOn(c: Config, w: World, t: nat, key: Key, order: seq<Key>)
    requires Kept(c, w) && At(w, t, Creating(key)) && Visits(order, w.pool)
    ensures Enabled(w, Fails(t, order))
    ensures var v := Step(c, w, Fails(t, order));
            && v.conns == w.conns && v.pool.acquired == w.pool.acquired - {Placeholder(t)} && v.pool.idle == w.pool.idle
            && WakesOneAtMost(w.tasks[t := Gone], v.tasks)
  {
    KeptQueues(c, w);
    var p := Discard(c, w.pool, key, Placeholder(t));
    WakeFirstPops(c, p, order, CancelledIn(w));
    WokenWaits(c, w, p, order);
    var u := WakeFirst(c, p, order, CancelledIn(w)).1;
    assert Wakes(w.tasks[t := Gone], Step(c, w, Fails(t, order)).tasks, u);
  }

  /** A clean-up can come at any time, and keeps what could be reused then. */
  lemma CleanupGoesOn(c: Config, w: World, connected: set<nat>, now: int, key: Key, e: Idle)
    ensures Enabled(w, CleansUp(connected, now))
    ensures var v := Step(c, w, CleansUp(connected, now));
            && (e in IdleAt(v.pool, key) <==> e in IdleAt(w.pool, key) && InTime(e, connected, now, c.keepalive))
            && v == w.(pool := w.pool.(idle := v.pool.idle))
  {
    CleanupKeeps(c, w.pool, connected, now, key, e);
  }
}
