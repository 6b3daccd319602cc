/** Which idle connection a call gets, which are kept idle, and in what order calls wait. */
module PoolReuse {
  import opened Common
  import opened PoolSpec
  import opened PoolKeeps

  /** The server has not closed the connection, and it has not been idle for longer than is allowed. */
  predicate InTime(e: Idle, connected: set<nat>, now: int, keepalive: int)
  {
    e.conn in connected && now - e.since <= keepalive
  }

  /** The first connection of a queue that can be reused. */
  predicate FirstInTime(q: seq<Idle>, i: nat, connected: set<nat>, now: int, keepalive: int)
  {
    && i < |q| && InTime(q[i], connected, now, keepalive)
    && forall j :: 0 <= j < i ==> !InTime(q[j], connected, now, keepalive)
  }

  predicate AnyInTime(q: seq<Idle>, connected: set<nat>, now: int, keepalive: int)
  {
    exists i :: 0 <= i < |q| && InTime(q[i], connected, now, keepalive)
  }

  lemma {:induction false} FirstUsableIsInTime(c: Config, q: seq<Idle>, connected: set<nat>, now: int)
    ensures var i := FirstUsable(c, q, connected, now);
            if i < |q| then FirstInTime(q, i, connected, now, c.keepalive)
            else !AnyInTime(q, connected, now, c.keepalive)
  {
    if q != [] && FirstUsable(c, q, connected, now) > 0 {
      FirstUsableIsInTime(c, q[1..], connected, now);
      assert forall j :: 1 <= j < |q| ==> q[j] == q[1..][j - 1];
    }
  }

  /** The connection was taken out of the idle queue of its host together with those in front of it, and is in use. */
  ghost predicate Taken(c: Config, p: Pool, q: Pool, key: Key, i: nat)
    requires i < |IdleAt(p, key)|
  {
    && IdleAt(q, key) == IdleAt(p, key)[i + 1..]
    && (forall k :: k != key ==> IdleAt(q, k) == IdleAt(p, k))
    && q.acquired == p.acquired + {Conn(IdleAt(p, key)[i].conn)}
    && q.waiters == p.waiters
  }

  lemma GetTakes(c: Config, p: Pool, key: Key, connected: set<nat>, now: int)
    ensures var (q, got) := Get(c, p, key, connected, now);
            match got
            case Some(n) =>
              exists i: nat :: && FirstInTime(IdleAt(p, key), i, connected, now, c.keepalive)
                          && IdleAt(p, key)[i].conn == n && Taken(c, p, q, key, i)
            case None =>
              && !AnyInTime(IdleAt(p, key), connected, now, c.keepalive) && IdleAt(q, key) == []
              && q.acquired == p.acquired && q.perHost == p.perHost && q.waiters == p.waiters
              && forall k :: k != key ==> IdleAt(q, k) == IdleAt(p, k)
  {
    FirstUsableIsInTime(c, IdleAt(p, key), connected, now);
    var i := FirstUsable(c, IdleAt(p, key), connected, now);
    if i < |IdleAt(p, key)| {
      assert Taken(c, p, Get(c, p, key, connected, now).0, key, i);
    }
  }

  /**
   * A call reuses a connection if and only if one is idle for its host that is still connected and
   * has not been idle for too long, and then the first such one. Otherwise it begins a new one if
   * both limits have room for it, and waits if not.
   */
  lemma ConnectReuses(c: Config, p: Pool, key: Key, t: nat, connected: set<nat>, now: int)
    ensures var (q, r) := Connect(c, p, key, t, connected, now);
            match r
            case Reuses(n) =>
              exists i: nat :: && FirstInTime(IdleAt(p, key), i, connected, now, c.keepalive)
                          && IdleAt(p, key)[i].conn == n && Taken(c, p, q, key, i)
            case Begins =>
              && !AnyInTime(IdleAt(p, key), connected, now, c.keepalive) && HasRoom(c, p, key)
              && q.acquired == p.acquired + {Placeholder(t)} && q.waiters == p.waiters
            case Waits =>
              && !AnyInTime(IdleAt(p, key), connected, now, c.keepalive) && !HasRoom(c, p, key)
              && q.acquired == p.acquired && Queue(q, key) == Queue(p, key) + [t]
  {
    GetTakes(c, p, key, connected, now);
    AvailableIsRoom(c, Get(c, p, key, connected, now).0, key);
  }

  /**
   * A call that was woken waits again, in front of the others, if and only if there is no room for
   * it. Otherwise it reuses a connection under the same conditions as a new call, or begins one.
   */
  lemma ResumeReuses(c: Config, p: Pool, key: Key, t: nat, connected: set<nat>, now: int)
    ensures var (q, r) := Resume(c, p, key, t, connected, now);
            match r
            case Reuses(n) =>
              && HasRoom(c, p, key)
              && exists i: nat ::
                   FirstInTime(IdleAt(p, key), i, connected, now, c.keepalive) && IdleAt(p, key)[i].conn == n
            case Begins =>
              && !AnyInTime(IdleAt(p, key), connected, now, c.keepalive) && HasRoom(c, p, key)
              && q.acquired == p.acquired + {Placeholder(t)}
            case Waits =>
              && !HasRoom(c, p, key) && q.acquired == p.acquired
              && Queue(q, key) == [t] + Without(Queue(p, key), t)
  {
    var left := Leave(p, key, t);
    AvailableIsRoom(c, left, key);
    GetTakes(c, left, key, connected, now);
    assert IdleAt(left, key) == IdleAt(p, key) && Host(left, key) == Host(p, key);
  }

  // ----- keeping idle -----

  lemma {:induction false} AliveIsInTime(c: Config, q: seq<Idle>, connected: set<nat>, now: int, e: Idle)
    ensures e in Alive(c, q, connected, now) <==> e in q && InTime(e, connected, now, c.keepalive)
    ensures Subsequence(Alive(c, q, connected, now), q)
  {
    if q != [] {
      var rest := Alive(c, q[1..], connected, now);
      AliveIsInTime(c, q[1..], connected, now, e);
      assert q == [q[0]] + q[1..];
      if InTime(q[0], connected, now, c.keepalive) {
        assert ([q[0]] + rest)[1..] == rest;
      }
    }
  }

  /** A clean-up keeps, in order, exactly the idle connections that a call could reuse at that time. */
  lemma CleanupKeeps(c: Config, p: Pool, connected: set<nat>, now: int, key: Key, e: Idle)
    ensures var q := Cleanup(c, p, connected, now);
            && (e in IdleAt(q, key) <==> e in IdleAt(p, key) && InTime(e, connected, now, c.keepalive))
            && Subsequence(IdleAt(q, key), IdleAt(p, key))
            && q == p.(idle := q.idle)
  {
    AliveIsInTime(c, IdleAt(p, key), connected, now, e);
    assert IdleAt(p, key) == [] ==> Subsequence([], IdleAt(p, key));
  }

  /**
   * A released connection is no longer in use. It is kept idle, behind the others of its host, unless
   * it should be closed or the connector closes all.
   */
  lemma ReleaseKeepsIdle(
      c: Config, p: Pool, key: Key, conn: nat, shouldClose: bool, now: int, order: seq<Key>, cancelled: set<nat>)
    requires AllDistinct(p.waiters) && Apart(p.waiters)
    ensures var q := Release(c, p, key, conn, shouldClose, now, order, cancelled).0;
            && q.acquired == p.acquired - {Conn(conn)}
            && IdleAt(q, key) == IdleAt(p, key) + (if c.forceClose || shouldClose then [] else [Idle(conn, now)])
            && forall k :: k != key ==> IdleAt(q, k) == IdleAt(p, k)
  {
    var d := Discard(c, p, key, Conn(conn));
    WakeFirstPops(c, d, order, cancelled);
    assert IdleAt(p, key) + [] == IdleAt(p, key);
  }

  /**
   * A connection that was released while none was idle for its host is reused by the next call for the
   * host if and only if it was not closed, by either side, and the call comes in time.
   */
  lemma ReleasedIsReused(
      c: Config, p: Pool, key: Key, conn: nat, shouldClose: bool, then_: int, order: seq<Key>, cancelled: set<nat>,
      t: nat, connected: set<nat>, now: int)
    requires AllDistinct(p.waiters) && Apart(p.waiters) && IdleAt(p, key) == []
    ensures var q := Release(c, p, key, conn, shouldClose, then_, order, cancelled).0;
            Connect(c, q, key, t, connected, now).1 == Reuses(conn)
            <==> !c.forceClose && !shouldClose && conn in connected && now - then_ <= c.keepalive
  {
    var q := Release(c, p, key, conn, shouldClose, then_, order, cancelled).0;
    ReleaseKeepsIdle(c, p, key, conn, shouldClose, then_, order, cancelled);
    ConnectReuses(c, q, key, t, connected, now);
    if !c.forceClose && !shouldClose && conn in connected && now - then_ <= c.keepalive {
      assert InTime(IdleAt(q, key)[0], connected, now, c.keepalive);
    }
  }

  // ----- the order of waiting -----

  /** Of two calls that wait for one host the one behind is not woken while the one in front was not cancelled. */
  lemma FrontFirst(c: Config, p: Pool, order: seq<Key>, cancelled: set<nat>, k: Key, i: nat, j: nat)
    requires AllDistinct(p.waiters) && Apart(p.waiters)
    requires k in p.waiters && i < j < |p.waiters[k]| && p.waiters[k][i] !in cancelled
    ensures WakeFirst(c, p, order, cancelled).1 != Some(p.waiters[k][j])
  {
    var q := p.waiters[k];
    WakeFirstPicks(c, p, order, cancelled);
    forall l | FirstOf(p, l, q[j], cancelled)
      ensures false
    {
      assert q[j] in q && q[j] in p.waiters[l];
      NotFirst(p, k, i, j, cancelled);
    }
  }

  lemma NotFirst(p: Pool, k: Key, i: nat, j: nat, cancelled: set<nat>)
    requires k in p.waiters && NoDuplicates(p.waiters[k]) && i < j < |p.waiters[k]| && p.waiters[k][i] !in cancelled
    ensures !FirstOf(p, k, p.waiters[k][j], cancelled)
  {
  }
}
