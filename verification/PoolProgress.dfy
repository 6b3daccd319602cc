/** No call waits in a pool where nothing will ever wake it, as long as no woken call is cancelled. */
module PoolProgress {
  import opened Common
  import opened PoolSpec
  import opened PoolRuns
  import opened PoolKeeps
  import opened PoolSafety

  ghost predicate SomeoneWaits(w: World) { exists t :: t in w.tasks && w.tasks[t].Queued? }

  /** Something is in use, or a call was woken and will run. */
  ghost predicate Busy(w: World) { w.pool.acquired != {} || exists t :: IsWoken(w, t) }

  ghost predicate Live(w: World) { SomeoneWaits(w) ==> Busy(w) }

  predicate UsableLimits(c: Config) { c.limit >= 0 && c.perHost >= 0 }

  /** With nothing in use every host has a free slot. */
  lemma IdlePoolHasRoom(c: Config, p: Pool, tasks: map<nat, Stage>, conns: map<nat, Place>, key: Key)
    requires UsableLimits(c) && HoldersOk(c, p, tasks, conns) && p.acquired == {}
    ensures Available(c, p, key) >= 1
  {
    forall h
      ensures h !in Host(p, key)
    {
      assert h !in p.acquired;
      assert Holder(tasks, conns, h) != Some(key);
    }
    assert Host(p, key) == {};
  }

  lemma ConnectsLive(c: Config, w: World, e: Event)
    requires UsableLimits(c) && Kept(c, w) && Enabled(w, e) && e.Connects?
    ensures Live(Step(c, w, e))
  {
    var (q, got) := Get(c, w.pool, e.key, e.connected, e.now);
    if got.None? && q.acquired == {} {
      NoReuseKeeps(c, w, e.key, e.connected, e.now);
      IdlePoolHasRoom(c, q, w.tasks, w.conns, e.key);
    }
  }

  lemma ResumesLive(c: Config, w: World, e: Event)
    requires UsableLimits(c) && Kept(c, w) && Enabled(w, e) && e.Resumes?
    ensures Live(Step(c, w, e))
  {
    var key := w.tasks[e.t].key;
    var left := Leave(w.pool, key, e.t);
    if left.acquired == {} {
      LeaveKeeps(c, w, e.t);
      IdlePoolHasRoom(c, left, w.tasks[e.t := Gone], w.conns, key);
    }
  }

  /** A release that leaves nothing in use wakes someone who waits. */
  lemma WakeLive(c: Config, w: World, order: seq<Key>)
    requires UsableLimits(c) && HoldersOk(c, w.pool, w.tasks, w.conns) && QueuesOk(w.pool.waiters, w.tasks)
    requires Visits(order, w.pool)
    ensures var (q, u) := WakeFirst(c, w.pool, order, CancelledIn(w));
            Live(World(q, Wake(w.tasks, u), w.conns))
  {
    var (q, u) := WakeFirst(c, w.pool, order, CancelledIn(w));
    WakeKeeps(c, w, order);
    var after := World(q, Wake(w.tasks, u), w.conns);
    if u.Some? {
      assert IsWoken(after, u.value);
    } else if SomeoneWaits(after) && w.pool.acquired == {} {
      var t :| t in w.tasks && w.tasks[t].Queued?;
      IdlePoolHasRoom(c, w.pool, w.tasks, w.conns, w.tasks[t].key);
      WakeFirstWakes(c, w.pool, order, CancelledIn(w), w.tasks[t].key, t);
    }
  }

  lemma FailsLive(c: Config, w: World, e: Event)
    requires UsableLimits(c) && Kept(c, w) && Enabled(w, e) && e.Fails?
    ensures Live(Step(c, w, e))
  {
    FailsKeeps(c, w, e);
    WakeLive(c, AfterFailure(c, w, e.t), e.order);
  }

  lemma ReleasesLive(c: Config, w: World, e: Event)
    requires UsableLimits(c) && Kept(c, w) && Enabled(w, e) && e.Releases?
    ensures Live(Step(c, w, e))
  {
    var given := AfterRelease(c, w, e.conn);
    ReleasesKeeps(c, w, e);
    assert CancelledIn(given) == CancelledIn(w);
    WakeLive(c, given, e.order);
    var (q, u) := WakeFirst(c, given.pool, e.order, CancelledIn(w));
    var before, after := World(q, Wake(w.tasks, u), given.conns), Step(c, w, e);
    assert after.tasks == before.tasks && after.pool.acquired == before.pool.acquired;
    assert forall t :: IsWoken(before, t) ==> IsWoken(after, t);
  }

  lemma LessWaiting(w: World, v: World)
    requires Live(w) && v.pool.acquired == w.pool.acquired
    requires forall t :: t in v.tasks && v.tasks[t].Queued? ==> t in w.tasks && w.tasks[t].Queued?
    requires forall t :: IsWoken(w, t) ==> IsWoken(v, t)
    ensures Live(v)
  {
  }

  /** Every step but the cancellation of a woken call keeps the pool live. */
  lemma StepLive(c: Config, w: World, e: Event)
    requires UsableLimits(c) && Kept(c, w) && Live(w) && Enabled(w, e) && !e.CancelsWoken?
    ensures Live(Step(c, w, e))
  {
    match e
    case Connects(_, _, _, _) => ConnectsLive(c, w, e);
    case Resumes(_, _, _) => ResumesLive(c, w, e);
    case CancelsQueued(_) => LessWaiting(w, Step(c, w, e));
    case Unwinds(_) => LessWaiting(w, Step(c, w, e));
    case Creates(_, _) =>
    case Fails(_, _) => FailsLive(c, w, e);
    case Releases(_, _, _, _) => ReleasesLive(c, w, e);
    case CleansUp(_, _) => LessWaiting(w, Step(c, w, e));
  }

  ghost predicate NoneLost(es: seq<Event>)
  {
    forall i :: 0 <= i < |es| ==> !es[i].CancelsWoken?
  }

  lemma {:induction false} RunLive(c: Config, w: World, es: seq<Event>)
    requires UsableLimits(c) && Kept(c, w) && Live(w) && Legal(c, w, es) && NoneLost(es)
    ensures Live(Run(c, w, es))
    decreases |es|
  {
    if es != [] {
      StepKeeps(c, w, es[0]);
      StepLive(c, w, es[0]);
      assert NoneLost(es[1..]);
      RunLive(c, Step(c, w, es[0]), es[1..]);
    }
  }

  /** With a negative limit the first call waits for ever. */
  lemma NegativeLimitStarves(c: Config)
    requires !UsableLimits(c)
    ensures exists es :: Legal(c, EMPTY_WORLD, es) && NoneLost(es) && !Live(Run(c, EMPTY_WORLD, es))
  {
    var e := Connects(0, "", {}, 0);
    var w := Step(c, EMPTY_WORLD, e);
    assert Host(EMPTY_POOL, "") == {};
    assert Available(c, EMPTY_POOL, "") <= 0;
    assert w.tasks == map[0 := Queued("")] && w.pool.acquired == {};
    assert SomeoneWaits(w);
    OneEvent(c, e);
  }

  lemma OneEvent(c: Config, e: Event)
    requires Enabled(EMPTY_WORLD, e)
    ensures Legal(c, EMPTY_WORLD, [e]) && Run(c, EMPTY_WORLD, [e]) == Step(c, EMPTY_WORLD, e)
  {
    assert [e][1..] == [];
    assert Legal(c, Step(c, EMPTY_WORLD, e), []);
  }

  /**
   * On every run in which no call is cancelled between being woken and running, a call that waits
   * can count on something in use whose release will look for waiters, or on a woken call that will
   * run: if and only if no limit is negative.
   */
  lemma NoStarvation(c: Config)
    ensures (forall es :: Legal(c, EMPTY_WORLD, es) && NoneLost(es) ==> Live(Run(c, EMPTY_WORLD, es)))
       <==> UsableLimits(c)
  {
    if UsableLimits(c) {
      forall es | Legal(c, EMPTY_WORLD, es) && NoneLost(es)
        ensures Live(Run(c, EMPTY_WORLD, es))
      {
        EmptyIsKept(c);
        RunLive(c, EMPTY_WORLD, es);
      }
    } else {
      NegativeLimitStarves(c);
    }
  }
}
