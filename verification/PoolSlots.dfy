/** Free slots and the calls that were woken for them. */
module PoolSlots {
  import opened Common
  import opened PoolSpec
  import opened PoolRuns
  import opened PoolKeeps
  import opened PoolSafety
  import opened PoolProgress

  function WokenIn(w: World): set<nat>
  {
    set t | t in w.tasks && w.tasks[t].Woken?
  }

  /** There is a total limit, and no host can run out of slots before it does. */
  predicate TotalRules(c: Config) { c.limit > 0 && (c.perHost == 0 || c.limit <= c.perHost) }

  /** While anyone waits there is a woken call for every free slot. */
  ghost predicate Covered(c: Config, w: World)
  {
    SomeoneWaits(w) ==> |WokenIn(w)| >= c.limit - |w.pool.acquired|
  }

  lemma Within<T>(a: set<T>, b: set<T>)
    requires a <= b
    ensures |a| <= |b|
  {
    if x :| x in a {
      Within(a - {x}, b - {x});
    }
  }

  lemma AvailableTotal(c: Config, p: Pool, tasks: map<nat, Stage>, conns: map<nat, Place>, key: Key)
    requires TotalRules(c) && HoldersOk(c, p, tasks, conns)
    ensures Available(c, p, key) == c.limit - |p.acquired|
  {
    forall h | h in Host(p, key)
      ensures h in p.acquired
    {
      assert c.perHost != 0 ==> Holder(tasks, conns, h) == Some(key);
    }
    Within(Host(p, key), p.acquired);
  }

  lemma Grows<T>(a: set<T>, x: T)
    ensures |a + {x}| == |a| + if x in a then 0 else 1
  {
    if x in a {
      assert a + {x} == a;
    }
  }

  lemma Shrinks<T>(a: set<T>, x: T)
    requires x in a
    ensures |a - {x}| == |a| - 1
  {
  }

  lemma SameWaiters(w: World, v: World)
    requires forall t :: t in v.tasks && v.tasks[t].Queued? ==> t in w.tasks && w.tasks[t].Queued?
    ensures SomeoneWaits(v) ==> SomeoneWaits(w)
  {
  }

  /** What a handle that is newly in use adds. */
  lemma GetGrows(c: Config, w: World, key: Key, connected: set<nat>, now: int)
    requires Kept(c, w)
    ensures var (q, got) := Get(c, w.pool, key, connected, now);
            |q.acquired| == |w.pool.acquired| + if got.Some? then 1 else 0
  {
    var (q, got) := Get(c, w.pool, key, connected, now);
    GetIdle(c, w.pool, w.conns, key, connected, now);
    if got.Some? {
      assert Holder(w.tasks, w.conns, Conn(got.value)) == None;
      Grows(w.pool.acquired, Conn(got.value));
    }
  }

  lemma ConnectsCovered(c: Config, w: World, e: Event)
    requires TotalRules(c) && Kept(c, w) && Covered(c, w) && Enabled(w, e) && e.Connects?
    ensures Covered(c, Step(c, w, e))
  {
    var v := Step(c, w, e);
    var (q, got) := Get(c, w.pool, e.key, e.connected, e.now);
    GetGrows(c, w, e.key, e.connected, e.now);
    assert WokenIn(v) == WokenIn(w);
    if got.None? {
      NoReuseKeeps(c, w, e.key, e.connected, e.now);
      AvailableTotal(c, q, w.tasks, w.conns, e.key);
    }
    if got.None? && Available(c, q, e.key) > 0 {
      Grows(q.acquired, Placeholder(e.t));
      SameWaiters(w, v);
    } else if got.Some? {
      SameWaiters(w, v);
    }
  }

  lemma ResumesCovered(c: Config, w: World, e: Event)
    requires TotalRules(c) && Kept(c, w) && Covered(c, w) && Enabled(w, e) && e.Resumes?
    ensures Covered(c, Step(c, w, e))
  {
    var v := Step(c, w, e);
    var key := w.tasks[e.t].key;
    var left := World(Leave(w.pool, key, e.t), w.tasks[e.t := Gone], w.conns);
    LeaveKeeps(c, w, e.t);
    AvailableTotal(c, left.pool, left.tasks, left.conns, key);
    assert WokenIn(v) == WokenIn(w) - {e.t};
    Shrinks(WokenIn(w), e.t);
    if Available(c, left.pool, key) > 0 {
      var (q, got) := Get(c, left.pool, key, e.connected, e.now);
      GetGrows(c, left, key, e.connected, e.now);
      SameWaiters(w, v);
      if got.None? {
        NoReuseKeeps(c, left, key, e.connected, e.now);
        assert Holder(left.tasks, left.conns, Placeholder(e.t)) == None;
        Grows(q.acquired, Placeholder(e.t));
      }
    }
  }

  /** A release frees one slot, and wakes one call if the slot is of use to one. */
  lemma WakeCovers(c: Config, w: World, order: seq<Key>)
    requires TotalRules(c) && HoldersOk(c, w.pool, w.tasks, w.conns) && QueuesOk(w.pool.waiters, w.tasks)
    requires Visits(order, w.pool)
    requires SomeoneWaits(w) ==> |WokenIn(w)| + 1 >= c.limit - |w.pool.acquired|
    ensures var (q, u) := WakeFirst(c, w.pool, order, CancelledIn(w));
            Covered(c, World(q, Wake(w.tasks, u), w.conns))
  {
    var (q, u) := WakeFirst(c, w.pool, order, CancelledIn(w));
    var v := World(q, Wake(w.tasks, u), w.conns);
    WakeKeeps(c, w, order);
    SameWaiters(w, v);
    if u.Some? {
      assert WokenIn(v) == WokenIn(w) + {u.value};
      Grows(WokenIn(w), u.value);
    } else if SomeoneWaits(w) {
      var t :| t in w.tasks && w.tasks[t].Queued?;
      AvailableTotal(c, w.pool, w.tasks, w.conns, w.tasks[t].key);
      if Available(c, w.pool, w.tasks[t].key) >= 1 {
        WakeFirstWakes(c, w.pool, order, CancelledIn(w), w.tasks[t].key, t);
      }
    }
  }

  lemma FailsCovered(c: Config, w: World, e: Event)
    requires TotalRules(c) && Kept(c, w) && Covered(c, w) && Enabled(w, e) && e.Fails?
    ensures Covered(c, Step(c, w, e))
  {
    var given := AfterFailure(c, w, e.t);
    FailsKeeps(c, w, e);
    assert Holder(w.tasks, w.conns, Placeholder(e.t)).Some?;
    Shrinks(w.pool.acquired, Placeholder(e.t));
    assert WokenIn(given) == WokenIn(w);
    SameWaiters(w, given);
    WakeCovers(c, given, e.order);
  }

  lemma ReleasesCovered(c: Config, w: World, e: Event)
    requires TotalRules(c) && Kept(c, w) && Covered(c, w) && Enabled(w, e) && e.Releases?
    ensures Covered(c, Step(c, w, e))
  {
    var given := AfterRelease(c, w, e.conn);
    ReleasesKeeps(c, w, e);
    assert Holder(w.tasks, w.conns, Conn(e.conn)).Some?;
    Shrinks(w.pool.acquired, Conn(e.conn));
    assert WokenIn(given) == WokenIn(w) && CancelledIn(given) == CancelledIn(w);
    SameWaiters(w, given);
    WakeCovers(c, given, e.order);
    var (q, u) := WakeFirst(c, given.pool, e.order, CancelledIn(w));
    var before, after := World(q, Wake(w.tasks, u), given.conns), Step(c, w, e);
    assert after.tasks == before.tasks && after.pool.acquired == before.pool.acquired;
    SameWaiters(before, after);
    assert WokenIn(after) == WokenIn(before);
  }

  lemma QuietCovered(c: Config, w: World, v: World)
    requires Covered(c, w) && |v.pool.acquired| == |w.pool.acquired| && WokenIn(v) == WokenIn(w)
    requires forall t :: t in v.tasks && v.tasks[t].Queued? ==> t in w.tasks && w.tasks[t].Queued?
    ensures Covered(c, v)
  {
    SameWaiters(w, v);
  }

  lemma StepCovered(c: Config, w: World, e: Event)
    requires TotalRules(c) && Kept(c, w) && Covered(c, w) && Enabled(w, e) && !e.CancelsWoken?
    ensures Covered(c, Step(c, w, e))
  {
    match e
    case Connects(_, _, _, _) => ConnectsCovered(c, w, e);
    case Resumes(_, _, _) => ResumesCovered(c, w, e);
    case CancelsQueued(_) => QuietCovered(c, w, Step(c, w, e));
    case Unwinds(_) => QuietCovered(c, w, Step(c, w, e));
    case Creates(t, conn) =>
      SwapKeepsCounts(c, w, t, conn, "");
      QuietCovered(c, w, Step(c, w, e));
    case Fails(_, _) => FailsCovered(c, w, e);
    case Releases(_, _, _, _) => ReleasesCovered(c, w, e);
    case CleansUp(_, _) => QuietCovered(c, w, Step(c, w, e));
  }

  /**
   * Where the total limit rules, on every run in which no woken call is cancelled, no free slot
   * is overlooked: while anyone waits, at least as many calls are woken as there are free slots.
   */
  lemma {:induction false} NoSlotOverlooked(c: Config, w: World, es: seq<Event>)
    requires TotalRules(c) && Kept(c, w) && Covered(c, w) && Legal(c, w, es) && NoneLost(es)
    ensures Covered(c, Run(c, w, es))
    decreases |es|
  {
    if es != [] {
      StepKeeps(c, w, es[0]);
      StepCovered(c, w, es[0]);
      assert NoneLost(es[1..]);
      NoSlotOverlooked(c, Step(c, w, es[0]), es[1..]);
    }
  }
}
