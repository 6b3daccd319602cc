/** Building blocks of runs of the pool: calls for two hosts that begin, wait, fail, resume or are cancelled. */
module PoolScenes {
  import opened Common
  import opened PoolSpec
  import opened PoolRuns
  import opened PoolSafety
  import opened PoolProgress
  import opened PoolSlots

  const A: Key := "a"
  const B: Key := "b"

  // ----- reachable worlds -----

  /** Some run leads here; a calm one cancels no woken call. */
  ghost predicate Reachable(c: Config, w: World, calm: bool)
  {
    exists es :: Legal(c, EMPTY_WORLD, es) && (calm ==> NoneLost(es)) && Run(c, EMPTY_WORLD, es) == w
  }

  lemma {:induction false} RunMore(c: Config, w: World, es: seq<Event>, e: Event)
    requires Legal(c, w, es) && Enabled(Run(c, w, es), e)
    ensures Legal(c, w, es + [e]) && Run(c, w, es + [e]) == Step(c, Run(c, w, es), e)
    decreases |es|
  {
    if es == [] {
      assert [e][1..] == [];
      assert Legal(c, Step(c, w, e), []);
    } else {
      assert (es + [e])[1..] == es[1..] + [e];
      RunMore(c, Step(c, w, es[0]), es[1..], e);
    }
  }

  lemma ReachNothing(c: Config, calm: bool)
    ensures Reachable(c, EMPTY_WORLD, calm)
  {
    assert Legal(c, EMPTY_WORLD, []) && NoneLost([]) && Run(c, EMPTY_WORLD, []) == EMPTY_WORLD;
  }

  lemma ReachMore(c: Config, w: World, calm: bool, e: Event)
    requires Reachable(c, w, calm) && Enabled(w, e) && (calm ==> !e.CancelsWoken?)
    ensures Reachable(c, Step(c, w, e), calm)
  {
    var es :| Legal(c, EMPTY_WORLD, es) && (calm ==> NoneLost(es)) && Run(c, EMPTY_WORLD, es) == w;
    RunMore(c, EMPTY_WORLD, es, e);
    assert calm ==> NoneLost(es + [e]);
  }

  lemma ReachableIsKept(c: Config, w: World, calm: bool)
    requires Reachable(c, w, calm)
    ensures Kept(c, w)
  {
    var es :| Legal(c, EMPTY_WORLD, es) && Run(c, EMPTY_WORLD, es) == w;
    EmptyIsKept(c);
    RunKeeps(c, EMPTY_WORLD, es);
  }

  /** A handle that is in use counts for the whole pool and for its host, any other for none. */
  lemma Holds(c: Config, w: World, calm: bool, t: nat, k: Key)
    requires Reachable(c, w, calm)
    ensures At(w, t, Creating(k)) ==>
              Placeholder(t) in w.pool.acquired && (c.perHost != 0 ==> Placeholder(t) in Host(w.pool, k))
    ensures (t in w.tasks ==> !w.tasks[t].Creating?) ==>
              Placeholder(t) !in w.pool.acquired && (c.perHost != 0 ==> Placeholder(t) !in Host(w.pool, k))
  {
    ReachableIsKept(c, w, calm);
    assert HoldersOk(c, w.pool, w.tasks, w.conns);
    var h := Placeholder(t);
    assert c.perHost != 0 ==> (h in Host(w.pool, k) <==> Holder(w.tasks, w.conns, h) == Some(k));
  }

  /** Who is on a queue has not been woken. */
  lemma OnQueue(c: Config, w: World, calm: bool, k: Key, t: nat)
    requires Reachable(c, w, calm) && t in Queue(w.pool, k)
    ensures At(w, t, Queued(k)) || At(w, t, Cancelled(k))
  {
    ReachableIsKept(c, w, calm);
    assert WaitAt(w.pool.waiters[k], k, w.tasks);
  }

  // ----- scenes -----

  /**
   * Calls numbered up to `next` were made for the hosts A and B; so many of them are in use there,
   * these wait there, and these were woken, for A.
   */
  datatype Shape = Shape(next: nat, a: nat, b: nat, qa: seq<nat>, qb: seq<nat>, woken: set<nat>)

  const EMPTY_SHAPE := Shape(0, 0, 0, [], [], {})

  ghost predicate Scene(c: Config, w: World, s: Shape)
  {
    && w.pool.idle == map[] && Uses(c, w.pool, s.a, s.b)
    && Waits(w.pool.waiters, s.qa, s.qb) && Stages(w.tasks, s.next, s.woken)
  }

  predicate Uses(c: Config, p: Pool, a: nat, b: nat)
  {
    |p.acquired| == a + b && (c.perHost != 0 ==> |Host(p, A)| == a && |Host(p, B)| == b)
  }

  predicate WaitsAt(waiters: map<Key, seq<nat>>, k: Key, q: seq<nat>)
  {
    if k in waiters then waiters[k] == q else q == []
  }

  ghost predicate Waits(waiters: map<Key, seq<nat>>, qa: seq<nat>, qb: seq<nat>)
  {
    WaitsAt(waiters, A, qa) && WaitsAt(waiters, B, qb) && forall k :: k in waiters ==> k == A || k == B
  }

  ghost predicate Stages(tasks: map<nat, Stage>, next: nat, woken: set<nat>)
  {
    && (forall t: nat :: t in tasks <==> t < next)
    && (forall t :: t in tasks ==> !tasks[t].Cancelled? && (tasks[t].Woken? ==> t in woken))
    && (forall t :: t in woken ==> t in tasks && tasks[t] == Woken(A))
  }

  /** All calls but one or two are where they were. */
  ghost predicate Others(w: World, v: World, t: nat, u: nat)
  {
    forall x :: x in w.tasks && x != t && x != u ==> x in v.tasks && v.tasks[x] == w.tasks[x]
  }

  lemma EmptyScene(c: Config)
    ensures Scene(c, EMPTY_WORLD, EMPTY_SHAPE)
  {
    forall t: nat
      ensures t in EMPTY_WORLD.tasks <==> t < 0
    {
    }
    assert Host(EMPTY_WORLD.pool, A) == {} && Host(EMPTY_WORLD.pool, B) == {};
  }

  // ----- counts -----

  function InUseAt(s: Shape, k: Key): nat { if k == A then s.a else s.b }

  function Plus(s: Shape, k: Key): Shape { if k == A then s.(a := s.a + 1) else s.(b := s.b + 1) }

  function Minus(s: Shape, k: Key): Shape
    requires InUseAt(s, k) > 0
  {
    if k == A then s.(a := s.a - 1) else s.(b := s.b - 1)
  }

  /** Both limits leave room at a host. */
  predicate Room(c: Config, s: Shape, k: Key)
  {
    (c.limit == 0 || s.a + s.b < c.limit) && (c.perHost == 0 || InUseAt(s, k) < c.perHost)
  }

  lemma RoomIsAvailable(c: Config, p: Pool, s: Shape, k: Key)
    requires Uses(c, p, s.a, s.b) && (k == A || k == B)
    ensures Available(c, p, k) >= 1 <==> Room(c, s, k)
  {
    AvailableIsRoom(c, p, k);
  }

  lemma UsesOneMore(c: Config, p: Pool, s: Shape, k: Key, h: Handle)
    requires Uses(c, p, s.a, s.b) && (k == A || k == B) && h !in p.acquired && (c.perHost != 0 ==> h !in Host(p, k))
    ensures Uses(c, Acquire(c, p, k, h), Plus(s, k).a, Plus(s, k).b)
  {
    Grows(p.acquired, h);
    Grows(Host(p, k), h);
    var q := Acquire(c, p, k, h);
    assert c.perHost != 0 ==> forall l :: Host(q, l) == if l == k then Host(p, k) + {h} else Host(p, l);
  }

  lemma UsesOneLess(c: Config, p: Pool, s: Shape, k: Key, h: Handle)
    requires Uses(c, p, s.a, s.b) && (k == A || k == B) && h in p.acquired && (c.perHost != 0 ==> h in Host(p, k))
    requires InUseAt(s, k) > 0
    ensures Uses(c, Discard(c, p, k, h), Minus(s, k).a, Minus(s, k).b)
  {
    Shrinks(p.acquired, h);
    if c.perHost != 0 {
      Shrinks(Host(p, k), h);
      assert forall l :: Host(Discard(c, p, k, h), l) == if l == k then Host(p, k) - {h} else Host(p, l);
    }
  }

  // ----- a call begins to make a connection -----

  lemma NextBegins(c: Config, w: World, t: nat, k: Key)
    requires w.pool.idle == map[] && t !in w.tasks && Available(c, w.pool, k) > 0
    ensures Step(c, w, Connects(t, k, {}, 0))
         == World(Acquire(c, w.pool, k, Placeholder(t)), w.tasks[t := Creating(k)], w.conns)
  {
  }

  lemma StagesMore(tasks: map<nat, Stage>, next: nat, woken: set<nat>, stage: Stage)
    requires Stages(tasks, next, woken) && !stage.Cancelled? && !stage.Woken?
    ensures Stages(tasks[next := stage], next + 1, woken)
  {
  }

  lemma Begin(c: Config, w: World, calm: bool, k: Key, s: Shape) returns (v: World)
    requires Reachable(c, w, calm) && Scene(c, w, s) && (k == A || k == B) && Room(c, s, k)
    ensures Reachable(c, v, calm) && Scene(c, v, Plus(s, k).(next := s.next + 1))
    ensures At(v, s.next, Creating(k)) && Others(w, v, s.next, s.next)
  {
    var e := Connects(s.next, k, {}, 0);
    RoomIsAvailable(c, w.pool, s, k);
    NextBegins(c, w, s.next, k);
    ReachMore(c, w, calm, e);
    Holds(c, w, calm, s.next, k);
    UsesOneMore(c, w.pool, s, k, Placeholder(s.next));
    StagesMore(w.tasks, s.next, s.woken, Creating(k));
    v := Step(c, w, e);
  }

  // ----- a call begins to wait -----

  lemma NextWaits(c: Config, w: World, t: nat, k: Key)
    requires w.pool.idle == map[] && t !in w.tasks && Available(c, w.pool, k) <= 0
    ensures Step(c, w, Connects(t, k, {}, 0)) == World(Enqueue(w.pool, k, t, false), w.tasks[t := Queued(k)], w.conns)
  {
  }

  function Behind(s: Shape, k: Key, t: nat): Shape
  {
    if k == A then s.(qa := s.qa + [t]) else s.(qb := s.qb + [t])
  }

  lemma WaitsMore(p: Pool, s: Shape, k: Key, t: nat)
    requires Waits(p.waiters, s.qa, s.qb) && (k == A || k == B)
    ensures Waits(Enqueue(p, k, t, false).waiters, Behind(s, k, t).qa, Behind(s, k, t).qb)
  {
  }

  lemma WaitScene(c: Config, w: World, k: Key, s: Shape, p: Pool)
    requires Scene(c, w, s) && (k == A || k == B) && p == Enqueue(w.pool, k, s.next, false)
    ensures Scene(c, World(p, w.tasks[s.next := Queued(k)], w.conns), Behind(s, k, s.next).(next := s.next + 1))
  {
    WaitsMore(w.pool, s, k, s.next);
    StagesMore(w.tasks, s.next, s.woken, Queued(k));
    SameUses(c, w.pool, p, s);
  }

  lemma SameUses(c: Config, p: Pool, q: Pool, s: Shape)
    requires Uses(c, p, s.a, s.b) && q.acquired == p.acquired && q.perHost == p.perHost
    ensures Uses(c, q, s.a, s.b)
  {
  }

  lemma Wait(c: Config, w: World, calm: bool, k: Key, s: Shape) returns (v: World)
    requires Reachable(c, w, calm) && Scene(c, w, s) && (k == A || k == B) && !Room(c, s, k)
    ensures Reachable(c, v, calm) && Scene(c, v, Behind(s, k, s.next).(next := s.next + 1))
    ensures At(v, s.next, Queued(k)) && Others(w, v, s.next, s.next)
  {
    var p := Enqueue(w.pool, k, s.next, false);
    RoomIsAvailable(c, w.pool, s, k);
    v := World(p, w.tasks[s.next := Queued(k)], w.conns);
    ReachWaiting(c, w, calm, s.next, k, v);
    WaitScene(c, w, k, s, p);
  }

  lemma ReachWaiting(c: Config, w: World, calm: bool, t: nat, k: Key, v: World)
    requires Reachable(c, w, calm) && w.pool.idle == map[] && t !in w.tasks && Available(c, w.pool, k) <= 0
    requires v == World(Enqueue(w.pool, k, t, false), w.tasks[t := Queued(k)], w.conns)
    ensures Reachable(c, v, calm)
  {
    NextWaits(c, w, t, k);
    ReachMore(c, w, calm, Connects(t, k, {}, 0));
  }

  // ----- an attempt fails and wakes a call for host A -----

  function Order(p: Pool): seq<Key> { if B in p.waiters then [A, B] else [A] }

  lemma OrderVisits(p: Pool, qa: seq<nat>, qb: seq<nat>)
    requires Waits(p.waiters, qa, qb) && qa != []
    ensures Visits(Order(p), p) && Order(p)[0] == A
  {
  }

  lemma NoneCancelled(w: World, next: nat, woken: set<nat>)
    requires Stages(w.tasks, next, woken)
    ensures CancelledIn(w) == {}
  {
  }

  /** A failed attempt wakes the first waiter of the first host of the order. */
  lemma FailureWakes(c: Config, w: World, t: nat, order: seq<Key>, u: nat, p: Pool)
    requires t in w.tasks && w.tasks[t].Creating? && Visits(order, w.pool) && CancelledIn(w) == {}
    requires p == Discard(c, w.pool, w.tasks[t].key, Placeholder(t))
    requires order != [] && order[0] in p.waiters && Available(c, p, order[0]) >= 1
    requires p.waiters[order[0]] != [] && u == p.waiters[order[0]][0] && u != t && u in w.tasks && w.tasks[u].Queued?
    ensures Step(c, w, Fails(t, order))
         == World(p.(waiters := p.waiters[order[0] := p.waiters[order[0]][1..]]),
                  w.tasks[t := Gone][u := Woken(w.tasks[u].key)], w.conns)
  {
    assert FirstLive(p.waiters[order[0]], {}) == 0;
  }

  lemma WaitsLess(waiters: map<Key, seq<nat>>, qa: seq<nat>, qb: seq<nat>)
    requires Waits(waiters, qa, qb) && qa != []
    ensures A in waiters && waiters[A] == qa && Waits(waiters[A := qa[1..]], qa[1..], qb)
  {
  }

  lemma StagesWake(tasks: map<nat, Stage>, next: nat, woken: set<nat>, t: nat, u: nat)
    requires Stages(tasks, next, woken) && t in tasks && !tasks[t].Woken? && u in tasks && u != t
    ensures Stages(tasks[t := Gone][u := Woken(A)], next, woken + {u})
  {
  }

  function Head(s: Shape): nat
    requires s.qa != []
  {
    s.qa[0]
  }

  lemma HeadWaits(c: Config, w: World, calm: bool, s: Shape)
    requires Reachable(c, w, calm) && Scene(c, w, s) && s.qa != []
    ensures At(w, Head(s), Queued(A))
  {
    OnQueue(c, w, calm, A, Head(s));
  }

  lemma FailStep(c: Config, w: World, calm: bool, t: nat, k: Key, s: Shape)
    requires Reachable(c, w, calm) && Scene(c, w, s) && (k == A || k == B) && s.qa != []
    requires At(w, t, Creating(k)) && Available(c, Discard(c, w.pool, k, Placeholder(t)), A) >= 1
    ensures Head(s) != t && At(w, Head(s), Queued(A)) && Enabled(w, Fails(t, Order(w.pool)))
    ensures Step(c, w, Fails(t, Order(w.pool)))
         == World(Discard(c, w.pool, k, Placeholder(t)).(waiters := w.pool.waiters[A := s.qa[1..]]),
                  w.tasks[t := Gone][Head(s) := Woken(A)], w.conns)
  {
    OrderVisits(w.pool, s.qa, s.qb);
    NoneCancelled(w, s.next, s.woken);
    HeadWaits(c, w, calm, s);
    FailureWakes(c, w, t, Order(w.pool), Head(s), Discard(c, w.pool, k, Placeholder(t)));
  }

  lemma FailScene(c: Config, w: World, t: nat, k: Key, s: Shape, p: Pool)
    requires Scene(c, w, s) && (k == A || k == B) && s.qa != [] && At(w, t, Creating(k)) && At(w, Head(s), Queued(A))
    requires InUseAt(s, k) > 0 && Uses(c, p, Minus(s, k).a, Minus(s, k).b) && p.idle == map[]
    ensures Scene(c,
                  World(p.(waiters := w.pool.waiters[A := s.qa[1..]]),
                        w.tasks[t := Gone][Head(s) := Woken(A)], w.conns),
                  Minus(s, k).(qa := s.qa[1..], woken := s.woken + {Head(s)}))
    ensures Head(s) < s.next
  {
    WaitsLess(w.pool.waiters, s.qa, s.qb);
    StagesWake(w.tasks, s.next, s.woken, t, Head(s));
    SameUses(c, p, p.(waiters := w.pool.waiters[A := s.qa[1..]]), Minus(s, k));
  }

  lemma Fail(c: Config, w: World, calm: bool, t: nat, k: Key, s: Shape) returns (v: World)
    requires Reachable(c, w, calm) && Scene(c, w, s) && (k == A || k == B) && s.qa != []
    requires At(w, t, Creating(k)) && InUseAt(s, k) > 0 && Room(c, Minus(s, k), A)
    ensures Reachable(c, v, calm) && Scene(c, v, Minus(s, k).(qa := s.qa[1..], woken := s.woken + {Head(s)}))
    ensures At(v, Head(s), Woken(A)) && Others(w, v, t, Head(s)) && Head(s) < s.next
  {
    Holds(c, w, calm, t, k);
    UsesOneLess(c, w.pool, s, k, Placeholder(t));
    RoomIsAvailable(c, Discard(c, w.pool, k, Placeholder(t)), Minus(s, k), A);
    FailStep(c, w, calm, t, k, s);
    ReachMore(c, w, calm, Fails(t, Order(w.pool)));
    FailScene(c, w, t, k, s, Discard(c, w.pool, k, Placeholder(t)));
    v := Step(c, w, Fails(t, Order(w.pool)));
  }

  // ----- a woken call runs, or is cancelled -----

  lemma {:induction false} WithoutAbsent(q: seq<nat>, t: nat)
    requires t !in q
    ensures Without(q, t) == q
  {
    if q != [] {
      WithoutAbsent(q[1..], t);
      assert q == [q[0]] + q[1..];
    }
  }

  /** A woken call is off its queue already; an empty queue goes. */
  lemma LeaveWaits(c: Config, w: World, calm: bool, t: nat, s: Shape)
    requires Reachable(c, w, calm) && Waits(w.pool.waiters, s.qa, s.qb) && At(w, t, Woken(A))
    ensures Waits(Leave(w.pool, A, t).waiters, s.qa, s.qb)
  {
    if t in s.qa {
      OnQueue(c, w, calm, A, t);
      assert false;
    }
    WithoutAbsent(s.qa, t);
    assert Queue(w.pool, A) == s.qa;
  }

  lemma StagesRun(tasks: map<nat, Stage>, next: nat, woken: set<nat>, t: nat, stage: Stage)
    requires Stages(tasks, next, woken) && t in tasks && !stage.Cancelled? && !stage.Woken?
    ensures Stages(tasks[t := stage], next, woken - {t})
  {
  }

  lemma ResumeStep(c: Config, w: World, t: nat)
    requires w.pool.idle == map[] && At(w, t, Woken(A))
    ensures var left := Leave(w.pool, A, t);
            Step(c, w, Resumes(t, {}, 0))
            == (if Available(c, w.pool, A) > 0
                then World(Acquire(c, left, A, Placeholder(t)), w.tasks[t := Creating(A)], w.conns)
                else World(Enqueue(left, A, t, true), w.tasks[t := Queued(A)], w.conns))
  {
    assert Available(c, Leave(w.pool, A, t), A) == Available(c, w.pool, A);
  }

  lemma ResumeBegins(c: Config, w: World, calm: bool, t: nat, s: Shape) returns (v: World)
    requires Reachable(c, w, calm) && Scene(c, w, s) && At(w, t, Woken(A)) && Room(c, s, A)
    ensures Reachable(c, v, calm) && Scene(c, v, s.(a := s.a + 1, woken := s.woken - {t}))
    ensures Others(w, v, t, t)
  {
    var left := Leave(w.pool, A, t);
    RoomIsAvailable(c, w.pool, s, A);
    ResumeStep(c, w, t);
    ReachMore(c, w, calm, Resumes(t, {}, 0));
    LeaveWaits(c, w, calm, t, s);
    Holds(c, w, calm, t, A);
    UsesOneMore(c, left, s, A, Placeholder(t));
    StagesRun(w.tasks, s.next, s.woken, t, Creating(A));
    v := Step(c, w, Resumes(t, {}, 0));
  }

  lemma WaitsInFront(p: Pool, qa: seq<nat>, qb: seq<nat>, t: nat)
    requires Waits(p.waiters, qa, qb)
    ensures Waits(Enqueue(p, A, t, true).waiters, [t] + qa, qb)
  {
  }

  lemma ResumeWaits(c: Config, w: World, calm: bool, t: nat, s: Shape) returns (v: World)
    requires Reachable(c, w, calm) && Scene(c, w, s) && At(w, t, Woken(A)) && !Room(c, s, A)
    ensures Reachable(c, v, calm) && Scene(c, v, s.(qa := [t] + s.qa, woken := s.woken - {t}))
    ensures Others(w, v, t, t)
  {
    RoomIsAvailable(c, w.pool, s, A);
    ResumeStep(c, w, t);
    ReachMore(c, w, calm, Resumes(t, {}, 0));
    LeaveWaits(c, w, calm, t, s);
    WaitsInFront(Leave(w.pool, A, t), s.qa, s.qb, t);
    StagesRun(w.tasks, s.next, s.woken, t, Queued(A));
    v := Step(c, w, Resumes(t, {}, 0));
  }

  lemma Cancel(c: Config, w: World, t: nat, s: Shape) returns (v: World)
    requires Reachable(c, w, false) && Scene(c, w, s) && At(w, t, Woken(A))
    ensures Reachable(c, v, false) && Scene(c, v, s.(woken := s.woken - {t}))
    ensures Others(w, v, t, t)
  {
    ReachMore(c, w, false, CancelsWoken(t));
    LeaveWaits(c, w, false, t, s);
    StagesRun(w.tasks, s.next, s.woken, t, Gone);
    v := Step(c, w, CancelsWoken(t));
  }
}
