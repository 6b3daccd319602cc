/** For which limits the pool serves every free slot, and for which no wake-up is ever lost. */
module PoolTraces {
  import opened PoolSpec
  import opened PoolRuns
  import opened PoolSafety
  import opened PoolProgress
  import opened PoolSlots
  import opened PoolScenes

  // ----- many calls at once -----

  ghost predicate AllCreate(w: World, lo: nat, hi: nat, k: Key)
  {
    forall t: nat :: lo <= t < hi ==> At(w, t, Creating(k))
  }

  lemma StillCreate(w: World, v: World, lo: nat, hi: nat, k: Key, x: nat, y: nat)
    requires AllCreate(w, lo, hi, k) && Others(w, v, x, y) && !(lo <= x < hi) && !(lo <= y < hi)
    ensures AllCreate(v, lo, hi, k)
  {
    forall t: nat | lo <= t < hi
      ensures At(v, t, Creating(k))
    {
      assert At(w, t, Creating(k));
    }
  }

  lemma OneMoreCreates(u: World, v: World, lo: nat, hi: nat, k: Key)
    requires At(u, lo, Creating(k)) && Others(u, v, hi, hi) && lo < hi && AllCreate(v, lo + 1, hi, k)
    ensures AllCreate(v, lo, hi, k)
  {
    assert At(v, lo, Creating(k));
  }

  lemma OthersTwice(w: World, u: World, v: World, lo: nat, hi: nat)
    requires lo !in w.tasks && hi !in w.tasks && Others(w, u, lo, lo) && Others(u, v, hi, hi)
    ensures Others(w, v, hi, hi)
  {
  }

  function PlusMany(s: Shape, k: Key, r: nat): Shape
  {
    if k == A then s.(a := s.a + r, next := s.next + r) else s.(b := s.b + r, next := s.next + r)
  }

  /** There is room for r more connections to a host. */
  predicate RoomForMany(c: Config, s: Shape, k: Key, r: nat)
  {
    (c.limit == 0 || s.a + s.b + r <= c.limit) && (c.perHost == 0 || InUseAt(s, k) + r <= c.perHost)
  }

  function OneMore(s: Shape, k: Key): (t: Shape)
    ensures t.next == s.next + 1
  {
    Plus(s, k).(next := s.next + 1)
  }

  lemma FirstOfMany(c: Config, s: Shape, k: Key, r: nat)
    requires RoomForMany(c, s, k, r) && r > 0
    ensures Room(c, s, k) && RoomForMany(c, OneMore(s, k), k, r - 1)
    ensures PlusMany(OneMore(s, k), k, r - 1) == PlusMany(s, k, r)
  {
  }

  /** As many calls as there is room for begin, one after the other. */
  lemma {:induction false} Fill(c: Config, w: World, calm: bool, k: Key, r: nat, s: Shape) returns (v: World)
    requires Reachable(c, w, calm) && Scene(c, w, s) && (k == A || k == B) && RoomForMany(c, s, k, r)
    ensures Reachable(c, v, calm) && Scene(c, v, PlusMany(s, k, r))
    ensures AllCreate(v, s.next, s.next + r, k) && Others(w, v, s.next + r, s.next + r)
    decreases r
  {
    if r == 0 {
      v := w;
    } else {
      FirstOfMany(c, s, k, r);
      var u := Begin(c, w, calm, k, s);
      v := Fill(c, u, calm, k, r - 1, OneMore(s, k));
      OneMoreCreates(u, v, s.next, s.next + r, k);
      OthersTwice(w, u, v, s.next, s.next + r);
    }
  }

  /** Calls that find no room wait one behind the other. */
  lemma {:induction false} QueueUp(c: Config, w: World, calm: bool, r: nat, s: Shape) returns (v: World, t: Shape)
    requires Reachable(c, w, calm) && Scene(c, w, s) && !Room(c, s, A)
    ensures Reachable(c, v, calm) && Scene(c, v, t) && Others(w, v, t.next, t.next)
    ensures t == s.(next := t.next, qa := t.qa) && t.next >= s.next && |t.qa| == |s.qa| + r
    decreases r
  {
    if r == 0 {
      v, t := w, s;
    } else {
      var u := Wait(c, w, calm, A, s);
      v, t := QueueUp(c, u, calm, r - 1, Behind(s, A, s.next).(next := s.next + 1));
    }
  }

  /** All attempts fail, and each wakes one that waits. */
  lemma {:induction false} FailAll(c: Config, w: World, calm: bool, lo: nat, s: Shape) returns (v: World, t: Shape)
    requires Reachable(c, w, calm) && Scene(c, w, s) && s.b == 0 && |s.qa| == s.a + 1
    requires AllCreate(w, lo, lo + s.a, A)
    requires (c.limit == 0 || s.a <= c.limit) && (c.perHost == 0 || s.a <= c.perHost)
    ensures Reachable(c, v, calm) && Scene(c, v, t) && t.a == t.b == 0 && |t.qa| == 1
    decreases s.a
  {
    if s.a == 0 {
      v, t := w, s;
    } else {
      HeadWaits(c, w, calm, s);
      var u := Fail(c, w, calm, lo, A, s);
      assert !At(w, Head(s), Creating(A));
      StillCreate(w, u, lo + 1, lo + s.a, A, lo, Head(s));
      v, t := FailAll(c, u, calm, lo + 1, Minus(s, A).(qa := s.qa[1..], woken := s.woken + {Head(s)}));
    }
  }

  /** All woken calls are cancelled. */
  lemma {:induction false} CancelAll(c: Config, w: World, s: Shape) returns (v: World)
    requires Reachable(c, w, false) && Scene(c, w, s)
    ensures Reachable(c, v, false) && Scene(c, v, s.(woken := {}))
    decreases s.woken
  {
    if s.woken == {} {
      v := w;
    } else {
      var t :| t in s.woken;
      var u := Cancel(c, w, t, s);
      v := CancelAll(c, u, s.(woken := s.woken - {t}));
    }
  }

  // ----- woken calls are cancelled -----

  /** Something is limited. */
  predicate Bounded(c: Config) { c.limit != 0 || c.perHost != 0 }

  /** So many connections to one host are allowed. */
  function Bound(c: Config): (n: nat)
    requires UsableLimits(c) && Bounded(c)
    ensures n > 0 && (c.limit == 0 || n <= c.limit) && (c.perHost == 0 || n <= c.perHost)
    ensures n == c.limit || n == c.perHost
  {
    if c.limit == 0 then c.perHost
    else if c.perHost == 0 then c.limit
    else if c.limit <= c.perHost then c.limit else c.perHost
  }

  /** Every slot of a host is taken, and one more call waits than there are slots. */
  lemma Crowd(c: Config) returns (w: World, s: Shape)
    requires UsableLimits(c) && Bounded(c)
    ensures Reachable(c, w, false) && Scene(c, w, s) && AllCreate(w, 0, Bound(c), A)
    ensures s.a == Bound(c) && s.b == 0 && |s.qa| == s.a + 1
  {
    ReachNothing(c, false);
    EmptyScene(c);
    var u := Fill(c, EMPTY_WORLD, false, A, Bound(c), EMPTY_SHAPE);
    w, s := QueueUp(c, u, false, Bound(c) + 1, PlusMany(EMPTY_SHAPE, A, Bound(c)));
    StillCreate(u, w, 0, Bound(c), A, s.next, s.next);
  }

  /** The call waits, nothing is in use, and no one was woken. */
  ghost predicate Stranded(c: Config, w: World, t: nat)
  {
    Kept(c, w) && t in w.tasks && w.tasks[t].Queued? && w.pool.acquired == {} && forall u :: !IsWoken(w, u)
  }

  /** No new call is made, and this one is not cancelled. */
  predicate LeftAlone(es: seq<Event>, t: nat)
  {
    forall i :: 0 <= i < |es| ==> !es[i].Connects? && es[i] != CancelsQueued(t)
  }

  /** Without new calls no event wakes the call, or puts anything in use. */
  lemma StrandedStep(c: Config, w: World, e: Event, t: nat)
    requires Stranded(c, w, t) && Enabled(w, e) && !e.Connects? && e != CancelsQueued(t)
    ensures Stranded(c, Step(c, w, e), t)
  {
    StepKeeps(c, w, e);
    NothingMoves(c, w, e, t);
    var v := Step(c, w, e);
    assert v.pool.acquired == {} && forall u :: IsWoken(v, u) ==> IsWoken(w, u);
  }

  /** What can still happen is that others leave the queues, and the clean-up. */
  lemma NothingMoves(c: Config, w: World, e: Event, t: nat)
    requires Stranded(c, w, t) && Enabled(w, e) && !e.Connects? && e != CancelsQueued(t)
    ensures e.CancelsQueued? || e.Unwinds? || e.CleansUp?
  {
    assert e.Creates? || e.Fails? ==> Holder(w.tasks, w.conns, Placeholder(e.t)).Some?;
    assert e.Releases? ==> Holder(w.tasks, w.conns, Conn(e.conn)).Some?;
  }

  lemma StrandedIsNotLive(c: Config, w: World, t: nat)
    requires Stranded(c, w, t)
    ensures !Live(w)
  {
  }

  lemma {:induction false} StrandedRun(c: Config, w: World, es: seq<Event>, t: nat)
    requires Stranded(c, w, t) && Legal(c, w, es) && LeftAlone(es, t)
    ensures Stranded(c, Run(c, w, es), t)
    decreases |es|
  {
    if es != [] {
      StrandedStep(c, w, es[0], t);
      assert LeftAlone(es[1..], t);
      StrandedRun(c, Step(c, w, es[0]), es[1..], t);
    }
  }

  /** Until a new call is made or this one is cancelled, whatever else happens, it waits. */
  ghost predicate WaitsForEver(c: Config, w: World, t: nat)
  {
    && Stranded(c, w, t)
    && forall es :: Legal(c, w, es) && LeftAlone(es, t) ==> Stranded(c, Run(c, w, es), t)
  }

  /** A call that waits alone, when nothing is in use and no one was woken, waits for ever. */
  lemma AloneForEver(c: Config, w: World, s: Shape)
    requires Reachable(c, w, false) && Scene(c, w, s) && s.a == s.b == 0 && s.qa != [] && s.woken == {}
    ensures WaitsForEver(c, w, Head(s))
  {
    HeadWaits(c, w, false, s);
    ReachableIsKept(c, w, false);
    forall es | Legal(c, w, es) && LeftAlone(es, Head(s))
      ensures Stranded(c, Run(c, w, es), Head(s))
    {
      StrandedRun(c, w, es, Head(s));
    }
  }

  /** The calls that were woken by failed attempts are cancelled: the last one that waits is stranded. */
  lemma WakeUpLost(c: Config)
    requires UsableLimits(c) && Bounded(c)
    ensures exists es, t :: Legal(c, EMPTY_WORLD, es) && WaitsForEver(c, Run(c, EMPTY_WORLD, es), t)
  {
    var w, s := Crowd(c);
    w, s := FailAll(c, w, false, 0, s);
    w := CancelAll(c, w, s);
    AloneForEver(c, w, s.(woken := {}));
  }

  predicate Unlimited(c: Config) { c.limit == 0 && c.perHost == 0 }

  /** Without limits no one ever waits. */
  lemma NoOneWaits(c: Config, w: World, e: Event)
    requires Unlimited(c) && !SomeoneWaits(w) && Enabled(w, e)
    ensures !SomeoneWaits(Step(c, w, e))
  {
  }

  lemma {:induction false} NoOneEverWaits(c: Config, w: World, es: seq<Event>)
    requires Unlimited(c) && !SomeoneWaits(w) && Legal(c, w, es)
    ensures !SomeoneWaits(Run(c, w, es))
    decreases |es|
  {
    if es != [] {
      NoOneWaits(c, w, es[0]);
      NoOneEverWaits(c, Step(c, w, es[0]), es[1..]);
    }
  }

  /**
   * On every run, cancellations of woken calls included, a call that waits can count on something in
   * use or on a woken call: if and only if the pool has no limit at all. A call that is cancelled
   * between being woken and running takes its wake-up with it.
   */
  lemma WakeUpsSurvive(c: Config)
    ensures (forall es :: Legal(c, EMPTY_WORLD, es) ==> Live(Run(c, EMPTY_WORLD, es)))
       <==> c.limit == 0 && c.perHost == 0
  {
    if Unlimited(c) {
      forall es | Legal(c, EMPTY_WORLD, es)
        ensures Live(Run(c, EMPTY_WORLD, es))
      {
        NoOneEverWaits(c, EMPTY_WORLD, es);
      }
    } else if UsableLimits(c) {
      WakeUpLost(c);
      var es, t :| Legal(c, EMPTY_WORLD, es) && WaitsForEver(c, Run(c, EMPTY_WORLD, es), t);
      StrandedIsNotLive(c, Run(c, EMPTY_WORLD, es), t);
    } else {
      NegativeLimitStarves(c);
    }
  }

  // ----- two calls are woken for one slot of their host -----

  /** A call waits although its host has a free slot, and no one is woken any more. */
  ghost predicate Overlooked(c: Config, w: World)
  {
    && (exists t :: t in w.tasks && w.tasks[t].Queued? && Available(c, w.pool, w.tasks[t].key) >= 1)
    && forall t :: !IsWoken(w, t)
  }

  /** A host can run out of slots while the pool has some. */
  predicate HostsRule(c: Config) { c.perHost > 0 && (c.limit == 0 || c.limit > c.perHost) }

  /** So many connections to the second host are left when the first has all of its own. */
  function Left(c: Config): (m: nat)
    requires HostsRule(c)
    ensures 0 < m <= c.perHost && (c.limit == 0 || c.perHost + m <= c.limit)
    ensures m == c.perHost || c.perHost + m == c.limit
  {
    if c.limit == 0 || c.limit >= 2 * c.perHost then c.perHost else c.limit - c.perHost
  }

  /** Two hosts use up what they can. */
  lemma TwoHosts(c: Config) returns (w: World, s: Shape)
    requires HostsRule(c)
    ensures Reachable(c, w, true) && Scene(c, w, s) && s == Shape(c.perHost + Left(c), c.perHost, Left(c), [], [], {})
    ensures At(w, 0, Creating(A)) && At(w, c.perHost, Creating(B))
  {
    ReachNothing(c, true);
    EmptyScene(c);
    var u := Fill(c, EMPTY_WORLD, true, A, c.perHost, EMPTY_SHAPE);
    assert At(u, 0, Creating(A));
    var half := PlusMany(EMPTY_SHAPE, A, c.perHost);
    w := Fill(c, u, true, B, Left(c), half);
    s := PlusMany(half, B, Left(c));
  }

  /** Two calls wait for the first and one for the second. */
  lemma TwoCrowds(c: Config) returns (w: World, s: Shape, t: nat)
    requires HostsRule(c)
    ensures Reachable(c, w, true) && Scene(c, w, s) && s.a == c.perHost && s.b == Left(c) && s.woken == {}
    ensures |s.qa| == 2
    ensures At(w, 0, Creating(A)) && At(w, c.perHost, Creating(B)) && At(w, t, Queued(B))
  {
    var w0, s0 := TwoHosts(c);
    var w1, s1 := QueueUp(c, w0, true, 2, s0);
    t := s1.next;
    w := Wait(c, w1, true, B, s1);
    s := Behind(s1, B, t).(next := t + 1);
  }

  /** A failure at the first host wakes the first call that waits for it. */
  lemma FirstWakes(c: Config) returns (w: World, s: Shape, t: nat, x: nat)
    requires HostsRule(c)
    ensures Reachable(c, w, true) && Scene(c, w, s) && s.a == c.perHost - 1 && s.b == Left(c)
    ensures s.woken == {x} && |s.qa| == 1
    ensures At(w, c.perHost, Creating(B)) && At(w, t, Queued(B)) && At(w, x, Woken(A))
  {
    var w0, s0, t0 := TwoCrowds(c);
    t := t0;
    HeadWaits(c, w0, true, s0);
    x := Head(s0);
    w := Fail(c, w0, true, 0, A, s0);
    s := Minus(s0, A).(qa := s0.qa[1..], woken := s0.woken + {x});
    assert s.woken == {x};
  }

  /** A failure at the second host wakes the next call for the first. */
  lemma BothWakeTheSame(c: Config) returns (w: World, s: Shape, t: nat, x: nat, y: nat)
    requires HostsRule(c)
    ensures Reachable(c, w, true) && Scene(c, w, s) && s.a == c.perHost - 1 && s.b == Left(c) - 1 && s.woken == {x, y}
    ensures At(w, t, Queued(B)) && At(w, x, Woken(A)) && At(w, y, Woken(A)) && x != y
  {
    var w0, s0, t0, x0 := FirstWakes(c);
    t, x := t0, x0;
    HeadWaits(c, w0, true, s0);
    y := Head(s0);
    w := Fail(c, w0, true, c.perHost, B, s0);
    s := Minus(s0, B).(qa := s0.qa[1..], woken := s0.woken + {y});
  }

  /** One of the two gets the slot, the other waits again, and no one looks at the second host. */
  lemma OneBeginsOneWaits(c: Config) returns (w: World, s: Shape, t: nat)
    requires HostsRule(c)
    ensures Reachable(c, w, true) && Scene(c, w, s) && Room(c, s, B) && s.woken == {} && At(w, t, Queued(B))
  {
    var w0, s0, t0, x, y := BothWakeTheSame(c);
    t := t0;
    var w1 := ResumeBegins(c, w0, true, x, s0);
    var s1 := s0.(a := s0.a + 1, woken := s0.woken - {x});
    w := ResumeWaits(c, w1, true, y, s1);
    s := s1.(qa := [y] + s1.qa, woken := s1.woken - {y});
    assert s.woken == {};
  }

  lemma FreeSlotOverlooked(c: Config)
    requires HostsRule(c)
    ensures exists es :: Legal(c, EMPTY_WORLD, es) && NoneLost(es) && Overlooked(c, Run(c, EMPTY_WORLD, es))
  {
    var w, s, t := OneBeginsOneWaits(c);
    RoomIsAvailable(c, w.pool, s, B);
    assert w.tasks[t].Queued? && Available(c, w.pool, w.tasks[t].key) >= 1;
  }

  /** Under a total limit of its own a pool in which anyone waits has a woken call for every free slot. */
  lemma NothingOverlooked(c: Config, es: seq<Event>)
    requires TotalRules(c) && Legal(c, EMPTY_WORLD, es) && NoneLost(es)
    ensures !Overlooked(c, Run(c, EMPTY_WORLD, es))
  {
    var w := Run(c, EMPTY_WORLD, es);
    EmptyIsKept(c);
    RunKeeps(c, EMPTY_WORLD, es);
    NoSlotOverlooked(c, EMPTY_WORLD, es);
    forall t | t in w.tasks && w.tasks[t].Queued? && Available(c, w.pool, w.tasks[t].key) >= 1
      ensures exists u :: IsWoken(w, u)
    {
      AvailableTotal(c, w.pool, w.tasks, w.conns, w.tasks[t].key);
      var u :| u in WokenIn(w);
      assert IsWoken(w, u);
    }
  }

  /** A negative limit leaves no slot at all. */
  lemma NegativeHasNoSlot(c: Config, w: World)
    requires !UsableLimits(c)
    ensures !Overlooked(c, w)
  {
  }

  /**
   * On every run in which no woken call is cancelled, a call whose host has a free slot does not
   * wait without anyone having been woken: if and only if hosts cannot run out of slots before the
   * pool does.
   */
  lemma SlotsAreServed(c: Config)
    ensures (forall es :: Legal(c, EMPTY_WORLD, es) && NoneLost(es) ==> !Overlooked(c, Run(c, EMPTY_WORLD, es)))
       <==> c.perHost <= 0 || c.limit < 0 || 0 < c.limit <= c.perHost
  {
    if HostsRule(c) {
      FreeSlotOverlooked(c);
    } else {
      forall es | Legal(c, EMPTY_WORLD, es) && NoneLost(es)
        ensures !Overlooked(c, Run(c, EMPTY_WORLD, es))
      {
        if !UsableLimits(c) {
          NegativeHasNoSlot(c, Run(c, EMPTY_WORLD, es));
        } else if Unlimited(c) {
          NoOneEverWaits(c, EMPTY_WORLD, es);
        } else {
          NothingOverlooked(c, es);
        }
      }
    }
  }
}
