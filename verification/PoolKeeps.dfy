/** What every step of the pool keeps, and what a reader of the limits may rely on. */
module PoolKeeps {
  import opened Common
  import opened PoolSpec
  import opened PoolRuns

  // ----- idle queues -----

  lemma GetIdle(c: Config, p: Pool, conns: map<nat, Place>, key: Key, connected: set<nat>, now: int)
    requires IdleOk(p.idle, conns)
    ensures var (q, got) := Get(c, p, key, connected, now);
            if got.Some? then
              && got.value in conns && conns[got.value] == Out(key)
              && IdleOk(q.idle, conns[got.value := InUse(key)])
              && (exists idle :: q == Acquire(c, p.(idle := idle), key, Conn(got.value)))
            else IdleOk(q.idle, conns) && q == p.(idle := q.idle)
  {
    var (q, got) := Get(c, p, key, connected, now);
    if got.Some? {
      var old_ := p.idle[key];
      var i := FirstUsable(c, old_, connected, now);
      assert old_[i].conn == got.value;
      forall k | k in q.idle
        ensures q.idle[k] != [] && NoTwinConns(q.idle[k]) && ParkedAt(q.idle[k], k, conns[got.value := InUse(key)])
      {
        if k == key {
          assert q.idle[k] == old_[i + 1..];
        } else {
          assert q.idle[k] == p.idle[k];
        }
      }
      assert q == Acquire(c, p.(idle := q.idle), key, Conn(got.value));
    }
  }

  lemma {:induction false} AliveFacts(
      c: Config, q: seq<Idle>, connected: set<nat>, now: int, k: Key, conns: map<nat, Place>)
    requires NoTwinConns(q) && ParkedAt(q, k, conns)
    ensures NoTwinConns(Alive(c, q, connected, now)) && ParkedAt(Alive(c, q, connected, now), k, conns)
    ensures forall e :: e in Alive(c, q, connected, now) <==> e in q && Usable(c, e, connected, now)
  {
    if q != [] {
      AliveFacts(c, q[1..], connected, now, k, conns);
      var rest := Alive(c, q[1..], connected, now);
      forall i | 0 <= i < |rest|
        ensures rest[i].conn != q[0].conn
      {
        assert rest[i] in q[1..];
      }
    }
  }

  lemma CleanupOk(c: Config, p: Pool, conns: map<nat, Place>, connected: set<nat>, now: int)
    requires IdleOk(p.idle, conns)
    ensures IdleOk(Cleanup(c, p, connected, now).idle, conns)
  {
    forall k | k in p.idle
      ensures NoTwinConns(Alive(c, p.idle[k], connected, now))
      ensures ParkedAt(Alive(c, p.idle[k], connected, now), k, conns)
    {
      AliveFacts(c, p.idle[k], connected, now, k, conns);
    }
  }

  lemma ParkOk(idle: map<Key, seq<Idle>>, conns: map<nat, Place>, key: Key, n: nat, now: int)
    requires IdleOk(idle, conns) && n in conns && conns[n] == InUse(key)
    ensures IdleOk(idle, conns[n := Out(key)])
    ensures IdleOk(idle[key := (if key in idle then idle[key] else []) + [Idle(n, now)]], conns[n := Out(key)])
  {
    var q := if key in idle then idle[key] else [];
    forall i | 0 <= i < |q|
      ensures q[i].conn != n
    {
    }
    assert NoTwinConns(q + [Idle(n, now)]) && ParkedAt(q + [Idle(n, now)], key, conns[n := Out(key)]);
  }

  lemma NewConnIdle(idle: map<Key, seq<Idle>>, conns: map<nat, Place>, key: Key, n: nat)
    requires IdleOk(idle, conns) && n !in conns
    ensures IdleOk(idle, conns[n := InUse(key)])
  {
    forall k | k in idle
      ensures ParkedAt(idle[k], k, conns[n := InUse(key)])
    {
    }
  }

  // ----- waiting queues -----

  lemma {:induction false} WithoutFacts(q: seq<nat>, t: nat)
    ensures forall u :: u in Without(q, t) <==> u in q && u != t
    ensures NoDuplicates(q) ==> NoDuplicates(Without(q, t))
  {
    if q != [] {
      WithoutFacts(q[1..], t);
      if NoDuplicates(q) {
        assert NoDuplicates(q[1..]);
        var rest := Without(q[1..], t);
        forall i | 0 <= i < |rest|
          ensures rest[i] != q[0]
        {
          assert rest[i] in q[1..];
        }
        assert NoDuplicates(rest) && NoDuplicates([q[0]] + rest);
      }
    }
  }

  /** A call that stops waiting. */
  lemma LeaveOk(p: Pool, tasks: map<nat, Stage>, key: Key, t: nat, s: Stage)
    requires QueuesOk(p.waiters, tasks) && !s.Queued?
    requires t in tasks && tasks[t] in {Queued(key), Cancelled(key), Woken(key)}
    ensures QueuesOk(Leave(p, key, t).waiters, tasks[t := s])
  {
    var q := Leave(p, key, t).waiters;
    WithoutFacts(Queue(p, key), t);
    forall k | k in q
      ensures NoDuplicates(q[k]) && WaitAt(q[k], k, tasks[t := s])
    {
      assert k in p.waiters;
      assert q[k] == if k == key then Without(Queue(p, key), t) else p.waiters[k];
    }
    forall u | u in tasks[t := s] && tasks[t := s][u].Queued?
      ensures tasks[u].key in q && u in q[tasks[u].key]
    {
      assert u != t && u in p.waiters[tasks[u].key];
    }
  }

  /** A call that starts to wait. */
  lemma EnqueueOk(p: Pool, tasks: map<nat, Stage>, key: Key, t: nat, front: bool)
    requires QueuesOk(p.waiters, tasks) && (t in tasks ==> !tasks[t].Queued? && !tasks[t].Cancelled?)
    ensures QueuesOk(Enqueue(p, key, t, front).waiters, tasks[t := Queued(key)])
  {
    var old_ := Queue(p, key);
    var q := Enqueue(p, key, t, front).waiters;
    assert t !in old_;
    forall u
      ensures u in q[key] <==> u in old_ || u == t
    {
    }
    assert NoDuplicates(q[key]);
    var after := tasks[t := Queued(key)];
    forall u | u in after && after[u].Queued?
      ensures after[u].key in q && u in q[after[u].key]
    {
    }
  }

  /** A call that is not waiting changes its stage. */
  lemma NotWaiting(waiters: map<Key, seq<nat>>, tasks: map<nat, Stage>, t: nat, s: Stage)
    requires QueuesOk(waiters, tasks) && !s.Queued?
    requires t in tasks ==> !tasks[t].Queued? && !tasks[t].Cancelled?
    ensures QueuesOk(waiters, tasks[t := s])
  {
    forall k | k in waiters
      ensures WaitAt(waiters[k], k, tasks[t := s])
    {
    }
  }

  lemma CancelOk(waiters: map<Key, seq<nat>>, tasks: map<nat, Stage>, t: nat)
    requires QueuesOk(waiters, tasks) && t in tasks && tasks[t].Queued?
    ensures QueuesOk(waiters, tasks[t := Cancelled(tasks[t].key)])
  {
    var now := tasks[t := Cancelled(tasks[t].key)];
    forall k | k in waiters
      ensures WaitAt(waiters[k], k, now)
    {
    }
  }

  // ----- waking a waiter -----

  /** The cancelled ones are the only waiters that are taken off a queue without being woken. */
  ghost predicate Popped(before: map<Key, seq<nat>>, after: map<Key, seq<nat>>, cancelled: set<nat>, u: Option<nat>)
  {
    && after.Keys == before.Keys
    && (forall k :: k in before ==> NoDuplicates(after[k]) && forall t :: t in after[k] ==> t in before[k])
    && (forall k, t :: k in before && t in before[k] && t !in after[k] ==> t in cancelled || u == Some(t))
    && (forall k :: u.Some? && k in before ==> u.value !in after[k])
  }

  lemma {:induction false} FirstLiveFacts(q: seq<nat>, cancelled: set<nat>)
    ensures forall j :: 0 <= j < FirstLive(q, cancelled) ==> q[j] in cancelled
  {
    if q != [] && q[0] in cancelled {
      FirstLiveFacts(q[1..], cancelled);
      assert forall j :: 1 <= j < FirstLive(q, cancelled) ==> q[j] == q[1..][j - 1];
    }
  }

  ghost predicate AllDistinct(waiters: map<Key, seq<nat>>)
  {
    forall k :: k in waiters ==> NoDuplicates(waiters[k])
  }

  /** No waiter is in two queues. */
  ghost predicate Apart(waiters: map<Key, seq<nat>>)
  {
    forall k, l, t :: k in waiters && l in waiters && t in waiters[k] && t in waiters[l] ==> k == l
  }

  lemma PopOne(c: Config, p: Pool, k: Key, cancelled: set<nat>)
    requires AllDistinct(p.waiters) && Apart(p.waiters) && k in p.waiters
    requires FirstLive(p.waiters[k], cancelled) < |p.waiters[k]|
    ensures var i := FirstLive(p.waiters[k], cancelled);
            Popped(p.waiters, p.waiters[k := p.waiters[k][i + 1..]], cancelled, Some(p.waiters[k][i]))
  {
    var q := p.waiters[k];
    var i := FirstLive(q, cancelled);
    FirstLiveFacts(q, cancelled);
    var after := p.waiters[k := q[i + 1..]];
    assert NoDuplicates(q[i + 1..]);
    assert q[i] in q && q[i] !in q[i + 1..];
    forall t | t in q && t !in q[i + 1..]
      ensures t in cancelled || t == q[i]
    {
    }
  }

  lemma PopNone(p: Pool, k: Key, cancelled: set<nat>)
    requires AllDistinct(p.waiters) && Apart(p.waiters) && k in p.waiters
    requires FirstLive(p.waiters[k], cancelled) == |p.waiters[k]|
    ensures var w := p.waiters[k := []];
            Popped(p.waiters, w, cancelled, None) && AllDistinct(w) && Apart(w)
    ensures forall t :: t in p.waiters[k] ==> t in cancelled
  {
    FirstLiveFacts(p.waiters[k], cancelled);
  }

  lemma PoppedTwice(
      a: map<Key, seq<nat>>, b: map<Key, seq<nat>>, d: map<Key, seq<nat>>, cancelled: set<nat>, u: Option<nat>)
    requires Popped(a, b, cancelled, None) && Popped(b, d, cancelled, u)
    ensures Popped(a, d, cancelled, u)
  {
  }

  /** Waking changes nothing but the queues, and takes off them only cancelled waiters and the one it wakes. */
  lemma {:induction false} WakeFirstPops(c: Config, p: Pool, order: seq<Key>, cancelled: set<nat>)
    requires AllDistinct(p.waiters) && Apart(p.waiters)
    ensures var (q, u) := WakeFirst(c, p, order, cancelled);
            q == p.(waiters := q.waiters) && Popped(p.waiters, q.waiters, cancelled, u)
    decreases |order|
  {
    if order == [] {
    } else if order[0] !in p.waiters || Available(c, p, order[0]) < 1 {
      WakeFirstPops(c, p, order[1..], cancelled);
    } else {
      var k := order[0];
      var i := FirstLive(p.waiters[k], cancelled);
      if i < |p.waiters[k]| {
        PopOne(c, p, k, cancelled);
      } else {
        PopNone(p, k, cancelled);
        var p' := p.(waiters := p.waiters[k := []]);
        WakeFirstPops(c, p', order[1..], cancelled);
        var (q, u) := WakeFirst(c, p', order[1..], cancelled);
        PoppedTwice(p.waiters, p'.waiters, q.waiters, cancelled, u);
      }
    }
  }

  /** The call is the first of its queue that was not cancelled. */
  predicate FirstOf(p: Pool, k: Key, u: nat, cancelled: set<nat>)
  {
    && k in p.waiters && u !in cancelled
    && var q := p.waiters[k];
       exists i :: 0 <= i < |q| && q[i] == u && forall j :: 0 <= j < i ==> q[j] in cancelled
  }

  /** Who is woken is the first that was not cancelled of those that wait for a host with a free slot. */
  lemma {:induction false} WakeFirstPicks(c: Config, p: Pool, order: seq<Key>, cancelled: set<nat>)
    ensures var u := WakeFirst(c, p, order, cancelled).1;
            u.Some? ==> exists k :: k in order && FirstOf(p, k, u.value, cancelled) && Available(c, p, k) >= 1
    decreases |order|
  {
    if order == [] {
    } else if order[0] !in p.waiters || Available(c, p, order[0]) < 1 {
      WakeFirstPicks(c, p, order[1..], cancelled);
    } else {
      var k := order[0];
      FirstLiveFacts(p.waiters[k], cancelled);
      if FirstLive(p.waiters[k], cancelled) == |p.waiters[k]| {
        var p' := p.(waiters := p.waiters[k := []]);
        WakeFirstPicks(c, p', order[1..], cancelled);
        assert forall l :: Available(c, p', l) == Available(c, p, l);
        assert forall l, u :: FirstOf(p', l, u, cancelled) ==> FirstOf(p, l, u, cancelled);
      } else {
        assert FirstOf(p, k, p.waiters[k][FirstLive(p.waiters[k], cancelled)], cancelled);
      }
    }
  }

  /** A waiter of a visited host with a free slot, not cancelled, makes sure that someone is woken. */
  lemma {:induction false} WakeFirstWakes(c: Config, p: Pool, order: seq<Key>, cancelled: set<nat>, k: Key, t: nat)
    requires k in order && k in p.waiters && t in p.waiters[k] && t !in cancelled && Available(c, p, k) >= 1
    ensures WakeFirst(c, p, order, cancelled).1.Some?
    decreases |order|
  {
    if order[0] !in p.waiters || Available(c, p, order[0]) < 1 {
      WakeFirstWakes(c, p, order[1..], cancelled, k, t);
    } else {
      var q := p.waiters[order[0]];
      FirstLiveFacts(q, cancelled);
      if FirstLive(q, cancelled) == |q| {
        assert k != order[0];
        var p' := p.(waiters := p.waiters[order[0] := []]);
        assert Available(c, p', k) == Available(c, p, k);
        WakeFirstWakes(c, p', order[1..], cancelled, k, t);
      }
    }
  }
}
