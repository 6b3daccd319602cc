/** The connection pool as an object, its dictionaries, sets and queues updated in place. */
module Connectors {
  import opened Common
  import opened PoolSpec

  class BaseConnector {
    const config: Config
    var conns: map<Key, seq<Idle>>
    var acquired: set<Handle>
    var acquiredPerHost: map<Key, set<Handle>>
    var waiters: map<Key, seq<nat>>

    ghost function State(): Pool
      reads this
    {
      Pool(conns, acquired, acquiredPerHost, waiters)
    }

    constructor (config: Config)
      ensures this.config == config && State() == EMPTY_POOL
    {
      this.config := config;
      conns, acquired, acquiredPerHost, waiters := map[], {}, map[], map[];
    }

    /** `_available_connections`. */
    method AvailableConnections(key: Key) returns (n: int)
      ensures n == Available(config, State(), key)
      ensures n >= 1 <==> HasRoom(config, State(), key)
      ensures n >= 1 ==> RoomFor(config, State(), key, n)
      ensures n >= 1 ==> if config.limit == 0 then n == 1 else !RoomFor(config, State(), key, n + 1)
    {
      AvailableIsRoom(config, State(), key);
      var totalRemain := 1;
      if config.limit != 0 {
        totalRemain := config.limit - |acquired|;
        if totalRemain <= 0 {
          return totalRemain;
        }
      }
      var hostRemain := config.perHost;
      if hostRemain != 0 {
        if key in acquiredPerHost {
          hostRemain := hostRemain - |acquiredPerHost[key]|;
        }
        if totalRemain > hostRemain {
          return hostRemain;
        }
      }
      return totalRemain;
    }

    method MarkAcquired(key: Key, h: Handle)
      modifies `acquired, `acquiredPerHost
      ensures State() == Acquire(config, old(State()), key, h)
    {
      acquired := acquired + {h};
      if config.perHost != 0 {
        acquiredPerHost := acquiredPerHost[key := (if key in acquiredPerHost then acquiredPerHost[key] else {}) + {h}];
      }
    }

    /** `_get`: connections that cannot be reused are closed until one can. */
    method Get(key: Key, connected: set<nat>, now: int) returns (got: Option<nat>, closed: seq<nat>)
      modifies `conns, `acquired, `acquiredPerHost
      ensures (State(), got) == PoolSpec.Get(config, old(State()), key, connected, now)
      ensures var q := IdleAt(old(State()), key);
              closed == ConnsOf(q[..FirstUsable(config, q, connected, now)])
    {
      closed := [];
      if key !in conns {
        return None, [];
      }
      ghost var q := conns[key];
      ghost var before := conns;
      var i := FirstUsable(config, q, connected, now);
      var n := 0;
      while conns[key] != []
        invariant key in conns && n <= i && conns == before[key := q[n..]]
        invariant acquired == old(acquired) && acquiredPerHost == old(acquiredPerHost)
        invariant FirstUsable(config, q[n..], connected, now) == i - n
        invariant closed == ConnsOf(q[..n])
        decreases |conns[key]|
      {
        var first := conns[key][0];
        FirstUsableAt(config, q, n, connected, now);
        conns := conns[key := conns[key][1..]];
        if first.conn in connected && now - first.since <= config.keepalive {
          assert n == i;
          if conns[key] == [] {
            conns := conns - {key};
          }
          assert conns == IdleBehind(before, key, n);
          MarkAcquired(key, Conn(first.conn));
          return Some(first.conn), closed;
        }
        ConnsSnoc(q, n);
        closed := closed + [first.conn];
        n := n + 1;
      }
      conns := conns - {key};
      assert conns == before - {key};
      got := None;
    }

    /** The waiters at the front of one queue are taken off it until one is found that can be released. */
    method PopWaiter(key: Key, cancelled: set<nat>) returns (woken: Option<nat>)
      requires key in waiters
      modifies `waiters
      ensures var q := old(waiters)[key];
              var i := FirstLive(q, cancelled);
              && waiters == old(waiters)[key := if i < |q| then q[i + 1..] else []]
              && woken == if i < |q| then Some(q[i]) else None
    {
      ghost var q := waiters[key];
      ghost var n := 0;
      while waiters[key] != []
        invariant key in waiters && n <= |q| && waiters == old(waiters)[key := q[n..]]
        invariant FirstLive(q[n..], cancelled) == FirstLive(q, cancelled) - n
        decreases |waiters[key]|
      {
        var waiter := waiters[key][0];
        assert q[n..][1..] == q[n + 1..] && q[n..][0] == q[n];
        waiters := waiters[key := waiters[key][1..]];
        if waiter !in cancelled {
          return Some(waiter);
        }
        n := n + 1;
      }
      woken := None;
    }

    /** `_release_waiter`, with the order in which the hosts were shuffled. */
    method ReleaseWaiter(order: seq<Key>, cancelled: set<nat>) returns (woken: Option<nat>)
      requires forall k :: k in order <==> k in waiters
      modifies `waiters
      ensures (State(), woken) == WakeFirst(config, old(State()), order, cancelled)
    {
      var i := 0;
      ghost var goal := WakeFirst(config, State(), order, cancelled);
      while i < |order|
        invariant i <= |order| && forall k :: k in order <==> k in waiters
        invariant WakeFirst(config, State(), order[i..], cancelled) == goal
      {
        WakeFirstAt(config, State(), order, i, cancelled);
        var available := AvailableConnections(order[i]);
        if available >= 1 {
          ghost var p := State();
          woken := PopWaiter(order[i], cancelled);
          assert State() == p.(waiters := waiters);
          if woken.Some? {
            return;
          }
        }
        i := i + 1;
      }
      woken := None;
    }

    /** `_release_acquired`. */
    method ReleaseAcquired(key: Key, h: Handle, order: seq<Key>, cancelled: set<nat>) returns (woken: Option<nat>)
      requires forall k :: k in order <==> k in waiters
      modifies `acquired, `acquiredPerHost, `waiters
      ensures (State(), woken) == PoolSpec.ReleaseAcquired(config, old(State()), key, h, order, cancelled)
    {
      acquired := acquired - {h};
      if config.perHost != 0 && key in acquiredPerHost && acquiredPerHost[key] != {} {
        var left := acquiredPerHost[key] - {h};
        acquiredPerHost := if left == {} then acquiredPerHost - {key} else acquiredPerHost[key := left];
      }
      assert State() == Discard(config, old(State()), key, h);
      woken := ReleaseWaiter(order, cancelled);
    }

    /** `_release`. */
    method Release(key: Key, conn: nat, shouldClose: bool, now: int, order: seq<Key>, cancelled: set<nat>)
      returns (woken: Option<nat>)
      requires forall k :: k in order <==> k in waiters
      modifies `conns, `acquired, `acquiredPerHost, `waiters
      ensures (State(), woken) == PoolSpec.Release(config, old(State()), key, conn, shouldClose, now, order, cancelled)
    {
      woken := ReleaseAcquired(key, Conn(conn), order, cancelled);
      if config.forceClose || shouldClose {
        return;
      }
      conns := conns[key := (if key in conns then conns[key] else []) + [Idle(conn, now)]];
    }

    /** A waiter is put at the end of its queue, or in front if it has waited before. */
    method AddWaiter(key: Key, t: nat, attempts: nat)
      modifies `waiters
      ensures State() == Enqueue(old(State()), key, t, attempts > 0)
    {
      var queue := if key in waiters then waiters[key] else [];
      waiters := waiters[key := if attempts > 0 then [t] + queue else queue + [t]];
    }

    /** The finally block of `_wait_for_available_connection`. */
    method RemoveWaiter(key: Key, t: nat)
      modifies `waiters
      ensures State() == Leave(old(State()), key, t)
    {
      if key in waiters {
        var queue := Without(waiters[key], t);
        waiters := if queue == [] then waiters - {key} else waiters[key := queue];
      }
    }

    /** `connect` up to its first await. */
    method Connect(key: Key, t: nat, connected: set<nat>, now: int) returns (r: Outcome)
      modifies this
      ensures (State(), r) == PoolSpec.Connect(config, old(State()), key, t, connected, now)
    {
      var got, _ := Get(key, connected, now);
      if got.Some? {
        return Reuses(got.value);
      }
      var available := AvailableConnections(key);
      if available <= 0 {
        AddWaiter(key, t, 0);
        return Waits;
      }
      MarkAcquired(key, Placeholder(t));
      return Begins;
    }

    /** `connect` from the await of its waiter to the next await. */
    method Resume(key: Key, t: nat, connected: set<nat>, now: int, attempts: nat) returns (r: Outcome)
      modifies this
      ensures (State(), r) == PoolSpec.Resume(config, old(State()), key, t, connected, now)
    {
      RemoveWaiter(key, t);
      var available := AvailableConnections(key);
      if available <= 0 {
        AddWaiter(key, t, attempts + 1);
        return Waits;
      }
      var got, _ := Get(key, connected, now);
      if got.Some? {
        return Reuses(got.value);
      }
      MarkAcquired(key, Placeholder(t));
      return Begins;
    }

    /** The end of `connect`; removing the placeholder raises no KeyError as it is there. */
    method Swap(key: Key, t: nat, conn: nat)
      requires Placeholder(t) in acquired
      requires config.perHost != 0 ==> key in acquiredPerHost && Placeholder(t) in acquiredPerHost[key]
      modifies `acquired, `acquiredPerHost
      ensures State() == PoolSpec.Swap(config, old(State()), key, t, conn)
    {
      acquired := acquired - {Placeholder(t)};
      acquired := acquired + {Conn(conn)};
      if config.perHost != 0 {
        var host := acquiredPerHost[key] - {Placeholder(t)};
        acquiredPerHost := acquiredPerHost[key := host + {Conn(conn)}];
      }
    }

    /** `_cleanup`: what is still alive of each queue is kept, in order. */
    method Cleanup(connected: set<nat>, now: int)
      modifies `conns
      ensures State() == PoolSpec.Cleanup(config, old(State()), connected, now)
    {
      ghost var p := State();
      var connections: map<Key, seq<Idle>> := map[];
      var rest := conns.Keys;
      while rest != {}
        invariant rest <= conns.Keys && State() == p
        invariant forall k ::
                    k in connections <==> k in conns && k !in rest && Alive(config, conns[k], connected, now) != []
        invariant forall k ::
                    k in connections ==> k in conns && connections[k] == Alive(config, conns[k], connected, now)
        decreases |rest|
      {
        var key :| key in rest;
        var alive: seq<Idle> := [];
        var i := 0;
        while i < |conns[key]|
          invariant key in conns && i <= |conns[key]| && State() == p
          invariant alive + Alive(config, conns[key][i..], connected, now) == Alive(config, conns[key], connected, now)
        {
          var e := conns[key][i];
          AliveStep(config, alive, conns[key], i, connected, now);
          if e.conn in connected && e.since - (now - config.keepalive) >= 0 {
            alive := alive + [e];
          }
          i := i + 1;
        }
        if alive != [] {
          connections := connections[key := alive];
        }
        rest := rest - {key};
      }
      conns := connections;
    }
  }

  lemma FirstUsableAt(c: Config, q: seq<Idle>, n: nat, connected: set<nat>, now: int)
    requires n < |q|
    ensures q[n..][1..] == q[n + 1..] && q[n..][0] == q[n]
    ensures FirstUsable(c, q[n..], connected, now)
         == if Usable(c, q[n], connected, now) then 0 else 1 + FirstUsable(c, q[n + 1..], connected, now)
  {
    assert q[n..][1..] == q[n + 1..];
  }

  /** One host of the order is visited. */
  lemma WakeFirstAt(c: Config, p: Pool, order: seq<Key>, i: nat, cancelled: set<nat>)
    requires i < |order| && order[i] in p.waiters
    ensures Available(c, p, order[i]) < 1 ==>
              WakeFirst(c, p, order[i..], cancelled) == WakeFirst(c, p, order[i + 1..], cancelled)
    ensures var q := p.waiters[order[i]];
            var k := FirstLive(q, cancelled);
            Available(c, p, order[i]) >= 1 ==>
              WakeFirst(c, p, order[i..], cancelled)
              == if k < |q| then (p.(waiters := p.waiters[order[i] := q[k + 1..]]), Some(q[k]))
                 else WakeFirst(c, p.(waiters := p.waiters[order[i] := []]), order[i + 1..], cancelled)
  {
    assert order[i..][1..] == order[i + 1..] && order[i..][0] == order[i];
  }

  lemma AliveStep(c: Config, alive: seq<Idle>, q: seq<Idle>, i: nat, connected: set<nat>, now: int)
    requires i < |q|
    ensures alive + Alive(c, q[i..], connected, now)
         == (if Usable(c, q[i], connected, now) then alive + [q[i]] else alive) + Alive(c, q[i + 1..], connected, now)
  {
    assert q[i..][1..] == q[i + 1..];
  }

  function ConnsOf(q: seq<Idle>): seq<nat>
  {
    if q == [] then [] else ConnsOf(q[..|q| - 1]) + [q[|q| - 1].conn]
  }

  lemma ConnsSnoc(q: seq<Idle>, n: nat)
    requires n < |q|
    ensures ConnsOf(q[..n + 1]) == ConnsOf(q[..n]) + [q[n].conn]
  {
    assert q[..n + 1][..n] == q[..n];
  }
}
