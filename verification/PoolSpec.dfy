/** The bookkeeping of the connection pool: what each stretch of code between two awaits does to it. */
module PoolSpec {
  import opened Common

  type Key = string

  /** What can count as a connection in use: one that is being made, or a made one. */
  datatype Handle = Placeholder(t: nat) | Conn(c: nat)

  datatype Idle = Idle(conn: nat, since: int)

  /** Limits of zero mean none. */
  datatype Config = Config(limit: int, perHost: int, keepalive: int, forceClose: bool)

  datatype Pool = Pool(
    idle: map<Key, seq<Idle>>,
    acquired: set<Handle>,
    perHost: map<Key, set<Handle>>,
    waiters: map<Key, seq<nat>>)

  const EMPTY_POOL := Pool(map[], {}, map[], map[])

  function Host(p: Pool, key: Key): set<Handle>
  {
    if key in p.perHost then p.perHost[key] else {}
  }

  function Queue(p: Pool, key: Key): seq<nat>
  {
    if key in p.waiters then p.waiters[key] else []
  }

  function IdleAt(p: Pool, key: Key): seq<Idle>
  {
    if key in p.idle then p.idle[key] else []
  }

  /** One more connection to the host would exceed neither of the limits that are set. */
  predicate HasRoom(c: Config, p: Pool, key: Key)
  {
    (c.limit == 0 || |p.acquired| < c.limit) && (c.perHost == 0 || |Host(p, key)| < c.perHost)
  }

  /** `_available_connections`. */
  function Available(c: Config, p: Pool, key: Key): int
  {
    var total := if c.limit != 0 then c.limit - |p.acquired| else 1;
    if c.limit != 0 && total <= 0 then total
    else if c.perHost != 0 && total > c.perHost - |Host(p, key)| then c.perHost - |Host(p, key)|
    else total
  }

  /** So many more connections to the host would exceed neither limit. */
  predicate RoomFor(c: Config, p: Pool, key: Key, more: int)
  {
    && (c.limit != 0 ==> |p.acquired| + more <= c.limit)
    && (c.perHost != 0 ==> |Host(p, key)| + more <= c.perHost)
  }

  /**
   * The answer is positive exactly if one more connection is allowed. Under a total limit it is then
   * the greatest number of connections to this host that both limits allow; otherwise it is one.
   */
  lemma AvailableIsRoom(c: Config, p: Pool, key: Key)
    ensures var n := Available(c, p, key);
            && (n >= 1 <==> HasRoom(c, p, key))
            && (n >= 1 ==> RoomFor(c, p, key, n))
            && (n >= 1 ==> if c.limit == 0 then n == 1 else !RoomFor(c, p, key, n + 1))
  {
  }

  function Acquire(c: Config, p: Pool, key: Key, h: Handle): Pool
  {
    p.(acquired := p.acquired + {h},
       perHost := if c.perHost != 0 then p.perHost[key := Host(p, key) + {h}] else p.perHost)
  }

  // ----- reuse -----

  predicate Usable(c: Config, e: Idle, connected: set<nat>, now: int)
  {
    e.conn in connected && now - e.since <= c.keepalive
  }

  /** The place of the first connection of a queue that can be reused, or the length. */
  function FirstUsable(c: Config, q: seq<Idle>, connected: set<nat>, now: int): (i: nat)
    ensures i <= |q| && (i < |q| ==> Usable(c, q[i], connected, now))
  {
    if q == [] || Usable(c, q[0], connected, now) then 0 else 1 + FirstUsable(c, q[1..], connected, now)
  }

  /** What stays idle behind the one at a place of a queue; an empty queue goes. */
  function IdleBehind(idle: map<Key, seq<Idle>>, key: Key, i: nat): map<Key, seq<Idle>>
    requires key in idle && i < |idle[key]|
  {
    if i + 1 == |idle[key]| then idle - {key} else idle[key := idle[key][i + 1..]]
  }

  /** `_get`: the connections in front of the reusable one are closed. */
  function Get(c: Config, p: Pool, key: Key, connected: set<nat>, now: int): (Pool, Option<nat>)
  {
    if key !in p.idle then (p, None)
    else
      var q := p.idle[key];
      var i := FirstUsable(c, q, connected, now);
      if i == |q| then (p.(idle := p.idle - {key}), None)
      else
        (Acquire(c, p.(idle := IdleBehind(p.idle, key, i)), key, Conn(q[i].conn)), Some(q[i].conn))
  }

  /** The connections of a queue that are kept by a clean-up, in order. */
  function Alive(c: Config, q: seq<Idle>, connected: set<nat>, now: int): seq<Idle>
  {
    if q == [] then []
    else if Usable(c, q[0], connected, now) then [q[0]] + Alive(c, q[1..], connected, now)
    else Alive(c, q[1..], connected, now)
  }

  /** `_cleanup`. */
  function Cleanup(c: Config, p: Pool, connected: set<nat>, now: int): Pool
  {
    p.(idle := map k | k in p.idle && Alive(c, p.idle[k], connected, now) != [] :: Alive(c, p.idle[k], connected, now))
  }

  // ----- waiters -----

  function Without(q: seq<nat>, t: nat): seq<nat>
  {
    if q == [] then [] else if q[0] == t then Without(q[1..], t) else [q[0]] + Without(q[1..], t)
  }

  function Enqueue(p: Pool, key: Key, t: nat, front: bool): Pool
  {
    p.(waiters := p.waiters[key := if front then [t] + Queue(p, key) else Queue(p, key) + [t]])
  }

  /** A waiter takes itself off its queue, which goes when it is empty. */
  function Leave(p: Pool, key: Key, t: nat): Pool
  {
    if Without(Queue(p, key), t) == [] then p.(waiters := p.waiters - {key})
    else p.(waiters := p.waiters[key := Without(Queue(p, key), t)])
  }

  /** The place of the first waiter that was not cancelled, or the length. */
  function FirstLive(q: seq<nat>, cancelled: set<nat>): (i: nat)
    ensures i <= |q| && (i < |q| ==> q[i] !in cancelled)
  {
    if q == [] || q[0] !in cancelled then 0 else 1 + FirstLive(q[1..], cancelled)
  }

  /** `_release_waiter`, visiting the hosts in the given order. */
  function WakeFirst(c: Config, p: Pool, order: seq<Key>, cancelled: set<nat>): (Pool, Option<nat>)
    decreases |order|
  {
    if order == [] then (p, None)
    else if order[0] !in p.waiters || Available(c, p, order[0]) < 1 then WakeFirst(c, p, order[1..], cancelled)
    else
      var q := p.waiters[order[0]];
      var i := FirstLive(q, cancelled);
      if i < |q| then (p.(waiters := p.waiters[order[0] := q[i + 1..]]), Some(q[i]))
      else WakeFirst(c, p.(waiters := p.waiters[order[0] := []]), order[1..], cancelled)
  }

  // ----- release -----

  function Discard(c: Config, p: Pool, key: Key, h: Handle): Pool
  {
    p.(acquired := p.acquired - {h},
       perHost := if c.perHost == 0 || Host(p, key) == {} then p.perHost
                  else if Host(p, key) - {h} == {} then p.perHost - {key}
                  else p.perHost[key := Host(p, key) - {h}])
  }

  /** `_release_acquired`. */
  function ReleaseAcquired(
      c: Config, p: Pool, key: Key, h: Handle, order: seq<Key>, cancelled: set<nat>): (Pool, Option<nat>)
  {
    WakeFirst(c, Discard(c, p, key, h), order, cancelled)
  }

  /** `_release`. */
  function Release(
      c: Config, p: Pool, key: Key, conn: nat, shouldClose: bool, now: int, order: seq<Key>, cancelled: set<nat>)
    : (Pool, Option<nat>)
  {
    var (q, w) := ReleaseAcquired(c, p, key, Conn(conn), order, cancelled);
    if c.forceClose || shouldClose then (q, w)
    else (q.(idle := q.idle[key := IdleAt(q, key) + [Idle(conn, now)]]), w)
  }

  // ----- connect, between its awaits -----

  datatype Outcome = Reuses(conn: nat) | Waits | Begins

  /** `connect` up to its first await. */
  function Connect(c: Config, p: Pool, key: Key, t: nat, connected: set<nat>, now: int): (Pool, Outcome)
  {
    var (q, got) := Get(c, p, key, connected, now);
    if got.Some? then (q, Reuses(got.value))
    else if Available(c, q, key) <= 0 then (Enqueue(q, key, t, false), Waits)
    else (Acquire(c, q, key, Placeholder(t)), Begins)
  }

  /** `connect` from the await of a waiter that was woken up to the next await. */
  function Resume(c: Config, p: Pool, key: Key, t: nat, connected: set<nat>, now: int): (Pool, Outcome)
  {
    var left := Leave(p, key, t);
    if Available(c, left, key) <= 0 then (Enqueue(left, key, t, true), Waits)
    else
      var (q, got) := Get(c, left, key, connected, now);
      if got.Some? then (q, Reuses(got.value)) else (Acquire(c, q, key, Placeholder(t)), Begins)
  }

  /** The placeholder gives way to the connection that was made. */
  function Swap(c: Config, p: Pool, key: Key, t: nat, conn: nat): Pool
  {
    p.(acquired := p.acquired - {Placeholder(t)} + {Conn(conn)},
       perHost := if c.perHost == 0 then p.perHost
                  else p.perHost[key := Host(p, key) - {Placeholder(t)} + {Conn(conn)}])
  }
}
