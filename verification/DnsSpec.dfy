/** What the DNS cache does: an ordered dictionary of endless iterators, with an expiry time for each entry. */
module DnsSpec {
  import opened Common

  datatype HostPort = HostPort(host: string, port: int)

  /** `cycle(addrs)` of which `pos` items were taken. */
  datatype Loop = Loop(addrs: seq<string>, pos: nat)

  /** The table. `order` lists its keys, the least recently used one first. */
  datatype Table = Table(order: seq<HostPort>, loops: map<HostPort, Loop>, stamps: map<HostPort, int>)

  const EMPTY: Table := Table([], map[], map[])

  datatype Config = Config(ttl: Option<int>, maxSize: nat)

  function Remove<T(==)>(s: seq<T>, x: T): seq<T>
  {
    if s == [] then [] else (if s[0] == x then [] else [s[0]]) + Remove(s[1..], x)
  }

  function MoveToEnd(order: seq<HostPort>, key: HostPort): seq<HostPort> { Remove(order, key) + [key] }

  function Drop(t: Table, key: HostPort): Table
  {
    Table(Remove(t.order, key), t.loops - {key}, t.stamps - {key})
  }

  function Added(t: Table, c: Config, key: HostPort, addrs: seq<string>, now: int): (u: Table)
    ensures u.order != []
  {
    Table(MoveToEnd(t.order, key), t.loops[key := Loop(addrs, 0)],
          if c.ttl.Some? then t.stamps[key := now] else t.stamps)
  }

  function Add(t: Table, c: Config, key: HostPort, addrs: seq<string>, now: int): Table
  {
    var u := Added(t, c, key, addrs, now);
    if |u.order| > c.maxSize then Drop(u, u.order[0]) else u
  }

  datatype LookupError = KeyError | StopIteration

  /** The next n items of a loop over n addresses. */
  function Taken(l: Loop): seq<string>
    requires l.addrs != []
  {
    var n := |l.addrs|;
    seq(n, i requires 0 <= i < n => l.addrs[(l.pos + i) % n])
  }

  /** `next_addrs`: one more item than returned is taken, so that the next answer starts one further. */
  function Next(t: Table, key: HostPort): (Table, Result<seq<string>, LookupError>)
  {
    if key !in t.loops then (t, Failure(KeyError))
    else
      var l := t.loops[key];
      if l.addrs == [] then (t, Failure(StopIteration))
      else
        (t.(order := MoveToEnd(t.order, key), loops := t.loops[key := l.(pos := l.pos + |l.addrs| + 1)]),
         Success(Taken(l)))
  }

  // ----- what every operation keeps -----

  ghost predicate Valid(t: Table, c: Config)
  {
    Tidy(t, c) && |t.order| <= c.maxSize
  }

  ghost predicate Tidy(t: Table, c: Config)
  {
    && NoDuplicates(t.order)
    && (forall k :: k in t.order <==> k in t.loops)
    && (if c.ttl.Some? then t.stamps.Keys == t.loops.Keys else t.stamps == map[])
  }

  lemma {:induction false} RemoveFacts<T>(s: seq<T>, x: T)
    requires NoDuplicates(s)
    ensures NoDuplicates(Remove(s, x)) && x !in Remove(s, x)
    ensures forall y :: y != x ==> (y in Remove(s, x) <==> y in s)
    ensures |Remove(s, x)| == |s| - (if x in s then 1 else 0)
  {
    if s != [] {
      var rest := Remove(s[1..], x);
      RemoveFacts(s[1..], x);
      assert s == [s[0]] + s[1..];
      if s[0] != x {
        assert s[0] !in s[1..];
        assert s[0] !in rest;
      }
    }
  }

  /** Every member was used before those behind it. */
  predicate SortedBy(s: seq<HostPort>, last: map<HostPort, nat>)
  {
    s == [] || (s[0] in last && AllLater(s[0], s[1..], last) && SortedBy(s[1..], last))
  }

  predicate AllLater(x: HostPort, s: seq<HostPort>, last: map<HostPort, nat>)
    requires x in last
  {
    forall y :: y in s ==> y in last && last[x] < last[y]
  }

  lemma {:induction false} RemoveKeepsSorted(s: seq<HostPort>, x: HostPort, last: map<HostPort, nat>)
    requires SortedBy(s, last)
    ensures SortedBy(Remove(s, x), last)
  {
    if s != [] {
      RemoveKeepsSorted(s[1..], x, last);
      RemoveMembers(s[1..], x);
      if s[0] != x {
        assert Remove(s, x)[1..] == Remove(s[1..], x);
      } else {
        assert Remove(s, x) == Remove(s[1..], x);
      }
    }
  }

  lemma {:induction false} RemoveMembers(s: seq<HostPort>, x: HostPort)
    ensures forall y :: y in Remove(s, x) ==> y in s && y != x
  {
    if s != [] {
      RemoveMembers(s[1..], x);
    }
  }

  lemma TouchLater(x: HostPort, s: seq<HostPort>, key: HostPort, last: map<HostPort, nat>, now: nat)
    requires x in last && AllLater(x, s, last) && x != key && key !in s && last[x] < now
    ensures var touched := last[key := now]; AllLater(x, s + [key], touched)
  {
  }

  /** Using a key now moves it behind all others. */
  lemma {:induction false} TouchSorted(s: seq<HostPort>, key: HostPort, last: map<HostPort, nat>, now: nat)
    requires SortedBy(s, last) && key !in s
    requires forall y :: y in s && y in last ==> last[y] < now
    ensures SortedBy(s + [key], last[key := now])
  {
    if s == [] {
      assert s + [key] == [key];
    } else {
      var first, rest := s[0], s[1..];
      TouchLater(first, rest, key, last, now);
      TouchSorted(rest, key, last, now);
      assert s + [key] == [first] + (rest + [key]);
      SortedCons(first, rest + [key], last[key := now]);
    }
  }

  lemma SortedCons(x: HostPort, s: seq<HostPort>, last: map<HostPort, nat>)
    requires x in last && AllLater(x, s, last) && SortedBy(s, last)
    ensures SortedBy([x] + s, last)
  {
    assert ([x] + s)[1..] == s;
  }

  lemma MoveToEndFacts(order: seq<HostPort>, key: HostPort)
    requires NoDuplicates(order)
    ensures NoDuplicates(MoveToEnd(order, key))
    ensures forall y :: y in MoveToEnd(order, key) <==> y == key || y in order
    ensures |MoveToEnd(order, key)| == |order| + (if key in order then 0 else 1)
  {
    RemoveFacts(order, key);
  }

  lemma AddKeepsValid(t: Table, c: Config, key: HostPort, addrs: seq<string>, now: int)
    requires Valid(t, c)
    ensures Valid(Add(t, c, key, addrs, now), c)
  {
    AddedIsTidy(t, c, key, addrs, now);
    var u := Added(t, c, key, addrs, now);
    if |u.order| > c.maxSize {
      DropIsTidy(u, c, u.order[0]);
    }
  }

  lemma AddedIsTidy(t: Table, c: Config, key: HostPort, addrs: seq<string>, now: int)
    requires Tidy(t, c)
    ensures Tidy(Added(t, c, key, addrs, now), c)
    ensures |Added(t, c, key, addrs, now).order| <= |t.order| + 1
  {
    MoveToEndFacts(t.order, key);
    RemoveFacts(t.order, key);
  }

  lemma DropIsTidy(t: Table, c: Config, key: HostPort)
    requires Tidy(t, c)
    ensures Tidy(Drop(t, key), c)
    ensures |Drop(t, key).order| == |t.order| - if key in t.order then 1 else 0
  {
    RemoveFacts(t.order, key);
  }

  lemma NextKeepsValid(t: Table, c: Config, key: HostPort)
    requires Valid(t, c)
    ensures Valid(Next(t, key).0, c)
  {
    MoveToEndFacts(t.order, key);
  }

  lemma DropKeepsValid(t: Table, c: Config, key: HostPort)
    requires Valid(t, c)
    ensures Valid(Drop(t, key), c)
  {
    RemoveFacts(t.order, key);
  }

  // ----- runs -----

  datatype Op =
    | AddOp(key: HostPort, addrs: seq<string>, now: int)
    | NextOp(key: HostPort)
    | RemoveOp(key: HostPort)
    | ClearOp

  /**
   * A table with its history: the moment each key was last added or looked up, and for each key
   * the list it was added with and the lookups made since.
   */
  datatype Journal = Journal(t: Table, clock: nat, last: map<HostPort, nat>,
                             lists: map<HostPort, seq<string>>, lookups: map<HostPort, nat>)

  function Count(j: Journal, key: HostPort): nat
  {
    if key in j.lookups then j.lookups[key] else 0
  }

  function Enter(j: Journal, c: Config, op: Op): Journal
  {
    var k := j.(clock := j.clock + 1);
    match op
    case AddOp(key, addrs, now) =>
      k.(t := Add(j.t, c, key, addrs, now), last := j.last[key := j.clock],
         lists := j.lists[key := addrs], lookups := j.lookups[key := 0])
    case NextOp(key) =>
      var (u, r) := Next(j.t, key);
      if r.Failure? then k
      else k.(t := u, last := j.last[key := j.clock], lookups := j.lookups[key := Count(j, key) + 1])
    case RemoveOp(key) => k.(t := Drop(j.t, key))
    case ClearOp => k.(t := EMPTY)
  }

  function Replay(j: Journal, c: Config, ops: seq<Op>): Journal
    decreases |ops|
  {
    if ops == [] then j else Replay(Enter(j, c, ops[0]), c, ops[1..])
  }

  ghost predicate Sound(j: Journal, c: Config)
  {
    && Valid(j.t, c)
    && SortedBy(j.t.order, j.last)
    && (forall k :: k in j.last ==> j.last[k] < j.clock)
    && AllPositioned(j)
  }

  predicate AllPositioned(j: Journal)
  {
    forall k :: k in j.t.loops ==> k in j.lists && Positioned(j, k)
  }

  /** The iterator of a key stands where its lookups have taken it. */
  predicate Positioned(j: Journal, key: HostPort)
    requires key in j.t.loops && key in j.lists
  {
    j.t.loops[key] == Loop(j.lists[key], Count(j, key) * (|j.lists[key]| + 1))
  }

  lemma AddOrder(order: seq<HostPort>, key: HostPort, last: map<HostPort, nat>, clock: nat)
    requires NoDuplicates(order) && SortedBy(order, last)
    requires forall k :: k in last ==> last[k] < clock
    ensures SortedBy(MoveToEnd(order, key), last[key := clock])
  {
    RemoveFacts(order, key);
    RemoveKeepsSorted(order, key, last);
    TouchSorted(Remove(order, key), key, last, clock);
  }

  lemma AddPositions(j: Journal, c: Config, key: HostPort, addrs: seq<string>, now: int)
    requires AllPositioned(j)
    ensures AllPositioned(Enter(j, c, AddOp(key, addrs, now)))
  {
    var k := Enter(j, c, AddOp(key, addrs, now));
    forall x | x in k.t.loops
      ensures x in k.lists && Positioned(k, x)
    {
      if x != key {
        assert x in j.t.loops && Positioned(j, x);
      }
    }
  }

  lemma AddSound(j: Journal, c: Config, key: HostPort, addrs: seq<string>, now: int)
    requires Sound(j, c)
    ensures Sound(Enter(j, c, AddOp(key, addrs, now)), c)
  {
    var k := Enter(j, c, AddOp(key, addrs, now));
    assert Valid(k.t, c) by { AddKeepsValid(j.t, c, key, addrs, now); }
    assert AllPositioned(k) by { AddPositions(j, c, key, addrs, now); }
    var order := MoveToEnd(j.t.order, key);
    assert SortedBy(k.t.order, k.last) by {
      AddOrder(j.t.order, key, j.last, j.clock);
      RemoveKeepsSorted(order, order[0], k.last);
    }
  }

  lemma NextPositions(j: Journal, c: Config, key: HostPort)
    requires AllPositioned(j) && Next(j.t, key).1.Success?
    ensures AllPositioned(Enter(j, c, NextOp(key)))
  {
    var k := Enter(j, c, NextOp(key));
    var n := |j.lists[key]|;
    assert Positioned(j, key);
    assert (Count(j, key) + 1) * (n + 1) == Count(j, key) * (n + 1) + n + 1;
    forall x | x in k.t.loops
      ensures x in k.lists && Positioned(k, x)
    {
      if x != key {
        assert x in j.t.loops && Positioned(j, x);
      }
    }
  }

  lemma NextSound(j: Journal, c: Config, key: HostPort)
    requires Sound(j, c)
    ensures Sound(Enter(j, c, NextOp(key)), c)
  {
    if Next(j.t, key).1.Success? {
      var k := Enter(j, c, NextOp(key));
      assert Valid(k.t, c) by { NextKeepsValid(j.t, c, key); }
      assert AllPositioned(k) by { NextPositions(j, c, key); }
      AddOrder(j.t.order, key, j.last, j.clock);
    }
  }

  lemma EnterSound(j: Journal, c: Config, op: Op)
    requires Sound(j, c)
    ensures Sound(Enter(j, c, op), c)
  {
    match op
    case AddOp(key, addrs, now) => AddSound(j, c, key, addrs, now);
    case NextOp(key) => NextSound(j, c, key);
    case RemoveOp(key) =>
      DropKeepsValid(j.t, c, key);
      RemoveKeepsSorted(j.t.order, key, j.last);
    case ClearOp =>
  }

  lemma {:induction false} ReplaySound(j: Journal, c: Config, ops: seq<Op>)
    requires Sound(j, c)
    ensures Sound(Replay(j, c, ops), c)
    decreases |ops|
  {
    if ops != [] {
      EnterSound(j, c, ops[0]);
      ReplaySound(Enter(j, c, ops[0]), c, ops[1..]);
    }
  }

  predicate Blank(j: Journal)
  {
    j.t == EMPTY && j.last == map[] && j.lists == map[] && j.lookups == map[]
  }

  /** In every reachable state: the size bound, one time stamp for each key, no stray keys. */
  lemma TableIsValid(j: Journal, c: Config, ops: seq<Op>)
    requires Blank(j)
    ensures Valid(Replay(j, c, ops).t, c)
  {
    ReplaySound(j, c, ops);
  }

  /** `gone` is pushed out by an add of `key`, `kept` stays. */
  predicate PushedOut(t: Table, c: Config, key: HostPort, addrs: seq<string>, now: int, gone: HostPort, kept: HostPort)
  {
    var u := Add(t, c, key, addrs, now);
    gone != key && gone in t.loops && gone !in u.loops && kept in u.loops && kept != key
  }

  lemma OldestGoes(k: Journal, c: Config, key: HostPort, addrs: seq<string>, now: int, gone: HostPort, kept: HostPort)
    requires Sound(k, c) && PushedOut(k.t, c, key, addrs, now, gone, kept)
    ensures gone in k.last && kept in k.last && k.last[gone] < k.last[kept]
  {
    var rest := Remove(k.t.order, key);
    PushedIsFirst(k.t, c, key, addrs, now, gone, kept);
    RemoveKeepsSorted(k.t.order, key, k.last);
    OldestIsFirst(rest, key, gone, kept, k.last);
  }

  /** The key that is pushed out is the first one but for the added key itself. */
  lemma PushedIsFirst(t: Table, c: Config, key: HostPort, addrs: seq<string>, now: int, gone: HostPort, kept: HostPort)
    requires Valid(t, c) && PushedOut(t, c, key, addrs, now, gone, kept)
    ensures var rest := Remove(t.order, key);
            rest != [] && rest[0] == gone && kept in rest && gone in rest && kept != gone
    ensures (Remove(t.order, key) + [key])[0] == gone
  {
    var u := Added(t, c, key, addrs, now);
    RemoveFacts(t.order, key);
    assert gone in u.loops && kept in u.loops;
    assert u.order[0] == gone;
  }

  /** A key that an add pushes out was added or looked up before all that stay. */
  lemma EvictsLeastRecentlyUsed(j: Journal, c: Config, ops: seq<Op>, key: HostPort, addrs: seq<string>, now: int,
                                gone: HostPort, kept: HostPort)
    requires Blank(j)
    requires PushedOut(Replay(j, c, ops).t, c, key, addrs, now, gone, kept)
    ensures var k := Replay(j, c, ops);
            gone in k.last && kept in k.last && k.last[gone] < k.last[kept]
  {
    ReplaySound(j, c, ops);
    OldestGoes(Replay(j, c, ops), c, key, addrs, now, gone, kept);
  }

  lemma OldestIsFirst(rest: seq<HostPort>, key: HostPort, gone: HostPort, kept: HostPort, last: map<HostPort, nat>)
    requires SortedBy(rest, last) && kept in rest && kept != gone && (rest + [key])[0] == gone && gone != key
    ensures gone in last && kept in last && last[gone] < last[kept]
  {
    var i :| 0 <= i < |rest| && rest[i] == kept;
    assert rest[1..][i - 1] == kept;
  }

  // ----- rotation -----

  function Rotated(s: seq<string>, k: nat): seq<string>
    requires s != []
  {
    s[k % |s|..] + s[..k % |s|]
  }

  lemma {:induction false} ModShift(m: nat, k: nat, n: nat)
    requires n > 0
    ensures (m + k * n) % n == m % n
  {
    if k > 0 {
      ModShift(m, k - 1, n);
      assert k * n == (k - 1) * n + n;
      ModStep(m + (k - 1) * n, n);
    }
  }

  lemma MulGrows(a: int, n: int)
    requires a >= 1 && n > 0
    ensures a * n >= n
  {
  }

  /** Quotient and remainder are unique. */
  lemma ModUnique(x: int, n: int, q: int, r: int)
    requires n > 0 && 0 <= r < n && x == q * n + r
    ensures x % n == r
  {
    var q', r' := x / n, x % n;
    assert x == q' * n + r';
    assert (q - q') * n == q * n - q' * n;
    if q > q' {
      MulGrows(q - q', n);
    } else if q < q' {
      assert (q' - q) * n == q' * n - q * n;
      MulGrows(q' - q, n);
    }
  }

  lemma ModStep(x: nat, n: nat)
    requires n > 0
    ensures (x + n) % n == x % n
  {
    var q, r := x / n, x % n;
    assert (q + 1) * n == q * n + n;
    ModUnique(x + n, n, q + 1, r);
  }

  /** The items taken from position k * (n + 1) on are the list rotated by k. */
  lemma TakenIsRotated(l: Loop, k: nat)
    requires l.addrs != [] && l.pos == k * (|l.addrs| + 1)
    ensures Taken(l) == Rotated(l.addrs, k)
  {
    var n := |l.addrs|;
    var r := k % n;
    assert l.pos == k + k * n;
    forall i | 0 <= i < n
      ensures Taken(l)[i] == Rotated(l.addrs, k)[i]
    {
      ModShift(k + i, k, n);
      assert (l.pos + i) % n == (k + i) % n;
      ModSum(k, i, n);
    }
  }

  lemma ModSum(k: nat, i: nat, n: nat)
    requires i < n
    ensures (k + i) % n == if k % n + i < n then k % n + i else k % n + i - n
  {
    var q, r := k / n, k % n;
    assert k == q * n + r;
    if r + i < n {
      ModUnique(k + i, n, q, r + i);
    } else {
      assert (q + 1) * n == q * n + n;
      ModUnique(k + i, n, q + 1, r + i - n);
    }
  }

  /** In every reachable state the (k+1)-th lookup since a key was added answers its list, rotated by k. */
  lemma LookupsRotate(j: Journal, c: Config, ops: seq<Op>, key: HostPort)
    requires Blank(j)
    requires var k := Replay(j, c, ops); key in k.t.loops && k.t.loops[key].addrs != []
    ensures var k := Replay(j, c, ops);
            && key in k.lists && k.lists[key] != []
            && Next(k.t, key).1 == Success(Rotated(k.lists[key], Count(k, key)))
  {
    ReplaySound(j, c, ops);
    var k := Replay(j, c, ops);
    assert Positioned(k, key);
    TakenIsRotated(k.t.loops[key], Count(k, key));
  }

  /** What the lookups of a key in a run answer, those that fail left out. */
  function Answers(j: Journal, c: Config, ops: seq<Op>, key: HostPort): seq<seq<string>>
    decreases |ops|
  {
    if ops == [] then []
    else
      (if ops[0] == NextOp(key) && Next(j.t, key).1.Success? then [Next(j.t, key).1.value] else [])
      + Answers(Enter(j, c, ops[0]), c, ops[1..], key)
  }

  /** All through a run the key is in the table and is not added again. */
  predicate Resident(j: Journal, c: Config, ops: seq<Op>, key: HostPort)
    decreases |ops|
  {
    key in j.t.loops &&
    (ops == [] || (!(ops[0].AddOp? && ops[0].key == key) && Resident(Enter(j, c, ops[0]), c, ops[1..], key)))
  }

  lemma OtherOpsAside(j: Journal, c: Config, op: Op, key: HostPort)
    requires Sound(j, c) && key in j.t.loops && key in Enter(j, c, op).t.loops && !(op.AddOp? && op.key == key)
    requires key in j.lists && j.lists[key] != []
    ensures var k := Enter(j, c, op);
            && key in k.lists && k.lists[key] == j.lists[key]
            && Count(k, key) == Count(j, key) + if op == NextOp(key) then 1 else 0
  {
    assert Positioned(j, key);
  }

  function NextOps(ops: seq<Op>, key: HostPort): nat
  {
    if ops == [] then 0 else (if ops[0] == NextOp(key) then 1 else 0) + NextOps(ops[1..], key)
  }

  predicate Rotates(answers: seq<seq<string>>, list: seq<string>, start: nat)
    requires list != []
  {
    forall i :: 0 <= i < |answers| ==> answers[i] == Rotated(list, start + i)
  }

  lemma RotatesBehind(list: seq<string>, start: nat, rest: seq<seq<string>>)
    requires list != [] && Rotates(rest, list, start + 1)
    ensures Rotates([Rotated(list, start)] + rest, list, start)
  {
    var first := [Rotated(list, start)];
    forall i | 0 <= i < |first + rest|
      ensures (first + rest)[i] == Rotated(list, start + i)
    {
      if i > 0 {
        assert (first + rest)[i] == rest[i - 1] == Rotated(list, (start + 1) + (i - 1));
        assert (start + 1) + (i - 1) == start + i;
      }
    }
  }

  lemma NextAnswer(j: Journal, c: Config, key: HostPort)
    requires Sound(j, c) && key in j.t.loops && key in j.lists && j.lists[key] != []
    ensures Next(j.t, key).1 == Success(Rotated(j.lists[key], Count(j, key)))
  {
    assert Positioned(j, key);
    TakenIsRotated(j.t.loops[key], Count(j, key));
  }

  lemma AnswersStep(j: Journal, c: Config, ops: seq<Op>, key: HostPort, rest: seq<seq<string>>)
    requires Sound(j, c) && key in j.t.loops && key in j.lists && j.lists[key] != []
    requires ops != [] && rest == Answers(Enter(j, c, ops[0]), c, ops[1..], key)
    ensures Answers(j, c, ops, key)
         == if ops[0] == NextOp(key) then [Rotated(j.lists[key], Count(j, key))] + rest else rest
  {
    NextAnswer(j, c, key);
    assert [] + rest == rest;
  }

  lemma ResidentStep(j: Journal, c: Config, ops: seq<Op>, key: HostPort, k: Journal)
    requires ops != [] && Resident(j, c, ops, key) && k == Enter(j, c, ops[0])
    ensures key in j.t.loops && key in k.t.loops && Resident(k, c, ops[1..], key)
    ensures !(ops[0].AddOp? && ops[0].key == key)
  {
  }

  /** A run that is about to answer lookups of a resident key from its list. */
  ghost predicate Answering(
      j: Journal, c: Config, ops: seq<Op>, key: HostPort, list: seq<string>, answers: seq<seq<string>>)
  {
    && Sound(j, c) && Resident(j, c, ops, key) && key in j.lists && j.lists[key] == list && list != []
    && answers == Answers(j, c, ops, key)
  }

  lemma AnsweringStep(j: Journal, c: Config, ops: seq<Op>, key: HostPort, list: seq<string>, answers: seq<seq<string>>)
    returns (k: Journal, rest: seq<seq<string>>)
    requires ops != [] && Answering(j, c, ops, key, list, answers)
    ensures Answering(k, c, ops[1..], key, list, rest)
    ensures Count(k, key) == Count(j, key) + if ops[0] == NextOp(key) then 1 else 0
    ensures answers == if ops[0] == NextOp(key) then [Rotated(list, Count(j, key))] + rest else rest
  {
    k := Enter(j, c, ops[0]);
    rest := Answers(k, c, ops[1..], key);
    ResidentStep(j, c, ops, key, k);
    EnterSound(j, c, ops[0]);
    OtherOpsAside(j, c, ops[0], key);
    AnswersStep(j, c, ops, key, rest);
  }

  lemma RotatesOn(list: seq<string>, start: nat, more: bool, rest: seq<seq<string>>, answers: seq<seq<string>>)
    requires list != [] && Rotates(rest, list, start + if more then 1 else 0)
    requires answers == if more then [Rotated(list, start)] + rest else rest
    ensures |answers| == |rest| + (if more then 1 else 0) && Rotates(answers, list, start)
  {
    if more {
      RotatesBehind(list, start, rest);
    }
  }

  /** One answer for each lookup, each the list rotated by one more. */
  predicate Answered(j: Journal, ops: seq<Op>, key: HostPort, list: seq<string>, answers: seq<seq<string>>)
  {
    list != [] && |answers| == NextOps(ops, key) && Rotates(answers, list, Count(j, key))
  }

  lemma NothingAnswered(
      j: Journal, c: Config, ops: seq<Op>, key: HostPort, list: seq<string>, answers: seq<seq<string>>)
    requires Answering(j, c, ops, key, list, answers) && ops == []
    ensures Answered(j, ops, key, list, answers)
  {
  }

  lemma OneMoreAnswered(
      j: Journal, k: Journal, ops: seq<Op>, key: HostPort, list: seq<string>,
      rest: seq<seq<string>>, answers: seq<seq<string>>)
    requires ops != [] && Answered(k, ops[1..], key, list, rest)
    requires Count(k, key) == Count(j, key) + if ops[0] == NextOp(key) then 1 else 0
    requires answers == if ops[0] == NextOp(key) then [Rotated(list, Count(j, key))] + rest else rest
    ensures Answered(j, ops, key, list, answers)
  {
    RotatesOn(list, Count(j, key), ops[0] == NextOp(key), rest, answers);
  }

  /**
   * Whatever is done to other keys in between, the lookups of a key answer its list in one rotation
   * after the other.
   */
  lemma {:induction false} AnswersRotate(
      j: Journal, c: Config, ops: seq<Op>, key: HostPort, list: seq<string>, answers: seq<seq<string>>)
    requires Answering(j, c, ops, key, list, answers)
    ensures Answered(j, ops, key, list, answers)
    decreases |ops|
  {
    if ops == [] {
      NothingAnswered(j, c, ops, key, list, answers);
    } else {
      var k, rest := AnsweringStep(j, c, ops, key, list, answers);
      AnswersRotate(k, c, ops[1..], key, list, rest);
      OneMoreAnswered(j, k, ops, key, list, rest, answers);
    }
  }

  function FirstOf(answer: seq<string>): string { if answer == [] then "" else answer[0] }

  /** The addresses that come first in n answers from a position on. */
  function Firsts(answers: seq<seq<string>>, from: nat, n: nat): (r: seq<string>)
    requires from + n <= |answers|
    ensures |r| == n
  {
    seq(n, i requires 0 <= i < n => FirstOf(answers[from + i]))
  }

  lemma RotatedIsPermutation(s: seq<string>, k: nat)
    requires s != []
    ensures multiset(Rotated(s, k)) == multiset(s)
  {
    var r := k % |s|;
    assert s == s[..r] + s[r..];
  }

  lemma RotatedAt(s: seq<string>, k: nat, i: nat)
    requires i < |s|
    ensures |Rotated(s, k)| == |s| && Rotated(s, k)[i] == s[(k + i) % |s|]
  {
    ModSum(k, i, |s|);
  }

  lemma FirstAt(s: seq<string>, answers: seq<seq<string>>, start: nat, from: nat, i: nat)
    requires i < |s| && from + |s| <= |answers| && Rotates(answers, s, start)
    ensures FirstOf(answers[from + i]) == Rotated(s, start + from)[i]
  {
    var k := start + from + i;
    assert answers[from + i] == Rotated(s, k) by {
      assert start + (from + i) == k;
    }
    RotatedAt(s, k, 0);
    RotatedAt(s, start + from, i);
  }

  /** The first addresses of one rotation after the other are themselves a rotation. */
  lemma FirstsAreRotated(s: seq<string>, answers: seq<seq<string>>, start: nat, from: nat)
    requires s != [] && from + |s| <= |answers| && Rotates(answers, s, start)
    ensures Firsts(answers, from, |s|) == Rotated(s, start + from)
  {
    RotatedAt(s, start + from, 0);
    forall i | 0 <= i < |s|
      ensures Firsts(answers, from, |s|)[i] == Rotated(s, start + from)[i]
    {
      FirstAt(s, answers, start, from, i);
    }
  }

  lemma WindowIsPermutation(s: seq<string>, answers: seq<seq<string>>, start: nat, from: nat)
    requires s != [] && from + |s| <= |answers| && Rotates(answers, s, start)
    ensures multiset(Firsts(answers, from, |s|)) == multiset(s)
  {
    FirstsAreRotated(s, answers, start, from);
    RotatedIsPermutation(s, start + from);
  }

  lemma ReachedSound(j: Journal, c: Config, before: seq<Op>, k: Journal, key: HostPort)
    requires Blank(j) && k == Replay(j, c, before) && key in k.t.loops
    ensures Sound(k, c) && key in k.lists && k.lists[key] == k.t.loops[key].addrs
  {
    ReplaySound(j, c, before);
    assert Positioned(k, key);
  }

  /**
   * In every run in which a key stays in the table and is not added again, with any operations on
   * other keys in between: in every n consecutive answers for its n addresses each address comes
   * first as often as it is in the list.
   */
  lemma EachAddressFirstOnce(
      j: Journal, c: Config, before: seq<Op>, k: Journal, ops: seq<Op>, key: HostPort, addrs: seq<string>, from: nat)
    requires Blank(j) && k == Replay(j, c, before) && Resident(k, c, ops, key)
    requires k.t.loops[key].addrs == addrs && addrs != [] && from + |addrs| <= NextOps(ops, key)
    ensures |Answers(k, c, ops, key)| == NextOps(ops, key)
    ensures multiset(Firsts(Answers(k, c, ops, key), from, |addrs|)) == multiset(addrs)
  {
    ReachedSound(j, c, before, k, key);
    AnswersRotate(k, c, ops, key, addrs, Answers(k, c, ops, key));
    WindowIsPermutation(addrs, Answers(k, c, ops, key), Count(k, key), from);
  }

  lemma {:induction false} RemoveAbsent(s: seq<HostPort>, x: HostPort)
    ensures x !in s ==> Remove(s, x) == s
  {
    if s != [] {
      RemoveAbsent(s[1..], x);
      assert s == [s[0]] + s[1..];
    }
  }

  lemma DropAbsent(t: Table, c: Config, key: HostPort)
    requires Valid(t, c) && key !in t.loops
    ensures Drop(t, key) == t
  {
    assert key !in t.order;
    RemoveAbsent(t.order, key);
    assert t.loops - {key} == t.loops;
    assert t.stamps - {key} == t.stamps;
  }

  lemma RemoveFirst(s: seq<HostPort>)
    requires s != [] && NoDuplicates(s)
    ensures Remove(s, s[0]) == s[1..]
  {
    RemoveAbsent(s[1..], s[0]);
  }

  // ----- what an add pushes out, and when -----

  /** An add to a full table drops the oldest key, which is the new one only if nothing may be stored. */
  lemma AddDrops(t: Table, c: Config, key: HostPort, addrs: seq<string>, now: int) returns (oldest: HostPort)
    requires Valid(t, c)
    ensures var u := Added(t, c, key, addrs, now);
            if key !in t.loops && |t.order| == c.maxSize then
              && Add(t, c, key, addrs, now) == Drop(u, oldest)
              && (if c.maxSize == 0 then oldest == key else oldest != key && oldest in t.loops)
            else Add(t, c, key, addrs, now) == u && c.maxSize >= 1
  {
    SizeOfOrder(t, c, key);
    RemoveFacts(t.order, key);
    var rest := Remove(t.order, key);
    oldest := (rest + [key])[0];
    assert rest != [] ==> oldest in rest;
  }

  /**
   * An add stores its key, unless nothing may be stored at all. It pushes out no other key unless
   * the key is new and the table is full, and then one.
   */
  lemma AddPushesOut(t: Table, c: Config, key: HostPort, addrs: seq<string>, now: int)
    requires Valid(t, c)
    ensures var u := Add(t, c, key, addrs, now);
            && (key in u.loops <==> c.maxSize >= 1)
            && (key in u.loops ==> u.loops[key] == Loop(addrs, 0))
            && (key in t.loops || |t.order| < c.maxSize ==> forall k :: k in t.loops ==> k in u.loops)
            && (forall k :: k != key && k in u.loops ==> k in t.loops && u.loops[k] == t.loops[k])
            && (forall k, l :: k in t.loops && l in t.loops && k !in u.loops && l !in u.loops ==> k == l)
  {
    var oldest := AddDrops(t, c, key, addrs, now);
    var loops := t.loops[key := Loop(addrs, 0)];
    assert Drop(Added(t, c, key, addrs, now), oldest).loops == loops - {oldest};
  }

  lemma SizeOfOrder(t: Table, c: Config, key: HostPort)
    requires Valid(t, c)
    ensures |MoveToEnd(t.order, key)| == |t.order| + if key in t.loops then 0 else 1
    ensures key in t.loops ==> t.order != []
  {
    MoveToEndFacts(t.order, key);
  }

  // ----- when an entry was added -----

  /** The time of the last add of a key in a run. */
  function LastAdd(ops: seq<Op>, key: HostPort): Option<int>
  {
    if ops == [] then None
    else if LastAdd(ops[1..], key).Some? then LastAdd(ops[1..], key)
    else if ops[0].AddOp? && ops[0].key == key then Some(ops[0].now)
    else None
  }

  lemma {:induction false} StampIsLastAdd(j: Journal, c: Config, ops: seq<Op>, key: HostPort)
    requires Valid(j.t, c) && c.ttl.Some? && key in Replay(j, c, ops).t.loops
    ensures var t := Replay(j, c, ops).t;
            && key in t.stamps
            && match LastAdd(ops, key)
               case Some(now) => t.stamps[key] == now
               case None => key in j.t.stamps && t.stamps[key] == j.t.stamps[key]
    decreases |ops|
  {
    if ops != [] {
      EnterStamps(j, c, ops[0], key);
      StampIsLastAdd(Enter(j, c, ops[0]), c, ops[1..], key);
    }
  }

  lemma EnterStamps(j: Journal, c: Config, op: Op, key: HostPort)
    requires Valid(j.t, c) && c.ttl.Some?
    ensures var t := Enter(j, c, op).t;
            && Valid(t, c)
            && (key in t.stamps ==>
                  if op.AddOp? && op.key == key then t.stamps[key] == op.now
                  else key in j.t.stamps && t.stamps[key] == j.t.stamps[key])
  {
    match op
    case AddOp(k, addrs, now) => AddKeepsValid(j.t, c, k, addrs, now);
    case NextOp(k) => NextKeepsValid(j.t, c, k);
    case RemoveOp(k) => DropKeepsValid(j.t, c, k);
    case ClearOp =>
  }

  /** In every run with a time to live the time stamp of a key in the table is that of its last add. */
  lemma EntryAge(j: Journal, c: Config, ops: seq<Op>, key: HostPort)
    requires Blank(j) && c.ttl.Some? && key in Replay(j, c, ops).t.loops
    ensures var t := Replay(j, c, ops).t; key in t.stamps && LastAdd(ops, key) == Some(t.stamps[key])
  {
    StampIsLastAdd(j, c, ops, key);
  }

  /** A lookup fails for an unknown key, or for one without addresses, and then changes nothing. */
  lemma LookupErrors(t: Table, key: HostPort)
    ensures var (u, r) := Next(t, key);
            && (r == Failure(KeyError) <==> key !in t.loops)
            && (r == Failure(StopIteration) <==> key in t.loops && t.loops[key].addrs == [])
            && (r.Failure? ==> u == t)
  {
  }

  // ----- removing -----

  /** What is removed is gone, the others stay as they are and in order; clearing leaves nothing. */
  lemma RemovedIsGone(j: Journal, c: Config, key: HostPort, k: HostPort)
    requires Valid(j.t, c)
    ensures var t := Enter(j, c, RemoveOp(key)).t;
            && (k in t.loops <==> k in j.t.loops && k != key)
            && (k in t.loops ==> t.loops[k] == j.t.loops[k])
            && (k in t.stamps <==> k in j.t.stamps && k != key)
            && Subsequence(t.order, j.t.order) && (k in t.order <==> k in t.loops)
    ensures Enter(j, c, ClearOp).t.loops == map[] && Enter(j, c, ClearOp).t.stamps == map[]
  {
    RemoveFacts(j.t.order, key);
    RemoveInOrder(j.t.order, key);
  }

  lemma {:induction false} RemoveInOrder(s: seq<HostPort>, x: HostPort)
    ensures Subsequence(Remove(s, x), s)
  {
    if s != [] {
      RemoveInOrder(s[1..], x);
      SubsequenceCons(s[0], Remove(s[1..], x), s[1..]);
      assert s == [s[0]] + s[1..];
      assert [] + Remove(s[1..], x) == Remove(s[1..], x);
    }
  }
}
