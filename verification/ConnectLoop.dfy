/** The loop over the addresses of a host: every failed pass drops addresses, so it ends. */
module ConnectLoop {
  import opened Common
  import opened Interleave

  /** What `pop_addr_infos_interleave` keeps, `seen` addresses of every family being counted already. */
  function Kept(xs: seq<AddrInfo>, n: int, seen: map<int, nat>): seq<AddrInfo>
    decreases |xs|
  {
    if xs == [] then []
    else
      var count := Seen(seen, xs[0].family);
      var rest := Kept(xs[1..], n, seen[xs[0].family := count + 1]);
      if count >= n then [xs[0]] + rest else rest
  }

  function Seen(seen: map<int, nat>, f: int): nat { if f in seen then seen[f] else 0 }

  function PopCount(interleave: Option<int>): int { if interleave.Some? then interleave.value else 1 }

  function Popped(xs: seq<AddrInfo>, interleave: Option<int>): seq<AddrInfo>
  {
    Kept(xs, PopCount(interleave), map[])
  }

  /** A list without its first k members. */
  function Drop<T>(s: seq<T>, k: int): seq<T> { s[Min(Max(k, 0), |s|)..] }

  lemma DropCons<T>(a: T, s: seq<T>, k: int)
    ensures Drop([a] + s, k) == if k <= 0 then [a] + s else Drop(s, k - 1)
  {
  }

  lemma DropTwice<T>(s: seq<T>, a: nat, b: nat)
    ensures Drop(Drop(s, a), b) == Drop(s, a + b)
  {
  }

  lemma SelectCons(a: AddrInfo, s: seq<AddrInfo>, f: int)
    ensures Select([a] + s, f) == if a.family == f then [a] + Select(s, f) else Select(s, f)
  {
    assert ([a] + s)[0] == a && ([a] + s)[1..] == s;
  }

  /** What one address contributes, the rest of the list being settled. */
  lemma KeptCons(a: AddrInfo, rest: seq<AddrInfo>, kept: seq<AddrInfo>, n: int, count: nat, k: int, f: int)
    requires a.family == f ==> k == n - count
    requires Select(kept, f) == Drop(Select(rest, f), if a.family == f then k - 1 else k)
    ensures Select(if count >= n then [a] + kept else kept, f) == Drop(Select([a] + rest, f), k)
  {
    SelectCons(a, rest, f);
    SelectCons(a, kept, f);
    DropCons(a, Select(rest, f), k);
  }

  /** Of every family the first n addresses are dropped, and the others stay in order. */
  lemma {:induction false} KeptSelects(xs: seq<AddrInfo>, n: int, seen: map<int, nat>, f: int)
    ensures Select(Kept(xs, n, seen), f) == Drop(Select(xs, f), n - Seen(seen, f))
    decreases |xs|
  {
    if xs != [] {
      var g := xs[0].family;
      var count := Seen(seen, g);
      var later := seen[g := count + 1];
      KeptSelects(xs[1..], n, later, f);
      assert Seen(later, f) == if f == g then count + 1 else Seen(seen, f);
      KeptCons(xs[0], xs[1..], Kept(xs[1..], n, later), n, count, n - Seen(seen, f), f);
      assert xs == [xs[0]] + xs[1..];
    }
  }

  lemma {:induction false} KeptLength(xs: seq<AddrInfo>, n: int, seen: map<int, nat>)
    ensures |Kept(xs, n, seen)| <= |xs|
    decreases |xs|
  {
    if xs != [] {
      KeptLength(xs[1..], n, seen[xs[0].family := Seen(seen, xs[0].family) + 1]);
    }
  }

  lemma {:induction false} KeptWhole(xs: seq<AddrInfo>, n: int, seen: map<int, nat>)
    requires n <= 0
    ensures Kept(xs, n, seen) == xs
    decreases |xs|
  {
    if xs != [] {
      KeptWhole(xs[1..], n, seen[xs[0].family := Seen(seen, xs[0].family) + 1]);
      assert xs == [xs[0]] + xs[1..];
    }
  }

  /** A pass shortens the list exactly if there is something to drop and the count allows it. */
  lemma PopShortens(xs: seq<AddrInfo>, interleave: Option<int>)
    ensures |Popped(xs, interleave)| < |xs| <==> xs != [] && PopCount(interleave) >= 1
    ensures PopCount(interleave) < 1 ==> Popped(xs, interleave) == xs
  {
    KeptLength(xs, PopCount(interleave), map[]);
    if PopCount(interleave) < 1 {
      KeptWhole(xs, PopCount(interleave), map[]);
    }
    if xs != [] && PopCount(interleave) >= 1 {
      KeptLength(xs[1..], PopCount(interleave), map[xs[0].family := 1]);
    }
  }

  function PoppedTimes(xs: seq<AddrInfo>, interleave: Option<int>, k: nat): seq<AddrInfo>
  {
    if k == 0 then xs else Popped(PoppedTimes(xs, interleave, k - 1), interleave)
  }

  lemma PoppedSelects(xs: seq<AddrInfo>, interleave: Option<int>, f: int)
    ensures Select(Popped(xs, interleave), f) == Drop(Select(xs, f), PopCount(interleave))
  {
    KeptSelects(xs, PopCount(interleave), map[], f);
  }

  /** One more pass drops n more addresses of every family. */
  lemma OneMorePass(xs: seq<AddrInfo>, interleave: Option<int>, k: nat, f: int)
    requires k > 0
    ensures Select(PoppedTimes(xs, interleave, k), f)
         == Drop(Select(PoppedTimes(xs, interleave, k - 1), f), PopCount(interleave))
  {
    PoppedSelects(PoppedTimes(xs, interleave, k - 1), interleave, f);
  }

  /** Without an interleave count a pass drops the first address of every family. */
  lemma NoCountDropsOne(xs: seq<AddrInfo>, f: int)
    ensures Select(Popped(xs, None), f) == if Select(xs, f) == [] then [] else Select(xs, f)[1..]
  {
    PoppedSelects(xs, None, f);
  }

  lemma DropSum<T>(a: seq<T>, b: seq<T>, c: seq<T>, k: nat, n: nat)
    requires k > 0 && b == Drop(a, (k - 1) * n) && c == Drop(b, n)
    ensures c == Drop(a, k * n)
  {
    assert k * n == (k - 1) * n + n;
    DropTwice(a, (k - 1) * n, n);
  }

  /** After k failed passes exactly the first k * n addresses of every family are gone. */
  lemma {:induction false} PoppedTimesSelects(xs: seq<AddrInfo>, interleave: Option<int>, k: nat, f: int)
    requires PopCount(interleave) >= 1
    ensures Select(PoppedTimes(xs, interleave, k), f) == Drop(Select(xs, f), k * PopCount(interleave))
  {
    if k > 0 {
      PoppedTimesSelects(xs, interleave, k - 1, f);
      OneMorePass(xs, interleave, k, f);
      DropSum(Select(xs, f), Select(PoppedTimes(xs, interleave, k - 1), f), Select(PoppedTimes(xs, interleave, k), f),
              k, PopCount(interleave));
    }
  }

  function Without(xs: seq<AddrInfo>, drop: AddrInfo -> bool): (r: seq<AddrInfo>)
    ensures |r| <= |xs|
  {
    if xs == [] then [] else (if drop(xs[0]) then [] else [xs[0]]) + Without(xs[1..], drop)
  }

  /** `remove_addr_infos`, with the parsed form of addresses for the slow path; None for its ValueError. */
  function Removed(xs: seq<AddrInfo>, peer: string, parse: string -> string): Option<seq<AddrInfo>>
  {
    var kept := Without(xs, (a: AddrInfo) => a.address == peer);
    if |kept| < |xs| then Some(kept)
    else
      var match_ := parse(peer);
      var slow := Without(xs, (a: AddrInfo) => parse(a.address) == match_);
      if |slow| < |xs| then Some(slow) else None
  }

  lemma WithoutFirst(xs: seq<AddrInfo>, drop: AddrInfo -> bool)
    requires xs != []
    ensures var rest := Without(xs[1..], drop);
            Without(xs, drop) == if drop(xs[0]) then rest else [xs[0]] + rest
  {
  }

  lemma {:induction false} WithoutInOrder(xs: seq<AddrInfo>, drop: AddrInfo -> bool)
    ensures Subsequence(Without(xs, drop), xs)
    decreases |xs|
  {
    if xs != [] {
      WithoutFirst(xs, drop);
      WithoutInOrder(xs[1..], drop);
      SubsequenceCons(xs[0], Without(xs[1..], drop), xs[1..]);
      assert xs == [xs[0]] + xs[1..];
    }
  }

  lemma {:induction false} WithoutCounts(xs: seq<AddrInfo>, drop: AddrInfo -> bool, a: AddrInfo)
    ensures multiset(Without(xs, drop))[a] == if drop(a) then 0 else multiset(xs)[a]
    decreases |xs|
  {
    if xs != [] {
      WithoutFirst(xs, drop);
      WithoutCounts(xs[1..], drop, a);
      assert xs == [xs[0]] + xs[1..];
    }
  }

  lemma {:induction false} WithoutShortens(xs: seq<AddrInfo>, drop: AddrInfo -> bool)
    ensures |Without(xs, drop)| < |xs| <==> exists b :: b in xs && drop(b)
    decreases |xs|
  {
    if xs != [] {
      WithoutFirst(xs, drop);
      WithoutShortens(xs[1..], drop);
      assert xs == [xs[0]] + xs[1..];
    }
  }

  /** The address of the peer is in the list. */
  predicate Listed(xs: seq<AddrInfo>, peer: string) { exists a :: a in xs && a.address == peer }

  /** An address is that of the peer, or if none is, means the same. */
  predicate IsPeer(xs: seq<AddrInfo>, a: AddrInfo, peer: string, parse: string -> string)
  {
    if Listed(xs, peer) then a.address == peer else parse(a.address) == parse(peer)
  }

  /**
   * The addresses of the peer go, all others stay in order. If none is written like the peer those
   * go that mean the same; if there are none of those either the call fails.
   */
  lemma RemovedArePeers(xs: seq<AddrInfo>, peer: string, parse: string -> string, a: AddrInfo)
    ensures match Removed(xs, peer, parse)
            case None => forall b :: b in xs ==> !IsPeer(xs, b, peer, parse)
            case Some(r) =>
              && Subsequence(r, xs)
              && multiset(r)[a] == (if IsPeer(xs, a, peer, parse) then 0 else multiset(xs)[a])
              && exists b :: b in xs && IsPeer(xs, b, peer, parse)
  {
    var same := (b: AddrInfo) => b.address == peer;
    var alike := (b: AddrInfo) => parse(b.address) == parse(peer);
    WithoutInOrder(xs, same);
    WithoutInOrder(xs, alike);
    WithoutCounts(xs, same, a);
    WithoutCounts(xs, alike, a);
    WithoutShortens(xs, same);
    WithoutShortens(xs, alike);
  }

  /** How one attempt with the addresses left ends. */
  datatype Attempt =
    | Connected
    | ConnectFailed
    | WrongFingerprint(peer: string)

  /** What a failed attempt leaves of the list: the addresses of a peer are dropped, or the next ones of each family. */
  function AfterFailure(xs: seq<AddrInfo>, interleave: Option<int>, o: Attempt, parse: string -> string)
    : Option<seq<AddrInfo>>
    requires !o.Connected?
  {
    if o.WrongFingerprint? then Removed(xs, o.peer, parse) else Some(Popped(xs, interleave))
  }

  /** A failed attempt drops the next addresses of each family, a wrong fingerprint the addresses of the peer. */
  lemma FailureDrops(xs: seq<AddrInfo>, interleave: Option<int>, parse: string -> string, peer: string, a: AddrInfo)
    ensures var r := AfterFailure(xs, interleave, ConnectFailed, parse);
            r.Some? && Select(r.value, a.family) == Drop(Select(xs, a.family), PopCount(interleave))
    ensures match AfterFailure(xs, interleave, WrongFingerprint(peer), parse)
            case None => forall b :: b in xs ==> !IsPeer(xs, b, peer, parse)
            case Some(r) => multiset(r)[a] == if IsPeer(xs, a, peer, parse) then 0 else multiset(xs)[a]
  {
    PoppedSelects(xs, interleave, a.family);
    RemovedArePeers(xs, peer, parse, a);
  }

  /** The list of addresses, overwritten in place. */
  class AddrList {
    var items: seq<AddrInfo>

    constructor (items: seq<AddrInfo>)
      ensures this.items == items
    {
      this.items := items;
    }

    /** `pop_addr_infos_interleave`. */
    method PopInterleave(interleave: Option<int>)
      modifies this
      ensures items == Popped(old(items), interleave)
      ensures forall f :: Select(items, f) == Drop(Select(old(items), f), PopCount(interleave))
    {
      var n := if interleave.Some? then interleave.value else 1;
      var seen: map<int, nat> := map[];
      var kept: seq<AddrInfo> := [];
      var i := 0;
      assert items[0..] == items;
      while i < |items|
        invariant 0 <= i <= |items| && items == old(items)
        invariant kept + Kept(items[i..], n, seen) == Popped(items, interleave)
      {
        var a := items[i];
        assert items[i..][1..] == items[i + 1..];
        var count := if a.family in seen then seen[a.family] else 0;
        var keep := if count >= n then [a] else [];
        Assoc(kept, keep, Kept(items[i + 1..], n, seen[a.family := count + 1]));
        kept := kept + keep;
        seen := seen[a.family := count + 1];
        i := i + 1;
      }
      assert kept + [] == kept;
      forall f
        ensures Select(kept, f) == Drop(Select(items, f), n)
      {
        KeptSelects(items, n, map[], f);
      }
      items := kept;
    }

    /** `remove_addr_infos`; false for its ValueError. */
    method Remove(peer: string, parse: string -> string) returns (ok: bool)
      modifies this
      ensures ok == Removed(old(items), peer, parse).Some?
      ensures items == if ok then Removed(old(items), peer, parse).value else old(items)
      ensures ok ==> |items| < |old(items)|
    {
      var kept := Without(items, (a: AddrInfo) => a.address == peer);
      if |kept| == |items| {
        var parsed := parse(peer);
        kept := Without(items, (a: AddrInfo) => parse(a.address) == parsed);
      }
      if |kept| == |items| {
        return false;
      }
      items := kept;
      return true;
    }

    /** After a failed attempt; false if its peer is not in the list. */
    method DropFailed(o: Attempt, interleave: Option<int>, parse: string -> string) returns (ok: bool)
      requires !o.Connected?
      modifies this
      ensures ok == AfterFailure(old(items), interleave, o, parse).Some?
      ensures items == if ok then AfterFailure(old(items), interleave, o, parse).value else old(items)
      ensures ok && old(items) != [] && PopCount(interleave) >= 1 ==> |items| < |old(items)|
    {
      if o.WrongFingerprint? {
        ok := Remove(o.peer, parse);
      } else {
        PopShortens(items, interleave);
        PopInterleave(interleave);
        ok := true;
      }
    }
  }

  datatype ConnectResult = Connection | LastError(error: Attempt) | UnknownPeer | NoAddresses | Unfinished

  /** The loop over some addresses: the interleave count, how the attempts end, and the parsed form of addresses. */
  datatype Course = Course(xs: seq<AddrInfo>, interleave: Option<int>, outcome: nat -> Attempt, parse: string -> string)

  /** The addresses left after so many failed attempts; None once a peer is not among them, or one connected. */
  function Left(c: Course, k: nat): Option<seq<AddrInfo>>
  {
    if k == 0 then Some(c.xs)
    else
      var ys := Left(c, k - 1);
      if ys.None? || c.outcome(k - 1).Connected? then None
      else AfterFailure(ys.value, c.interleave, c.outcome(k - 1), c.parse)
  }

  lemma LeftNext(c: Course, k: nat)
    requires Left(c, k).Some?
    ensures Left(c, k + 1)
         == if c.outcome(k).Connected? then None
            else AfterFailure(Left(c, k).value, c.interleave, c.outcome(k), c.parse)
  {
  }

  lemma {:induction false} LeftBefore(c: Course, k: nat)
    requires Left(c, k).Some?
    ensures forall i :: 0 <= i < k ==> c.outcome(i) != Connected
    ensures k > 0 ==> Left(c, k - 1).Some?
  {
    if k > 0 {
      LeftBefore(c, k - 1);
    }
  }

  /** When every attempt fails to connect, each pass drops the next addresses of every family. */
  lemma {:induction false} AllFailedLeft(c: Course, k: nat)
    requires forall i :: 0 <= i < k ==> c.outcome(i) == ConnectFailed
    ensures Left(c, k) == Some(PoppedTimes(c.xs, c.interleave, k))
    ensures PopCount(c.interleave) < 1 ==> PoppedTimes(c.xs, c.interleave, k) == c.xs
  {
    if k > 0 {
      AllFailedLeft(c, k - 1);
      PopShortens(PoppedTimes(c.xs, c.interleave, k - 1), c.interleave);
    }
  }

  /** How the loop ends: behind so many attempts, with these addresses left. */
  ghost predicate Ends(c: Course, turns: nat, r: ConnectResult, attempts: nat, items: seq<AddrInfo>)
  {
    && attempts <= turns
    && (r.NoAddresses? <==> c.xs == [])
    && (attempts == 0 ==> items == c.xs)
    && (attempts > 0 ==> Left(c, attempts - 1).Some?)
    && match r
       case NoAddresses => attempts == 0
       case Connection => attempts > 0 && c.outcome(attempts - 1) == Connected
       case UnknownPeer =>
         && attempts > 0 && c.outcome(attempts - 1).WrongFingerprint? && Left(c, attempts) == None
         && Left(c, attempts - 1) == Some(items)
       case LastError(e) =>
         attempts > 0 && c.outcome(attempts - 1) == e && e != Connected && Left(c, attempts) == Some([]) && items == []
       case Unfinished => attempts == turns && Left(c, attempts) == Some(items) && items != []
  }

  /** What that means for the attempts made, and for the list if all of them failed to connect. */
  lemma EndsFacts(c: Course, turns: nat, r: ConnectResult, attempts: nat, items: seq<AddrInfo>)
    requires Ends(c, turns, r, attempts, items)
    ensures forall k :: 0 <= k < attempts - 1 ==> c.outcome(k) != Connected
    ensures !r.Connection? && attempts > 0 ==> c.outcome(attempts - 1) != Connected
    ensures !r.Connection? && (forall k :: 0 <= k < attempts ==> c.outcome(k) == ConnectFailed) ==>
              items == PoppedTimes(c.xs, c.interleave, attempts)
    ensures && PopCount(c.interleave) < 1 && c.xs != []
            && (forall k :: 0 <= k < turns ==> c.outcome(k) == ConnectFailed) ==>
              r.Unfinished? && items == c.xs
  {
    if attempts > 0 {
      LeftBefore(c, attempts - 1);
      if r.Unfinished? {
        LeftBefore(c, attempts);
      }
    }
    if forall k :: 0 <= k < attempts ==> c.outcome(k) == ConnectFailed {
      AllFailedLeft(c, attempts);
    }
  }

  /**
   * The address loop of `_create_direct_connection`, observed for so many turns, whatever its
   * attempts come to: the k-th one ends as `outcome(k)` says. With an interleave count of None or at
   * least one it is over after as many attempts as there are addresses, and raises the last error
   * if all of them fail; with any other count failed attempts leave the list as it is, for ever.
   */
  method CreateDirectConnection(addrs: AddrList, interleave: Option<int>, outcome: nat -> Attempt,
                                parse: string -> string, turns: nat)
    returns (r: ConnectResult, attempts: nat)
    modifies addrs
    ensures Ends(Course(old(addrs.items), interleave, outcome, parse), turns, r, attempts, addrs.items)
    ensures PopCount(interleave) >= 1 ==> attempts <= |old(addrs.items)|
    ensures PopCount(interleave) >= 1 && turns >= |old(addrs.items)| ==> !r.Unfinished?
    ensures && PopCount(interleave) < 1 && old(addrs.items) != []
            && (forall k :: 0 <= k < turns ==> outcome(k) == ConnectFailed) ==>
              r.Unfinished? && addrs.items == old(addrs.items)
    ensures forall k :: 0 <= k < attempts - 1 ==> outcome(k) != Connected
    ensures !r.Connection? && attempts > 0 ==> outcome(attempts - 1) != Connected
    ensures !r.Connection? && (forall k :: 0 <= k < attempts ==> outcome(k) == ConnectFailed) ==>
              addrs.items == PoppedTimes(old(addrs.items), interleave, attempts)
  {
    ghost var c := Course(addrs.items, interleave, outcome, parse);
    r, attempts := AddressLoop(addrs, interleave, outcome, parse, turns);
    EndsFacts(c, turns, r, attempts, addrs.items);
  }

  method AddressLoop(addrs: AddrList, interleave: Option<int>, outcome: nat -> Attempt,
                     parse: string -> string, turns: nat)
    returns (r: ConnectResult, attempts: nat)
    modifies addrs
    ensures Ends(Course(old(addrs.items), interleave, outcome, parse), turns, r, attempts, addrs.items)
    ensures PopCount(interleave) >= 1 ==> attempts <= |old(addrs.items)|
    ensures PopCount(interleave) >= 1 && turns >= |old(addrs.items)| ==> !r.Unfinished?
  {
    ghost var c := Course(addrs.items, interleave, outcome, parse);
    attempts := 0;
    while addrs.items != [] && attempts < turns
      invariant attempts <= turns && (attempts == 0 ==> addrs.items == c.xs) && (attempts > 0 ==> c.xs != [])
      invariant PopCount(interleave) >= 1 ==> attempts + |addrs.items| <= |c.xs|
      invariant Left(c, attempts) == Some(addrs.items)
      decreases turns - attempts
    {
      var o := outcome(attempts);
      LeftNext(c, attempts);
      attempts := attempts + 1;
      if o == Connected {
        return Connection, attempts;
      }
      var ok := addrs.DropFailed(o, interleave, parse);
      if !ok {
        return UnknownPeer, attempts;
      }
    }
    LeftBefore(c, attempts);
    if addrs.items != [] {
      return Unfinished, attempts;
    }
    if attempts == 0 {
      return NoAddresses, attempts;
    }
    return LastError(outcome(attempts - 1)), attempts;
  }
}
