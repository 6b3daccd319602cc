/** The cookie jar as an object: two levels of dictionaries, a heap of expiry times and a cache of built morsels. */
module CookieJars {
  import opened Common
  import opened CookieSpec
  import opened CookieFilter
  import opened CookieMatch

  const MIN_SCHEDULED_COOKIE_EXPIRATION := 100

  type Index<V> = map<Pair, map<string, V>>

  type HeapEntry = (int, CookieKey)

  // ----- two levels of dictionaries -----

  predicate Holds<V>(m: Index<V>, k: CookieKey)
  {
    (k.domain, k.path) in m && k.name in m[(k.domain, k.path)]
  }

  function Stored<V>(m: Index<V>, k: CookieKey): V
    requires Holds(m, k)
  {
    m[(k.domain, k.path)][k.name]
  }

  function KeysIn<V>(m: Index<V>): (s: set<CookieKey>)
    ensures forall k :: k in s <==> Holds(m, k)
  {
    var s := set p, name | p in m && name in m[p] :: KeyAt(p, name);
    assert forall k :: Holds(m, k) ==> KeyAt((k.domain, k.path), k.name) in s;
    s
  }

  function Flat<V>(m: Index<V>): map<CookieKey, V>
  {
    map k | k in KeysIn(m) :: Stored(m, k)
  }

  /** Reading a missing first-level key of a `defaultdict`. */
  function Inner<V>(m: Index<V>, p: Pair): map<string, V>
  {
    if p in m then m[p] else map[]
  }

  function Put<V>(m: Index<V>, k: CookieKey, v: V): Index<V>
  {
    m[(k.domain, k.path) := Inner(m, (k.domain, k.path))[k.name := v]]
  }

  function Drop<V>(m: Index<V>, k: CookieKey): Index<V>
  {
    m[(k.domain, k.path) := Inner(m, (k.domain, k.path)) - {k.name}]
  }

  lemma FlatPut<V>(m: Index<V>, k: CookieKey, v: V)
    ensures Flat(Put(m, k, v)) == Flat(m)[k := v]
  {
    forall o
      ensures Holds(Put(m, k, v), o) <==> Holds(m, o) || o == k
      ensures Holds(Put(m, k, v), o) ==> Stored(Put(m, k, v), o) == if o == k then v else Stored(m, o)
    {
    }
  }

  lemma FlatDrop<V>(m: Index<V>, k: CookieKey)
    ensures Flat(Drop(m, k)) == Flat(m) - {k}
  {
    forall o
      ensures Holds(Drop(m, k), o) <==> Holds(m, o) && o != k
      ensures Holds(Drop(m, k), o) ==> Stored(Drop(m, k), o) == Stored(m, o)
    {
    }
  }

  /** What the flat table says about the names under one domain and path. */
  lemma FlatUnder<V>(m: Index<V>, p: Pair)
    ensures forall n :: KeyAt(p, n) in Flat(m) <==> n in Inner(m, p)
    ensures forall n :: n in Inner(m, p) ==> Flat(m)[KeyAt(p, n)] == Inner(m, p)[n]
  {
    forall n
      ensures Holds(m, KeyAt(p, n)) <==> n in Inner(m, p)
    {
    }
  }

  lemma PutSame<V>(m: Index<V>, k: CookieKey, v: V)
    requires Holds(m, k) && Stored(m, k) == v
    ensures Flat(m)[k := v] == Flat(m)
  {
  }

  // ----- the heap -----

  /** The place of an entry with the earliest time. */
  function LeastAt(h: seq<HeapEntry>): (i: nat)
    requires h != []
    ensures i < |h|
  {
    if |h| == 1 then 0
    else
      var i := LeastAt(h[1..]);
      if h[0].0 <= h[i + 1].0 then 0 else i + 1
  }

  lemma {:induction false} LeastIsLeast(h: seq<HeapEntry>)
    requires h != []
    ensures forall e :: e in h ==> h[LeastAt(h)].0 <= e.0
  {
    if |h| > 1 {
      LeastIsLeast(h[1..]);
    }
  }

  /** The entries that say what the expirations say. */
  function Current(h: seq<HeapEntry>, expirations: map<CookieKey, int>): seq<HeapEntry>
  {
    if h == [] then []
    else if h[0].1 in expirations && expirations[h[0].1] == h[0].0 then [h[0]] + Current(h[1..], expirations)
    else Current(h[1..], expirations)
  }

  lemma {:induction false} CurrentHas(h: seq<HeapEntry>, expirations: map<CookieKey, int>, e: HeapEntry)
    ensures e in Current(h, expirations) <==> e in h && e.1 in expirations && expirations[e.1] == e.0
  {
    if h != [] {
      CurrentHas(h[1..], expirations, e);
    }
  }

  /** Every recorded expiry has an entry in the heap. */
  ghost predicate Covers(h: seq<HeapEntry>, expirations: map<CookieKey, int>)
  {
    forall k :: k in expirations ==> (expirations[k], k) in h
  }

  /** Every recorded expiry still has its entry, or has been taken out for deletion. */
  ghost predicate CoversOrTaken(h: seq<HeapEntry>, expirations: map<CookieKey, int>, taken: seq<CookieKey>)
  {
    forall k :: k in expirations ==> (expirations[k], k) in h || k in taken
  }

  // ----- the cache -----

  /** Every cached morsel is the one that would be built from the stored cookie. */
  ghost predicate Coherent(cache: Index<Morsel>, cookies: Index<Cookie>, build: Cookie -> Morsel)
  {
    forall k :: Holds(cache, k) ==> Holds(cookies, k) && Stored(cache, k) == build(Stored(cookies, k))
  }

  lemma CoherentPut(cache: Index<Morsel>, cookies: Index<Cookie>, build: Cookie -> Morsel, k: CookieKey, c: Cookie)
    requires Coherent(cache, cookies, build)
    ensures Coherent(Drop(cache, k), Put(cookies, k, c), build)
  {
    forall o | Holds(Drop(cache, k), o)
      ensures Holds(Put(cookies, k, c), o) && Stored(Drop(cache, k), o) == build(Stored(Put(cookies, k, c), o))
    {
      assert o != k && Holds(cache, o) && Stored(Drop(cache, k), o) == Stored(cache, o);
      assert Stored(Put(cookies, k, c), o) == Stored(cookies, o);
    }
  }

  lemma CoherentDrop(cache: Index<Morsel>, cookies: Index<Cookie>, build: Cookie -> Morsel, k: CookieKey)
    requires Coherent(cache, cookies, build)
    ensures Coherent(Drop(cache, k), Drop(cookies, k), build)
  {
    forall o | Holds(Drop(cache, k), o)
      ensures Holds(Drop(cookies, k), o) && Stored(Drop(cache, k), o) == build(Stored(Drop(cookies, k), o))
    {
      assert o != k && Holds(cache, o) && Stored(Drop(cache, k), o) == Stored(cache, o);
      assert Stored(Drop(cookies, k), o) == Stored(cookies, o);
    }
  }

  lemma CoherentCache(cache: Index<Morsel>, cookies: Index<Cookie>, build: Cookie -> Morsel, k: CookieKey)
    requires Coherent(cache, cookies, build) && Holds(cookies, k)
    ensures Coherent(Put(cache, k, build(Stored(cookies, k))), cookies, build)
  {
    var v := build(Stored(cookies, k));
    forall o | Holds(Put(cache, k, v), o)
      ensures Holds(cookies, o) && Stored(Put(cache, k, v), o) == build(Stored(cookies, o))
    {
      assert o != k ==> Holds(cache, o) && Stored(Put(cache, k, v), o) == Stored(cache, o);
    }
  }

  // ----- the jar -----

  /** The cookies that `clear` deletes. */
  ghost function Doomed(j: Jar, drop: Cookie -> bool, now: int): set<CookieKey>
  {
    set k | k in j.cookies && IsDoomed(j, drop, now, k)
  }

  predicate IsDoomed(j: Jar, drop: Cookie -> bool, now: int, k: CookieKey)
    requires k in j.cookies
  {
    (k in j.expirations && j.expirations[k] <= now) || drop(j.cookies[k])
  }

  /** What `clear` with a predicate leaves: the cookies that it does not choose and that are not due. */
  lemma ClearLeaves(j: Jar, drop: Cookie -> bool, now: int, k: CookieKey)
    ensures var u := Delete(j, Doomed(j, drop, now));
            && (k in u.cookies <==>
                  k in j.cookies && !drop(j.cookies[k]) && (k in j.expirations ==> j.expirations[k] > now))
            && (k in u.cookies ==> u.cookies[k] == j.cookies[k])
  {
  }

  /** Giving a cookie its domain and path changes neither its expiry nor what is blanked. */
  lemma Placed(given: Cookie, o: Origin, cookie: Cookie, now: int, maxTime: int)
    requires cookie == given.(domain := DomainOf(given, o)).(path := PathOf(given, o))
    ensures Blanked(cookie) == StoredForm(given, o)
    ensures ExpiryOf(cookie, now, maxTime) == ExpiryOf(given, now, maxTime)
    ensures CookieKey(cookie.domain, StripSlash(cookie.path), given.name) == KeyOf(given.name, given, o)
  {
  }

  /** The names of a pair but for some have been dealt with. */
  ghost predicate AllBut(
      j: Jar, r: Request, build: Cookie -> Morsel, before: map<string, Morsel>, p: Pair, left: set<string>,
      f: map<string, Morsel>)
  {
    forall n :: Get(f, n) == if n in left then Get(before, n) else Entry(j, r, build, Get(before, n), p, n)
  }

  lemma AllLeft(j: Jar, r: Request, build: Cookie -> Morsel, before: map<string, Morsel>, p: Pair, names: set<string>)
    requires forall n :: KeyAt(p, n) in j.cookies ==> n in names
    ensures AllBut(j, r, build, before, p, names, before)
  {
  }

  lemma OneFewer(
      j: Jar, r: Request, build: Cookie -> Morsel, before: map<string, Morsel>, p: Pair, left: set<string>,
      name: string,
      f: map<string, Morsel>, g: map<string, Morsel>)
    requires AllBut(j, r, build, before, p, left, f) && name in left
    requires Get(g, name) == Entry(j, r, build, Get(f, name), p, name)
    requires forall n :: n != name ==> Get(g, n) == Get(f, n)
    ensures AllBut(j, r, build, before, p, left - {name}, g)
  {
  }

  /** The host-only flags after one cookie of an update. */
  function Flagged(hostOnly: set<Pair>, name: string, c: Cookie, o: Origin): set<Pair>
  {
    hostOnly + if NoDomain(c) && o.host.Some? then {(o.host.value, name)} else {}
  }

  lemma RefusedIs(j: Jar, name: string, c: Cookie, o: Origin, now: int, maxTime: int)
    requires Refused(c, o)
    ensures CookieSpec.UpdateOne(j, name, c, o, now, maxTime) == j.(hostOnly := Flagged(j.hostOnly, name, c, o))
  {
    assert j.hostOnly + {} == j.hostOnly;
  }

  lemma AcceptedIs(j: Jar, name: string, c: Cookie, o: Origin, now: int, maxTime: int, key: CookieKey)
    requires !Refused(c, o) && key == KeyOf(name, c, o)
    ensures CookieSpec.UpdateOne(j, name, c, o, now, maxTime)
         == Jar(j.cookies[key := StoredForm(c, o)], Flagged(j.hostOnly, name, c, o),
                Scheduled(j.expirations, key, ExpiryOf(c, now, maxTime)))
  {
    assert j.hostOnly + {} == j.hostOnly;
  }

  function Scheduled(expirations: map<CookieKey, int>, key: CookieKey, when: Option<int>): map<CookieKey, int>
  {
    if when.Some? then expirations[key := when.value] else expirations
  }

  lemma ListOneMore(j: Jar, drop: Cookie -> bool, now: int, toDel: seq<CookieKey>, rest: set<CookieKey>, k: CookieKey)
    requires k in j.cookies && k in rest && ToSet(toDel) == Doomed(j, drop, now) - rest
    ensures ToSet(if IsDoomed(j, drop, now, k) then toDel + [k] else toDel) == Doomed(j, drop, now) - (rest - {k})
  {
    if IsDoomed(j, drop, now, k) {
      assert ToSet(toDel + [k]) == ToSet(toDel) + {k};
    }
  }

  function ToSet(keys: seq<CookieKey>): set<CookieKey> { set k | k in keys }

  lemma OnlyName(k: CookieKey)
    ensures (set o | o in {k} :: (o.domain, o.name)) == {(k.domain, k.name)}
  {
    assert k in {k};
  }

  lemma DeleteOneMore(j: Jar, keys: seq<CookieKey>, i: nat)
    requires i < |keys|
    ensures Delete(Delete(j, ToSet(keys[..i])), {keys[i]}) == Delete(j, ToSet(keys[..i + 1]))
  {
    var some, all := ToSet(keys[..i]), ToSet(keys[..i + 1]);
    assert keys[..i + 1] == keys[..i] + [keys[i]];
    assert all == some + {keys[i]};
    OnlyName(keys[i]);
    assert (set o | o in all :: (o.domain, o.name))
        == (set o | o in some :: (o.domain, o.name)) + {(keys[i].domain, keys[i].name)};
  }

  lemma DropOneMore<V>(m: map<CookieKey, V>, keys: seq<CookieKey>, i: nat)
    requires i < |keys|
    ensures m - ToSet(keys[..i]) - {keys[i]} == m - ToSet(keys[..i + 1])
  {
    assert keys[..i + 1] == keys[..i] + [keys[i]];
    assert ToSet(keys[..i + 1]) == ToSet(keys[..i]) + {keys[i]};
  }

  lemma StillCovers(h: seq<HeapEntry>, j: Jar, taken: seq<CookieKey>)
    requires CoversOrTaken(h, j.expirations, taken)
    ensures Covers(h, Delete(j, ToSet(taken)).expirations)
  {
  }

  lemma DeleteNothing(j: Jar)
    ensures Delete(j, {}) == j
  {
  }

  class CookieJar {
    const build: Cookie -> Morsel
    const isUnsafe: bool
    const maxTime: int
    var cookies: Index<Cookie>
    var cache: Index<Morsel>
    var hostOnly: set<Pair>
    var heap: seq<HeapEntry>
    var expirations: map<CookieKey, int>

    /** The jar as one flat table. */
    ghost function State(): Jar
      reads this
    {
      Jar(Flat(cookies), hostOnly, expirations)
    }

    ghost predicate Valid()
      reads this
    {
      WellKept(State()) && Covers(heap, expirations) && Coherent(cache, cookies, build)
    }

    constructor (build: Cookie -> Morsel, isUnsafe: bool, maxTime: int)
      ensures Valid() && State() == Jar(map[], {}, map[])
      ensures this.build == build && this.isUnsafe == isUnsafe && this.maxTime == maxTime
    {
      this.build, this.isUnsafe, this.maxTime := build, isUnsafe, maxTime;
      cookies, cache, hostOnly, heap, expirations := map[], map[], {}, [], map[];
    }

    /** `_expire_cookie`: a pair that is recorded already is not pushed again. */
    method ExpireCookie(when: int, key: CookieKey)
      requires Covers(heap, expirations)
      modifies `heap, `expirations
      ensures Covers(heap, expirations) && expirations == old(expirations)[key := when]
      ensures heap == if key in old(expirations) && old(expirations)[key] == when then old(heap)
                      else old(heap) + [(when, key)]
    {
      if key in expirations && expirations[key] == when {
        return;
      }
      assert forall k :: k in expirations ==> (expirations[k], k) in heap + [(when, key)];
      heap := heap + [(when, key)];
      expirations := expirations[key := when];
    }

    /** One turn of the loop of `_delete_cookies`. */
    method DeleteOne(k: CookieKey)
      requires Coherent(cache, cookies, build)
      modifies `cookies, `cache, `hostOnly, `expirations
      ensures Coherent(cache, cookies, build) && State() == Delete(old(State()), {k})
      ensures Flat(cache) == Flat(old(cache)) - {k}
    {
      FlatDrop(cookies, k);
      FlatDrop(cache, k);
      CoherentDrop(cache, cookies, build, k);
      OnlyName(k);
      hostOnly := hostOnly - {(k.domain, k.name)};
      cookies := Drop(cookies, k);
      cache := Drop(cache, k);
      expirations := expirations - {k};
    }

    /** The loop of `_delete_cookies`. */
    method DeleteEach(toDel: seq<CookieKey>)
      requires Coherent(cache, cookies, build)
      modifies `cookies, `cache, `hostOnly, `expirations
      ensures Coherent(cache, cookies, build) && State() == Delete(old(State()), ToSet(toDel))
      ensures Flat(cache) == Flat(old(cache)) - ToSet(toDel)
    {
      ghost var before := State();
      ghost var morsels := Flat(cache);
      var i := 0;
      DeleteNothing(before);
      while i < |toDel|
        invariant i <= |toDel| && Coherent(cache, cookies, build)
        invariant State() == Delete(before, ToSet(toDel[..i]))
        invariant Flat(cache) == morsels - ToSet(toDel[..i])
      {
        DeleteOneMore(before, toDel, i);
        DropOneMore(morsels, toDel, i);
        DeleteOne(toDel[i]);
        i := i + 1;
      }
      assert toDel[..i] == toDel;
    }

    /** `_delete_cookies`. */
    method DeleteCookies(toDel: seq<CookieKey>)
      requires WellKept(State()) && Coherent(cache, cookies, build)
      requires CoversOrTaken(heap, expirations, toDel)
      modifies `cookies, `cache, `hostOnly, `expirations
      ensures Valid() && State() == Delete(old(State()), ToSet(toDel))
      ensures Flat(cache) == Flat(old(cache)) - ToSet(toDel)
    {
      DeleteKeeps(State(), ToSet(toDel));
      StillCovers(heap, State(), toDel);
      DeleteEach(toDel);
    }

    /** The loop of `_do_expiration` that takes the entries that are due out of the heap. */
    method TakeDue(now: int) returns (toDel: seq<CookieKey>)
      requires Covers(heap, expirations)
      modifies `heap
      ensures CoversOrTaken(heap, expirations, toDel)
      ensures ToSet(toDel) == Due(State(), now)
    {
      toDel := [];
      while heap != []
        invariant CoversOrTaken(heap, expirations, toDel)
        invariant forall k :: k in toDel ==> k in Due(State(), now)
        decreases |heap|
      {
        var i := LeastAt(heap);
        var (when, key) := heap[i];
        if when > now {
          LeastIsLeast(heap);
          break;
        }
        ghost var was := heap;
        heap := heap[..i] + heap[i + 1..];
        assert forall e :: e in was ==> e in heap || e == (when, key);
        if key in expirations && expirations[key] == when {
          toDel := toDel + [key];
        }
      }
    }

    /** `_do_expiration` deletes what a sweep over all recorded expiry times would. */
    method DoExpiration(now: int)
      requires Valid()
      modifies `cookies, `cache, `hostOnly, `heap, `expirations
      ensures Valid() && State() == Sweep(old(State()), now)
    {
      DeleteNothing(State());
      if |heap| == 0 {
        assert Due(State(), now) == {};
        return;
      }
      if |heap| > MIN_SCHEDULED_COOKIE_EXPIRATION && |heap| > |expirations| * 2 {
        forall e
          ensures e in Current(heap, expirations) <==> e in heap && e.1 in expirations && expirations[e.1] == e.0
        {
          CurrentHas(heap, expirations, e);
        }
        heap := Current(heap, expirations);
      }
      var toDel := TakeDue(now);
      if |toDel| > 0 {
        DeleteCookies(toDel);
      } else {
        assert Due(State(), now) == {};
      }
    }

    /** The list of keys that `clear` builds. */
    method ListDoomed(drop: Cookie -> bool, now: int) returns (toDel: seq<CookieKey>)
      requires Valid()
      ensures ToSet(toDel) == Doomed(State(), drop, now)
    {
      ghost var j := State();
      toDel := [];
      var rest := KeysIn(cookies);
      while rest != {}
        invariant rest <= KeysIn(cookies)
        invariant ToSet(toDel) == Doomed(j, drop, now) - rest
        decreases |rest|
      {
        var k :| k in rest;
        assert j.cookies[k] == Stored(cookies, k);
        ListOneMore(j, drop, now, toDel, rest, k);
        if (k in expirations && expirations[k] <= now) || drop(Stored(cookies, k)) {
          toDel := toDel + [k];
        }
        rest := rest - {k};
      }
    }

    /** `clear`. */
    method Clear(drop: Option<Cookie -> bool>, now: int)
      requires Valid()
      modifies `cookies, `cache, `hostOnly, `heap, `expirations
      ensures Valid()
      ensures drop.None? ==> State() == Jar(map[], {}, map[])
      ensures drop.Some? ==> State() == Delete(old(State()), Doomed(old(State()), drop.value, now))
    {
      if drop.None? {
        heap, cookies, cache, hostOnly, expirations := [], map[], map[], {}, map[];
        return;
      }
      var toDel := ListDoomed(drop.value, now);
      if |toDel| > 0 {
        DeleteCookies(toDel);
      } else {
        DeleteNothing(State());
      }
    }

    /** The expiry of a cookie that is being stored; attributes that cannot be used are blanked. */
    method Schedule(given: Cookie, key: CookieKey, now: int) returns (cookie: Cookie)
      requires Covers(heap, expirations)
      modifies `heap, `expirations
      ensures Covers(heap, expirations) && cookie == Blanked(given)
      ensures expirations == Scheduled(old(expirations), key, ExpiryOf(given, now, maxTime))
    {
      cookie := given;
      match cookie.maxAge {
        case Seconds(n) =>
          ExpireCookie(Min(now + n, maxTime), key);
        case BadMaxAge =>
          cookie := cookie.(maxAge := NoMaxAge);
        case NoMaxAge =>
          if cookie.expires.At? && cookie.expires.time != 0 {
            ExpireCookie(cookie.expires.time, key);
          } else {
            cookie := cookie.(expires := NoExpires);
          }
      }
    }

    /** A cookie that is set again unchanged leaves the cache alone. */
    method Store(key: CookieKey, cookie: Cookie)
      requires Coherent(cache, cookies, build)
      modifies `cookies, `cache
      ensures Coherent(cache, cookies, build) && Flat(cookies) == old(Flat(cookies))[key := cookie]
      ensures cache == if Holds(old(cookies), key) && Stored(old(cookies), key) == cookie then old(cache)
                       else Drop(old(cache), key)
    {
      if !(Holds(cookies, key) && Stored(cookies, key) == cookie) {
        FlatPut(cookies, key, cookie);
        CoherentPut(cache, cookies, build, key, cookie);
        cookies := Put(cookies, key, cookie);
        cache := Drop(cache, key);
      } else {
        PutSame(cookies, key, cookie);
      }
    }

    /** A cookie that has its domain and path is scheduled and stored. */
    method StoreAt(key: CookieKey, given: Cookie, now: int)
      requires Coherent(cache, cookies, build) && Covers(heap, expirations)
      modifies `cookies, `cache, `heap, `expirations
      ensures Coherent(cache, cookies, build) && Covers(heap, expirations)
      ensures expirations == Scheduled(old(expirations), key, ExpiryOf(given, now, maxTime))
      ensures Flat(cookies) == old(Flat(cookies))[key := Blanked(given)]
    {
      var cookie := Schedule(given, key, now);
      Store(key, cookie);
    }

    /** The domain under which a cookie is stored; one that names none is sent back to its host only. */
    method TakeDomain(given: Cookie, o: Origin) returns (cookie: Cookie)
      modifies `hostOnly
      ensures cookie == given.(domain := DomainOf(given, o))
      ensures hostOnly == Flagged(old(hostOnly), given.name, given, o)
    {
      cookie := given;
      var domain := cookie.domain;
      if domain != "" && domain[|domain| - 1] == '.' {
        domain := "";
        cookie := cookie.(domain := "");
      }
      if domain == "" && o.host.Some? {
        hostOnly := hostOnly + {(o.host.value, cookie.name)};
        domain := o.host.value;
        cookie := cookie.(domain := domain);
      }
      if domain != "" && domain[0] == '.' {
        domain := domain[1..];
        cookie := cookie.(domain := domain);
      }
    }

    /** The path a cookie is stored with. */
    method TakePath(given: Cookie, o: Origin) returns (cookie: Cookie)
      ensures cookie == given.(path := PathOf(given, o))
    {
      cookie := given;
      if cookie.path == "" || cookie.path[0] != '/' {
        cookie := cookie.(path := DefaultPath(o.path));
      }
    }

    /** The body of the loop of `update_cookies`. */
    method TakeCookie(name: string, given: Cookie, o: Origin, now: int)
      requires Coherent(cache, cookies, build) && Covers(heap, expirations) && given.name == name
      modifies `cookies, `cache, `hostOnly, `heap, `expirations
      ensures Coherent(cache, cookies, build) && Covers(heap, expirations)
      ensures hostOnly == Flagged(old(hostOnly), name, given, o)
      ensures Refused(given, o) ==> cookies == old(cookies) && expirations == old(expirations)
      ensures !Refused(given, o) ==>
                && Flat(cookies) == old(Flat(cookies))[KeyOf(name, given, o) := StoredForm(given, o)]
                && expirations == Scheduled(old(expirations), KeyOf(name, given, o), ExpiryOf(given, now, maxTime))
    {
      var cookie := TakeDomain(given, o);
      if Foreign(cookie.domain, o) {
        return;
      }
      cookie := TakePath(cookie, o);
      var key := CookieKey(cookie.domain, StripSlash(cookie.path), name);
      Placed(given, o, cookie, now, maxTime);
      StoreAt(key, cookie, now);
    }

    /** One cookie of `update_cookies`. */
    method UpdateOne(name: string, given: Cookie, o: Origin, now: int)
      requires Coherent(cache, cookies, build) && Covers(heap, expirations) && given.name == name
      modifies `cookies, `cache, `hostOnly, `heap, `expirations
      ensures Coherent(cache, cookies, build) && Covers(heap, expirations)
      ensures State() == CookieSpec.UpdateOne(old(State()), name, given, o, now, maxTime)
    {
      if Refused(given, o) {
        RefusedIs(State(), name, given, o, now, maxTime);
      } else {
        AcceptedIs(State(), name, given, o, now, maxTime, KeyOf(name, given, o));
      }
      TakeCookie(name, given, o, now);
    }

    /** `update_cookies`. */
    method UpdateCookies(list: seq<(string, Cookie)>, o: Origin, now: int)
      requires Valid() && NamesFit(list)
      modifies `cookies, `cache, `hostOnly, `heap, `expirations
      ensures Valid() && State() == Update(old(State()), list, o, isUnsafe, now, maxTime)
    {
      if !isUnsafe && o.isIp {
        return;
      }
      ghost var goal := UpdateMany(State(), list, o, now, maxTime);
      var i := 0;
      while i < |list|
        invariant i <= |list| && Valid()
        invariant UpdateMany(State(), list[i..], o, now, maxTime) == goal
      {
        assert list[i].1.name == list[i].0;
        assert list[i..][1..] == list[i + 1..];
        UpdateOneKeeps(State(), list[i].0, list[i].1, o, now, maxTime);
        UpdateOne(list[i].0, list[i].1, o, now);
        i := i + 1;
      }
      DoExpiration(now);
    }

    /** The morsel of a stored cookie: from the cache, or built and put there. */
    method CachedMorsel(key: CookieKey) returns (m: Morsel)
      requires Coherent(cache, cookies, build) && Holds(cookies, key)
      modifies `cache
      ensures Coherent(cache, cookies, build) && m == build(Stored(cookies, key))
    {
      if Holds(cache, key) {
        return Stored(cache, key);
      }
      CoherentCache(cache, cookies, build, key);
      m := build(Stored(cookies, key));
      cache := Put(cache, key, m);
    }

    method AddShared() returns (filtered: map<string, Morsel>)
      requires Coherent(cache, cookies, build)
      modifies `cache
      ensures Coherent(cache, cookies, build)
      ensures forall n :: Get(filtered, n) == SharedEntry(State(), build, n)
    {
      filtered := map[];
      var p := ("", "");
      var names := Inner(cookies, p).Keys;
      while names != {}
        invariant names <= Inner(cookies, p).Keys && Coherent(cache, cookies, build)
        invariant filtered.Keys == Inner(cookies, p).Keys - names
        invariant forall n :: n in filtered ==> filtered[n] == build(Inner(cookies, p)[n])
        decreases |names|
      {
        var name :| name in names;
        var m := CachedMorsel(KeyAt(p, name));
        filtered := filtered[name := m];
        names := names - {name};
      }
      FlatUnder(cookies, p);
    }

    method MayBeSent(r: Request, name: string, cookie: Cookie) returns (send: bool)
      ensures send <==> Passes(State(), r, name, cookie)
    {
      if (cookie.domain, name) in hostOnly && cookie.domain != r.host {
        return false;
      }
      if |cookie.path| > |r.path| {
        return false;
      }
      if r.notSecure && cookie.secure {
        return false;
      }
      return true;
    }

    method AddName(
        r: Request, before: map<string, Morsel>, p: Pair, name: string) returns (filtered: map<string, Morsel>)
      requires Coherent(cache, cookies, build) && Holds(cookies, KeyAt(p, name))
      modifies `cache
      ensures Coherent(cache, cookies, build)
      ensures Get(filtered, name) == Entry(State(), r, build, Get(before, name), p, name)
      ensures forall n :: n != name ==> Get(filtered, n) == Get(before, n)
    {
      filtered := before;
      var send := MayBeSent(r, name, Stored(cookies, KeyAt(p, name)));
      if send {
        var m := CachedMorsel(KeyAt(p, name));
        filtered := filtered[name := m];
      }
    }

    /** The cookies of one pair. */
    method AddMatching(r: Request, before: map<string, Morsel>, p: Pair) returns (filtered: map<string, Morsel>)
      requires Coherent(cache, cookies, build) && p in cookies
      modifies `cache
      ensures Coherent(cache, cookies, build)
      ensures forall n :: Get(filtered, n) == Entry(State(), r, build, Get(before, n), p, n)
    {
      ghost var j := State();
      filtered := before;
      var names := cookies[p].Keys;
      FlatUnder(cookies, p);
      AllLeft(j, r, build, before, p, names);
      while names != {}
        invariant names <= cookies[p].Keys && Coherent(cache, cookies, build)
        invariant AllBut(j, r, build, before, p, names, filtered)
        decreases |names|
      {
        var name :| name in names;
        ghost var was := filtered;
        filtered := AddName(r, filtered, p, name);
        OneFewer(j, r, build, before, p, names, name, was, filtered);
        names := names - {name};
      }
    }

    /** The cookies of all pairs. */
    method AddAllMatching(
        r: Request, before: map<string, Morsel>, pairs: seq<Pair>) returns (filtered: map<string, Morsel>)
      requires Coherent(cache, cookies, build)
      modifies `cache
      ensures Coherent(cache, cookies, build)
      ensures forall n :: Get(filtered, n) == Entries(State(), r, build, Get(before, n), pairs, n)
    {
      ghost var j := State();
      filtered := before;
      var i := 0;
      while i < |pairs|
        invariant i <= |pairs| && Coherent(cache, cookies, build)
        invariant forall n :: Entries(j, r, build, Get(filtered, n), pairs[i..], n)
                           == Entries(j, r, build, Get(before, n), pairs, n)
      {
        assert pairs[i..][1..] == pairs[i + 1..];
        if pairs[i] in cookies {
          filtered := AddMatching(r, filtered, pairs[i]);
        }
        i := i + 1;
      }
    }

    /** `filter_cookies` once nothing is expired. */
    method FilterFresh(r: Request) returns (filtered: map<string, Morsel>)
      requires Coherent(cache, cookies, build)
      modifies `cache
      ensures Coherent(cache, cookies, build)
      ensures forall n :: Get(filtered, n) == Sent(State(), r, isUnsafe, build, n)
    {
      filtered := AddShared();
      if r.isIp && !isUnsafe {
        return;
      }
      var pairs := Product(LookupDomains(r), Paths(r.path));
      filtered := AddAllMatching(r, filtered, pairs);
    }

    /** `filter_cookies`, with the cache, gives what filtering without a cache would. */
    method FilterCookies(r: Request, now: int) returns (filtered: map<string, Morsel>)
      requires Valid()
      modifies `cookies, `cache, `hostOnly, `heap, `expirations
      ensures Valid() && State() == Sweep(old(State()), now)
      ensures forall n :: Get(filtered, n) == Sent(State(), r, isUnsafe, build, n)
    {
      filtered := map[];
      if cookies == map[] {
        NothingSent(State(), r, isUnsafe, build);
        NothingToSweep(State(), now);
        return;
      }
      DoExpiration(now);
      if cookies == map[] {
        NothingSent(State(), r, isUnsafe, build);
        return;
      }
      filtered := FilterFresh(r);
    }
  }

  lemma NothingToSweep(j: Jar, now: int)
    requires WellKept(j) && j.cookies == map[]
    ensures Sweep(j, now) == j
  {
    assert Due(j, now) == {};
    DeleteNothing(j);
  }

  lemma {:induction false} NoEntries(j: Jar, r: Request, build: Cookie -> Morsel, ps: seq<Pair>, name: string)
    requires j.cookies == map[]
    ensures Entries(j, r, build, None, ps, name) == None
    decreases |ps|
  {
    if ps != [] {
      NoEntries(j, r, build, ps[1..], name);
    }
  }

  /** A jar without cookies sends none. */
  lemma NothingSent(j: Jar, r: Request, isUnsafe: bool, build: Cookie -> Morsel)
    requires j.cookies == map[]
    ensures forall n :: Sent(j, r, isUnsafe, build, n) == None
  {
    forall n
      ensures Sent(j, r, isUnsafe, build, n) == None
    {
      NoEntries(j, r, build, Product(LookupDomains(r), Paths(r.path)), n);
    }
  }
}
