/** Which cookies of a jar a request is sent: the indexed lookup, and the linear scan it stands for. */
module CookieFilter {
  import opened Common
  import opened CookieMatch
  import opened CookieSpec

  type Pair = (string, string)

  datatype Request = Request(host: string, isIp: bool, path: string, notSecure: bool)

  function KeyAt(p: Pair, name: string): CookieKey { CookieKey(p.0, p.1, name) }

  /** The host-only and the secure flag let a cookie be sent. */
  predicate Allowed(j: Jar, r: Request, name: string, c: Cookie)
  {
    !((c.domain, name) in j.hostOnly && c.domain != r.host) && !(r.notSecure && c.secure)
  }

  predicate Passes(j: Jar, r: Request, name: string, c: Cookie)
  {
    Allowed(j, r, name, c) && |c.path| <= |r.path|
  }

  predicate Chosen(j: Jar, r: Request, p: Pair, name: string)
  {
    KeyAt(p, name) in j.cookies && Passes(j, r, name, j.cookies[KeyAt(p, name)])
  }

  function Get<V>(f: map<string, V>, name: string): Option<V>
  {
    if name in f then Some(f[name]) else None
  }

  /** A cookie stored without domain and path goes to every request. */
  function SharedEntry(j: Jar, build: Cookie -> Morsel, name: string): Option<Morsel>
  {
    var k := KeyAt(("", ""), name);
    if k in j.cookies then Some(build(j.cookies[k])) else None
  }

  /** What one pair makes of the entry of a name. */
  function Entry(
      j: Jar, r: Request, build: Cookie -> Morsel, was: Option<Morsel>, p: Pair, name: string): Option<Morsel>
  {
    if Chosen(j, r, p, name) then Some(build(j.cookies[KeyAt(p, name)])) else was
  }

  /** Later pairs override earlier ones. */
  function Entries(
      j: Jar, r: Request, build: Cookie -> Morsel, was: Option<Morsel>, ps: seq<Pair>, name: string): Option<Morsel>
    decreases |ps|
  {
    if ps == [] then was else Entries(j, r, build, Entry(j, r, build, was, ps[0], name), ps[1..], name)
  }

  function WithPaths(d: string, paths: seq<string>): (r: seq<Pair>)
    ensures |r| == |paths|
    ensures forall i :: 0 <= i < |r| ==> r[i] == (d, paths[i])
  {
    seq(|paths|, i requires 0 <= i < |paths| => (d, paths[i]))
  }

  /** `itertools.product`. */
  function Product(ds: seq<string>, paths: seq<string>): seq<Pair>
  {
    if ds == [] then [] else WithPaths(ds[0], paths) + Product(ds[1..], paths)
  }

  function LookupDomains(r: Request): seq<string>
  {
    if r.isIp then [r.host] else Domains(r.host)
  }

  /** The morsel a request is sent under a name by `filter_cookies`, on a jar without expired cookies. */
  function Sent(j: Jar, r: Request, isUnsafe: bool, build: Cookie -> Morsel, name: string): Option<Morsel>
  {
    var shared := SharedEntry(j, build, name);
    if r.isIp && !isUnsafe then shared
    else Entries(j, r, build, shared, Product(LookupDomains(r), Paths(r.path)), name)
  }

  // ----- the order of the pairs -----

  predicate Before(a: Pair, b: Pair)
  {
    |a.0| < |b.0| || (a.0 == b.0 && |a.1| < |b.1|)
  }

  ghost predicate Ordered(ps: seq<Pair>)
  {
    forall i, k :: 0 <= i < k < |ps| ==> Before(ps[i], ps[k])
  }

  lemma {:induction false} ProductHas(ds: seq<string>, paths: seq<string>, p: Pair)
    ensures p in Product(ds, paths) <==> p.0 in ds && p.1 in paths
  {
    if ds != [] {
      ProductHas(ds[1..], paths, p);
      var first := WithPaths(ds[0], paths);
      assert p in first <==> p.0 == ds[0] && p.1 in paths by {
        if p.0 == ds[0] && p.1 in paths {
          var i :| 0 <= i < |paths| && paths[i] == p.1;
          assert first[i] == p;
        }
      }
    }
  }

  lemma {:induction false} ProductOrdered(ds: seq<string>, paths: seq<string>)
    requires GrowingFrom(ds, 0) && GrowingFrom(paths, 0)
    ensures Ordered(Product(ds, paths))
  {
    if ds != [] {
      var first, rest := WithPaths(ds[0], paths), Product(ds[1..], paths);
      ProductOrdered(ds[1..], paths);
      forall i | 0 <= i < |rest|
        ensures |ds[0]| < |rest[i].0|
      {
        ProductHas(ds[1..], paths, rest[i]);
        var m :| 0 <= m < |ds[1..]| && ds[1..][m] == rest[i].0;
        assert |ds[0]| < |ds[m + 1]|;
      }
    }
  }

  /** The entry of a name is made by the last pair that has it. */
  lemma {:induction false} LastPairWins(
      j: Jar, r: Request, build: Cookie -> Morsel, was: Option<Morsel>, ps: seq<Pair>, name: string)
    returns (i: int)
    ensures -1 <= i < |ps|
    ensures forall m :: i < m < |ps| ==> !Chosen(j, r, ps[m], name)
    ensures i >= 0 ==> Chosen(j, r, ps[i], name)
    ensures Entries(j, r, build, was, ps, name) == if i >= 0 then Some(build(j.cookies[KeyAt(ps[i], name)])) else was
    decreases |ps|
  {
    i := -1;
    if ps != [] {
      var below := LastPairWins(j, r, build, Entry(j, r, build, was, ps[0], name), ps[1..], name);
      assert forall m :: 1 <= m < |ps| ==> ps[m] == ps[1..][m - 1];
      i := if below >= 0 then below + 1 else if Chosen(j, r, ps[0], name) then 0 else -1;
    }
  }

  // ----- the linear scan -----

  /**
   * A stored cookie the request is to be sent, by the rules of sections 5.1.3, 5.1.4 and 5.4 of
   * RFC 6265: domain and path match, a secure cookie wants a secure request, and a host-only one its
   * own host.
   */
  predicate Eligible(j: Jar, r: Request, k: CookieKey)
  {
    k in j.cookies &&
    var c := j.cookies[k];
    && DomainMatch(c.domain, r.host, r.isIp)
    && PathMatch(r.path, c.path)
    && (c.secure ==> !r.notSecure)
    && ((c.domain, k.name) in j.hostOnly ==> r.host == c.domain)
  }

  /** The eligible cookie of a name with the longest domain and then the longest path. */
  ghost predicate Best(j: Jar, r: Request, name: string, k: CookieKey)
  {
    && Eligible(j, r, k) && k.name == name
    && forall o :: Eligible(j, r, o) && o.name == name && o != k ==> Before((o.domain, o.path), (k.domain, k.path))
  }

  ghost predicate OneSlashAtMost(j: Jar)
  {
    forall k :: k in j.cookies ==> |j.cookies[k].path| <= |StripSlash(j.cookies[k].path)| + 1
  }

  predicate PlainHost(host: string)
  {
    host == "" || host[|host| - 1] != '.'
  }

  /** The suffixes looked up for a host are its matching domains if and only if it has no trailing dot. */
  lemma DomainLookupIsMatch(host: string)
    ensures (forall d :: d in Domains(host) <==> DomainMatch(d, host, false)) <==> PlainHost(host)
  {
    if PlainHost(host) {
      forall d
        ensures d in Domains(host) <==> DomainMatch(d, host, false)
      {
        if host == "" {
          DomainsAreCuts(host, d);
        } else {
          DomainLookup(d, host);
        }
      }
    } else {
      DomainsAreCuts(host, "");
      assert "" in Domains(host) && !DomainMatch("", host, false);
    }
  }

  /** Being found under one of the pairs is being eligible. */
  lemma FoundIsEligible(j: Jar, r: Request, p: Pair, name: string)
    requires WellKept(j) && OneSlashAtMost(j) && PlainHost(r.host)
    ensures p in Product(LookupDomains(r), Paths(r.path)) && Chosen(j, r, p, name) <==> Eligible(j, r, KeyAt(p, name))
  {
    ProductHas(LookupDomains(r), Paths(r.path), p);
    var k := KeyAt(p, name);
    if k in j.cookies {
      var c := j.cookies[k];
      assert Agrees(k, c);
      DomainLookupIsMatch(r.host);
      assert p.0 in LookupDomains(r) <==> DomainMatch(c.domain, r.host, r.isIp);
      OneSlashLookup(r.path, c.path);
    }
  }

  lemma PairsOrdered(r: Request)
    ensures Ordered(Product(LookupDomains(r), Paths(r.path)))
  {
    DomainsGrow(r.host);
    PathsGrow(r.path);
    ProductOrdered(LookupDomains(r), Paths(r.path));
  }

  /** The place of an eligible cookie's pair. */
  lemma PlaceOf(j: Jar, r: Request, ps: seq<Pair>, k: CookieKey) returns (m: nat)
    requires WellKept(j) && OneSlashAtMost(j) && PlainHost(r.host) && Eligible(j, r, k)
    requires ps == Product(LookupDomains(r), Paths(r.path))
    ensures m < |ps| && ps[m] == (k.domain, k.path) && Chosen(j, r, ps[m], k.name)
  {
    FoundIsEligible(j, r, (k.domain, k.path), k.name);
    m :| 0 <= m < |ps| && ps[m] == (k.domain, k.path);
  }

  /** The last pair that holds an eligible cookie holds the best one. */
  lemma LastIsBest(j: Jar, r: Request, ps: seq<Pair>, i: nat, name: string)
    requires WellKept(j) && OneSlashAtMost(j) && PlainHost(r.host)
    requires ps == Product(LookupDomains(r), Paths(r.path)) && i < |ps|
    requires Chosen(j, r, ps[i], name) && forall m :: i < m < |ps| ==> !Chosen(j, r, ps[m], name)
    ensures Best(j, r, name, KeyAt(ps[i], name))
  {
    FoundIsEligible(j, r, ps[i], name);
    PairsOrdered(r);
    forall o | Eligible(j, r, o) && o.name == name && o != KeyAt(ps[i], name)
      ensures Before((o.domain, o.path), ps[i])
    {
      var m := PlaceOf(j, r, ps, o);
      assert m < i;
    }
  }

  /**
   * The indexed lookup sends what a linear scan over all cookies would: under each name the best
   * eligible cookie, or the shared one if no cookie of that name is eligible, and nothing else.
   */
  lemma FilterIsLinearScan(j: Jar, r: Request, isUnsafe: bool, build: Cookie -> Morsel, name: string)
    returns (best: Option<CookieKey>)
    requires WellKept(j) && OneSlashAtMost(j) && PlainHost(r.host)
    requires r.isIp ==> isUnsafe
    ensures match best
            case Some(k) => Best(j, r, name, k) && Sent(j, r, isUnsafe, build, name) == Some(build(j.cookies[k]))
            case None =>
              && (forall k :: Eligible(j, r, k) ==> k.name != name)
              && var shared := CookieKey("", "", name);
                 Sent(j, r, isUnsafe, build, name)
                 == if shared in j.cookies then Some(build(j.cookies[shared])) else None
  {
    var ps := Product(LookupDomains(r), Paths(r.path));
    var i := LastPairWins(j, r, build, SharedEntry(j, build, name), ps, name);
    if i >= 0 {
      LastIsBest(j, r, ps, i, name);
      best := Some(KeyAt(ps[i], name));
    } else {
      best := None;
      forall k | Eligible(j, r, k)
        ensures k.name != name
      {
        var m := PlaceOf(j, r, ps, k);
      }
    }
  }

  /** An address as host is sent the shared cookies alone, unless that is allowed. */
  lemma AddressGetsShared(j: Jar, r: Request, build: Cookie -> Morsel, name: string)
    requires r.isIp
    ensures var shared := CookieKey("", "", name);
            Sent(j, r, false, build, name) == if shared in j.cookies then Some(build(j.cookies[shared])) else None
  {
  }
}
