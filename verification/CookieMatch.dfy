/** Domain and path matching of cookies, and the suffixes and prefixes by which the jar looks them up. */
module CookieMatch {
  import opened Common

  predicate EndsWith(s: string, t: string)
  {
    |t| <= |s| && s[|s| - |t|..] == t
  }

  /** The first place of a character, or the length. */
  function IndexOf(s: string, c: char): (i: nat)
    ensures i <= |s| && c !in s[..i] && (i < |s| ==> s[i] == c)
  {
    if s == [] || s[0] == c then 0
    else
      var i := 1 + IndexOf(s[1..], c);
      assert s[..i] == [s[0]] + s[1..][..i - 1];
      i
  }

  /** `s.split(c)`. */
  function Split(s: string, c: char): (ps: seq<string>)
    ensures ps != []
    decreases |s|
  {
    var i := IndexOf(s, c);
    if i == |s| then [s] else [s[..i]] + Split(s[i + 1..], c)
  }

  function Reverse<T>(s: seq<T>): (r: seq<T>)
    ensures |r| == |s|
  {
    if s == [] then [] else Reverse(s[1..]) + [s[0]]
  }

  /** `accumulate(pieces, "{}/{}".format)` behind a first result. */
  function PathsFrom(acc: string, pieces: seq<string>): seq<string>
    decreases |pieces|
  {
    if pieces == [] then [acc] else [acc] + PathsFrom(acc + "/" + pieces[0], pieces[1..])
  }

  /** The path prefixes under which cookies for a request path are looked up. */
  function Paths(path: string): seq<string>
  {
    var ps := Split(path, '/');
    PathsFrom(ps[0], ps[1..])
  }

  /** `accumulate(pieces, "{1}.{0}".format)` behind a first result. */
  function DomainsFrom(acc: string, pieces: seq<string>): seq<string>
    decreases |pieces|
  {
    if pieces == [] then [acc] else [acc] + DomainsFrom(pieces[0] + "." + acc, pieces[1..])
  }

  /** The domain suffixes under which cookies for a host are looked up. */
  function Domains(host: string): seq<string>
  {
    var ps := Reverse(Split(host, '.'));
    DomainsFrom(ps[0], ps[1..])
  }

  // ----- prefixes of a path -----

  /** `k` is cut off `path` in front of a slash or at the end. */
  predicate IsPathCut(path: string, k: string)
  {
    k <= path && (|k| == |path| || path[|k|] == '/')
  }

  predicate GrowingFrom(xs: seq<string>, n: nat)
  {
    && (forall i :: 0 <= i < |xs| ==> |xs[i]| >= n)
    && (forall i, j :: 0 <= i < j < |xs| ==> |xs[i]| < |xs[j]|)
  }

  lemma GrowingCons(x: string, xs: seq<string>)
    requires GrowingFrom(xs, |x| + 1)
    ensures GrowingFrom([x] + xs, |x|)
  {
  }

  lemma {:induction false} PathsFromAreCuts(acc: string, rest: string, k: string)
    ensures k in PathsFrom(acc, Split(rest, '/')) <==> |acc| <= |k| && IsPathCut(acc + "/" + rest, k)
    decreases |rest|
  {
    var i := IndexOf(rest, '/');
    var piece, whole := rest[..i], acc + "/" + rest;
    var next := acc + "/" + piece;
    var ps := Split(rest, '/');
    assert ps[0] == piece;
    assert PathsFrom(acc, ps) == [acc] + PathsFrom(next, ps[1..]);
    CutsUpTo(acc, rest, i, k);
    if i == |rest| {
      assert ps[1..] == [] && next == whole;
      assert PathsFrom(acc, ps) == [acc, whole];
      assert k <= whole && |k| >= |whole| ==> k == whole;
    } else {
      assert ps[1..] == Split(rest[i + 1..], '/');
      assert whole == next + "/" + rest[i + 1..];
      PathsFromAreCuts(next, rest[i + 1..], k);
    }
  }

  /** Between one slash and the next one there is no place to cut. */
  lemma CutsUpTo(acc: string, rest: string, i: nat, k: string)
    requires i <= |rest| && '/' !in rest[..i]
    ensures var whole := acc + "/" + rest;
            |acc| <= |k| && IsPathCut(whole, k) ==> k == acc || |k| >= |acc| + 1 + i
    ensures IsPathCut(acc + "/" + rest, acc)
  {
    var whole := acc + "/" + rest;
    assert acc <= whole && whole[|acc|] == '/';
    forall m | |acc| < m < |acc| + 1 + i
      ensures whole[m] != '/'
    {
      assert whole[m] == rest[..i][m - |acc| - 1];
    }
    if |acc| <= |k| && IsPathCut(whole, k) {
      assert k == whole[..|k|] && acc == whole[..|acc|];
    }
  }

  lemma {:induction false} PathsFromGrow(acc: string, pieces: seq<string>)
    ensures GrowingFrom(PathsFrom(acc, pieces), |acc|)
    decreases |pieces|
  {
    if pieces != [] {
      PathsFromGrow(acc + "/" + pieces[0], pieces[1..]);
      GrowingCons(acc, PathsFrom(acc + "/" + pieces[0], pieces[1..]));
    }
  }

  lemma CutAtFirst(s: string, c: char)
    ensures var i := IndexOf(s, c);
            && (forall m :: 0 <= m < i ==> s[m] != c)
            && (i < |s| ==> s == s[..i] + [c] + s[i + 1..])
  {
    var i := IndexOf(s, c);
    forall m | 0 <= m < i
      ensures s[m] != c
    {
      assert s[m] == s[..i][m];
    }
  }

  lemma PathsWithSlash(acc: string, rest: string, k: string)
    requires forall m :: 0 <= m < |acc| ==> acc[m] != '/'
    ensures k in PathsFrom(acc, Split(rest, '/')) <==> IsPathCut(acc + "/" + rest, k)
  {
    PathsFromAreCuts(acc, rest, k);
    var path := acc + "/" + rest;
    assert forall m :: 0 <= m < |acc| ==> path[m] == acc[m];
  }

  lemma PathsWithoutSlash(path: string, k: string)
    requires forall m :: 0 <= m < |path| ==> path[m] != '/'
    ensures k in [path] <==> IsPathCut(path, k)
  {
    assert k <= path && |k| == |path| ==> k == path;
  }

  /** The lookup prefixes are exactly the cuts of the path, from the shortest to the longest. */
  lemma PathsAreCuts(path: string, k: string)
    ensures k in Paths(path) <==> IsPathCut(path, k)
  {
    var ps := Split(path, '/');
    var i := IndexOf(path, '/');
    CutAtFirst(path, '/');
    if i == |path| {
      assert ps == [path] && Paths(path) == [path];
      PathsWithoutSlash(path, k);
    } else {
      assert ps[0] == path[..i] && ps[1..] == Split(path[i + 1..], '/');
      PathsWithSlash(path[..i], path[i + 1..], k);
    }
  }

  lemma PathsGrow(path: string)
    ensures GrowingFrom(Paths(path), 0)
  {
    var ps := Split(path, '/');
    PathsFromGrow(ps[0], ps[1..]);
  }

  // ----- suffixes of a host name -----

  /** `k` is cut off `host` behind a dot or at the beginning. */
  predicate IsDomainCut(host: string, k: string)
  {
    EndsWith(host, k) && (|k| == |host| || host[|host| - |k| - 1] == '.')
  }

  /** Between one dot and the next there is no place to cut. */
  lemma DomainCutsUpTo(rest: string, acc: string, piece: string, k: string)
    requires '.' !in piece && |piece| <= |rest| && EndsWith(rest, piece)
    ensures var whole := rest + "." + acc;
            |acc| <= |k| && IsDomainCut(whole, k) ==> k == acc || |k| >= |acc| + 1 + |piece|
    ensures IsDomainCut(rest + "." + acc, acc)
  {
    var whole := rest + "." + acc;
    assert whole[|rest| + 1..] == acc && whole[|rest|] == '.';
    forall m | |rest| - |piece| <= m < |rest|
      ensures whole[m] != '.'
    {
      assert whole[m] == rest[|rest| - |piece|..][m - (|rest| - |piece|)];
    }
    if |acc| <= |k| && IsDomainCut(whole, k) {
      assert k == whole[|whole| - |k|..];
    }
  }

  lemma {:induction false} ReverseAppend<T>(a: seq<T>, b: seq<T>)
    ensures Reverse(a + b) == Reverse(b) + Reverse(a)
  {
    if a == [] {
      assert a + b == b && Reverse(b) + [] == Reverse(b);
    } else {
      assert (a + b)[1..] == a[1..] + b;
      ReverseAppend(a[1..], b);
      Assoc(Reverse(b), Reverse(a[1..]), [a[0]]);
    }
  }

  /** A split ends with the piece behind the last separator. */
  lemma {:induction false} SplitLast(front: string, piece: string, c: char)
    requires c !in piece
    ensures Split(front + [c] + piece, c) == Split(front, c) + [piece]
    decreases |front|
  {
    var s := front + [c] + piece;
    var i := IndexOf(front, c);
    CutAtFirst(front, c);
    if i == |front| {
      IndexIs(s, c, |front|);
      assert s[..|front|] == front && s[|front| + 1..] == piece;
      IndexIs(piece, c, |piece|);
    } else {
      IndexIs(s, c, i);
      assert s[..i] == front[..i];
      assert s[i + 1..] == front[i + 1..] + [c] + piece;
      SplitLast(front[i + 1..], piece, c);
      Assoc([front[..i]], Split(front[i + 1..], c), [piece]);
    }
  }

  lemma IndexIs(s: string, c: char, i: nat)
    requires i <= |s| && (i < |s| ==> s[i] == c) && forall m :: 0 <= m < i ==> s[m] != c
    ensures IndexOf(s, c) == i
  {
    CutAtFirst(s, c);
  }

  /** The last separator, or -1. */
  function LastIndexOf(s: string, c: char): (i: int)
    ensures -1 <= i < |s| && (i >= 0 ==> s[i] == c)
  {
    if s == [] then -1 else if s[|s| - 1] == c then |s| - 1 else LastIndexOf(s[..|s| - 1], c)
  }

  lemma {:induction false} LastIndexIsLast(s: string, c: char)
    ensures forall m :: LastIndexOf(s, c) < m < |s| ==> s[m] != c
  {
    if s != [] && s[|s| - 1] != c {
      LastIndexIsLast(s[..|s| - 1], c);
    }
  }

  /** A text ends in a piece without the separator, behind one if there is any. */
  lemma CutAtLast(s: string, c: char) returns (front: string, piece: string)
    ensures c !in piece
    ensures if LastIndexOf(s, c) < 0 then piece == s && c !in s else s == front + [c] + piece
  {
    var i := LastIndexOf(s, c);
    LastIndexIsLast(s, c);
    front, piece := if i < 0 then "" else s[..i], s[i + 1..];
  }

  lemma ReversedSplitOne(s: string, c: char)
    requires c !in s
    ensures Reverse(Split(s, c)) == [s]
  {
    IndexIs(s, c, |s|);
    assert Reverse([s]) == [s];
  }

  lemma ReversedSplitLast(front: string, piece: string, c: char)
    requires c !in piece
    ensures Reverse(Split(front + [c] + piece, c)) == [piece] + Reverse(Split(front, c))
  {
    SplitLast(front, piece, c);
    ReverseAppend(Split(front, c), [piece]);
    assert Reverse([piece]) == [piece];
  }

  lemma {:induction false} DomainsFromAreCuts(rest: string, acc: string, k: string)
    ensures k in DomainsFrom(acc, Reverse(Split(rest, '.'))) <==> |acc| <= |k| && IsDomainCut(rest + "." + acc, k)
    decreases |rest|
  {
    var front, piece := CutAtLast(rest, '.');
    var whole, next := rest + "." + acc, piece + "." + acc;
    if LastIndexOf(rest, '.') < 0 {
      ReversedSplitOne(rest, '.');
      DomainCutsUpTo(rest, acc, rest, k);
      assert DomainsFrom(acc, [rest]) == [acc, whole];
      assert |k| >= |whole| && EndsWith(whole, k) ==> k == whole;
    } else {
      ReversedSplitLast(front, piece, '.');
      assert rest[|rest| - |piece|..] == piece;
      DomainCutsUpTo(rest, acc, piece, k);
      var ps := [piece] + Reverse(Split(front, '.'));
      assert ps[1..] == Reverse(Split(front, '.'));
      assert DomainsFrom(acc, ps) == [acc] + DomainsFrom(next, ps[1..]);
      assert whole == front + "." + next;
      DomainsFromAreCuts(front, next, k);
    }
  }

  lemma {:induction false} DomainsFromGrow(acc: string, pieces: seq<string>)
    ensures GrowingFrom(DomainsFrom(acc, pieces), |acc|)
    decreases |pieces|
  {
    if pieces != [] {
      DomainsFromGrow(pieces[0] + "." + acc, pieces[1..]);
      GrowingCons(acc, DomainsFrom(pieces[0] + "." + acc, pieces[1..]));
    }
  }

  lemma DomainsGrow(host: string)
    ensures GrowingFrom(Domains(host), 0)
  {
    var ps := Reverse(Split(host, '.'));
    DomainsFromGrow(ps[0], ps[1..]);
  }

  lemma DomainsWithDot(rest: string, acc: string, k: string)
    requires '.' !in acc
    ensures k in DomainsFrom(acc, Reverse(Split(rest, '.'))) <==> IsDomainCut(rest + "." + acc, k)
  {
    DomainsFromAreCuts(rest, acc, k);
    if IsDomainCut(rest + "." + acc, k) {
      NoCutInside(rest, acc, k);
    }
  }

  /** Behind the last dot there is no place to cut. */
  lemma NoCutInside(rest: string, acc: string, k: string)
    requires '.' !in acc && IsDomainCut(rest + "." + acc, k)
    ensures |acc| <= |k|
  {
    var host := rest + "." + acc;
    forall m | |rest| < m < |host|
      ensures host[m] != '.'
    {
      assert host[m] == acc[m - |rest| - 1];
    }
  }

  lemma DomainsWithoutDot(host: string, k: string)
    requires '.' !in host
    ensures k in [host] <==> IsDomainCut(host, k)
  {
    assert |k| == |host| && EndsWith(host, k) ==> k == host;
  }

  /** The lookup suffixes are exactly the cuts of the host name, from the shortest to the longest. */
  lemma DomainsAreCuts(host: string, k: string)
    ensures k in Domains(host) <==> IsDomainCut(host, k)
  {
    var front, piece := CutAtLast(host, '.');
    if LastIndexOf(host, '.') < 0 {
      ReversedSplitOne(host, '.');
      assert Domains(host) == [host];
      DomainsWithoutDot(host, k);
    } else {
      ReversedSplitLast(front, piece, '.');
      var ps := [piece] + Reverse(Split(front, '.'));
      assert ps[1..] == Reverse(Split(front, '.'));
      DomainsWithDot(front, piece, k);
    }
  }

  // ----- matching as RFC 6265 states it -----

  /** `_is_domain_match`; `host[: -len(domain)]` is empty for an empty domain. */
  predicate DomainMatch(domain: string, host: string, isIp: bool)
  {
    host == domain ||
    (EndsWith(host, domain) &&
     var front := if domain == "" then "" else host[..|host| - |domain|];
     EndsWith(front, ".") && !isIp)
  }

  /** Path matching, section 5.1.4. */
  predicate PathMatch(path: string, cookiePath: string)
  {
    path == cookiePath ||
    (cookiePath < path && cookiePath != "" &&
     (cookiePath[|cookiePath| - 1] == '/' || path[|cookiePath|] == '/'))
  }

  /** `s.rstrip("/")`. */
  function StripSlash(s: string): (r: string)
    ensures r <= s && (r != "" ==> r[|r| - 1] != '/')
  {
    if s != "" && s[|s| - 1] == '/' then StripSlash(s[..|s| - 1]) else s
  }

  /** A suffix is looked up exactly for the domains that match a host name, if that has no trailing dot. */
  lemma DomainLookup(domain: string, host: string)
    requires host != "" && host[|host| - 1] != '.'
    ensures domain in Domains(host) <==> DomainMatch(domain, host, false)
  {
    DomainsAreCuts(host, domain);
    if domain == host {
    } else if domain != "" && EndsWith(host, domain) {
      var front := host[..|host| - |domain|];
      assert front != "" ==> front[|front| - 1..] == [front[|front| - 1]];
    }
  }

  /** The lookup of a stored path together with the length check. */
  predicate PathLookup(path: string, cookiePath: string)
  {
    StripSlash(cookiePath) in Paths(path) && |cookiePath| <= |path|
  }

  lemma {:induction false} StrippedPart(s: string)
    ensures forall m :: |StripSlash(s)| <= m < |s| ==> s[m] == '/'
  {
    if s != "" && s[|s| - 1] == '/' {
      StrippedPart(s[..|s| - 1]);
    }
  }

  lemma OneSlashLookup(path: string, cookiePath: string)
    requires cookiePath != "" && |cookiePath| <= |StripSlash(cookiePath)| + 1
    ensures PathLookup(path, cookiePath) <==> PathMatch(path, cookiePath)
  {
    var k := StripSlash(cookiePath);
    PathsAreCuts(path, k);
    StrippedPart(cookiePath);
    if k == cookiePath {
      assert k <= path && |k| == |path| ==> k == path;
    } else {
      assert cookiePath == k + "/";
      assert cookiePath <= path <==> k <= path && |k| < |path| && path[|k|] == '/';
      assert cookiePath <= path && |cookiePath| == |path| ==> cookiePath == path;
    }
  }

  /** With two slashes at its end a cookie path is looked up for a request path it does not match. */
  lemma TwoSlashesMismatch(cookiePath: string)
    requires |cookiePath| >= |StripSlash(cookiePath)| + 2
    ensures exists path :: PathLookup(path, cookiePath) && !PathMatch(path, cookiePath)
  {
    var k := StripSlash(cookiePath);
    var path := k + "/" + seq(|cookiePath| - |k| - 1, i => 'x');
    PathsAreCuts(path, k);
    StrippedPart(cookiePath);
    assert k <= path && path[|k|] == '/';
    assert cookiePath[|k| + 1] == '/' && path[|k| + 1] == 'x';
    assert PathLookup(path, cookiePath) && !PathMatch(path, cookiePath);
  }

  /** Lookup by prefix is path matching, on all request paths, for the cookie paths with at most one trailing slash. */
  lemma PathLookupIsMatch(cookiePath: string)
    requires cookiePath != ""
    ensures (forall path :: PathLookup(path, cookiePath) <==> PathMatch(path, cookiePath))
       <==> |cookiePath| <= |StripSlash(cookiePath)| + 1
  {
    if |cookiePath| <= |StripSlash(cookiePath)| + 1 {
      forall path
        ensures PathLookup(path, cookiePath) <==> PathMatch(path, cookiePath)
      {
        OneSlashLookup(path, cookiePath);
      }
    } else {
      TwoSlashesMismatch(cookiePath);
    }
  }
}
