/** A cookie jar as one flat table: what updating, expiring and filtering do to it. */
module CookieSpec {
  import opened Common
  import opened CookieMatch

  datatype CookieKey = CookieKey(domain: string, path: string, name: string)

  /** The max-age attribute: absent, not a number, or seconds. */
  datatype MaxAge = NoMaxAge | BadMaxAge | Seconds(n: int)

  /** The expires attribute: absent, not a date, or the parsed time. */
  datatype Expires = NoExpires | BadExpires | At(time: int)

  datatype Cookie = Cookie(
    name: string, value: string, codedValue: string,
    domain: string, path: string, secure: bool, maxAge: MaxAge, expires: Expires)

  datatype Morsel = Morsel(key: string, value: string, codedValue: string)

  datatype Jar = Jar(cookies: map<CookieKey, Cookie>, hostOnly: set<(string, string)>, expirations: map<CookieKey, int>)

  // ----- expiry -----

  /** The keys whose recorded expiry is not after now. */
  function Due(j: Jar, now: int): set<CookieKey>
  {
    set k | k in j.expirations && j.expirations[k] <= now
  }

  /** `_delete_cookies`. */
  function Delete(j: Jar, keys: set<CookieKey>): Jar
  {
    Jar(j.cookies - keys, j.hostOnly - (set k | k in keys :: (k.domain, k.name)), j.expirations - keys)
  }

  /** The naive sweep. */
  function Sweep(j: Jar, now: int): Jar { Delete(j, Due(j, now)) }

  // ----- updating -----

  datatype Origin = Origin(host: Option<string>, isIp: bool, path: string)

  /** The time at which a cookie is to expire, if it says so. A date at the epoch reads as none. */
  function ExpiryOf(c: Cookie, now: int, maxTime: int): Option<int>
  {
    match c.maxAge
    case Seconds(n) => Some(Min(now + n, maxTime))
    case BadMaxAge => None
    case NoMaxAge => if c.expires.At? && c.expires.time != 0 then Some(c.expires.time) else None
  }

  /** Attributes that could not be used are blanked. */
  function Blanked(c: Cookie): Cookie
  {
    match c.maxAge
    case Seconds(n) => c
    case BadMaxAge => c.(maxAge := NoMaxAge)
    case NoMaxAge => if c.expires.At? && c.expires.time != 0 then c else c.(expires := NoExpires)
  }

  /** A domain with a trailing dot counts as none; no domain means the host of the response. */
  function NoDomain(c: Cookie): bool
  {
    c.domain == "" || c.domain[|c.domain| - 1] == '.'
  }

  function DomainOf(c: Cookie, o: Origin): string
  {
    var d := if NoDomain(c) then (if o.host.Some? then o.host.value else "") else c.domain;
    if d != "" && d[0] == '.' then d[1..] else d
  }

  /** The last place of a slash, or -1. */
  function LastSlash(s: string): (i: int)
    ensures -1 <= i < |s|
  {
    LastIndexOf(s, '/')
  }

  const SLASH := '/'

  /** The path a cookie without a usable path gets: the response path up to its last slash. */
  function DefaultPath(path: string): (p: string)
    ensures p != "" && p[0] == '/'
  {
    if path == "" || path[0] != SLASH then [SLASH]
    else [SLASH] + (if LastSlash(path) <= 1 then "" else path[1..LastSlash(path)])
  }

  function PathOf(c: Cookie, o: Origin): (p: string)
    ensures p != "" && p[0] == '/'
  {
    if c.path == "" || c.path[0] != '/' then DefaultPath(o.path) else c.path
  }

  /** A response may not set cookies for a domain its host does not belong to. */
  predicate Foreign(domain: string, o: Origin)
  {
    o.host.Some? && o.host.value != "" && !DomainMatch(domain, o.host.value, o.isIp)
  }

  predicate Refused(c: Cookie, o: Origin) { Foreign(DomainOf(c, o), o) }

  function KeyOf(name: string, c: Cookie, o: Origin): CookieKey
  {
    CookieKey(DomainOf(c, o), StripSlash(PathOf(c, o)), name)
  }

  /** The cookie as it is stored. */
  function StoredForm(c: Cookie, o: Origin): Cookie
  {
    Blanked(c.(domain := DomainOf(c, o), path := PathOf(c, o)))
  }

  /** One cookie of an update. */
  function UpdateOne(j: Jar, name: string, c: Cookie, o: Origin, now: int, maxTime: int): Jar
  {
    var hostOnly := if NoDomain(c) && o.host.Some? then j.hostOnly + {(o.host.value, name)} else j.hostOnly;
    if Refused(c, o) then j.(hostOnly := hostOnly)
    else
      var key := KeyOf(name, c, o);
      var when := ExpiryOf(c, now, maxTime);
      Jar(j.cookies[key := StoredForm(c, o)], hostOnly,
          if when.Some? then j.expirations[key := when.value] else j.expirations)
  }

  function UpdateMany(j: Jar, list: seq<(string, Cookie)>, o: Origin, now: int, maxTime: int): Jar
    decreases |list|
  {
    if list == [] then j
    else UpdateMany(UpdateOne(j, list[0].0, list[0].1, o, now, maxTime), list[1..], o, now, maxTime)
  }

  /** `update_cookies`. */
  function Update(j: Jar, list: seq<(string, Cookie)>, o: Origin, unsafe: bool, now: int, maxTime: int): Jar
  {
    if !unsafe && o.isIp then j else Sweep(UpdateMany(j, list, o, now, maxTime), now)
  }

  // ----- what every operation keeps -----

  /** A stored cookie agrees with its key, and only stored cookies have an expiry. */
  ghost predicate WellKept(j: Jar)
  {
    && (forall k :: k in j.cookies ==> Agrees(k, j.cookies[k]))
    && (forall k :: k in j.expirations ==> k in j.cookies)
  }

  predicate Agrees(k: CookieKey, c: Cookie)
  {
    c.name == k.name && c.domain == k.domain && StripSlash(c.path) == k.path && c.path != "" && c.path[0] == '/'
  }

  predicate NamesFit(list: seq<(string, Cookie)>)
  {
    forall i :: 0 <= i < |list| ==> list[i].1.name == list[i].0
  }

  lemma UpdateOneKeeps(j: Jar, name: string, c: Cookie, o: Origin, now: int, maxTime: int)
    requires WellKept(j) && c.name == name
    ensures WellKept(UpdateOne(j, name, c, o, now, maxTime))
  {
    StoredAgrees(name, c, o);
    var u := UpdateOne(j, name, c, o, now, maxTime);
    var key, stored := KeyOf(name, c, o), StoredForm(c, o);
    if !Refused(c, o) {
      assert u.cookies == j.cookies[key := stored];
      assert forall k :: k in u.expirations ==> k in j.expirations || k == key;
    }
  }

  lemma StoredAgrees(name: string, c: Cookie, o: Origin)
    requires c.name == name
    ensures Agrees(KeyOf(name, c, o), StoredForm(c, o))
  {
  }

  lemma {:induction false} UpdateManyKeeps(j: Jar, list: seq<(string, Cookie)>, o: Origin, now: int, maxTime: int)
    requires WellKept(j) && NamesFit(list)
    ensures WellKept(UpdateMany(j, list, o, now, maxTime))
    decreases |list|
  {
    if list != [] {
      assert list[0].1.name == list[0].0;
      UpdateOneKeeps(j, list[0].0, list[0].1, o, now, maxTime);
      assert NamesFit(list[1..]);
      UpdateManyKeeps(UpdateOne(j, list[0].0, list[0].1, o, now, maxTime), list[1..], o, now, maxTime);
    }
  }

  lemma DeleteKeeps(j: Jar, keys: set<CookieKey>)
    requires WellKept(j)
    ensures WellKept(Delete(j, keys))
  {
  }

  /** After an update no cookie is left whose recorded expiry has passed. */
  lemma UpdateLeavesNothingDue(j: Jar, list: seq<(string, Cookie)>, o: Origin, unsafe: bool, now: int, maxTime: int)
    requires WellKept(j) && NamesFit(list)
    ensures WellKept(Update(j, list, o, unsafe, now, maxTime))
    ensures unsafe || !o.isIp ==> Due(Update(j, list, o, unsafe, now, maxTime), now) == {}
  {
    UpdateManyKeeps(j, list, o, now, maxTime);
    DeleteKeeps(UpdateMany(j, list, o, now, maxTime), Due(UpdateMany(j, list, o, now, maxTime), now));
  }

  // ----- where and how a cookie is stored -----

  /** The default path is the directory of the response path: what is in front of its last slash. */
  lemma DefaultPathIsDirectory(path: string)
    ensures path == "" || path[0] != '/' ==> DefaultPath(path) == "/"
    ensures forall i :: 0 < i < |path| && path[0] == '/' && path[i] == '/' && '/' !in path[i + 1..] ==>
                          DefaultPath(path) == path[..i]
    ensures path != "" && path[0] == '/' && '/' !in path[1..] ==> DefaultPath(path) == "/"
  {
    LastIndexIsLast(path, '/');
    if path != "" && path[0] == '/' {
      var l := LastSlash(path);
      assert l >= 0 && path[l] == '/';
      forall i | 0 < i < |path| && path[i] == '/' && '/' !in path[i + 1..]
        ensures DefaultPath(path) == path[..i]
      {
        LastIs(path, '/', i);
        assert path[..i] == [path[0]] + path[1..i];
      }
      assert l > 0 ==> path[1..][l - 1] == '/';
    }
  }

  lemma LastIs(s: string, c: char, i: nat)
    requires i < |s| && s[i] == c && c !in s[i + 1..]
    ensures LastIndexOf(s, c) == i
  {
    LastIndexIsLast(s, c);
    forall m | i < m < |s|
      ensures s[m] != c
    {
      assert s[m] == s[i + 1..][m - i - 1];
    }
  }

  /** The domain of a cookie in words: its own without one leading dot, or else that of the host. */
  predicate HasDomain(c: Cookie, o: Origin, domain: string)
  {
    var given := if c.domain == "" || c.domain[|c.domain| - 1] == '.' then
                   (if o.host.Some? then o.host.value else "")
                 else c.domain;
    (given == domain && (domain == "" || domain[0] != '.')) || given == "." + domain
  }

  /** The host is the domain, or a name under it and not an address. */
  predicate BelongsTo(host: string, isIp: bool, domain: string)
  {
    host == domain
    || (!isIp && domain != "" && |host| > |domain| && host[|host| - |domain| - 1..] == "." + domain)
  }

  /** What of a given cookie is stored: an age or, without one, a date that cannot be used is dropped. */
  predicate SameCookie(stored: Cookie, c: Cookie, domain: string, path: string)
  {
    && stored.name == c.name && stored.value == c.value && stored.codedValue == c.codedValue
    && stored.secure == c.secure && stored.domain == domain
    && stored.path == (if c.path != "" && c.path[0] == '/' then c.path else DefaultPath(path))
    && stored.maxAge == (if c.maxAge.BadMaxAge? then NoMaxAge else c.maxAge)
    && stored.expires == if c.maxAge.NoMaxAge? && c.expires in {BadExpires, At(0)} then NoExpires else c.expires
  }

  /**
   * A response stores a cookie if and only if its host belongs to the domain of the cookie, with its
   * value, under its domain, name and path; it is marked host-only if it names no usable domain.
   */
  lemma StoredAs(j: Jar, name: string, c: Cookie, host: string, isIp: bool, path: string, now: int, maxTime: int)
    returns (k: CookieKey)
    requires host != "" && host[0] != '.'
    ensures var o := Origin(Some(host), isIp, path);
            var u := UpdateOne(j, name, c, o, now, maxTime);
            && HasDomain(c, o, k.domain) && k.name == name
            && u.hostOnly == j.hostOnly
                             + (if c.domain == "" || c.domain[|c.domain| - 1] == '.' then {(host, name)} else {})
            && if BelongsTo(host, isIp, k.domain)
               then
                 && k in u.cookies && u.cookies == j.cookies[k := u.cookies[k]]
                 && SameCookie(u.cookies[k], c, k.domain, path)
               else u.cookies == j.cookies && u.expirations == j.expirations
  {
    var o := Origin(Some(host), isIp, path);
    k := KeyOf(name, c, o);
    DomainInWords(c, o);
    MatchInWords(k.domain, host, isIp);
    FormInWords(c, o);
    UpdateInWords(j, name, c, o, now, maxTime);
  }

  lemma DomainInWords(c: Cookie, o: Origin)
    ensures HasDomain(c, o, DomainOf(c, o))
  {
    var d := if NoDomain(c) then (if o.host.Some? then o.host.value else "") else c.domain;
    if d != "" && d[0] == '.' {
      assert d == "." + d[1..];
    }
  }

  lemma FormInWords(c: Cookie, o: Origin)
    ensures SameCookie(StoredForm(c, o), c, DomainOf(c, o), o.path)
  {
  }

  lemma UpdateInWords(j: Jar, name: string, c: Cookie, o: Origin, now: int, maxTime: int)
    ensures var u := UpdateOne(j, name, c, o, now, maxTime);
            && (Foreign(DomainOf(c, o), o) ==> u.cookies == j.cookies && u.expirations == j.expirations)
            && (!Foreign(DomainOf(c, o), o) ==> u.cookies == j.cookies[KeyOf(name, c, o) := StoredForm(c, o)])
            && u.hostOnly == if NoDomain(c) && o.host.Some? then j.hostOnly + {(o.host.value, name)} else j.hostOnly
  {
  }

  /** A response from an address sets nothing and sweeps nothing, unless that is allowed. */
  lemma AddressSetsNothing(j: Jar, list: seq<(string, Cookie)>, o: Origin, now: int, maxTime: int)
    requires o.isIp
    ensures Update(j, list, o, false, now, maxTime) == j
  {
  }

  lemma MatchInWords(domain: string, host: string, isIp: bool)
    ensures DomainMatch(domain, host, isIp) <==> BelongsTo(host, isIp, domain)
  {
    if EndsWith(host, domain) && host != domain && domain != "" {
      var front := host[..|host| - |domain|];
      assert host == front + domain;
      assert front != "" ==> host[|host| - |domain| - 1..] == [front[|front| - 1]] + domain;
      assert front != "" ==> front[|front| - 1..] == [front[|front| - 1]];
    }
    if domain != "" && |host| > |domain| && host[|host| - |domain| - 1..] == "." + domain {
      assert host[|host| - |domain|..] == host[|host| - |domain| - 1..][1..] == domain;
      var front := host[..|host| - |domain|];
      assert front[|front| - 1..] == ".";
    }
  }
}
