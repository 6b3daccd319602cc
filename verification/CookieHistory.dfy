/**
 * What a jar remembers: the expiry and the host-only flag of a stored cookie in terms of all that
 * was done to the jar.
 */
module CookieHistory {
  import opened Common
  import opened CookieMatch
  import opened CookieSpec
  import opened CookieFilter

  const EMPTY_JAR := Jar(map[], {}, map[])

  /** What calls do to a jar: an update is one setting per cookie and a sweep. */
  datatype Step =
    | Sets(name: string, cookie: Cookie, o: Origin, now: int)
    | Sweeps(now: int)
    | Clears(chosen: set<CookieKey>)
    | Empties

  function After(j: Jar, s: Step, maxTime: int): Jar
  {
    match s
    case Sets(name, cookie, o, now) => UpdateOne(j, name, cookie, o, now, maxTime)
    case Sweeps(now) => Sweep(j, now)
    case Clears(chosen) => Delete(j, chosen * j.cookies.Keys)
    case Empties => EMPTY_JAR
  }

  function Run(steps: seq<Step>, maxTime: int): Jar
  {
    if steps == [] then EMPTY_JAR else After(Run(Front(steps), maxTime), Last(steps), maxTime)
  }

  function Front<T>(s: seq<T>): seq<T> requires s != [] { s[..|s| - 1] }
  function Last<T>(s: seq<T>): T requires s != [] { s[|s| - 1] }

  function Settings(list: seq<(string, Cookie)>, o: Origin, now: int): (steps: seq<Step>)
    ensures |steps| == |list|
  {
    seq(|list|, i requires 0 <= i < |list| => Sets(list[i].0, list[i].1, o, now))
  }

  lemma RunMore(steps: seq<Step>, s: Step, maxTime: int)
    ensures Run(steps + [s], maxTime) == After(Run(steps, maxTime), s, maxTime)
  {
    assert Front(steps + [s]) == steps;
  }

  lemma {:induction false} UpdateManyMore(
      j: Jar, a: seq<(string, Cookie)>, b: seq<(string, Cookie)>, o: Origin, now: int, maxTime: int)
    ensures UpdateMany(j, a + b, o, now, maxTime) == UpdateMany(UpdateMany(j, a, o, now, maxTime), b, o, now, maxTime)
    decreases |a|
  {
    if a == [] {
      assert a + b == b;
    } else {
      assert (a + b)[1..] == a[1..] + b;
      UpdateManyMore(UpdateOne(j, a[0].0, a[0].1, o, now, maxTime), a[1..], b, o, now, maxTime);
    }
  }

  lemma SettingsHead(steps: seq<Step>, list: seq<(string, Cookie)>, o: Origin, now: int)
    requires list != []
    ensures steps + Settings(list, o, now)
         == steps + [Sets(list[0].0, list[0].1, o, now)] + Settings(list[1..], o, now)
  {
  }

  /** Setting the cookies of a list is one step for each. */
  lemma {:induction false} UpdateManyIsSteps(
      steps: seq<Step>, list: seq<(string, Cookie)>, o: Origin, now: int, maxTime: int)
    ensures Run(steps + Settings(list, o, now), maxTime) == UpdateMany(Run(steps, maxTime), list, o, now, maxTime)
    decreases |list|
  {
    if list == [] {
      assert steps + Settings(list, o, now) == steps;
    } else {
      var s := Sets(list[0].0, list[0].1, o, now);
      RunMore(steps, s, maxTime);
      SettingsHead(steps, list, o, now);
      UpdateManyIsSteps(steps + [s], list[1..], o, now, maxTime);
    }
  }

  /** An update is a run of steps. */
  lemma UpdateIsSteps(steps: seq<Step>, list: seq<(string, Cookie)>, o: Origin, isUnsafe: bool, now: int, maxTime: int)
    requires isUnsafe || !o.isIp
    ensures Update(Run(steps, maxTime), list, o, isUnsafe, now, maxTime)
         == Run(steps + Settings(list, o, now) + [Sweeps(now)], maxTime)
  {
    UpdateManyIsSteps(steps, list, o, now, maxTime);
    RunMore(steps + Settings(list, o, now), Sweeps(now), maxTime);
  }

  // ----- every run -----

  /** Only stored cookies have an expiry, and a stored cookie has the domain it is stored under. */
  ghost predicate Booked(j: Jar)
  {
    && (forall k :: k in j.expirations ==> k in j.cookies)
    && (forall k :: k in j.cookies ==> j.cookies[k].domain == k.domain)
  }

  lemma SetIsBooked(j: Jar, name: string, c: Cookie, o: Origin, now: int, maxTime: int)
    requires Booked(j)
    ensures Booked(UpdateOne(j, name, c, o, now, maxTime))
  {
    assert StoredForm(c, o).domain == KeyOf(name, c, o).domain;
  }

  lemma DeleteIsBooked(j: Jar, keys: set<CookieKey>)
    requires Booked(j)
    ensures Booked(Delete(j, keys))
  {
  }

  lemma AfterIsBooked(j: Jar, s: Step, maxTime: int)
    requires Booked(j)
    ensures Booked(After(j, s, maxTime))
  {
    match s
    case Sets(name, cookie, o, now) => SetIsBooked(j, name, cookie, o, now, maxTime);
    case Sweeps(now) => DeleteIsBooked(j, Due(j, now));
    case Clears(chosen) => DeleteIsBooked(j, chosen * j.cookies.Keys);
    case Empties =>
  }

  lemma {:induction false} RunIsBooked(steps: seq<Step>, maxTime: int)
    ensures Booked(Run(steps, maxTime))
  {
    if steps != [] {
      RunIsBooked(Front(steps), maxTime);
      AfterIsBooked(Run(Front(steps), maxTime), Last(steps), maxTime);
    }
  }

  // ----- which expiry is recorded -----

  /** The step is an accepted setting of the key that names an expiry. */
  function Named(s: Step, k: CookieKey, maxTime: int): Option<int>
  {
    if s.Sets? && !Refused(s.cookie, s.o) && KeyOf(s.name, s.cookie, s.o) == k
    then ExpiryOf(s.cookie, s.now, maxTime)
    else None
  }

  /** From the setting at a step on the key was in the jar all the time. */
  ghost predicate StoredSince(steps: seq<Step>, i: nat, k: CookieKey, maxTime: int)
  {
    forall l :: i < l <= |steps| ==> k in Run(steps[..l], maxTime).cookies
  }

  /** This setting named this expiry, and none did so since, with the key in the jar all the time. */
  ghost predicate NamedLast(steps: seq<Step>, k: CookieKey, i: nat, t: int, maxTime: int)
  {
    && i < |steps| && Named(steps[i], k, maxTime) == Some(t) && StoredSince(steps, i, k, maxTime)
    && NoneNamed(steps, i, k, maxTime)
  }

  /** A setting named an expiry, and the key was in the jar ever since. */
  ghost predicate NamedSince(steps: seq<Step>, k: CookieKey, maxTime: int)
  {
    exists i: nat :: i < |steps| && Named(steps[i], k, maxTime).Some? && StoredSince(steps, i, k, maxTime)
  }

  predicate Records(j: Jar, k: CookieKey, t: int)
  {
    k in j.expirations && j.expirations[k] == t
  }

  lemma NamingRecords(j: Jar, s: Step, k: CookieKey, maxTime: int)
    requires Named(s, k, maxTime).Some?
    ensures var after := After(j, s, maxTime); k in after.cookies && Records(after, k, Named(s, k, maxTime).value)
  {
  }

  lemma OtherwiseKept(j: Jar, s: Step, k: CookieKey, t: int, maxTime: int)
    requires Booked(j) && Named(s, k, maxTime) == None
    ensures var after := After(j, s, maxTime); Records(after, k, t) <==> Records(j, k, t) && k in after.cookies
  {
  }

  lemma StoredSinceFront(steps: seq<Step>, i: nat, k: CookieKey, maxTime: int)
    requires i < |steps| - 1
    ensures StoredSince(steps, i, k, maxTime)
       <==> StoredSince(Front(steps), i, k, maxTime) && k in Run(steps, maxTime).cookies
  {
    assert forall l :: 0 <= l < |steps| ==> Front(steps)[..l] == steps[..l];
    assert steps[..|steps|] == steps;
    if StoredSince(steps, i, k, maxTime) {
      forall l | i < l <= |Front(steps)|
        ensures k in Run(Front(steps)[..l], maxTime).cookies
      {
        assert k in Run(steps[..l], maxTime).cookies;
      }
    }
    if StoredSince(Front(steps), i, k, maxTime) && k in Run(steps, maxTime).cookies {
      forall l | i < l <= |steps|
        ensures k in Run(steps[..l], maxTime).cookies
      {
        if l < |steps| {
          assert k in Run(Front(steps)[..l], maxTime).cookies;
        }
      }
    }
  }

  lemma NamedLastFront(steps: seq<Step>, k: CookieKey, i: nat, t: int, maxTime: int)
    requires steps != [] && Named(Last(steps), k, maxTime) == None
    ensures NamedLast(steps, k, i, t, maxTime)
       <==> NamedLast(Front(steps), k, i, t, maxTime) && k in Run(steps, maxTime).cookies
  {
    if i < |steps| - 1 {
      StoredSinceFront(steps, i, k, maxTime);
      NoneNamedFront(steps, i, k, maxTime);
    }
  }

  ghost predicate NoneNamed(steps: seq<Step>, i: nat, k: CookieKey, maxTime: int)
  {
    forall l :: i < l < |steps| ==> Named(steps[l], k, maxTime) == None
  }

  lemma NoneNamedFront(steps: seq<Step>, i: nat, k: CookieKey, maxTime: int)
    requires steps != [] && Named(Last(steps), k, maxTime) == None
    ensures NoneNamed(steps, i, k, maxTime) <==> NoneNamed(Front(steps), i, k, maxTime)
  {
    if NoneNamed(Front(steps), i, k, maxTime) {
      forall l | i < l < |steps|
        ensures Named(steps[l], k, maxTime) == None
      {
        assert l < |steps| - 1 ==> Front(steps)[l] == steps[l];
      }
    }
  }

  lemma NamedLastNow(steps: seq<Step>, k: CookieKey, t: int, maxTime: int)
    requires steps != [] && Named(Last(steps), k, maxTime).Some?
    ensures (exists i :: NamedLast(steps, k, i, t, maxTime)) <==> Named(Last(steps), k, maxTime) == Some(t)
  {
    NamingRecords(Run(Front(steps), maxTime), Last(steps), k, maxTime);
    if Named(Last(steps), k, maxTime) == Some(t) {
      assert steps[..|steps|] == steps;
      assert NamedLast(steps, k, |steps| - 1, t, maxTime);
    }
  }

  /** In every jar that can be reached the recorded expiry is the one named last while the cookie was stored. */
  lemma {:induction false} RecordedIsNamedLast(steps: seq<Step>, k: CookieKey, t: int, maxTime: int)
    ensures Records(Run(steps, maxTime), k, t) <==> exists i :: NamedLast(steps, k, i, t, maxTime)
  {
    if steps != [] {
      var before, s := Front(steps), Last(steps);
      if Named(s, k, maxTime).Some? {
        NamingRecords(Run(before, maxTime), s, k, maxTime);
        NamedLastNow(steps, k, t, maxTime);
      } else {
        RecordedIsNamedLast(before, k, t, maxTime);
        RunIsBooked(before, maxTime);
        OtherwiseKept(Run(before, maxTime), s, k, t, maxTime);
        forall i: nat
          ensures NamedLast(steps, k, i, t, maxTime)
             <==> NamedLast(before, k, i, t, maxTime) && k in Run(steps, maxTime).cookies
        {
          NamedLastFront(steps, k, i, t, maxTime);
        }
      }
    }
  }

  /** If any setting named an expiry while the cookie was stored, one of them was the last. */
  lemma {:induction false} SomeNamedLast(
      steps: seq<Step>, k: CookieKey, i: nat, maxTime: int) returns (last: nat, t: int)
    requires i < |steps| && Named(steps[i], k, maxTime).Some? && StoredSince(steps, i, k, maxTime)
    ensures NamedLast(steps, k, last, t, maxTime)
    decreases |steps| - i
  {
    if l :| i < l < |steps| && Named(steps[l], k, maxTime).Some? {
      last, t := SomeNamedLast(steps, k, l, maxTime);
    } else {
      last, t := i, Named(steps[i], k, maxTime).value;
    }
  }

  lemma RecordedIsNamed(steps: seq<Step>, k: CookieKey, maxTime: int)
    ensures k in Run(steps, maxTime).expirations <==> NamedSince(steps, k, maxTime)
  {
    var j := Run(steps, maxTime);
    if k in j.expirations {
      RecordedIsNamedLast(steps, k, j.expirations[k], maxTime);
    }
    if NamedSince(steps, k, maxTime) {
      var i: nat :| i < |steps| && Named(steps[i], k, maxTime).Some? && StoredSince(steps, i, k, maxTime);
      var last, t := SomeNamedLast(steps, k, i, maxTime);
      RecordedIsNamedLast(steps, k, t, maxTime);
    }
  }

  lemma RecordedWasNamed(steps: seq<Step>, k: CookieKey, now: int, maxTime: int)
    ensures (exists t :: Records(Run(steps, maxTime), k, t) && t <= now)
       <==> (exists i, t :: NamedLast(steps, k, i, t, maxTime) && t <= now)
  {
    var j := Run(steps, maxTime);
    if k in j.expirations {
      RecordedIsNamedLast(steps, k, j.expirations[k], maxTime);
    }
    forall i, t | NamedLast(steps, k, i, t, maxTime)
      ensures Records(j, k, t)
    {
      RecordedIsNamedLast(steps, k, t, maxTime);
    }
  }

  /** A stored cookie of a jar that can be reached is swept at a time exactly if the expiry named last has passed. */
  lemma SweptWhenNamed(steps: seq<Step>, k: CookieKey, now: int, maxTime: int)
    requires k in Run(steps, maxTime).cookies
    ensures k !in Sweep(Run(steps, maxTime), now).cookies
       <==> exists i, t :: NamedLast(steps, k, i, t, maxTime) && t <= now
  {
    RecordedWasNamed(steps, k, now, maxTime);
    GoneAfterSweep(Run(steps, maxTime), k, now);
  }

  // ----- a cookie that is set again, or with a past date -----

  /** The entry is an accepted setting of the key. */
  predicate Hits(entry: (string, Cookie), o: Origin, k: CookieKey)
  {
    !Refused(entry.1, o) && KeyOf(entry.0, entry.1, o) == k
  }

  /** Settings of other keys leave a cookie alone. */
  lemma {:induction false} OthersAside(
      j: Jar, list: seq<(string, Cookie)>, o: Origin, now: int, maxTime: int, k: CookieKey)
    requires forall e :: e in list ==> !Hits(e, o, k)
    ensures var u := UpdateMany(j, list, o, now, maxTime);
            (k in u.cookies <==> k in j.cookies) && forall t :: Records(u, k, t) <==> Records(j, k, t)
    decreases |list|
  {
    if list != [] {
      assert !Hits(list[0], o, k);
      OthersAside(UpdateOne(j, list[0].0, list[0].1, o, now, maxTime), list[1..], o, now, maxTime, k);
    }
  }

  /** The expiry a setting names, or else the one that was recorded. */
  predicate Recorded(j: Jar, c: Cookie, now: int, maxTime: int, k: CookieKey, t: int)
  {
    if ExpiryOf(c, now, maxTime).Some? then ExpiryOf(c, now, maxTime) == Some(t) else Records(j, k, t)
  }

  /** A setting of a key was stored, and decided what is recorded. */
  ghost predicate Decides(u0: Jar, u: Jar, c: Cookie, now: int, maxTime: int, k: CookieKey)
  {
    k in u.cookies && forall t :: Records(u, k, t) <==> Recorded(u0, c, now, maxTime, k, t)
  }

  lemma UpdateOneDecides(j: Jar, e: (string, Cookie), o: Origin, now: int, maxTime: int, k: CookieKey)
    requires Hits(e, o, k)
    ensures Decides(j, UpdateMany(j, [e], o, now, maxTime), e.1, now, maxTime, k)
  {
    var u := UpdateOne(j, e.0, e.1, o, now, maxTime);
    assert UpdateMany(j, [e], o, now, maxTime) == u by {
      assert [e][1..] == [];
    }
  }

  /** The last setting of a key in a list decides. */
  lemma LastSettingDecides(
      j: Jar, front: seq<(string, Cookie)>, e: (string, Cookie), back: seq<(string, Cookie)>,
      o: Origin, now: int, maxTime: int, k: CookieKey)
    requires Hits(e, o, k) && forall b :: b in back ==> !Hits(b, o, k)
    ensures Decides(UpdateMany(j, front, o, now, maxTime), UpdateMany(j, front + [e] + back, o, now, maxTime),
                    e.1, now, maxTime, k)
  {
    var u0 := UpdateMany(j, front, o, now, maxTime);
    UpdateManyMore(j, front + [e], back, o, now, maxTime);
    UpdateManyMore(j, front, [e], o, now, maxTime);
    UpdateOneDecides(u0, e, o, now, maxTime, k);
    OthersAside(UpdateMany(u0, [e], o, now, maxTime), back, o, now, maxTime, k);
  }

  lemma GoneAfterSweep(j: Jar, k: CookieKey, now: int)
    requires k in j.cookies
    ensures k !in Sweep(j, now).cookies <==> exists t :: Records(j, k, t) && t <= now
  {
    if k in j.expirations {
      assert Records(j, k, j.expirations[k]);
    }
  }

  lemma PastDateSwept(u0: Jar, u: Jar, c: Cookie, k: CookieKey, now: int, maxTime: int)
    requires Decides(u0, u, c, now, maxTime, k) && c.expires.At? && c.expires.time <= now
    ensures k !in Sweep(u, now).cookies
       <==> if c.maxAge.Seconds? then c.maxAge.n <= 0 || maxTime <= now
            else || (c.maxAge.NoMaxAge? && c.expires.time != 0)
                 || exists t :: Records(u0, k, t) && t <= now
  {
    GoneAfterSweep(u, k, now);
    var when := ExpiryOf(c, now, maxTime);
    if when.Some? {
      assert Records(u, k, when.value);
    } else if t :| Records(u0, k, t) && t <= now {
      assert Records(u, k, t);
    }
  }

  lemma GoneWhen(u0: Jar, u: Jar, c: Cookie, k: CookieKey, now: int, maxTime: int, later: int)
    requires Decides(u0, u, c, now, maxTime, k) && now <= later
    ensures k !in Sweep(Sweep(u, now), later).cookies
       <==> if c.maxAge.Seconds? then now + c.maxAge.n <= later || maxTime <= later
            else if c.maxAge.NoMaxAge? && c.expires.At? && c.expires.time != 0 then c.expires.time <= later
            else exists t :: Records(u0, k, t) && t <= later
  {
    var when := ExpiryOf(c, now, maxTime);
    if when.Some? {
      assert Records(u, k, when.value);
    } else if t :| Records(u0, k, t) && t <= later {
      assert Records(u, k, t);
    }
    assert k in u.expirations ==> Records(u, k, u.expirations[k]);
  }

  /**
   * How long a cookie lives that is set in an update of a jar that can be reached: for its seconds,
   * if it names a number of them, but never beyond the end of time; else until its date, if that
   * is one and not the epoch and no unusable Max-Age stands beside it; else as the setting before said.
   */
  lemma CookieLifetime(
      steps: seq<Step>, front: seq<(string, Cookie)>, e: (string, Cookie), back: seq<(string, Cookie)>,
      o: Origin, isUnsafe: bool, now: int, maxTime: int, k: CookieKey, later: int)
    requires isUnsafe || !o.isIp
    requires Hits(e, o, k) && (forall b :: b in back ==> !Hits(b, o, k)) && now <= later
    ensures k !in Sweep(Update(Run(steps, maxTime), front + [e] + back, o, isUnsafe, now, maxTime), later).cookies
       <==> if e.1.maxAge.Seconds? then now + e.1.maxAge.n <= later || maxTime <= later
            else if e.1.maxAge.NoMaxAge? && e.1.expires.At? && e.1.expires.time != 0 then e.1.expires.time <= later
            else exists i, t :: NamedLast(steps + Settings(front, o, now), k, i, t, maxTime) && t <= later
  {
    var j := Run(steps, maxTime);
    UpdateManyIsSteps(steps, front, o, now, maxTime);
    LastSettingDecides(j, front, e, back, o, now, maxTime, k);
    GoneWhen(UpdateMany(j, front, o, now, maxTime), UpdateMany(j, front + [e] + back, o, now, maxTime),
             e.1, k, now, maxTime, later);
    RecordedWasNamed(steps + Settings(front, o, now), k, later, maxTime);
  }

  /** The cookie is stored, and no sweep takes it however late it comes. */
  ghost predicate Survives(j: Jar, k: CookieKey)
  {
    forall later :: k in Sweep(j, later).cookies
  }

  lemma NeverSwept(u0: Jar, u: Jar, c: Cookie, k: CookieKey, now: int, maxTime: int)
    requires Decides(u0, u, c, now, maxTime, k)
    requires ExpiryOf(c, now, maxTime) == None
    ensures Survives(Sweep(u, now), k) <==> k !in u0.expirations
  {
    if k in u0.expirations {
      assert Records(u, k, u0.expirations[k]);
      assert k !in Sweep(Sweep(u, now), u0.expirations[k]).cookies;
    } else {
      assert k in u.expirations ==> Records(u, k, u.expirations[k]);
    }
  }

  /**
   * In an update of a jar that can be reached a cookie is set with a date that has passed. A number
   * of seconds beside the date decides instead of it. Otherwise the cookie is deleted if and only if
   * the date is not the epoch and no unusable Max-Age stands beside it, or an expiry that was named
   * for the cookie before has passed.
   */
  lemma PastDateDeletes(
      steps: seq<Step>, front: seq<(string, Cookie)>, e: (string, Cookie), back: seq<(string, Cookie)>,
      o: Origin, isUnsafe: bool, now: int, maxTime: int, k: CookieKey)
    requires isUnsafe || !o.isIp
    requires Hits(e, o, k) && forall b :: b in back ==> !Hits(b, o, k)
    requires e.1.expires.At? && e.1.expires.time <= now
    ensures k !in Update(Run(steps, maxTime), front + [e] + back, o, isUnsafe, now, maxTime).cookies
       <==> if e.1.maxAge.Seconds? then e.1.maxAge.n <= 0 || maxTime <= now
            else || (e.1.maxAge.NoMaxAge? && e.1.expires.time != 0)
                 || exists i, t :: NamedLast(steps + Settings(front, o, now), k, i, t, maxTime) && t <= now
  {
    var j := Run(steps, maxTime);
    UpdateManyIsSteps(steps, front, o, now, maxTime);
    LastSettingDecides(j, front, e, back, o, now, maxTime, k);
    PastDateSwept(UpdateMany(j, front, o, now, maxTime), UpdateMany(j, front + [e] + back, o, now, maxTime),
                  e.1, k, now, maxTime);
    RecordedWasNamed(steps + Settings(front, o, now), k, now, maxTime);
  }

  /**
   * In an update of a jar that can be reached a cookie is set without any expiry. No later sweep
   * takes it if and only if no setting named an expiry since the cookie was last absent.
   */
  lemma OldExpiryStays(
      steps: seq<Step>, front: seq<(string, Cookie)>, e: (string, Cookie), back: seq<(string, Cookie)>,
      o: Origin, isUnsafe: bool, now: int, maxTime: int, k: CookieKey)
    requires isUnsafe || !o.isIp
    requires Hits(e, o, k) && forall b :: b in back ==> !Hits(b, o, k)
    requires ExpiryOf(e.1, now, maxTime) == None
    ensures Survives(Update(Run(steps, maxTime), front + [e] + back, o, isUnsafe, now, maxTime), k)
       <==> !NamedSince(steps + Settings(front, o, now), k, maxTime)
  {
    var j := Run(steps, maxTime);
    UpdateManyIsSteps(steps, front, o, now, maxTime);
    LastSettingDecides(j, front, e, back, o, now, maxTime, k);
    NeverSwept(UpdateMany(j, front, o, now, maxTime), UpdateMany(j, front + [e] + back, o, now, maxTime),
               e.1, k, now, maxTime);
    RecordedIsNamed(steps + Settings(front, o, now), k, maxTime);
  }

  const HOME := Origin(Some("h"), false, "/")
  const HERE := CookieKey("h", "", "n")

  function HomeCookie(maxAge: MaxAge, expires: Expires): Cookie
  {
    Cookie("n", "v", "v", "", "/", false, maxAge, expires)
  }

  function HomeSets(maxAge: MaxAge): Step { Sets("n", HomeCookie(maxAge, NoExpires), HOME, 0) }

  lemma HomeIsHit(c: Cookie)
    requires c == HomeCookie(c.maxAge, c.expires)
    ensures Hits(("n", c), HOME, HERE)
  {
    assert "/"[..0] == "";
    assert StripSlash("/") == "";
  }

  /** Into an empty jar a cookie is set that expired at the epoch, or long ago beside an unusable Max-Age: it stays. */
  lemma PastDateKept(c: Cookie, now: int, maxTime: int)
    requires c in {HomeCookie(NoMaxAge, At(0)), HomeCookie(BadMaxAge, At(1))} && now >= 1
    ensures HERE in Update(EMPTY_JAR, [("n", c)], HOME, false, now, maxTime).cookies
  {
    HomeIsHit(c);
    var steps: seq<Step> := [];
    assert Run(steps, maxTime) == EMPTY_JAR;
    PastDateDeletes(steps, [], ("n", c), [], HOME, false, now, maxTime, HERE);
    assert [] + [("n", c)] + [] == [("n", c)];
    assert steps + Settings([], HOME, now) == [];
  }

  /** A cookie is set for ten seconds and at once again without an expiry: it is gone after ten seconds. */
  lemma OldExpiryBites(maxTime: int)
    requires maxTime >= 10
    ensures var again := [HomeSets(Seconds(10)), HomeSets(NoMaxAge)];
            && HERE in Sweep(Run(again, maxTime), 9).cookies
            && HERE !in Sweep(Run(again, maxTime), 10).cookies
  {
    var first, second := HomeSets(Seconds(10)), HomeSets(NoMaxAge);
    HomeIsHit(first.cookie);
    HomeIsHit(second.cookie);
    RunMore([], first, maxTime);
    RunMore([first], second, maxTime);
    assert [] + [first] == [first] && [first] + [second] == [first, second];
    var j := Run([first, second], maxTime);
    assert Records(j, HERE, 10) && HERE in j.cookies;
  }

  // ----- who is sent a cookie that was set without a domain -----

  /** A setting of the name without a usable domain, by this host. */
  predicate Bare(s: Step, d: string, name: string)
  {
    s.Sets? && NoDomain(s.cookie) && s.o.host == Some(d) && s.name == name
  }

  /** A step that takes a cookie of this domain and name out of the jar, whatever its path, or empties the jar. */
  ghost predicate Drops(steps: seq<Step>, l: nat, d: string, name: string, maxTime: int)
    requires l < |steps|
  {
    steps[l].Empties? ||
    exists p :: var k := CookieKey(d, p, name);
      k in Run(steps[..l], maxTime).cookies && k !in Run(steps[..l + 1], maxTime).cookies
  }

  ghost predicate BareSince(steps: seq<Step>, i: nat, d: string, name: string, maxTime: int)
  {
    i < |steps| && Bare(steps[i], d, name) && forall l :: i < l < |steps| ==> !Drops(steps, l, d, name, maxTime)
  }

  ghost predicate Takes(j: Jar, after: Jar, d: string, name: string)
  {
    exists p :: var k := CookieKey(d, p, name); k in j.cookies && k !in after.cookies
  }

  lemma DeleteFlags(j: Jar, keys: set<CookieKey>, d: string, name: string)
    requires keys <= j.cookies.Keys
    ensures (d, name) in Delete(j, keys).hostOnly <==> (d, name) in j.hostOnly && !Takes(j, Delete(j, keys), d, name)
  {
    if k :| k in keys && (k.domain, k.name) == (d, name) {
      assert k == CookieKey(d, k.path, name);
    }
  }

  lemma AfterFlags(j: Jar, s: Step, d: string, name: string, maxTime: int)
    requires Booked(j)
    ensures var after := After(j, s, maxTime);
            (d, name) in after.hostOnly <==>
              Bare(s, d, name) || ((d, name) in j.hostOnly && !s.Empties? && !Takes(j, after, d, name))
  {
    match s
    case Sets(_, _, _, _) =>
    case Sweeps(now) => DeleteFlags(j, Due(j, now), d, name);
    case Clears(chosen) => DeleteFlags(j, chosen * j.cookies.Keys, d, name);
    case Empties =>
  }

  lemma DropsLast(steps: seq<Step>, d: string, name: string, maxTime: int)
    requires steps != []
    ensures Drops(steps, |steps| - 1, d, name, maxTime)
       <==> Last(steps).Empties? || Takes(Run(Front(steps), maxTime), Run(steps, maxTime), d, name)
  {
    assert steps[..|steps| - 1] == Front(steps) && steps[..|steps| - 1 + 1] == steps;
  }

  lemma DropsFront(steps: seq<Step>, l: nat, d: string, name: string, maxTime: int)
    requires l < |steps| - 1
    ensures Drops(steps, l, d, name, maxTime) <==> Drops(Front(steps), l, d, name, maxTime)
  {
    assert steps[..l] == Front(steps)[..l] && steps[..l + 1] == Front(steps)[..l + 1];
  }

  lemma BareSinceFront(steps: seq<Step>, i: nat, d: string, name: string, maxTime: int)
    requires steps != []
    ensures BareSince(steps, i, d, name, maxTime)
       <==> (i == |steps| - 1 && Bare(Last(steps), d, name))
            || (BareSince(Front(steps), i, d, name, maxTime) && !Drops(steps, |steps| - 1, d, name, maxTime))
  {
    forall l: nat | l < |steps| - 1
      ensures Drops(steps, l, d, name, maxTime) <==> Drops(Front(steps), l, d, name, maxTime)
    {
      DropsFront(steps, l, d, name, maxTime);
    }
  }

  /**
   * In every jar that can be reached a domain and name are marked as host-only exactly if a cookie
   * was set so without a domain and no cookie of that domain and name was deleted since.
   */
  lemma {:induction false} FlagIsBareSince(steps: seq<Step>, d: string, name: string, maxTime: int)
    ensures (d, name) in Run(steps, maxTime).hostOnly <==> exists i :: BareSince(steps, i, d, name, maxTime)
  {
    if steps != [] {
      var before := Front(steps);
      FlagIsBareSince(before, d, name, maxTime);
      RunIsBooked(before, maxTime);
      AfterFlags(Run(before, maxTime), Last(steps), d, name, maxTime);
      DropsLast(steps, d, name, maxTime);
      forall i: nat
        ensures BareSince(steps, i, d, name, maxTime)
           <==> (i == |steps| - 1 && Bare(Last(steps), d, name))
                || (BareSince(before, i, d, name, maxTime) && !Drops(steps, |steps| - 1, d, name, maxTime))
      {
        BareSinceFront(steps, i, d, name, maxTime);
      }
      assert Bare(Last(steps), d, name) ==> BareSince(steps, |steps| - 1, d, name, maxTime);
    }
  }

  /** Clearing takes the chosen cookies, with their expiry, and no other. */
  lemma ClearsChosen(j: Jar, chosen: set<CookieKey>, maxTime: int, k: CookieKey)
    requires WellKept(j)
    ensures var u := After(j, Clears(chosen), maxTime);
            && (k in u.cookies <==> k in j.cookies && k !in chosen)
            && (k in u.cookies ==> u.cookies[k] == j.cookies[k])
            && (k in u.expirations <==> k in j.expirations && k !in chosen)
            && (k in u.expirations ==> u.expirations[k] == j.expirations[k])
  {
  }

  predicate Digits(s: string) { forall i :: 0 <= i < |s| ==> '0' <= s[i] <= '9' || s[i] == '.' }

  /** `is_ip_address`, a heuristic: a colon, or digits and dots. */
  predicate LooksLikeIp(host: string)
  {
    ':' in host || (Digits(host) && exists i :: 0 <= i < |host| && host[i] != '.')
  }

  /** In words: the host holds a colon, or digits and nothing else but dots. */
  lemma AddressForms(host: string)
    ensures LooksLikeIp(host) <==> (
              || (exists i :: 0 <= i < |host| && host[i] == ':')
              || ((exists i :: 0 <= i < |host| && '0' <= host[i] <= '9')
                  && forall i :: 0 <= i < |host| && host[i] != '.' ==> '0' <= host[i] <= '9'))
  {
    if Digits(host) && exists i :: 0 <= i < |host| && host[i] != '.' {
      var i :| 0 <= i < |host| && host[i] != '.';
      assert '0' <= host[i] <= '9';
    }
  }

  /** No request for another host is sent the cookie. */
  ghost predicate OwnHostAlone(j: Jar, k: CookieKey)
  {
    forall r: Request :: r.isIp == LooksLikeIp(r.host) && Eligible(j, r, k) ==> r.host == k.domain
  }

  lemma SubdomainIsEligible(j: Jar, k: CookieKey) returns (r: Request)
    requires Booked(j) && k in j.cookies && k.domain != "" && (k.domain, k.name) !in j.hostOnly && ':' !in k.domain
    ensures r.isIp == LooksLikeIp(r.host) && Eligible(j, r, k) && r.host != k.domain
  {
    var host := "x." + k.domain;
    assert host[0] == 'x' && !Digits(host);
    assert ':' !in host;
    assert host[..|host| - |k.domain|] == "x." && host[|host| - |k.domain|..] == k.domain;
    r := Request(host, false, j.cookies[k].path, false);
  }

  lemma ColonIsKept(host: string, domain: string)
    requires EndsWith(host, domain) && ':' in domain
    ensures ':' in host
  {
    var i :| 0 <= i < |domain| && domain[i] == ':';
    assert host[|host| - |domain|..][i] == ':';
  }

  /** A stored cookie goes to its own host alone exactly if it is marked, or no other host can match. */
  lemma OwnHostIsMarked(j: Jar, k: CookieKey)
    requires Booked(j) && k in j.cookies && k.domain != ""
    ensures OwnHostAlone(j, k) <==> (k.domain, k.name) in j.hostOnly || ':' in k.domain
  {
    if (k.domain, k.name) !in j.hostOnly && ':' !in k.domain {
      var r := SubdomainIsEligible(j, k);
    } else if ':' in k.domain {
      forall r: Request | r.isIp == LooksLikeIp(r.host) && Eligible(j, r, k)
        ensures r.host == k.domain
      {
        if EndsWith(r.host, k.domain) {
          ColonIsKept(r.host, k.domain);
        }
      }
    }
  }

  /**
   * A cookie that is stored in a jar that can be reached is sent to its own host alone if and only if
   * a cookie of its domain and name was set without a domain and none was deleted since, be it
   * one of another path; or its host has a colon.
   */
  lemma OwnHostHistory(steps: seq<Step>, k: CookieKey, maxTime: int)
    requires k in Run(steps, maxTime).cookies && k.domain != ""
    ensures OwnHostAlone(Run(steps, maxTime), k)
       <==> ':' in k.domain || exists i :: BareSince(steps, i, k.domain, k.name, maxTime)
  {
    RunIsBooked(steps, maxTime);
    OwnHostIsMarked(Run(steps, maxTime), k);
    FlagIsBareSince(steps, k.domain, k.name, maxTime);
  }

  function PlainCookie(path: string, maxAge: MaxAge): Cookie
  {
    Cookie("n", "v", "v", "", path, false, maxAge, NoExpires)
  }

  const KEPT := Sets("n", PlainCookie("/a", NoMaxAge), Origin(Some("h"), false, "/"), 0)
  const DROPPED := Sets("n", PlainCookie("/b", Seconds(0)), Origin(Some("h"), false, "/"), 0)

  lemma SettingHere(s: Step, path: string, maxAge: MaxAge)
    requires s == Sets("n", PlainCookie(path, maxAge), Origin(Some("h"), false, "/"), 0) && path in {"/a", "/b"}
    ensures !Refused(s.cookie, s.o) && KeyOf(s.name, s.cookie, s.o) == CookieKey("h", path, "n")
  {
  }

  /**
   * Two cookies of one name are set without a domain for two paths, and the second expires at once:
   * the first, which nobody touched, is sent to subdomains from then on.
   */
  lemma MarkGoesWithAnotherPath(maxTime: int)
    ensures var k := CookieKey("h", "/a", "n");
            var j := Run([KEPT, DROPPED, Sweeps(0)], maxTime);
            OwnHostAlone(Run([KEPT], maxTime), k) && k in j.cookies && !OwnHostAlone(j, k)
  {
    var k, gone := CookieKey("h", "/a", "n"), CookieKey("h", "/b", "n");
    SettingHere(KEPT, "/a", NoMaxAge);
    SettingHere(DROPPED, "/b", Seconds(0));
    RunMore([], KEPT, maxTime);
    RunMore([KEPT], DROPPED, maxTime);
    RunMore([KEPT, DROPPED], Sweeps(0), maxTime);
    assert [] + [KEPT] == [KEPT] && [KEPT] + [DROPPED] == [KEPT, DROPPED];
    assert [KEPT, DROPPED] + [Sweeps(0)] == [KEPT, DROPPED, Sweeps(0)];
    var j1, j2 := Run([KEPT], maxTime), Run([KEPT, DROPPED], maxTime);
    assert Due(j2, 0) == {gone};
    RunIsBooked([KEPT], maxTime);
    RunIsBooked([KEPT, DROPPED, Sweeps(0)], maxTime);
    OwnHostIsMarked(j1, k);
    OwnHostIsMarked(Sweep(j2, 0), k);
  }
}
