/** How races can end: every attempt can win, all can fail, and a race can be cancelled. */
module StaggeredRuns {
  import opened Common
  import opened Staggered

  lemma {:induction false} RunAppend(s: Race, a: seq<Event>, b: seq<Event>)
    requires Run(s, a).Some?
    ensures Run(s, a + b) == Run(Run(s, a).value, b)
    decreases |a|
  {
    if a == [] {
      assert a + b == b;
    } else {
      assert (a + b)[1..] == a[1..] + b;
      RunAppend(Step(s, a[0]), a[1..], b);
    }
  }

  /** The attempts that neither failed nor ended. */
  function Hung(failed: seq<bool>): set<nat> { set k: nat | k < |failed| && !failed[k] }

  function Ends(failed: seq<bool>): seq<Status>
  {
    seq(|failed|, k requires 0 <= k < |failed| => if failed[k] then Failed else Running)
  }

  /** So many attempts were started, each of which failed or hangs; the race is about to start one more. */
  function After(n: nat, delay: bool, failed: seq<bool>): Race
  {
    Race(n, delay, Ends(failed), failed, Hung(failed), Gone, false, Starting, None, false, {}, Hung(failed),
         Hung(failed), Hung(failed), {})
  }

  /** One attempt more was started. */
  function Started(s: Race): Race
  {
    s.(attempts := s.attempts + [Created], exceptions := s.exceptions + [false],
       tasks := s.tasks + {|s.attempts|}, next := Pending, timer := s.delay, main := Waiting)
  }

  lemma StartsOne(n: nat, delay: bool, failed: seq<bool>)
    requires |failed| < n
    ensures Step(After(n, delay, failed), Start) == Started(After(n, delay, failed))
  {
  }

  lemma FailsNext(n: nat, delay: bool, failed: seq<bool>)
    requires |failed| < n
    ensures var k := |failed|;
            Run(After(n, delay, failed), [Start, BeginFails(k), Reap(k), Wake])
            == Some(After(n, delay, failed + [true]))
  {
    var s, k := After(n, delay, failed), |failed|;
    StartsOne(n, delay, failed);
    HungOn(failed, true);
    var t := Started(s);
    var u := s.(attempts := Ends(failed) + [Failed], exceptions := failed + [true],
                tasks := s.tasks + {k}, next := Resolved, timer := delay, main := Waiting);
    assert Step(t, BeginFails(k)) == u;
    assert s.tasks + {k} - {k} == s.tasks;
    var v := u.(tasks := s.tasks);
    assert Step(u, Reap(k)) == v;
    assert Step(v, Wake) == After(n, delay, failed + [true]);
    RunFour(s, Start, BeginFails(k), Reap(k), Wake);
  }

  lemma HangsNext(n: nat, failed: seq<bool>)
    requires |failed| < n
    ensures var k := |failed|;
            Run(After(n, true, failed), [Start, Begin(k), Timer, Wake]) == Some(After(n, true, failed + [false]))
  {
    var s, k := After(n, true, failed), |failed|;
    StartsOne(n, true, failed);
    HungOn(failed, false);
    var t := Started(s);
    var u := t.(attempts := Ends(failed) + [Running], sockets := s.sockets + {k}, registry := s.registry + {k});
    assert Step(t, Begin(k)) == u;
    var v := u.(timer := false, next := Resolved, fired := s.fired + {k});
    assert Step(u, Timer) == v;
    assert Step(v, Wake) == After(n, true, failed + [false]);
    RunFour(s, Start, Begin(k), Timer, Wake);
  }

  lemma HungOn(failed: seq<bool>, f: bool)
    ensures Hung(failed + [f]) == Hung(failed) + (if f then {} else {|failed|})
    ensures Ends(failed + [f]) == Ends(failed) + [if f then Failed else Running]
  {
  }

  lemma RunFour(s: Race, a: Event, b: Event, c: Event, d: Event)
    requires |s.exceptions| == |s.attempts| && Enabled(s, a)
    requires var t := Step(s, a); |t.exceptions| == |t.attempts| && Enabled(t, b)
    requires var t := Step(Step(s, a), b); |t.exceptions| == |t.attempts| && Enabled(t, c)
    requires var t := Step(Step(Step(s, a), b), c); |t.exceptions| == |t.attempts| && Enabled(t, d)
    ensures Run(s, [a, b, c, d]) == Some(Step(Step(Step(Step(s, a), b), c), d))
  {
    var t := Step(Step(Step(s, a), b), c);
    assert [a, b, c, d][1..] == [b, c, d] && [b, c, d][1..] == [c, d] && [c, d][1..] == [d];
    assert Run(t, [d]) == Some(Step(t, d));
    assert Run(Step(Step(s, a), b), [c, d]) == Run(t, [d]);
    assert Run(Step(s, a), [b, c, d]) == Run(Step(Step(s, a), b), [c, d]);
  }

  /** Attempts may fail at any time; they may hang if a delay lets the next one start. */
  lemma {:induction false} Comes(n: nat, delay: bool, failed: seq<bool>) returns (s0: Race, events: seq<Event>)
    requires |failed| <= n && (delay || false !in failed)
    ensures Initial(s0) && s0.n == n && s0.delay == delay
    ensures Run(s0, events) == Some(After(n, delay, failed))
    decreases |failed|
  {
    if failed == [] {
      s0, events := After(n, delay, []), [];
    } else {
      var k := |failed| - 1;
      var before := failed[..k];
      assert failed == before + [failed[k]];
      var first: seq<Event>;
      s0, first := Comes(n, delay, before);
      var more := if failed[k] then [Start, BeginFails(k), Reap(k), Wake] else [Start, Begin(k), Timer, Wake];
      if failed[k] {
        FailsNext(n, delay, before);
      } else {
        HangsNext(n, before);
      }
      RunAppend(s0, first, more);
      events := first + more;
    }
  }

  lemma WinsNow(n: nat, delay: bool, failed: seq<bool>)
    requires |failed| < n
    ensures var k := |failed|;
            var o := Run(After(n, delay, failed), [Start, Begin(k), Succeeds(k), Reap(k)]);
            && o.Some? && o.value.winner == Some(k) && o.value.attempts == Ends(failed) + [Succeeded]
            && o.value.main == Cleaning(Hung(failed), None) && o.value.registry == Hung(failed) + {k}
  {
    var s, k := After(n, delay, failed), |failed|;
    StartsOne(n, delay, failed);
    var t := Started(s);
    var u := t.(attempts := Ends(failed) + [Running], sockets := s.sockets + {k}, registry := s.registry + {k});
    assert Step(t, Begin(k)) == u;
    var v := u.(attempts := Ends(failed) + [Succeeded]);
    assert Step(u, Succeeds(k)) == v;
    assert s.tasks + {k} - {k} == s.tasks;
    RunFour(s, Start, Begin(k), Succeeds(k), Reap(k));
  }

  /**
   * Whatever attempts fail and, with a delay, whatever attempts hang: the next one can still win, and
   * the race then cancels those that hang and no others.
   */
  lemma EachCanWin(n: nat, delay: bool, failed: seq<bool>) returns (s0: Race, events: seq<Event>)
    requires |failed| < n && (delay || false !in failed)
    ensures Initial(s0) && s0.n == n && s0.delay == delay && Run(s0, events).Some?
    ensures var t := Run(s0, events).value;
            && t.winner == Some(|failed|) && t.main == Cleaning(Hung(failed), None)
            && t.attempts == Ends(failed) + [Succeeded] && t.registry == Hung(failed) + {|failed|}
  {
    var first: seq<Event>;
    s0, first := Comes(n, delay, failed);
    var k := |failed|;
    WinsNow(n, delay, failed);
    RunAppend(s0, first, [Start, Begin(k), Succeeds(k), Reap(k)]);
    events := first + [Start, Begin(k), Succeeds(k), Reap(k)];
  }

  /** When all failed the race ends, without a winner and without being cancelled. */
  lemma AllCanFail(n: nat, delay: bool) returns (s0: Race, events: seq<Event>)
    ensures Initial(s0) && s0.n == n && s0.delay == delay && Run(s0, events).Some?
    ensures var t := Run(s0, events).value; t.main == Returned && t.winner == None && !t.raised && t.registry == {}
  {
    var failed := seq(n, _ => true);
    var first: seq<Event>;
    s0, first := Comes(n, delay, failed);
    var s := After(n, delay, failed);
    assert Hung(failed) == {};
    assert Step(s, Start) == CleanUp(s, None, false);
    assert [Start, Return][1..] == [Return];
    assert Run(CleanUp(s, None, false), [Return]) == Some(CleanUp(s, None, false).(main := Returned));
    assert Run(s, [Start, Return]).Some?;
    RunAppend(s0, first, [Start, Return]);
    events := first + [Start, Return];
  }

  /** The race of two was cancelled while one attempt connected; that attempt was cancelled and closed its socket. */
  const HALTED := Race(2, true, [Failed, Created], [true, false], {0, 1}, Pending, false,
                       Cleaning({0, 1}, Some(0)), None, true, {0}, {0}, {0}, {}, {0})

  lemma RaceHalts()
    ensures Run(After(2, true, [false]), [Start, Interrupt, Cancel(0), Fails(0)]) == Some(HALTED)
  {
    var s := After(2, true, [false]);
    assert Ends([false]) == [Running] && Hung([false]) == {0};
    StartsOne(2, true, [false]);
    var t := Started(s);
    assert t.attempts == [Running, Created] && t.exceptions == [false, false] && t.tasks == {0, 1};
    var u := CleanUp(t, None, true).(main := Cleaning({0, 1}, Some(0)), requested := {0});
    assert Step(Step(t, Interrupt), Cancel(0)) == u;
    assert u.attempts[0 := Failed] == [Failed, Created] && u.exceptions[0 := true] == [true, false];
    assert Step(u, Fails(0)) == HALTED;
    RunFour(s, Start, Interrupt, Cancel(0), Fails(0));
  }

  const ABANDONED := HALTED.(attempts := [Failed, Dropped], main := Cleaning({}, None), requested := {0, 1})

  /**
   * The task of the other attempt is cancelled before its first step and awaited, or its await is cut
   * short by one more cancellation.
   */
  lemma CancelledRace(skip: bool)
    ensures var last := if skip then Skip(1) else Join(1);
            Run(HALTED, [Join(0), Cancel(1), Drops(1), last]) == Some(ABANDONED)
  {
    var last := if skip then Skip(1) else Join(1);
    var s := HALTED.(main := Cleaning({1}, None));
    assert {0, 1} - {0} == {1} && {0} + {1} == {0, 1} && {1} - {1} == {};
    assert Step(HALTED, Join(0)) == s;
    var t := HALTED.(main := Cleaning({1}, Some(1)), requested := {0, 1});
    assert Step(s, Cancel(1)) == t;
    assert t.attempts[1 := Dropped] == [Failed, Dropped];
    var u := t.(attempts := [Failed, Dropped]);
    assert Step(t, Drops(1)) == u;
    assert Step(u, last) == ABANDONED;
    RunFour(HALTED, Join(0), Cancel(1), Drops(1), last);
  }

  /** Then the race is over and no socket is open. */
  lemma CancelledRaceCloses()
    ensures Run(ABANDONED, [Return, CloseRest]) == Some(ABANDONED.(main := Finished))
    ensures ABANDONED.sockets == ABANDONED.closed
  {
    var s := ABANDONED.(main := Returned);
    assert Step(ABANDONED, Return) == s;
    assert {0} + ({} - {}) == {0};
    assert Step(s, CloseRest) == ABANDONED.(main := Finished);
    assert [Return, CloseRest][1..] == [CloseRest];
    assert Run(s, [CloseRest]) == Some(Step(s, CloseRest));
  }
}
