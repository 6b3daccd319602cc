/** The race goes on in time: after a failure at once, after the delay at the latest, without a delay one by one. */
module StaggeredDelay {
  import opened Common
  import opened Staggered

  /** While the race awaits the future of its last attempt the timer runs, if there is a delay; else never. */
  predicate Armed(s: Race)
  {
    && (s.delay && s.main == Waiting && s.next == Pending ==> s.timer)
    && (!s.delay ==> !s.timer && s.fired == {})
  }

  lemma StepArmed(s: Race, e: Event)
    requires Inv(s) && Armed(s) && Enabled(s, e)
    ensures Armed(Step(s, e)) && Step(s, e).delay == s.delay && Step(s, e).n == s.n
  {
  }

  lemma {:induction false} RunArmed(s: Race, events: seq<Event>)
    requires Inv(s) && Armed(s) && Run(s, events).Some?
    ensures var t := Run(s, events).value; Inv(t) && Armed(t) && t.delay == s.delay && t.n == s.n
    decreases |events|
  {
    if events != [] {
      StepKeeps(s, events[0]);
      StepArmed(s, events[0]);
      RunArmed(Step(s, events[0]), events[1..]);
    }
  }

  /** Some schedule of a race with so many attempts, with or without a delay, leads here. */
  ghost predicate Reached(s: Race)
  {
    && |s.exceptions| == |s.attempts|
    && exists s0, events :: Initial(s0) && Run(s0, events) == Some(s)
  }

  lemma ReachedArmed(s: Race)
    requires Reached(s)
    ensures Inv(s) && Armed(s)
  {
    var s0, events :| Initial(s0) && Run(s0, events) == Some(s);
    InitialInv(s0);
    RunArmed(s0, events);
  }

  /** One more attempt was started, and nothing happened to the others. */
  predicate OneMore(s: Race, t: Race)
  {
    t.attempts == s.attempts + [Created] && t.n == s.n
  }

  /** The race, having seen the future resolved, starts the next attempt. */
  lemma WakeStarts(s: Race)
    requires Inv(s) && Enabled(s, Wake) && |s.attempts| < s.n
    ensures var t := Step(s, Wake);
            && |t.exceptions| == |t.attempts| && Enabled(t, Start)
            && OneMore(s, Step(t, Start)) && Step(t, Start).timer == s.delay
  {
  }

  /**
   * In every state that can be reached in which the race waits and attempts are left, with a delay:
   * the timer can fire, or the race can start the next attempt. After the timer it can, whatever the
   * earlier attempts do.
   */
  lemma DelayStartsNext(s: Race)
    requires Reached(s) && s.delay && s.main == Waiting && |s.attempts| < s.n
    ensures Enabled(s, Timer) || Enabled(s, Wake)
    ensures Enabled(s, Timer) ==>
              var t := Step(s, Timer);
              && t.attempts == s.attempts && |t.exceptions| == |t.attempts| && Enabled(t, Wake)
              && var u := Step(t, Wake);
                 |u.exceptions| == |u.attempts| && Enabled(u, Start) && OneMore(s, Step(u, Start))
  {
    ReachedArmed(s);
    if Enabled(s, Timer) {
      TimerKeeps(s);
      WakeStarts(Step(s, Timer));
    }
  }

  /**
   * Once the future is resolved the race can start the next attempt as long as it waits, whatever
   * attempts begin, succeed or fail and whatever tasks it reaps meanwhile.
   */
  lemma ResolvedStays(s: Race, e: Event)
    requires Inv(s) && s.main == Waiting && s.next == Resolved && Enabled(s, e) && e != Wake
    ensures Step(s, e).main == Waiting ==> Enabled(Step(s, e), Wake)
    ensures Step(s, e).main != Waiting ==>
              e == Interrupt || (e.Reap? && s.attempts[e.i] == Succeeded && Step(s, e).winner == Some(e.i))
  {
  }

  lemma {:induction false} ResolvedStaysOn(s: Race, events: seq<Event>)
    requires Inv(s) && s.main == Waiting && s.next == Resolved && Run(s, events).Some?
    requires Wake !in events && Interrupt !in events && Run(s, events).value.winner == None
    ensures Enabled(Run(s, events).value, Wake)
    decreases |events|
  {
    if events != [] {
      StepKeeps(s, events[0]);
      ResolvedStays(s, events[0]);
      if Step(s, events[0]).main == Waiting {
        ResolvedStaysOn(Step(s, events[0]), events[1..]);
      } else {
        WinnerStays(Step(s, events[0]), events[1..]);
      }
    }
  }

  lemma {:induction false} WinnerStays(s: Race, events: seq<Event>)
    requires Inv(s) && s.winner.Some? && Run(s, events).Some?
    ensures Run(s, events).value.winner == s.winner
    decreases |events|
  {
    if events != [] {
      StepKeeps(s, events[0]);
      WinnerStays(Step(s, events[0]), events[1..]);
    }
  }

  /** The last attempt fails while the race waits for it: the race can start the next one at once. */
  lemma FailureStartsNext(s: Race, e: Event)
    requires Reached(s) && s.main == Waiting && s.next == Pending && Enabled(s, e)
    requires (e.Fails? || e.BeginFails?) && e.i == |s.attempts| - 1
    ensures Enabled(Step(s, e), Wake)
  {
    ReachedArmed(s);
  }

  /** An attempt that succeeded ends the race as soon as the race sees it, as the winner. */
  lemma SuccessWins(s: Race, i: nat)
    requires Reached(s) && s.main == Waiting && Is(s, i, Succeeded)
    ensures Enabled(s, Reap(i)) && Step(s, Reap(i)).winner == Some(i) && Step(s, Reap(i)).main.Cleaning?
  {
    ReachedArmed(s);
  }

  /** Without a delay each attempt is started only after all before it failed. */
  lemma OneByOne(s: Race, k: nat)
    requires Reached(s) && !s.delay && k < |s.attempts| - 1
    ensures s.attempts[k] == Failed
  {
    ReachedArmed(s);
  }
}
