/** The race always ends: no reachable state is stuck, and no schedule goes on for ever. */
module StaggeredEnds {
  import opened Common
  import opened Staggered

  function Weight(t: Status): nat
  {
    match t
    case Created => 2
    case Running => 1
    case _ => 0
  }

  function Work(attempts: seq<Status>): nat
  {
    if attempts == [] then 0 else Weight(attempts[0]) + Work(attempts[1..])
  }

  lemma {:induction false} WorkAppend(a: seq<Status>, t: Status)
    ensures Work(a + [t]) == Work(a) + Weight(t)
  {
    if a == [] {
      assert a + [t] == [t];
    } else {
      assert (a + [t])[1..] == a[1..] + [t];
      WorkAppend(a[1..], t);
    }
  }

  lemma {:induction false} WorkUpdate(a: seq<Status>, i: nat, t: Status)
    requires i < |a|
    ensures Work(a[i := t]) == Work(a) - Weight(a[i]) + Weight(t)
  {
    if i == 0 {
      assert a[i := t][1..] == a[1..];
    } else {
      assert a[i := t][1..] == a[1..][i - 1 := t];
      WorkUpdate(a[1..], i - 1, t);
    }
  }

  lemma {:induction false} WorkBound(a: seq<Status>)
    ensures Work(a) <= 2 * |a|
  {
    if a != [] {
      WorkBound(a[1..]);
    }
  }

  /** A set of indices is no larger than their range. */
  lemma {:induction false} IndexCount(s: set<nat>, n: nat)
    requires forall i :: i in s ==> i < n
    ensures |s| <= n
  {
    if n > 0 {
      IndexCount(s - {n - 1}, n - 1);
    } else {
      assert s == {};
    }
  }

  function FutureWeight(next: StartNext): nat
  {
    match next
    case Gone => 0
    case Resolved => 2
    case Pending => 3
  }

  function Stage(s: Race): nat
  {
    match s.main
    case Starting => 3
    case Waiting => 3
    case Cleaning(_, _) => 2
    case Returned => 1
    case Finished => 0
  }

  /** What is left to do within the stage. */
  function Inner(s: Race): int
  {
    Work(s.attempts) +
    match s.main
    case Starting => 12 * (s.n - |s.attempts|) + 3 * |s.tasks| + 1
    case Waiting => 12 * (s.n - |s.attempts|) + 3 * |s.tasks| + FutureWeight(s.next) + (if s.timer then 1 else 0)
    case Cleaning(left, awaited) => 2 * |left| - (if awaited.Some? then 1 else 0)
    case _ => 0
  }

  function Bound(n: nat): nat { 20 * n + 10 }

  function Measure(s: Race): int { Stage(s) * Bound(s.n) + Inner(s) }

  lemma InnerBounds(s: Race)
    requires Inv(s)
    ensures 0 <= Inner(s) < Bound(s.n)
  {
    WorkBound(s.attempts);
    IndexCount(s.tasks, |s.attempts|);
    if s.main.Cleaning? {
      IndexCount(s.main.left, |s.attempts|);
      if s.main.awaited.Some? {
        assert s.main.left != {};
      }
    }
  }

  /** A later stage, or less to do in the same one. */
  predicate Progress(s: Race, t: Race)
  {
    Stage(t) < Stage(s) || (Stage(t) == Stage(s) && Inner(t) < Inner(s))
  }

  /** Steps of attempts take work away. */
  lemma AttemptSteps(s: Race, e: Event)
    requires Inv(s) && Enabled(s, e)
    requires e.Begin? || e.BeginFails? || e.Succeeds? || e.Fails? || e.Drops?
    ensures Progress(s, Step(s, e))
  {
    var t := Step(s, e);
    WorkUpdate(s.attempts, e.i, t.attempts[e.i]);
    assert t.attempts == s.attempts[e.i := t.attempts[e.i]];
    assert t.tasks == s.tasks && t.main == s.main && t.timer == s.timer;
  }

  lemma LoopSteps(s: Race, e: Event)
    requires Inv(s) && Enabled(s, e) && (e.Start? || e.Timer? || e.Wake?)
    ensures Progress(s, Step(s, e))
  {
    if e.Start? && |s.attempts| < s.n {
      WorkAppend(s.attempts, Created);
      assert |s.attempts| !in s.tasks;
      assert |s.tasks + {|s.attempts|}| == |s.tasks| + 1;
    }
  }

  lemma ReapSteps(s: Race, i: nat)
    requires Inv(s) && Enabled(s, Reap(i))
    ensures Progress(s, Step(s, Reap(i)))
  {
    var t := Step(s, Reap(i));
    assert |s.tasks - {i}| == |s.tasks| - 1;
    assert t.attempts == s.attempts && t.tasks == s.tasks - {i} && t.n == s.n;
  }

  lemma CleaningSteps(s: Race, e: Event)
    requires Inv(s) && Enabled(s, e) && (e.Cancel? || e.Join? || e.Skip?)
    ensures Progress(s, Step(s, e))
  {
    var t := Step(s, e);
    assert t.attempts == s.attempts;
    if !e.Cancel? {
      assert |s.main.left - {e.i}| == |s.main.left| - 1;
    }
  }

  lemma StepProgresses(s: Race, e: Event)
    requires Inv(s) && Enabled(s, e)
    ensures Progress(s, Step(s, e))
  {
    match e
    case Start => LoopSteps(s, e);
    case Timer => LoopSteps(s, e);
    case Wake => LoopSteps(s, e);
    case Reap(i) => ReapSteps(s, i);
    case Cancel(_) => CleaningSteps(s, e);
    case Join(_) => CleaningSteps(s, e);
    case Skip(_) => CleaningSteps(s, e);
    case Interrupt =>
    case Return =>
    case CloseRest =>
    case _ => AttemptSteps(s, e);
  }

  lemma StepDecreases(s: Race, e: Event)
    requires Inv(s) && Enabled(s, e)
    ensures Measure(Step(s, e)) < Measure(s)
  {
    var t := Step(s, e);
    assert Inv(t) by { StepKeeps(s, e); }
    InnerBounds(s);
    InnerBounds(t);
    StepProgresses(s, e);
    assert t.n == s.n;
    StageStep(Stage(s), Stage(t), Inner(s), Inner(t), Bound(s.n));
  }

  lemma StageStep(a: nat, b: nat, x: int, y: int, bound: nat)
    requires 0 <= x < bound && 0 <= y < bound
    requires b < a || (b == a && y < x)
    ensures b * bound + y < a * bound + x
  {
    if b < a {
      LaterStage(a, b, bound);
    }
  }

  lemma {:induction false} LaterStage(a: nat, b: nat, bound: nat)
    requires b < a
    ensures b * bound + bound <= a * bound
  {
    if b + 1 < a {
      LaterStage(a - 1, b, bound);
    }
    assert a * bound == (a - 1) * bound + bound;
  }

  /** A bound on the length of every schedule. */
  lemma {:induction false} SchedulesAreFinite(s: Race, events: seq<Event>)
    requires Inv(s) && Run(s, events).Some?
    ensures |events| <= Measure(s)
    decreases |events|
  {
    InnerBounds(s);
    if events != [] {
      StepDecreases(s, events[0]);
      StepKeeps(s, events[0]);
      SchedulesAreFinite(Step(s, events[0]), events[1..]);
    }
  }

  /** Until the race is finished something can happen: the race moves, or an attempt it waits for ends. */
  lemma NeverStuck(s: Race) returns (e: Event)
    requires Inv(s) && s.main != Finished
    ensures Enabled(s, e)
  {
    match s.main
    case Starting => e := Start;
    case Waiting =>
      if s.next == Resolved {
        e := Wake;
      } else {
        var i :| i in s.tasks;
        e := EndOf(s, i);
        if Over(s, i) {
          e := Reap(i);
        }
      }
    case Cleaning(left, awaited) =>
      if awaited.Some? {
        e := if Over(s, awaited.value) then Join(awaited.value) else EndOf(s, awaited.value);
      } else if left != {} {
        var i :| i in left;
        e := Cancel(i);
      } else {
        e := Return;
      }
    case Returned => e := CloseRest;
  }

  /** How a task that is not over may go on. */
  function EndOf(s: Race, i: nat): Event
    requires i < |s.attempts|
  {
    if s.attempts[i] == Running then Fails(i) else if i in s.requested then Drops(i) else Begin(i)
  }

  lemma StuckIsFinished(s: Race)
    requires Inv(s) && forall e :: !Enabled(s, e)
    ensures s.main == Finished
  {
    if s.main != Finished {
      var e := NeverStuck(s);
    }
  }

  lemma InitialMeasure(s: Race)
    requires Initial(s)
    ensures Measure(s) <= 80 * s.n + 40
  {
  }

  /**
   * From the beginning, every schedule is at most 80n + 40 steps long, and one that cannot be
   * extended has finished, with everything the race promises.
   */
  lemma RaceEnds(s: Race, events: seq<Event>)
    requires Initial(s) && Run(s, events).Some?
    ensures |events| <= 80 * s.n + 40
    ensures var t := Run(s, events).value;
            (forall e :: !Enabled(t, e)) ==> t.main == Finished && Promises(t)
  {
    var t := Run(s, events).value;
    InitialMeasure(s);
    assert Inv(s) by { InitialInv(s); }
    assert Inv(t) by { RunKeeps(s, events); }
    SchedulesAreFinite(s, events);
    RaceIsSafe(s, events);
    if forall e :: !Enabled(t, e) {
      StuckIsFinished(t);
    }
  }
}
