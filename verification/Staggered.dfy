/**
 * The staggered race of connection attempts as a step system: every await of the race, of its
 * attempts and of the caller that closes the losers' sockets is a point where anything enabled
 * may happen next.
 */
module Staggered {
  import opened Common

  datatype Status =
    | Created    // its task exists, its first step was not taken
    | Running    // its socket is open, it is connecting
    | Failed     // it ended with an exception
    | Succeeded  // it ended with a connected socket
    | Dropped    // its task was cancelled before its first step

  /** The future that starts the next attempt. */
  datatype StartNext = Gone | Pending | Resolved

  datatype Main =
    | Starting                                             // about to fetch the next attempt
    | Waiting                                              // awaiting the first of tasks and future
    | Cleaning(left: set<nat>, awaited: Option<nat>)       // the finally block of the race
    | Returned                                             // the race is over
    | Finished                                             // the caller closed the other sockets

  datatype Race = Race(
    n: nat,                // how many attempts there are
    delay: bool,           // whether a delay is given
    attempts: seq<Status>, // the started ones
    exceptions: seq<bool>, // whether the entry is set
    tasks: set<nat>,       // tasks not reaped
    next: StartNext,       // the future of the last attempt
    timer: bool,
    main: Main,
    winner: Option<nat>,
    raised: bool,          // the race ends by being cancelled
    requested: set<nat>,   // tasks asked to cancel
    fired: set<int>,       // attempts whose timer fired
    sockets: set<nat>,     // attempts that opened a socket
    registry: set<nat>,    // open_sockets
    closed: set<nat>
  )

  predicate Initial(s: Race)
  {
    && s.attempts == [] && s.exceptions == [] && s.tasks == {} && s.next == Gone && !s.timer
    && s.main == Starting && s.winner == None && !s.raised && s.requested == {} && s.fired == {}
    && s.sockets == {} && s.registry == {} && s.closed == {}
  }

  datatype Event =
    | Start                // the race fetches the next attempt, or finds none
    | Begin(i: nat)        // attempt i opens its socket
    | BeginFails(i: nat)   // it cannot
    | Succeeds(i: nat)
    | Fails(i: nat)        // also: it is cancelled while connecting
    | Drops(i: nat)
    | Timer
    | Wake                 // the race sees the future resolved
    | Reap(i: nat)         // the race sees task i done
    | Interrupt            // the race is cancelled
    | Cancel(i: nat)       // cleaning up: task i is cancelled
    | Join(i: nat)         // cleaning up: task i was awaited
    | Skip(i: nat)         // cleaning up: the await of task i was cut short by a cancellation
    | Return
    | CloseRest

  predicate Is(s: Race, i: nat, t: Status) { i < |s.attempts| && s.attempts[i] == t }

  predicate Over(s: Race, i: nat)
  {
    i < |s.attempts| && s.attempts[i] != Created && s.attempts[i] != Running
  }

  predicate Enabled(s: Race, e: Event)
  {
    match e
    case Start => s.main == Starting
    case Begin(i) => Is(s, i, Created) && i !in s.requested
    case BeginFails(i) => Is(s, i, Created) && i !in s.requested
    case Succeeds(i) => Is(s, i, Running) && i !in s.requested
    case Fails(i) => Is(s, i, Running)
    case Drops(i) => Is(s, i, Created) && i in s.requested
    case Timer => s.timer
    case Wake => s.main == Waiting && s.next == Resolved
    case Reap(i) => s.main == Waiting && i in s.tasks && Over(s, i)
    case Interrupt => s.main == Waiting
    case Cancel(i) => s.main.Cleaning? && s.main.awaited == None && i in s.main.left
    case Join(i) => s.main.Cleaning? && s.main.awaited == Some(i) && Over(s, i)
    case Skip(i) => s.main.Cleaning? && s.main.awaited == Some(i)
    case Return => s.main.Cleaning? && s.main.awaited == None && s.main.left == {}
    case CloseRest => s.main == Returned
  }

  /** Attempt i ends with an exception: its entry is set and the future of its successor resolved. */
  function Fail(s: Race, i: nat): Race
    requires i < |s.attempts| == |s.exceptions|
  {
    s.(attempts := s.attempts[i := Failed],
       exceptions := s.exceptions[i := true],
       next := if s.next == Pending && i == |s.attempts| - 1 then Resolved else s.next)
  }

  /** The finally block: the timer is cancelled and the tasks left are to be. */
  function CleanUp(s: Race, winner: Option<nat>, raised: bool): Race
  {
    s.(main := Cleaning(s.tasks, None), timer := false, winner := winner, raised := raised)
  }

  function Step(s: Race, e: Event): Race
    requires Enabled(s, e) && |s.exceptions| == |s.attempts|
  {
    match e
    case Start =>
      if |s.attempts| < s.n then
        s.(attempts := s.attempts + [Created], exceptions := s.exceptions + [false],
           tasks := s.tasks + {|s.attempts|}, next := Pending, timer := s.delay, main := Waiting)
      else if s.tasks == {} then CleanUp(s, None, false)
      else s.(main := Waiting)
    case Begin(i) =>
      s.(attempts := s.attempts[i := Running], sockets := s.sockets + {i}, registry := s.registry + {i})
    case BeginFails(i) => Fail(s, i)
    case Succeeds(i) => s.(attempts := s.attempts[i := Succeeded])
    case Fails(i) => Fail(s, i).(registry := s.registry - {i}, closed := s.closed + {i})
    case Drops(i) => s.(attempts := s.attempts[i := Dropped])
    case Timer =>
      s.(timer := false, next := if s.next == Pending then Resolved else s.next,
         fired := s.fired + {|s.attempts| - 1})
    case Wake => s.(next := Gone, timer := false, main := Starting)
    case Reap(i) =>
      var t := s.(tasks := s.tasks - {i});
      if s.attempts[i] == Succeeded then CleanUp(t, Some(i), false)
      else if t.tasks == {} && t.next == Gone then t.(main := Starting)
      else t
    case Interrupt => CleanUp(s, None, true)
    case Cancel(i) =>
      s.(main := s.main.(awaited := Some(i)),
         requested := if Over(s, i) then s.requested else s.requested + {i})
    case Join(i) => s.(main := Cleaning(s.main.left - {i}, None))
    case Skip(i) => s.(main := Cleaning(s.main.left - {i}, None))
    case Return => s.(main := Returned)
    case CloseRest =>
      s.(main := Finished,
         closed := s.closed + (s.registry - (if s.winner.Some? then {s.winner.value} else {})))
  }

  function Run(s: Race, events: seq<Event>): Option<Race>
    decreases |events|
  {
    if events == [] then Some(s)
    else if !Enabled(s, events[0]) || |s.exceptions| != |s.attempts| then None
    else Run(Step(s, events[0]), events[1..])
  }

  predicate InLoop(s: Race) { s.main == Starting || s.main == Waiting }

  predicate StillLeft(s: Race, i: nat) { s.main.Cleaning? && i in s.main.left }

  /** The bookkeeping of attempts, exceptions and tasks. */
  predicate Counted(s: Race)
  {
    && |s.exceptions| == |s.attempts| <= s.n
    && (forall i :: i in s.tasks ==> i < |s.attempts|)
    && (forall i :: 0 <= i < |s.attempts| ==> (s.exceptions[i] <==> s.attempts[i] == Failed))
    && (forall i :: 0 <= i < |s.attempts| && s.attempts[i] == Dropped ==> i in s.requested)
    && (InLoop(s) ==> s.requested == {})
    && (InLoop(s) ==> forall i :: 0 <= i < |s.attempts| && i !in s.tasks ==> s.attempts[i] == Failed)
    && (s.main.Cleaning? ==> s.main.left <= s.tasks)
    && (s.main.Cleaning? && s.main.awaited.Some? ==> s.main.awaited.value in s.main.left)
    && (s.main.Cleaning? && s.main.awaited.Some? && !Over(s, s.main.awaited.value) ==>
          s.main.awaited.value in s.requested)
    && (s.timer ==> s.attempts != [] && s.main == Waiting && s.next != Gone)
    && (!InLoop(s) ==> forall i :: 0 <= i < |s.attempts| && !Over(s, i) ==> i in s.requested || StillLeft(s, i))
  }

  /** The successor of attempt k may start: k failed, or its timer fired. */
  predicate MayFollow(s: Race, k: int)
  {
    0 <= k < |s.attempts| && s.attempts[k] != Failed ==> k in s.fired
  }

  predicate Staggering(s: Race)
  {
    && (forall k :: 0 <= k < |s.attempts| - 1 && s.attempts[k] != Failed ==> k in s.fired)
    && (InLoop(s) && s.next != Gone ==> s.main == Waiting && s.attempts != [])
    && (InLoop(s) && s.attempts != [] && s.next != Pending ==> MayFollow(s, |s.attempts| - 1))
    && (s.main == Waiting && s.next == Pending ==> s.attempts[|s.attempts| - 1] != Failed)
    && (s.main == Waiting ==> s.tasks != {} || s.next == Resolved)
    && (s.main == Waiting && s.next == Gone ==> |s.attempts| == s.n)
  }

  predicate HasSocket(s: Race, i: nat) { Is(s, i, Running) || Is(s, i, Succeeded) }

  predicate Sockets(s: Race)
  {
    && (forall i :: i in s.registry ==> HasSocket(s, i))
    && (forall i :: 0 <= i < |s.attempts| && HasSocket(s, i) ==> i in s.registry)
    && s.registry <= s.sockets
    && s.sockets <= s.registry + s.closed
    && (s.main != Finished ==> s.registry !! s.closed)
    && (forall i :: i in s.closed ==> i < |s.attempts| && s.attempts[i] != Created)
  }

  predicate Decided(s: Race)
  {
    && (InLoop(s) ==> s.winner == None && !s.raised)
    && (s.winner.Some? ==> Is(s, s.winner.value, Succeeded) && s.winner.value !in s.closed && !s.raised)
    && (!InLoop(s) && s.winner == None && !s.raised ==>
          |s.attempts| == s.n && forall i :: 0 <= i < |s.attempts| ==> s.attempts[i] == Failed)
    && (s.main == Finished ==>
          s.sockets - (if s.winner.Some? then {s.winner.value} else {}) <= s.closed)
  }

  predicate Inv(s: Race) { Counted(s) && Staggering(s) && Sockets(s) && Decided(s) }

  /** The next attempt was fetched. */
  lemma LaunchCounted(s: Race, t: Race)
    requires Counted(s) && s.main == Starting && |s.attempts| < s.n
    requires t == s.(attempts := s.attempts + [Created], exceptions := s.exceptions + [false],
                     tasks := s.tasks + {|s.attempts|}, next := Pending, timer := s.delay, main := Waiting)
    ensures Counted(t)
  {
  }

  lemma StartCounted(s: Race)
    requires Inv(s) && Enabled(s, Start)
    ensures Counted(Step(s, Start))
  {
    if |s.attempts| < s.n {
      LaunchCounted(s, Step(s, Start));
    }
  }

  lemma StartStaggering(s: Race)
    requires Inv(s) && Enabled(s, Start)
    ensures Staggering(Step(s, Start))
  {
  }

  lemma StartSockets(s: Race)
    requires Inv(s) && Enabled(s, Start)
    ensures Sockets(Step(s, Start))
  {
    var t := Step(s, Start);
    assert forall k :: HasSocket(t, k) <==> HasSocket(s, k);
  }

  lemma StartDecided(s: Race)
    requires Inv(s) && Enabled(s, Start)
    ensures Decided(Step(s, Start))
  {
  }

  lemma StartKeeps(s: Race)
    requires Inv(s) && Enabled(s, Start)
    ensures Inv(Step(s, Start))
  {
    StartCounted(s);
    StartStaggering(s);
    StartSockets(s);
    StartDecided(s);
  }

  lemma BeginCounted(s: Race, i: nat)
    requires Inv(s) && Enabled(s, Begin(i))
    ensures Counted(Step(s, Begin(i)))
  {
  }

  lemma BeginStaggering(s: Race, i: nat)
    requires Inv(s) && Enabled(s, Begin(i))
    ensures Staggering(Step(s, Begin(i)))
  {
  }

  lemma BeginSockets(s: Race, i: nat)
    requires Inv(s) && Enabled(s, Begin(i))
    ensures Sockets(Step(s, Begin(i)))
  {
  }

  lemma BeginDecided(s: Race, i: nat)
    requires Inv(s) && Enabled(s, Begin(i))
    ensures Decided(Step(s, Begin(i)))
  {
  }

  lemma BeginKeeps(s: Race, i: nat)
    requires Inv(s) && Enabled(s, Begin(i))
    ensures Inv(Step(s, Begin(i)))
  {
    BeginCounted(s, i);
    BeginStaggering(s, i);
    BeginSockets(s, i);
    BeginDecided(s, i);
  }

  lemma BeginFailsCounted(s: Race, i: nat)
    requires Inv(s) && Enabled(s, BeginFails(i))
    ensures Counted(Step(s, BeginFails(i)))
  {
  }

  lemma BeginFailsStaggering(s: Race, i: nat)
    requires Inv(s) && Enabled(s, BeginFails(i))
    ensures Staggering(Step(s, BeginFails(i)))
  {
  }

  lemma BeginFailsSockets(s: Race, i: nat)
    requires Inv(s) && Enabled(s, BeginFails(i))
    ensures Sockets(Step(s, BeginFails(i)))
  {
  }

  lemma BeginFailsDecided(s: Race, i: nat)
    requires Inv(s) && Enabled(s, BeginFails(i))
    ensures Decided(Step(s, BeginFails(i)))
  {
  }

  lemma BeginFailsKeeps(s: Race, i: nat)
    requires Inv(s) && Enabled(s, BeginFails(i))
    ensures Inv(Step(s, BeginFails(i)))
  {
    BeginFailsCounted(s, i);
    BeginFailsStaggering(s, i);
    BeginFailsSockets(s, i);
    BeginFailsDecided(s, i);
  }

  lemma SucceedsCounted(s: Race, i: nat)
    requires Inv(s) && Enabled(s, Succeeds(i))
    ensures Counted(Step(s, Succeeds(i)))
  {
  }

  lemma SucceedsStaggering(s: Race, i: nat)
    requires Inv(s) && Enabled(s, Succeeds(i))
    ensures Staggering(Step(s, Succeeds(i)))
  {
  }

  lemma SucceedsSockets(s: Race, i: nat)
    requires Inv(s) && Enabled(s, Succeeds(i))
    ensures Sockets(Step(s, Succeeds(i)))
  {
  }

  lemma SucceedsDecided(s: Race, i: nat)
    requires Inv(s) && Enabled(s, Succeeds(i))
    ensures Decided(Step(s, Succeeds(i)))
  {
  }

  lemma SucceedsKeeps(s: Race, i: nat)
    requires Inv(s) && Enabled(s, Succeeds(i))
    ensures Inv(Step(s, Succeeds(i)))
  {
    SucceedsCounted(s, i);
    SucceedsStaggering(s, i);
    SucceedsSockets(s, i);
    SucceedsDecided(s, i);
  }

  lemma FailsCounted(s: Race, i: nat)
    requires Inv(s) && Enabled(s, Fails(i))
    ensures Counted(Step(s, Fails(i)))
  {
  }

  lemma FailsStaggering(s: Race, i: nat)
    requires Inv(s) && Enabled(s, Fails(i))
    ensures Staggering(Step(s, Fails(i)))
  {
  }

  lemma FailsSockets(s: Race, i: nat)
    requires Inv(s) && Enabled(s, Fails(i))
    ensures Sockets(Step(s, Fails(i)))
  {
  }

  lemma FailsDecided(s: Race, i: nat)
    requires Inv(s) && Enabled(s, Fails(i))
    ensures Decided(Step(s, Fails(i)))
  {
  }

  lemma FailsKeeps(s: Race, i: nat)
    requires Inv(s) && Enabled(s, Fails(i))
    ensures Inv(Step(s, Fails(i)))
  {
    FailsCounted(s, i);
    FailsStaggering(s, i);
    FailsSockets(s, i);
    FailsDecided(s, i);
  }

  lemma DropsKeeps(s: Race, i: nat)
    requires Inv(s) && Enabled(s, Drops(i))
    ensures Inv(Step(s, Drops(i)))
  {
  }

  lemma TimerKeeps(s: Race)
    requires Inv(s) && Enabled(s, Timer)
    ensures Inv(Step(s, Timer))
  {
  }

  lemma WakeKeeps(s: Race)
    requires Inv(s) && Enabled(s, Wake)
    ensures Inv(Step(s, Wake))
  {
  }

  lemma ReapCounted(s: Race, i: nat)
    requires Inv(s) && Enabled(s, Reap(i))
    ensures Counted(Step(s, Reap(i)))
  {
    var t := Step(s, Reap(i));
    assert t.tasks == s.tasks - {i} && t.attempts == s.attempts && t.exceptions == s.exceptions;
    if s.attempts[i] == Succeeded {
      assert t.main == Cleaning(t.tasks, None) && !t.timer;
    } else {
      assert s.attempts[i] == Failed && t.requested == {};
    }
  }

  lemma ReapStaggering(s: Race, i: nat)
    requires Inv(s) && Enabled(s, Reap(i))
    ensures Staggering(Step(s, Reap(i)))
  {
    if s.next == Pending {
      var last := |s.attempts| - 1;
      if last != i {
        assert last in Step(s, Reap(i)).tasks;
      } else {
        assert s.attempts[i] == Succeeded;
      }
    }
  }

  lemma ReapSockets(s: Race, i: nat)
    requires Inv(s) && Enabled(s, Reap(i))
    ensures Sockets(Step(s, Reap(i)))
  {
    var t := Step(s, Reap(i));
    assert t.attempts == s.attempts && t.registry == s.registry && t.sockets == s.sockets && t.closed == s.closed;
    assert forall k :: HasSocket(t, k) <==> HasSocket(s, k);
  }

  lemma ReapDecided(s: Race, i: nat)
    requires Inv(s) && Enabled(s, Reap(i))
    ensures Decided(Step(s, Reap(i)))
  {
  }

  lemma ReapKeeps(s: Race, i: nat)
    requires Inv(s) && Enabled(s, Reap(i))
    ensures Inv(Step(s, Reap(i)))
  {
    ReapCounted(s, i);
    ReapStaggering(s, i);
    ReapSockets(s, i);
    ReapDecided(s, i);
  }

  lemma InterruptKeeps(s: Race)
    requires Inv(s) && Enabled(s, Interrupt)
    ensures Inv(Step(s, Interrupt))
  {
  }

  lemma CancelKeeps(s: Race, i: nat)
    requires Inv(s) && Enabled(s, Cancel(i))
    ensures Inv(Step(s, Cancel(i)))
  {
  }

  lemma JoinKeeps(s: Race, i: nat)
    requires Inv(s) && Enabled(s, Join(i))
    ensures Inv(Step(s, Join(i)))
  {
  }

  lemma SkipKeeps(s: Race, i: nat)
    requires Inv(s) && Enabled(s, Skip(i))
    ensures Inv(Step(s, Skip(i)))
  {
  }

  lemma ReturnKeeps(s: Race)
    requires Inv(s) && Enabled(s, Return)
    ensures Inv(Step(s, Return))
  {
  }

  lemma CloseRestKeeps(s: Race)
    requires Inv(s) && Enabled(s, CloseRest)
    ensures Inv(Step(s, CloseRest))
  {
  }

  lemma StepKeeps(s: Race, e: Event)
    requires Inv(s) && Enabled(s, e)
    ensures Inv(Step(s, e))
  {
    match e
    case Start => StartKeeps(s);
    case Begin(i) => BeginKeeps(s, i);
    case BeginFails(i) => BeginFailsKeeps(s, i);
    case Succeeds(i) => SucceedsKeeps(s, i);
    case Fails(i) => FailsKeeps(s, i);
    case Drops(i) => DropsKeeps(s, i);
    case Timer => TimerKeeps(s);
    case Wake => WakeKeeps(s);
    case Reap(i) => ReapKeeps(s, i);
    case Interrupt => InterruptKeeps(s);
    case Cancel(i) => CancelKeeps(s, i);
    case Join(i) => JoinKeeps(s, i);
    case Skip(i) => SkipKeeps(s, i);
    case Return => ReturnKeeps(s);
    case CloseRest => CloseRestKeeps(s);
  }

  lemma InitialInv(s: Race)
    requires Initial(s)
    ensures Inv(s)
  {
  }

  /** What every step of every schedule keeps. */
  lemma {:induction false} RunKeeps(s: Race, events: seq<Event>)
    requires Inv(s) && Run(s, events).Some?
    ensures Inv(Run(s, events).value)
    decreases |events|
  {
    if events != [] {
      StepKeeps(s, events[0]);
      RunKeeps(Step(s, events[0]), events[1..]);
    }
  }

  /** What the race and its caller promise, at every moment and in the end. */
  predicate Promises(s: Race)
  {
    // as many entries as started attempts, a set one for each that failed, None for the winner
    && |s.exceptions| == |s.attempts| <= s.n
    && (s.winner.Some? ==> s.winner.value < |s.attempts| && !s.exceptions[s.winner.value])
    // each attempt but the first was started after its predecessor failed or its timer fired
    && (forall k :: 0 <= k < |s.attempts| - 1 && !s.exceptions[k] ==> k in s.fired)
    // no winner and no cancellation: all were started, all failed
    && (s.main == Finished && s.winner == None && !s.raised ==>
          |s.attempts| == s.n && forall k :: 0 <= k < s.n ==> s.exceptions[k])
    // the sockets: all but the winner's are closed, the winner's is not
    && (s.main == Finished ==> forall i :: i in s.sockets && s.winner != Some(i) ==> i in s.closed)
    && (s.winner.Some? ==> s.winner.value in s.sockets && s.winner.value !in s.closed)
  }

  /** On every schedule. */
  lemma RaceIsSafe(s: Race, events: seq<Event>)
    requires Initial(s) && Run(s, events).Some?
    ensures Promises(Run(s, events).value)
  {
    InitialInv(s);
    RunKeeps(s, events);
  }

  /** A successor starts only in a state in which its predecessor failed or its timer fired. */
  lemma StartsInOrder(s: Race, events: seq<Event>)
    requires Initial(s) && Run(s, events).Some? && Run(s, events).value.main == Starting
    ensures var t := Run(s, events).value;
            t.attempts != [] ==> MayFollow(t, |t.attempts| - 1)
  {
    InitialInv(s);
    RunKeeps(s, events);
  }
}
