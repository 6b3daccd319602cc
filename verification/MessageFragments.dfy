/** How the bytes of a connection are cut into calls makes no difference, while its lines are short. */
module MessageFragments {
  import opened Common
  import opened Bytes
  import opened Headers
  import opened PayloadSpec
  import opened Fragmentation
  import opened HeadFraming
  import opened MessageLoop

  /** No body ended in an error. */
  predicate Clean(c: Conn)
  {
    forall i :: 0 <= i < |c.messages| ==> c.messages[i].error.None?
  }

  /** The loop comes to its end, and so do all bodies that end. */
  predicate Accepted(o: CallOutcome) { o.Waits? && Clean(o.c) }

  /** What a cut inside the next line, or anywhere in a chunked body, holds over. */
  predicate FirstPart(cfg: Config, c: Conn, x: bytes)
    requires Good(c)
  {
    match c.stage
    case Heading(_) => Find(x, CRLF, 0) < cfg.limits.maxLine || Find(x, CRLF, 0) < 0
    case Reading(head, Chunked(st), sink) => Short(BodyLimits(cfg, head), st, sink, x)
    case _ => true
  }

  /** Every complete head line is shorter than a first line may be, and every line of a chunked body is short. */
  predicate Fits(cfg: Config, c: Conn, v: Vars, x: bytes)
    requires Good(c)
    decreases |x|
  {
    x == [] ||
    (FirstPart(cfg, c, x) &&
     (TurnIsGood(cfg, c, v, x);
      var t := TurnOfLoop(cfg, c, v, x);
      t.Onward? ==> Fits(cfg, t.c, t.v, t.rest)))
  }

  // ----- one turn -----

  lemma TurnFacts(cfg: Config, c: Conn, v: Vars, x: bytes)
    requires Good(c) && x != []
    ensures match TurnOfLoop(cfg, c, v, x)
            case Onward(d, w, rest) =>
              Good(d) && |rest| < |x| && Loop(cfg, c, v, x) == Loop(cfg, d, w, rest)
              && (Fits(cfg, c, v, x) <==> FirstPart(cfg, c, x) && Fits(cfg, d, w, rest))
            case Over(o) =>
              && Loop(cfg, c, v, x) == o && (o.Waits? ==> Good(o.c))
              && (Fits(cfg, c, v, x) <==> FirstPart(cfg, c, x))
  {
    TurnIsGood(cfg, c, v, x);
  }

  /** More bytes behind the input do not change a turn that goes on. */
  lemma LoopTurnStable(cfg: Config, c: Conn, v: Vars, a: bytes, b: bytes)
    requires Good(c) && a != [] && TurnOfLoop(cfg, c, v, a).Onward?
    ensures var t := TurnOfLoop(cfg, c, v, a); TurnOfLoop(cfg, c, v, a + b) == t.(rest := t.rest + b)
  {
    match c.stage
    case Heading(_) => LineStable(a, b);
    case Upgraded =>
    case Reading(head, body, sink) =>
      match body
      case Sized(left) => CutInFirst(a, b, left);
      case Chunked(st) => ScanSplit(BodyLimits(cfg, head), st, sink, a, b);
      case Endless =>
  }

  // ----- the variables of a call -----

  /** These variables refuse no line that those accept, if it fits. */
  predicate Milder(cfg: Config, w: Vars, v: Vars)
  {
    (w.closing ==> v.closing) && (w.limit == cfg.limits.maxLine || w.limit == v.limit)
  }

  lemma MilderTurn(cfg: Config, c: Conn, v: Vars, w: Vars, x: bytes)
    requires Good(c) && x != [] && FirstPart(cfg, c, x) && Milder(cfg, w, v)
    requires TurnOfLoop(cfg, c, v, x).Onward?
    ensures var t, u := TurnOfLoop(cfg, c, v, x), TurnOfLoop(cfg, c, w, x);
            u.Onward? && u.c == t.c && u.rest == t.rest && Milder(cfg, u.v, t.v)
  {
  }

  /** In a call that begins here the rest is accepted as it was in the call that went on. */
  lemma {:induction false} VarsAreMoot(cfg: Config, c: Conn, v: Vars, w: Vars, x: bytes)
    requires Good(c) && Accepted(Loop(cfg, c, v, x)) && Fits(cfg, c, v, x) && Milder(cfg, w, v)
    ensures Loop(cfg, c, w, x) == Loop(cfg, c, v, x) && Fits(cfg, c, w, x)
    decreases |x|
  {
    if x != [] {
      var t := TurnOfLoop(cfg, c, v, x);
      TurnFacts(cfg, c, v, x);
      TurnFacts(cfg, c, w, x);
      if t.Onward? {
        MilderTurn(cfg, c, v, w, x);
        VarsAreMoot(cfg, t.c, t.v, TurnOfLoop(cfg, c, w, x).v, t.rest);
      } else {
        LastTurn(cfg, c, v, w, x);
      }
    }
  }

  /** Where a call ends without an error its variables do not matter. */
  lemma LastTurn(cfg: Config, c: Conn, v: Vars, w: Vars, x: bytes)
    requires Good(c) && x != [] && TurnOfLoop(cfg, c, v, x).Over? && TurnOfLoop(cfg, c, v, x).o.Waits?
    ensures TurnOfLoop(cfg, c, w, x) == TurnOfLoop(cfg, c, v, x)
  {
  }

  // ----- two calls for one -----

  /** What is held over is accepted by the next call. */
  predicate TailFits(cfg: Config, c: Conn, tail: bytes)
  {
    c.stage.Reading? && tail != [] ==> |tail| <= BodyTailLimit(cfg, c)
  }

  /** After `a` the connection is in a state from which `b` leads where `a + b` does. */
  ghost predicate GoesOnAs(cfg: Config, c: Conn, v: Vars, a: bytes, b: bytes)
    requires Good(c)
  {
    var o := Loop(cfg, c, v, a);
    && o.Waits? && Good(o.c) && TailFits(cfg, o.c, o.tail)
    && Loop(cfg, o.c, FreshVars(cfg), o.tail + b) == Loop(cfg, c, v, a + b)
    && Fits(cfg, o.c, FreshVars(cfg), o.tail + b)
  }

  lemma {:induction false} LoopSplit(cfg: Config, c: Conn, v: Vars, a: bytes, b: bytes)
    requires Good(c) && b != [] && Accepted(Loop(cfg, c, v, a + b)) && Fits(cfg, c, v, a + b)
    ensures GoesOnAs(cfg, c, v, a, b)
    decreases |a|
  {
    if a == [] {
      assert a + b == b && [] + b == b;
      VarsAreMoot(cfg, c, v, FreshVars(cfg), b);
    } else {
      var t := TurnOfLoop(cfg, c, v, a);
      TurnFacts(cfg, c, v, a);
      TurnFacts(cfg, c, v, a + b);
      if t.Onward? {
        LoopTurnStable(cfg, c, v, a, b);
        LoopSplit(cfg, t.c, t.v, t.rest, b);
      } else {
        match c.stage
        case Heading(_) => SplitHead(cfg, c, v, a, b);
        case Reading(_, _, _) => SplitBody(cfg, c, v, a, b);
        case Upgraded => SplitUpgraded(cfg, c, v, a, b);
      }
    }
  }

  lemma SplitHead(cfg: Config, c: Conn, v: Vars, a: bytes, b: bytes)
    requires Good(c) && a != [] && b != [] && c.stage.Heading? && TurnOfLoop(cfg, c, v, a).Over?
    requires Accepted(Loop(cfg, c, v, a + b)) && Fits(cfg, c, v, a + b)
    ensures GoesOnAs(cfg, c, v, a, b)
  {
    TurnFacts(cfg, c, v, a);
    TurnFacts(cfg, c, v, a + b);
    if Find(a, CRLF, 0) >= 0 {
      LineStable(a, b);
      assert false;
    }
    LineLater(a, b);
    VarsAreMoot(cfg, c, v, FreshVars(cfg), a + b);
  }

  lemma SplitUpgraded(cfg: Config, c: Conn, v: Vars, a: bytes, b: bytes)
    requires Good(c) && a != [] && b != [] && c.stage.Upgraded?
    ensures GoesOnAs(cfg, c, v, a, b)
  {
    var d := c.(handed := c.handed + a);
    TurnFacts(cfg, c, v, a);
    TurnFacts(cfg, c, v, a + b);
    TurnFacts(cfg, d, FreshVars(cfg), b);
    Assoc(c.handed, a, b);
    assert [] + b == b;
  }

  lemma SplitBody(cfg: Config, c: Conn, v: Vars, a: bytes, b: bytes)
    requires Good(c) && a != [] && b != [] && c.stage.Reading? && TurnOfLoop(cfg, c, v, a).Over?
    requires Accepted(Loop(cfg, c, v, a + b)) && Fits(cfg, c, v, a + b)
    ensures GoesOnAs(cfg, c, v, a, b)
  {
    match c.stage.body
    case Sized(_) => SplitSized(cfg, c, v, a, b);
    case Chunked(_) => SplitChunked(cfg, c, v, a, b);
    case Endless => SplitEndless(cfg, c, v, a, b);
  }

  lemma SplitEndless(cfg: Config, c: Conn, v: Vars, a: bytes, b: bytes)
    requires Good(c) && a != [] && b != [] && c.stage.Reading? && c.stage.body.Endless?
    ensures GoesOnAs(cfg, c, v, a, b)
  {
    var d := c.(stage := Reading(c.stage.head, Endless, c.stage.sink.Feed(a)));
    TurnFacts(cfg, c, v, a);
    TurnFacts(cfg, c, v, a + b);
    TurnFacts(cfg, d, FreshVars(cfg), b);
    Assoc(c.stage.sink.data, a, b);
    assert [] + b == b;
  }

  /** The turn of a whole body part, and the one of what is left of it, end alike but for their variables. */
  lemma SameTurn(cfg: Config, c: Conn, v: Vars, x: bytes, d: Conn, y: bytes)
    requires Good(c) && Good(d) && x != [] && y != [] && c.stage.Reading? && d.stage.Reading?
    requires Accepted(Loop(cfg, c, v, x)) && Fits(cfg, c, v, x) && FirstPart(cfg, d, y)
    requires var t, u := TurnOfLoop(cfg, c, v, x), TurnOfLoop(cfg, d, FreshVars(cfg), y);
             if t.Over? then u == t else u == t.(v := FreshVars(cfg)) && t.v == v
    ensures Loop(cfg, d, FreshVars(cfg), y) == Loop(cfg, c, v, x) && Fits(cfg, d, FreshVars(cfg), y)
  {
    TurnFacts(cfg, c, v, x);
    TurnFacts(cfg, d, FreshVars(cfg), y);
    var t := TurnOfLoop(cfg, c, v, x);
    if t.Onward? {
      VarsAreMoot(cfg, t.c, t.v, FreshVars(cfg), t.rest);
    }
  }

  lemma SplitSized(cfg: Config, c: Conn, v: Vars, a: bytes, b: bytes)
    requires Good(c) && a != [] && b != [] && c.stage.Reading? && c.stage.body.Sized? && TurnOfLoop(cfg, c, v, a).Over?
    requires Accepted(Loop(cfg, c, v, a + b)) && Fits(cfg, c, v, a + b)
    ensures GoesOnAs(cfg, c, v, a, b)
  {
    var left, sink := c.stage.body.left, c.stage.sink;
    var d := c.(stage := Reading(c.stage.head, Sized(left - |a|), sink.Feed(a)));
    TurnFacts(cfg, c, v, a);
    assert [] + b == b;
    SizedGoesOn(left, sink, a, b);
    SameTurn(cfg, c, v, a + b, d, b);
  }

  lemma SizedGoesOn(left: nat, sink: Sink, a: bytes, b: bytes)
    requires left > |a|
    ensures FeedLength(left - |a|, sink.Feed(a), b) == FeedLength(left, sink, a + b)
  {
    Assoc(sink.data, a, b);
    if left <= |a + b| {
      CutInSecond(a, b, left - |a|);
      Assoc(sink.data, a, b[..left - |a|]);
    }
  }

  lemma SplitChunked(cfg: Config, c: Conn, v: Vars, a: bytes, b: bytes)
    requires Good(c) && a != [] && b != [] && c.stage.Reading? && c.stage.body.Chunked?
    requires TurnOfLoop(cfg, c, v, a).Over?
    requires Accepted(Loop(cfg, c, v, a + b)) && Fits(cfg, c, v, a + b)
    ensures GoesOnAs(cfg, c, v, a, b)
  {
    var lim, st, sink := BodyLimits(cfg, c.stage.head), c.stage.body.st, c.stage.sink;
    TurnFacts(cfg, c, v, a);
    TurnFacts(cfg, c, v, a + b);
    ScanSplit(lim, st, sink, a, b);
    ScanKeepsOk(lim, st, sink, a);
    ShortFits(lim, st, sink, a, b);
    var o := Scan(lim, st, sink, a);
    if o.Fail? {
      FailureShows(c, c.stage.head, o.sink, o.error);
      assert false;
    }
    var d := c.(stage := Reading(c.stage.head, Chunked(o.st.(tail := [])), o.sink));
    ShortGoesOn(lim, st, sink, a, b);
    SameTurn(cfg, c, v, a + b, d, o.st.tail + b);
  }

  /** A body that ends in an error is not forgotten. */
  lemma FailureShows(c: Conn, head: seq<bytes>, sink: Sink, e: HttpError)
    ensures !Accepted(BodyFails(c, head, sink, e))
  {
    var d := Closed(c, head, sink, Some(e));
    assert d.messages[|c.messages|].error.Some?;
  }

  /** What is left of a short body is short. */
  lemma {:induction false} ShortGoesOn(lim: Limits, st: Parser, sink: Sink, a: bytes, b: bytes)
    requires Ok(st) && st.tail == [] && Short(lim, st, sink, a + b)
    requires Scan(lim, st, sink, a).More? && Ok(Scan(lim, st, sink, a).st)
    ensures var o := Scan(lim, st, sink, a); Short(lim, o.st.(tail := []), o.sink, o.st.tail + b)
    decreases |a|
  {
    if a == [] {
      assert a + b == b && [] + b == b;
    } else {
      ScanTurns(lim, st, sink, a);
      var t := TurnOf(lim, st, sink, a);
      if t.GoesOn? {
        TurnStable(lim, st, sink, a, b);
        ShortGoesOn(lim, t.st, t.sink, t.rest, b);
      } else if st.phase == ChunkBody {
        ShortInBody(lim, st, sink, a, b);
      }
    }
  }

  lemma ShortInBody(lim: Limits, st: Parser, sink: Sink, a: bytes, b: bytes)
    requires Ok(st) && st.tail == [] && st.phase == ChunkBody && a != [] && st.left > |a| && Short(lim, st, sink, a + b)
    ensures Short(lim, st.(left := st.left - |a|), sink.Feed(a), [] + b)
  {
    assert [] + b == b;
    if b != [] {
      TurnInBody(lim, st, sink, a, b);
    }
  }

  lemma TurnInBody(lim: Limits, st: Parser, sink: Sink, a: bytes, b: bytes)
    requires Ok(st) && st.tail == [] && st.phase == ChunkBody && a != [] && b != [] && st.left > |a|
    ensures TurnOf(lim, st.(left := st.left - |a|), sink.Feed(a), b) == TurnOf(lim, st, sink, a + b)
  {
    var k := st.left - |a|;
    if k <= |b| {
      CutInSecond(a, b, k);
      Assoc(sink.data, a, b[..k]);
    }
  }

  // ----- fragments -----

  /** A connection between two calls, with all that is still to come, on the way to this outcome. */
  ghost predicate OnTheWay(cfg: Config, c: Conn, tail: bytes, more: bytes, goal: CallOutcome)
  {
    && Good(c) && TailFits(cfg, c, tail) && Accepted(goal)
    && Loop(cfg, c, FreshVars(cfg), tail + more) == goal && Fits(cfg, c, FreshVars(cfg), tail + more)
  }

  lemma FeedIsLoop(cfg: Config, c: Conn, tail: bytes, f: bytes)
    requires Good(c) && TailFits(cfg, c, tail) && f != []
    ensures FeedConn(cfg, c, tail, f) == Loop(cfg, c, FreshVars(cfg), tail + f)
  {
  }

  lemma {:induction false} FeedRestConn(cfg: Config, c: Conn, tail: bytes, frags: seq<bytes>, goal: CallOutcome)
    requires NonEmpty(frags) && frags != [] && OnTheWay(cfg, c, tail, Flatten(frags), goal)
    ensures FeedAllConn(cfg, c, tail, frags) == goal
    decreases |frags|
  {
    var f, later := frags[0], Flatten(frags[1..]);
    Assoc(tail, f, later);
    FeedIsLoop(cfg, c, tail, f);
    FeedIsGood(cfg, c, tail, f);
    if frags[1..] == [] {
      assert tail + f + later == tail + f;
    } else {
      assert later != [] by { assert frags[1..][0] != []; }
      LoopSplit(cfg, c, FreshVars(cfg), tail + f, later);
      var o := FeedConn(cfg, c, tail, f);
      FeedRestConn(cfg, o.c, o.tail, frags[1..], goal);
    }
  }

  ghost predicate ConnIndependent(cfg: Config, c: Conn, x: bytes)
    requires Good(c)
  {
    forall frags :: NonEmpty(frags) && Flatten(frags) == x ==>
      FeedAllConn(cfg, c, [], frags) == Loop(cfg, c, FreshVars(cfg), x)
  }

  // ----- where a cut shows -----

  /** The bytes of the first turn. */
  lemma LoopTurnAlone(cfg: Config, c: Conn, v: Vars, x: bytes) returns (first: bytes)
    requires Good(c) && x != [] && TurnOfLoop(cfg, c, v, x).Onward?
    ensures var t := TurnOfLoop(cfg, c, v, x);
            first != [] && x == first + t.rest && TurnOfLoop(cfg, c, v, first) == t.(rest := [])
  {
    match c.stage
    case Heading(_) => first := LineAlone(x);
    case Reading(head, body, sink) =>
      match body
      case Sized(left) =>
        first := x[..left];
        assert first[..left] == first;
      case Chunked(st) => first := DoneAlone(BodyLimits(cfg, head), st, sink, x);
  }

  lemma {:induction false} DoneAlone(lim: Limits, st: Parser, sink: Sink, x: bytes) returns (first: bytes)
    requires Ok(st) && st.tail == [] && Scan(lim, st, sink, x).Done?
    ensures first != [] && x == first + Scan(lim, st, sink, x).rest
    ensures Scan(lim, st, sink, first) == Scan(lim, st, sink, x).(rest := [])
    decreases |x|
  {
    ScanTurns(lim, st, sink, x);
    var t := TurnOf(lim, st, sink, x);
    if t.GoesOn? {
      var more := DoneAlone(lim, t.st, t.sink, t.rest);
      var turn := TurnAlone(lim, st, sink, x);
      first := turn + more;
      ScanBehindTurn(lim, st, sink, turn, more);
      Assoc(turn, more, Scan(lim, st, sink, x).rest);
    } else {
      first := LineAlone(x);
    }
  }

  /** Behind the first part too much is held over, or it is refused. */
  ghost predicate Breaks(cfg: Config, c: Conn, v: Vars, a: bytes)
    requires Good(c)
  {
    var o := Loop(cfg, c, v, a);
    o.Raises? || (Good(o.c) && !TailFits(cfg, o.c, o.tail))
  }

  lemma {:induction false} BreakingCut(cfg: Config, c: Conn, v: Vars, x: bytes) returns (a: bytes, b: bytes)
    requires Good(c) && !Fits(cfg, c, v, x)
    ensures a != [] && b != [] && x == a + b && Breaks(cfg, c, v, a)
    decreases |x|
  {
    TurnFacts(cfg, c, v, x);
    if !FirstPart(cfg, c, x) {
      if c.stage.Heading? {
        a, b := HeadCut(cfg, c, v, x);
      } else {
        a, b := BodyCut(cfg, c, v, x);
      }
    } else {
      var t := TurnOfLoop(cfg, c, v, x);
      a, b := BreakingCut(cfg, t.c, t.v, t.rest);
      var first := LoopTurnAlone(cfg, c, v, x);
      BreaksBehind(cfg, c, v, first, a);
      Assoc(first, a, b);
      a := first + a;
    }
  }

  lemma BreaksBehind(cfg: Config, c: Conn, v: Vars, first: bytes, a: bytes)
    requires Good(c) && first != [] && TurnOfLoop(cfg, c, v, first).Onward? && TurnOfLoop(cfg, c, v, first).rest == []
    requires var t := TurnOfLoop(cfg, c, v, first); Good(t.c) && Breaks(cfg, t.c, t.v, a)
    ensures Breaks(cfg, c, v, first + a)
  {
    LoopTurnStable(cfg, c, v, first, a);
    TurnFacts(cfg, c, v, first + a);
    assert [] + a == a;
  }

  lemma HeadCut(cfg: Config, c: Conn, v: Vars, x: bytes) returns (a: bytes, b: bytes)
    requires Good(c) && c.stage.Heading? && x != [] && !FirstPart(cfg, c, x)
    ensures a != [] && b != [] && x == a + b && Breaks(cfg, c, v, a)
  {
    var n := Find(x, CRLF, 0) + 1;
    NoLineIn(x, n);
    a, b := x[..n], x[n..];
    TurnFacts(cfg, c, v, a);
  }

  lemma BodyCut(cfg: Config, c: Conn, v: Vars, x: bytes) returns (a: bytes, b: bytes)
    requires Good(c) && c.stage.Reading? && x != [] && !FirstPart(cfg, c, x)
    ensures a != [] && b != [] && x == a + b && Breaks(cfg, c, v, a)
  {
    var lim, st, sink := BodyLimits(cfg, c.stage.head), c.stage.body.st, c.stage.sink;
    a, b := LongCut(lim, st, sink, x);
    ScanKeepsOk(lim, st, sink, a);
    TurnFacts(cfg, c, v, a);
  }

  lemma CutShowsConn(cfg: Config, c: Conn, a: bytes, b: bytes)
    requires Good(c) && a != [] && b != [] && Breaks(cfg, c, FreshVars(cfg), a)
    ensures !Accepted(FeedAllConn(cfg, c, [], [a, b]))
  {
    var o := FeedConn(cfg, c, [], a);
    assert [] + a == a;
    FeedIsGood(cfg, c, [], a);
    assert [a, b][1..] == [b] && [b][1..] == [];
    if o.Waits? {
      FailureShows(o.c, o.c.stage.head, o.c.stage.sink, LineTooLong);
      OneCall(cfg, o.c, o.tail, b);
      assert FeedAllConn(cfg, c, [], [a, b]) == FeedAllConn(cfg, o.c, o.tail, [b]);
    }
  }

  lemma OneCall(cfg: Config, c: Conn, tail: bytes, b: bytes)
    requires Good(c)
    ensures FeedAllConn(cfg, c, tail, [b]) == FeedConn(cfg, c, tail, b)
  {
    FeedIsGood(cfg, c, tail, b);
    assert [b][1..] == [];
  }

  /**
   * For every state of the connection in which nothing is held over and every input that one call
   * accepts, messages, bodies and what follows a change of protocol: all ways to cut the input into
   * calls lead to the same messages, the same state and the same bytes handed on if and only if
   * each head line is shorter than a first line may be and the lines of chunked bodies are short.
   */
  lemma ConnFragmentation(cfg: Config, c: Conn, x: bytes)
    requires Good(c) && Accepted(Loop(cfg, c, FreshVars(cfg), x))
    ensures ConnIndependent(cfg, c, x) <==> Fits(cfg, c, FreshVars(cfg), x)
  {
    var goal := Loop(cfg, c, FreshVars(cfg), x);
    if Fits(cfg, c, FreshVars(cfg), x) {
      forall frags | NonEmpty(frags) && Flatten(frags) == x
        ensures FeedAllConn(cfg, c, [], frags) == goal
      {
        assert [] + Flatten(frags) == x;
        if frags != [] {
          FeedRestConn(cfg, c, [], frags, goal);
        }
      }
    } else {
      var a, b := BreakingCut(cfg, c, FreshVars(cfg), x);
      CutShowsConn(cfg, c, a, b);
      assert NonEmpty([a, b]) && Flatten([a, b]) == x by { FlattenTwo(a, b); }
    }
  }

  lemma FlattenTwo(a: bytes, b: bytes)
    ensures Flatten([a, b]) == a + b
  {
    assert Flatten([b]) == b;
    assert [a, b][1..] == [b];
  }

  // ----- what one call refuses and two accept -----

  /** A head of one line: it begins a message, unless the variables of the call refuse the line. */
  lemma OneLineHead(cfg: Config, c: Conn, v: Vars, line: bytes, y: bytes)
    requires c.stage == Heading([]) && line != [] && LF !in line && cfg.limits.maxHeaders >= 2
    requires cfg.limits.maxField >= 0
    ensures Loop(cfg, c, v, line + CRLF + (CRLF + y))
         == if v.closing then Raises(BadHttpMessage)
            else if |line| > v.limit then Raises(LineTooLong)
            else match cfg.parse([line, []])
                 case Failure(e) => Raises(e)
                 case Success(kind) => Loop(cfg, Begun(c.(stage := Heading([line])), [line, []], kind.framing),
                                            Vars(kind.close, cfg.limits.maxField), y)
  {
    var x, rest := line + CRLF + (CRLF + y), CRLF + y;
    FindLineEnd(line, rest);
    assert x[..|line|] == line && x[|line| + 2..] == rest;
    TurnFacts(cfg, c, v, x);
    assert [] + [line] == [line];
    if !v.closing && |line| <= v.limit {
      EmptyLine(cfg, c.(stage := Heading([line])), v.(limit := cfg.limits.maxField), y);
      assert [line] + [[]] == [line, []];
    }
  }

  lemma EmptyLine(cfg: Config, c: Conn, v: Vars, y: bytes)
    requires c.stage.Heading? && c.stage.lines != [] && !v.closing && v.limit >= 0
    requires |c.stage.lines| + 1 <= cfg.limits.maxHeaders
    ensures Loop(cfg, c, v, CRLF + y)
         == match cfg.parse(c.stage.lines + [[]])
            case Failure(e) => Raises(e)
            case Success(kind) =>
              Loop(cfg, Begun(c, c.stage.lines + [[]], kind.framing), Vars(kind.close, cfg.limits.maxField), y)
  {
    var x := CRLF + y;
    assert [] + CRLF + y == x;
    FindLineEnd([], y);
    assert x[..0] == [] && x[2..] == y;
    TurnFacts(cfg, c, v, x);
  }

  /** A head of one line. */
  function HeadOf(line: bytes): bytes { line + CRLF + CRLF }

  /** Such heads have no body. */
  predicate Bare(cfg: Config, line: bytes, close: bool)
  {
    && line != [] && LF !in line && |line| <= cfg.limits.maxLine
    && cfg.limits.maxHeaders >= 2 && cfg.limits.maxField >= 0
    && cfg.parse([line, []]) == Success(Kind(NoBody, close))
  }

  function Bodiless(c: Conn, line: bytes): Conn { Closed(c, [line, []], EMPTY_SINK.Eof(), None) }

  /** Such a head and what follows it in the call. */
  lemma BareMessage(cfg: Config, c: Conn, v: Vars, line: bytes, close: bool, y: bytes)
    requires c.stage == Heading([]) && Bare(cfg, line, close)
    ensures Loop(cfg, c, v, HeadOf(line) + y)
         == if v.closing then Raises(BadHttpMessage)
            else if |line| > v.limit then Raises(LineTooLong)
            else Loop(cfg, Bodiless(c, line), Vars(close, cfg.limits.maxField), y)
  {
    Assoc(line + CRLF, CRLF, y);
    OneLineHead(cfg, c, v, line, y);
  }

  lemma BareCall(cfg: Config, c: Conn, line: bytes, close: bool)
    requires c.stage == Heading([]) && Bare(cfg, line, close)
    ensures FeedConn(cfg, c, [], HeadOf(line)) == Waits(Bodiless(c, line), [])
  {
    BareMessage(cfg, c, FreshVars(cfg), line, close, []);
    assert HeadOf(line) + [] == HeadOf(line) == [] + HeadOf(line);
  }

  lemma TwoCalls(cfg: Config, c: Conn, x: bytes, y: bytes, d: Conn, e: Conn)
    requires Good(c) && Good(d) && FeedConn(cfg, c, [], x) == Waits(d, []) && FeedConn(cfg, d, [], y) == Waits(e, [])
    ensures FeedAllConn(cfg, c, [], [x, y]) == Waits(e, [])
  {
    OneCall(cfg, d, [], y);
    assert [x, y][1..] == [y];
  }

  /**
   * Two heads in two calls are two messages. In one call the second is refused if the first asked to
   * close the connection, or if its first line is longer than a field line may be.
   */
  lemma SecondMessage(cfg: Config, c: Conn, first: bytes, second: bytes, close: bool)
    requires c.stage == Heading([]) && Bare(cfg, first, close) && Bare(cfg, second, false)
    ensures var both := Waits(Bodiless(Bodiless(c, first), second), []);
            && FeedAllConn(cfg, c, [], [HeadOf(first), HeadOf(second)]) == both
            && FeedConn(cfg, c, [], HeadOf(first) + HeadOf(second))
               == if close then Raises(BadHttpMessage)
                  else if |second| > cfg.limits.maxField then Raises(LineTooLong)
                  else both
  {
    var d := Bodiless(c, first);
    BareCall(cfg, c, first, close);
    BareCall(cfg, d, second, false);
    TwoCalls(cfg, c, HeadOf(first), HeadOf(second), d, Bodiless(d, second));
    BareMessage(cfg, c, FreshVars(cfg), first, close, HeadOf(second));
    BareMessage(cfg, d, Vars(close, cfg.limits.maxField), second, false, []);
    assert HeadOf(second) + [] == HeadOf(second);
    assert [] + (HeadOf(first) + HeadOf(second)) == HeadOf(first) + HeadOf(second);
  }

  /** The part of the loop that reads a head is the scan of heads on their own. */
  lemma {:induction false} HeadIsScanned(cfg: Config, c: Conn, v: Vars, x: bytes)
    requires c.stage.Heading? && !v.closing
    ensures Loop(cfg, c, v, x)
         == match ScanHead(cfg.limits, c.stage.lines, v.limit, x)
            case NeedMore(st) => Waits(c.(stage := Heading(st.lines)), st.tail)
            case Refused(e) => Raises(e)
            case Head(lines, rest) =>
              match cfg.parse(lines)
              case Failure(e) => Raises(e)
              case Success(kind) =>
                Loop(cfg, Begun(c, lines, kind.framing), Vars(kind.close, cfg.limits.maxField), rest)
    decreases |x|
  {
    if x != [] {
      TurnFacts(cfg, c, v, x);
      var t := TurnOfLoop(cfg, c, v, x);
      var pos := Find(x, CRLF, 0);
      if t.Onward? && (pos > 0 || c.stage.lines == []) {
        HeadIsScanned(cfg, t.c, t.v, t.rest);
      }
    }
  }
}
