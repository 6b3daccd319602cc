/** How a chunked body is cut into calls of `feed_data` makes no difference, while lines are short. */
module Fragmentation {
  import opened Common
  import opened Bytes
  import opened Headers
  import opened PayloadSpec

  /** Handing on what was not consumed, with more bytes behind it. */
  function Append(o: Outcome, b: bytes): Outcome
  {
    if o.Done? then Done(o.sink, o.rest + b) else o
  }

  // ----- one turn of the scan -----

  /** Behind its first line, or stretch of chunk bytes, a scan goes on in some state, or it does not go on. */
  datatype Turn = GoesOn(st: Parser, sink: Sink, rest: bytes) | Stops

  function TurnOf(lim: Limits, st: Parser, sink: Sink, x: bytes): Turn
    requires Ok(st) && st.tail == [] && x != []
  {
    match st.phase
    case SizeLine =>
      var pos := Find(x, CRLF, 0);
      if pos < 0 || ParseSize(x[..pos]).Failure? then Stops
      else
        var n := ParseSize(x[..pos]).value;
        if n == 0 then GoesOn(st.(phase := Trailers), sink, x[pos + 2..])
        else GoesOn(st.(phase := ChunkBody, left := n), sink.Begin(), x[pos + 2..])
    case ChunkBody =>
      if st.left > |x| then Stops
      else GoesOn(st.(phase := ChunkEnd, left := 0), sink.Feed(x[..st.left]).End(), x[st.left..])
    case ChunkEnd =>
      if CRLF <= x then GoesOn(st.(phase := SizeLine), sink, x[2..]) else Stops
    case Trailers =>
      var pos := Find(x, CRLF, 0);
      if pos <= 0 || pos > lim.maxField || |st.trailers| + 1 > lim.maxTrailers then Stops
      else GoesOn(st.(trailers := st.trailers + [x[..pos]]), sink, x[pos + 2..])
  }

  lemma ScanTurns(lim: Limits, st: Parser, sink: Sink, x: bytes)
    requires Ok(st) && st.tail == [] && x != []
    ensures match TurnOf(lim, st, sink, x)
            case GoesOn(t, k, rest) =>
              Ok(t) && t.tail == [] && |rest| < |x| && Scan(lim, st, sink, x) == Scan(lim, t, k, rest)
            case Stops => var o := Scan(lim, st, sink, x); o.More? ==> Ok(o.st) && o.st.phase == st.phase
  {
  }

  lemma {:induction false} ScanKeepsOk(lim: Limits, st: Parser, sink: Sink, a: bytes)
    requires Ok(st) && st.tail == []
    ensures var o := Scan(lim, st, sink, a); o.More? ==> Ok(o.st)
    decreases |a|
  {
    if a != [] {
      ScanTurns(lim, st, sink, a);
      var turn := TurnOf(lim, st, sink, a);
      if turn.GoesOn? {
        ScanKeepsOk(lim, turn.st, turn.sink, turn.rest);
      }
    }
  }

  /** The scan of `a` settles the scan of `a + b`: it stops, or goes on with the held tail and b. */
  ghost predicate Settles(lim: Limits, st: Parser, sink: Sink, a: bytes, b: bytes)
    requires Ok(st) && st.tail == []
  {
    var o := Scan(lim, st, sink, a);
    Scan(lim, st, sink, a + b)
    == if o.More? && Ok(o.st) then Scan(lim, o.st.(tail := []), o.sink, o.st.tail + b) else Append(o, b)
  }

  /** More bytes behind the input do not change a turn that goes on. */
  lemma TurnStable(lim: Limits, st: Parser, sink: Sink, a: bytes, b: bytes)
    requires Ok(st) && st.tail == [] && a != [] && TurnOf(lim, st, sink, a).GoesOn?
    ensures var t := TurnOf(lim, st, sink, a); TurnOf(lim, st, sink, a + b) == t.(rest := t.rest + b)
  {
    match st.phase
    case SizeLine => LineStable(a, b);
    case ChunkBody => CutInFirst(a, b, st.left);
    case ChunkEnd => assert CRLF <= a + b && (a + b)[2..] == a[2..] + b;
    case Trailers => LineStable(a, b);
  }

  lemma {:induction false} ScanSplit(lim: Limits, st: Parser, sink: Sink, a: bytes, b: bytes)
    requires Ok(st) && st.tail == []
    ensures Settles(lim, st, sink, a, b)
    decreases |a|
  {
    if a == [] {
      assert a + b == b && [] + b == b;
    } else {
      var turn := TurnOf(lim, st, sink, a);
      ScanTurns(lim, st, sink, a);
      if turn.GoesOn? {
        TurnStable(lim, st, sink, a, b);
        ScanTurns(lim, st, sink, a + b);
        ScanSplit(lim, turn.st, turn.sink, turn.rest, b);
      } else {
        match st.phase
        case SizeLine => StopsInLine(lim, st, sink, a, b);
        case ChunkBody => StopsInBody(lim, st, sink, a, b);
        case ChunkEnd => StopsInChunkEnd(lim, st, sink, a, b);
        case Trailers => StopsInLine(lim, st, sink, a, b);
      }
    }
  }

  lemma StopsInLine(lim: Limits, st: Parser, sink: Sink, a: bytes, b: bytes)
    requires Ok(st) && st.tail == [] && st.phase in {SizeLine, Trailers} && a != [] && TurnOf(lim, st, sink, a).Stops?
    ensures Settles(lim, st, sink, a, b)
  {
    if Find(a, CRLF, 0) >= 0 {
      LineStable(a, b);
    }
  }

  lemma StopsInBody(lim: Limits, st: Parser, sink: Sink, a: bytes, b: bytes)
    requires Ok(st) && st.tail == [] && st.phase == ChunkBody && a != [] && st.left > |a|
    ensures Settles(lim, st, sink, a, b)
  {
    var k := st.left - |a|;
    assert [] + b == b;
    if k > |b| {
      Assoc(sink.data, a, b);
      if b == [] {
        assert a + b == a;
      }
    } else {
      CutInSecond(a, b, k);
      Assoc(sink.data, a, b[..k]);
    }
  }

  lemma CutInFirst(a: bytes, b: bytes, n: nat)
    requires n <= |a|
    ensures (a + b)[..n] == a[..n] && (a + b)[n..] == a[n..] + b
  {
  }

  lemma CutInSecond(a: bytes, b: bytes, k: nat)
    requires k <= |b|
    ensures (a + b)[..|a| + k] == a + b[..k] && (a + b)[|a| + k..] == b[k..]
  {
  }

  lemma StopsInChunkEnd(lim: Limits, st: Parser, sink: Sink, a: bytes, b: bytes)
    requires Ok(st) && st.tail == [] && st.phase == ChunkEnd && a != [] && !(CRLF <= a)
    ensures Settles(lim, st, sink, a, b)
  {
    if |a| >= 2 || a[0] != CR {
      assert !(CRLF <= a + b) by {
        assert (a + b)[0] == a[0];
        if |a| >= 2 {
          assert (a + b)[1] == a[1];
          assert a[..2] == [a[0], a[1]];
        }
      }
      assert |a + b| >= 2 || (a + b)[0] != CR;
    }
  }

  /** The tail held after a call is beyond what the next call accepts. */
  predicate TailTooLong(lim: Limits, st: Parser)
  {
    st.tail != [] && |st.tail| > TailLimit(lim, st.phase)
  }

  /**
   * Two calls against one, for every input whatsoever: after `a`, feeding `b` does what feeding
   * `a + b` at once does, except that a held tail over its limit is refused.
   */
  lemma FeedTwice(lim: Limits, st: Parser, sink: Sink, a: bytes, b: bytes)
    requires Ok(st)
    ensures var o := Feed(lim, st, sink, a);
            if o.More? then
              && Ok(o.st)
              && Feed(lim, o.st, o.sink, b)
                 == if TailTooLong(lim, o.st) then Fail(LineTooLong, o.sink) else Feed(lim, st, sink, a + b)
            else Feed(lim, st, sink, a + b) == Append(o, b)
  {
    var o := Feed(lim, st, sink, a);
    if !TailTooLong(lim, st) {
      var s0, x := st.(tail := []), st.tail + a;
      FeedIsScan(lim, st, sink, a);
      FeedIsScan(lim, st, sink, a + b);
      Assoc(st.tail, a, b);
      ScanKeepsOk(lim, s0, sink, x);
      ScanSplit(lim, s0, sink, x, b);
      if o.More? && !TailTooLong(lim, o.st) {
        FeedIsScan(lim, o.st, o.sink, b);
      }
    }
  }

  /** Held bytes that are accepted are put in front. */
  lemma FeedIsScan(lim: Limits, st: Parser, sink: Sink, a: bytes)
    requires Ok(st) && !TailTooLong(lim, st)
    ensures Feed(lim, st, sink, a) == Scan(lim, st.(tail := []), sink, st.tail + a)
  {
    assert [] + a == a;
  }

  lemma FeedKeepsOk(lim: Limits, st: Parser, sink: Sink, a: bytes)
    requires Ok(st)
    ensures var o := Feed(lim, st, sink, a); o.More? ==> Ok(o.st)
  {
    ScanKeepsOk(lim, st.(tail := []), sink, if st.tail == [] then a else st.tail + a);
  }

  /** The parser called with one fragment after the other until it stops asking for more. */
  function FeedAll(lim: Limits, st: Parser, sink: Sink, frags: seq<bytes>): Outcome
    requires Ok(st)
    decreases |frags|
  {
    if frags == [] then More(st, sink)
    else
      FeedKeepsOk(lim, st, sink, frags[0]);
      var o := Feed(lim, st, sink, frags[0]);
      match o
      case More(t, k) => FeedAll(lim, t, k, frags[1..])
      case Done(k, rest) => Done(k, rest + Flatten(frags[1..]))
      case Fail(e, k) => o
  }

  predicate NonEmpty(frags: seq<bytes>)
  {
    forall i :: 0 <= i < |frags| ==> frags[i] != []
  }

  /** What is held over behind a prefix stays within its limit. */
  predicate PrefixFits(lim: Limits, st: Parser, sink: Sink, p: bytes)
    requires Ok(st) && st.tail == []
  {
    var o := Scan(lim, st, sink, p);
    o.More? ==> !TailTooLong(lim, o.st)
  }

  /** Where too much is held over, the input is refused anyway, with the same error behind the same bytes. */
  predicate CutTolerated(lim: Limits, st: Parser, sink: Sink, a: bytes, b: bytes)
    requires Ok(st) && st.tail == []
  {
    PrefixFits(lim, st, sink, a) || Scan(lim, st, sink, a + b) == Fail(LineTooLong, Scan(lim, st, sink, a).sink)
  }

  ghost predicate Tolerated(lim: Limits, st: Parser, sink: Sink, x: bytes)
    requires Ok(st) && st.tail == []
  {
    forall a, b :: a != [] && b != [] && x == a + b ==> CutTolerated(lim, st, sink, a, b)
  }

  /** The fragments behind a scanned prefix `p` of the input. */
  lemma {:induction false} FeedRest(lim: Limits, st: Parser, sink: Sink, p: bytes, frags: seq<bytes>)
    requires Ok(st) && st.tail == [] && NonEmpty(frags)
    requires Scan(lim, st, sink, p).More? && Ok(Scan(lim, st, sink, p).st)
    requires Tolerated(lim, st, sink, p + Flatten(frags))
    requires p == [] ==> Scan(lim, st, sink, p).st.tail == []
    ensures var o := Scan(lim, st, sink, p);
            FeedAll(lim, o.st, o.sink, frags) == Scan(lim, st, sink, p + Flatten(frags))
    decreases |frags|
  {
    var o := Scan(lim, st, sink, p);
    if frags == [] {
      assert p + Flatten(frags) == p;
    } else {
      var f, later := frags[0], Flatten(frags[1..]);
      Assoc(p, f, later);
      assert p != [] ==> CutTolerated(lim, st, sink, p, Flatten(frags));
      if !TailTooLong(lim, o.st) {
        FeedOn(lim, st, sink, p, f, later);
        if Feed(lim, o.st, o.sink, f).More? {
          ScanKeepsOk(lim, st, sink, p + f);
          FeedRest(lim, st, sink, p + f, frags[1..]);
        }
      }
    }
  }

  /** A fragment behind a prefix whose held tail is accepted. */
  lemma FeedOn(lim: Limits, st: Parser, sink: Sink, p: bytes, f: bytes, later: bytes)
    requires Ok(st) && st.tail == [] && Scan(lim, st, sink, p).More? && Ok(Scan(lim, st, sink, p).st)
    requires !TailTooLong(lim, Scan(lim, st, sink, p).st)
    ensures var o := Scan(lim, st, sink, p);
            Feed(lim, o.st, o.sink, f) == Scan(lim, st, sink, p + f)
    ensures Settles(lim, st, sink, p + f, later)
  {
    ScanSplit(lim, st, sink, p, f);
    ScanSplit(lim, st, sink, p + f, later);
    assert [] + f == f;
  }

  /** Every fragmentation of the input has the outcome of the input fed at once. */
  ghost predicate Independent(lim: Limits, st: Parser, sink: Sink, x: bytes)
    requires Ok(st) && st.tail == []
  {
    forall frags :: NonEmpty(frags) && Flatten(frags) == x ==> FeedAll(lim, st, sink, frags) == Feed(lim, st, sink, x)
  }

  /** A cut at which too much is held over makes the two halves fail. */
  lemma CutShows(lim: Limits, st: Parser, sink: Sink, a: bytes, b: bytes)
    requires Ok(st) && st.tail == [] && a != [] && b != [] && Independent(lim, st, sink, a + b)
    ensures CutTolerated(lim, st, sink, a, b)
  {
    var frags := [a, b];
    assert Flatten(frags) == a + Flatten([b]) && Flatten([b]) == b;
    assert NonEmpty(frags) && FeedAll(lim, st, sink, frags) == Scan(lim, st, sink, a + b);
    ScanKeepsOk(lim, st, sink, a);
    var o := Scan(lim, st, sink, a);
    if o.More? && TailTooLong(lim, o.st) {
      assert frags[1..] == [b];
      assert FeedAll(lim, st, sink, frags) == FeedAll(lim, o.st, o.sink, [b]);
      assert Feed(lim, o.st, o.sink, b) == Fail(LineTooLong, o.sink);
    }
  }

  lemma IndependentIsTolerated(lim: Limits, st: Parser, sink: Sink, x: bytes)
    requires Ok(st) && st.tail == []
    ensures Independent(lim, st, sink, x) <==> Tolerated(lim, st, sink, x)
  {
    if Tolerated(lim, st, sink, x) {
      forall frags | NonEmpty(frags) && Flatten(frags) == x
        ensures FeedAll(lim, st, sink, frags) == Feed(lim, st, sink, x)
      {
        assert [] + Flatten(frags) == x;
        FeedRest(lim, st, sink, [], frags);
      }
    }
    if Independent(lim, st, sink, x) {
      forall a, b | a != [] && b != [] && x == a + b
        ensures CutTolerated(lim, st, sink, a, b)
      {
        CutShows(lim, st, sink, a, b);
      }
    }
  }

  // ----- the condition on the lines -----

  /**
   * A complete line is below its limit, so that its CR can be held with it. An incomplete one is
   * held but for its last byte.
   */
  predicate LineFits(x: bytes, limit: int)
  {
    var pos := Find(x, CRLF, 0);
    if pos >= 0 then pos < limit else |x| <= 1 || |x| - 1 <= limit
  }

  /** What a cut inside the first line, or in the line end behind a chunk, holds over. */
  predicate FirstFits(lim: Limits, st: Parser, x: bytes)
  {
    match st.phase
    case SizeLine => LineFits(x, lim.maxLine)
    case ChunkBody => true
    case ChunkEnd => |x| >= 2 && x[0] == CR ==> 0 < lim.maxLine
    case Trailers => LineFits(x, lim.maxField)
  }

  /** Every line up to where the scan stops fits. */
  predicate Short(lim: Limits, st: Parser, sink: Sink, x: bytes)
    requires Ok(st) && st.tail == []
    decreases |x|
  {
    x == [] ||
    (FirstFits(lim, st, x) &&
     var turn := TurnOf(lim, st, sink, x);
     turn.GoesOn? ==> Short(lim, turn.st, turn.sink, turn.rest))
  }

  /** The bytes that make the first turn. */
  lemma TurnAlone(lim: Limits, st: Parser, sink: Sink, x: bytes) returns (first: bytes)
    requires Ok(st) && st.tail == [] && x != [] && TurnOf(lim, st, sink, x).GoesOn?
    ensures var t := TurnOf(lim, st, sink, x);
            first != [] && x == first + t.rest && TurnOf(lim, st, sink, first) == t.(rest := [])
  {
    match st.phase
    case SizeLine => first := LineAlone(x);
    case ChunkBody =>
      first := x[..st.left];
      assert first[..st.left] == first;
    case ChunkEnd =>
      first := x[..2];
      assert CRLF <= first;
    case Trailers => first := LineAlone(x);
  }

  lemma ScanBehindTurn(lim: Limits, st: Parser, sink: Sink, first: bytes, more: bytes)
    requires Ok(st) && st.tail == [] && first != []
    requires TurnOf(lim, st, sink, first).GoesOn? && TurnOf(lim, st, sink, first).rest == []
    ensures var t := TurnOf(lim, st, sink, first); Scan(lim, st, sink, first + more) == Scan(lim, t.st, t.sink, more)
  {
    TurnStable(lim, st, sink, first, more);
    ScanTurns(lim, st, sink, first + more);
    assert [] + more == more;
  }

  lemma FirstPartFits(lim: Limits, st: Parser, sink: Sink, a: bytes, b: bytes)
    requires Ok(st) && st.tail == [] && a != [] && b != [] && TurnOf(lim, st, sink, a).Stops?
    requires FirstFits(lim, st, a + b)
    ensures PrefixFits(lim, st, sink, a)
  {
    if st.phase in {SizeLine, Trailers} && Find(a, CRLF, 0) < 0 {
      LineLater(a, b);
    }
  }

  lemma {:induction false} ShortFits(lim: Limits, st: Parser, sink: Sink, a: bytes, b: bytes)
    requires Ok(st) && st.tail == [] && Short(lim, st, sink, a + b) && b != []
    ensures PrefixFits(lim, st, sink, a)
    decreases |a|
  {
    if a != [] {
      var t := TurnOf(lim, st, sink, a);
      if t.GoesOn? {
        ScanTurns(lim, st, sink, a);
        TurnStable(lim, st, sink, a, b);
        ShortFits(lim, t.st, t.sink, t.rest, b);
      } else {
        FirstPartFits(lim, st, sink, a, b);
      }
    }
  }

  /** The input is cut in two where too much is held over. */
  predicate HeldTooLong(lim: Limits, st: Parser, sink: Sink, x: bytes, a: bytes, b: bytes)
    requires Ok(st) && st.tail == []
  {
    a != [] && b != [] && x == a + b && !PrefixFits(lim, st, sink, a)
  }

  /** Without its end a line is held over as a whole. */
  lemma LineHeld(lim: Limits, st: Parser, sink: Sink, a: bytes)
    requires Ok(st) && st.tail == [] && a != []
    requires if st.phase == ChunkEnd then a == [CR] else st.phase != ChunkBody && Find(a, CRLF, 0) < 0
    ensures Scan(lim, st, sink, a) == More(st.(tail := a), sink)
  {
  }

  /** A first line that does not fit is held over behind some cut. */
  lemma FirstCut(lim: Limits, st: Parser, sink: Sink, x: bytes) returns (a: bytes, b: bytes)
    requires Ok(st) && st.tail == [] && x != [] && !FirstFits(lim, st, x)
    ensures HeldTooLong(lim, st, sink, x, a, b) && Scan(lim, st, sink, a).sink == sink
  {
    var pos := Find(x, CRLF, 0);
    var n := if st.phase == ChunkEnd then 1 else if pos >= 0 then pos + 1 else |x| - 1;
    a, b := x[..n], x[n..];
    if st.phase != ChunkEnd {
      NoLineIn(x, n);
    }
    LineHeld(lim, st, sink, a);
  }

  /** A cut behind the first turn. */
  lemma CutBehind(lim: Limits, st: Parser, sink: Sink, x: bytes, a: bytes, b: bytes) returns (first: bytes)
    requires Ok(st) && st.tail == [] && x != [] && TurnOf(lim, st, sink, x).GoesOn?
    requires TurnOf(lim, st, sink, x).rest == a + b
    ensures first != [] && x == first + a + b
    ensures var t := TurnOf(lim, st, sink, x); Scan(lim, st, sink, first + a) == Scan(lim, t.st, t.sink, a)
  {
    first := TurnAlone(lim, st, sink, x);
    ScanBehindTurn(lim, st, sink, first, a);
    Assoc(first, a, b);
  }

  lemma {:induction false} LongCut(lim: Limits, st: Parser, sink: Sink, x: bytes) returns (a: bytes, b: bytes)
    requires Ok(st) && st.tail == [] && !Short(lim, st, sink, x)
    ensures HeldTooLong(lim, st, sink, x, a, b)
    decreases |x|
  {
    if !FirstFits(lim, st, x) {
      a, b := FirstCut(lim, st, sink, x);
    } else {
      var t := TurnOf(lim, st, sink, x);
      ScanTurns(lim, st, sink, x);
      a, b := LongCut(lim, t.st, t.sink, t.rest);
      var first := CutBehind(lim, st, sink, x, a, b);
      a := first + a;
    }
  }

  // ----- inputs that are refused as too long -----

  predicate TooLong(lim: Limits, st: Parser, sink: Sink, x: bytes)
    requires Ok(st) && st.tail == []
  {
    var o := Scan(lim, st, sink, x);
    o.Fail? && o.error == LineTooLong
  }

  /** Every size line of a chunk, the last one not counted, is below its limit. */
  predicate SizesFit(lim: Limits, st: Parser, sink: Sink, x: bytes)
    requires Ok(st) && st.tail == []
    decreases |x|
  {
    x == [] ||
    var turn := TurnOf(lim, st, sink, x);
    turn.GoesOn? ==>
      && (turn.st.phase == ChunkBody ==> Find(x, CRLF, 0) < lim.maxLine)
      && SizesFit(lim, turn.st, turn.sink, turn.rest)
  }

  /** Trailer lines deliver nothing. */
  lemma {:induction false} TrailersKeepSink(lim: Limits, st: Parser, sink: Sink, x: bytes)
    requires Ok(st) && st.tail == [] && st.phase == Trailers
    ensures !Scan(lim, st, sink, x).Done? ==> Scan(lim, st, sink, x).sink == sink
    decreases |x|
  {
    if x != [] {
      ScanTurns(lim, st, sink, x);
      var t := TurnOf(lim, st, sink, x);
      if t.GoesOn? {
        TrailersKeepSink(lim, t.st, t.sink, t.rest);
      }
    }
  }

  /** Nothing that was delivered is taken back. */
  lemma {:induction false} ScanDelivers(lim: Limits, st: Parser, sink: Sink, x: bytes)
    requires Ok(st) && st.tail == []
    ensures |Scan(lim, st, sink, x).sink.data| >= |sink.data|
    decreases |x|
  {
    if x != [] {
      ScanTurns(lim, st, sink, x);
      var t := TurnOf(lim, st, sink, x);
      if t.GoesOn? {
        ScanDelivers(lim, t.st, t.sink, t.rest);
      }
    }
  }

  /** Where too much is held over of an input that is too long, all is delivered already. */
  lemma {:induction false} HeldLate(lim: Limits, st: Parser, sink: Sink, a: bytes, b: bytes)
    requires Ok(st) && st.tail == [] && TooLong(lim, st, sink, a + b) && SizesFit(lim, st, sink, a + b)
    requires !PrefixFits(lim, st, sink, a)
    ensures Scan(lim, st, sink, a).sink == Scan(lim, st, sink, a + b).sink
    decreases |a|
  {
    ScanTurns(lim, st, sink, a);
    ScanTurns(lim, st, sink, a + b);
    var t := TurnOf(lim, st, sink, a);
    if t.GoesOn? {
      TurnStable(lim, st, sink, a, b);
      HeldLate(lim, t.st, t.sink, t.rest, b);
    } else {
      match st.phase
      case SizeLine => HeldSizeLine(lim, st, sink, a, b);
      case ChunkBody =>
      case ChunkEnd => HeldChunkEnd(lim, st, sink, a, b);
      case Trailers => TrailersKeepSink(lim, st, sink, a + b);
    }
  }

  lemma HeldSizeLine(lim: Limits, st: Parser, sink: Sink, a: bytes, b: bytes)
    requires Ok(st) && st.tail == [] && st.phase == SizeLine
    requires a != [] && Find(a, CRLF, 0) < 0 && |a| > lim.maxLine
    requires TooLong(lim, st, sink, a + b) && SizesFit(lim, st, sink, a + b)
    ensures Scan(lim, st, sink, a + b).sink == sink
  {
    LineLater(a, b);
    SizeLineEnds(lim, st, sink, a + b);
  }

  /** The size line that is not below its limit is the last one. */
  lemma SizeLineEnds(lim: Limits, st: Parser, sink: Sink, x: bytes)
    requires Ok(st) && st.tail == [] && st.phase == SizeLine && x != []
    requires TooLong(lim, st, sink, x) && SizesFit(lim, st, sink, x) && Find(x, CRLF, 0) >= lim.maxLine
    ensures Scan(lim, st, sink, x).sink == sink
  {
    ScanTurns(lim, st, sink, x);
    var t := TurnOf(lim, st, sink, x);
    TrailersKeepSink(lim, t.st, t.sink, t.rest);
  }

  lemma HeldChunkEnd(lim: Limits, st: Parser, sink: Sink, a: bytes, b: bytes)
    requires Ok(st) && st.tail == [] && st.phase == ChunkEnd && a == [CR] && lim.maxLine < 1
    requires TooLong(lim, st, sink, a + b) && SizesFit(lim, st, sink, a + b)
    ensures Scan(lim, st, sink, a + b).sink == sink
  {
    var x := a + b;
    ScanTurns(lim, st, sink, x);
    var t := TurnOf(lim, st, sink, x);
    SizeLineEnds(lim, t.st, t.sink, t.rest);
  }

  /** A size line that does not fit, of a chunk, is held over behind some cut, and its chunk is missing there. */
  lemma {:induction false} LateCut(lim: Limits, st: Parser, sink: Sink, x: bytes) returns (a: bytes, b: bytes)
    requires Ok(st) && st.tail == [] && TooLong(lim, st, sink, x) && !SizesFit(lim, st, sink, x)
    ensures HeldTooLong(lim, st, sink, x, a, b) && Scan(lim, st, sink, a).sink != Scan(lim, st, sink, x).sink
    decreases |x|
  {
    var t := TurnOf(lim, st, sink, x);
    ScanTurns(lim, st, sink, x);
    if t.st.phase == ChunkBody && Find(x, CRLF, 0) >= lim.maxLine {
      a, b := FirstCut(lim, st, sink, x);
      ChunkDelivers(lim, t.st, t.sink, t.rest);
    } else {
      a, b := LateCut(lim, t.st, t.sink, t.rest);
      var first := CutBehind(lim, st, sink, x, a, b);
      a := first + a;
    }
  }

  lemma ChunkDelivers(lim: Limits, st: Parser, sink: Sink, x: bytes)
    requires Ok(st) && st.tail == [] && st.phase == ChunkBody && TooLong(lim, st, sink, x)
    ensures |Scan(lim, st, sink, x).sink.data| > |sink.data|
  {
    ScanTurns(lim, st, sink, x);
    var t := TurnOf(lim, st, sink, x);
    ScanDelivers(lim, t.st, t.sink, t.rest);
  }

  // ----- all inputs -----

  lemma ToleratedIfShort(lim: Limits, st: Parser, sink: Sink, x: bytes)
    requires Ok(st) && st.tail == [] && !TooLong(lim, st, sink, x)
    ensures Tolerated(lim, st, sink, x) <==> Short(lim, st, sink, x)
  {
    if Short(lim, st, sink, x) {
      forall a, b | a != [] && b != [] && x == a + b
        ensures CutTolerated(lim, st, sink, a, b)
      {
        ShortFits(lim, st, sink, a, b);
      }
    } else {
      var a, b := LongCut(lim, st, sink, x);
      assert !CutTolerated(lim, st, sink, a, b);
    }
  }

  lemma ToleratedIfSizesFit(lim: Limits, st: Parser, sink: Sink, x: bytes)
    requires Ok(st) && st.tail == [] && TooLong(lim, st, sink, x)
    ensures Tolerated(lim, st, sink, x) <==> SizesFit(lim, st, sink, x)
  {
    if SizesFit(lim, st, sink, x) {
      forall a, b | a != [] && b != [] && x == a + b
        ensures CutTolerated(lim, st, sink, a, b)
      {
        if !PrefixFits(lim, st, sink, a) {
          HeldLate(lim, st, sink, a, b);
        }
      }
    } else {
      var a, b := LateCut(lim, st, sink, x);
      assert !CutTolerated(lim, st, sink, a, b);
    }
  }

  /**
   * For every input, complete or not, accepted or not, with any extensions and trailers:
   * fragmentation makes no difference to state, delivered bytes, chunk ends, end, leftover and
   * error, if and only if every line is short. If a trailer line is too long for any fragmentation
   * it is enough that the size lines of the chunks are.
   */
  lemma FragmentationIndependence(lim: Limits, st: Parser, sink: Sink, x: bytes)
    requires Ok(st) && st.tail == []
    ensures Independent(lim, st, sink, x)
       <==> if TooLong(lim, st, sink, x) then SizesFit(lim, st, sink, x) else Short(lim, st, sink, x)
  {
    IndependentIsTolerated(lim, st, sink, x);
    if TooLong(lim, st, sink, x) {
      ToleratedIfSizesFit(lim, st, sink, x);
    } else {
      ToleratedIfShort(lim, st, sink, x);
    }
  }

  /** A start of a size line that is fine whole is refused when all of it but the last byte was held over. */
  lemma LongLineRefused(lim: Limits, sink: Sink, x: bytes)
    requires lim.maxLine >= 0 && |x| == lim.maxLine + 2 && LF !in x
    ensures Feed(lim, START, sink, x) == More(START.(tail := x), sink)
    ensures FeedAll(lim, START, sink, [x[..|x| - 1], x[|x| - 1..]]) == Fail(LineTooLong, sink)
  {
    var a, b := x[..|x| - 1], x[|x| - 1..];
    FindNone(x);
    FindNone(a);
    assert [a, b][1..] == [b];
  }
}
