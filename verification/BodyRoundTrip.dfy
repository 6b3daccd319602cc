/** What the writer sends and the parser, on any fragmentation of it, delivers. */
module BodyRoundTrip {
  import opened Common
  import opened Bytes
  import opened Headers
  import opened PayloadSpec
  import opened Fragmentation
  import opened WriterSpec

  // ----- length-framed bodies -----

  /** On any fragmentation exactly L bytes are delivered, then the end; the rest comes back in order. */
  lemma {:induction false} LengthBody(left: nat, sink: Sink, frags: seq<bytes>)
    requires left > 0
    ensures FeedAllLength(left, sink, frags) == FeedLength(left, sink, Flatten(frags))
    decreases |frags|
  {
    if frags == [] {
      assert sink.data + [] == sink.data;
    } else {
      var a, b := frags[0], Flatten(frags[1..]);
      if left > |a| {
        LengthBody(left - |a|, sink.Feed(a), frags[1..]);
        assert sink.data + a + b == sink.data + (a + b);
        if left <= |a| + |b| {
          assert sink.data + a + b[..left - |a|] == sink.data + (a + b)[..left];
        }
      } else {
        assert (a + b)[..left] == a[..left] && (a + b)[left..] == a[left..] + b;
      }
    }
  }

  /**
   * Writer against parser, both told the same length: when the writes reach it, the parser gets
   * their first L bytes, and what follows the body on the connection comes back untouched.
   */
  lemma LengthRoundTrip(w: Writer, length: nat, payloads: seq<bytes>, extra: bytes, frags: seq<bytes>, sink: Sink)
    requires Limited(w, length) && length > 0 && |Flatten(payloads)| >= length
    requires OnWire(w) + Flatten(frags) == Finish(WriteAll(w, payloads), BySetEof).sent + extra
    ensures FeedAllLength(length, sink, frags)
         == LengthDone(sink.Feed(Flatten(payloads)[..length]).Eof(), extra)
  {
    LimitedRun(w, length, payloads, BySetEof);
    var body := Cut(Flatten(payloads), length);
    assert body == Flatten(payloads)[..length];
    var sent := Finish(WriteAll(w, payloads), BySetEof).sent;
    assert sent == OnWire(w) + body + [] == OnWire(w) + body;
    assert OnWire(w) + Flatten(frags) == OnWire(w) + (body + extra);
    EqualHeads(OnWire(w), Flatten(frags), OnWire(w), body + extra);
    LengthBody(length, sink, frags);
  }

  // ----- chunked bodies -----

  /** What one non-empty payload adds to the body stream. */
  function Take(sink: Sink, c: bytes): Sink
  {
    if c == [] then sink else sink.Begin().Feed(c).End()
  }

  function TakeAll(sink: Sink, payloads: seq<bytes>): Sink
    decreases |payloads|
  {
    if payloads == [] then sink else TakeAll(Take(sink, payloads[0]), payloads[1..])
  }

  /** The size line of a frame and everything behind it. */
  lemma SizeLineTurns(lim: Limits, st: Parser, sink: Sink, n: nat, y: bytes)
    requires st == START && n > 0
    ensures Find(Hex(n) + CRLF + y, CRLF, 0) == |Hex(n)|
    ensures TurnOf(lim, st, sink, Hex(n) + CRLF + y) == GoesOn(st.(phase := ChunkBody, left := n), sink.Begin(), y)
  {
    var h := Hex(n);
    var x := h + CRLF + y;
    HexHasNoSeparators(n);
    HexRoundTrip(n);
    FindLineEnd(h, y);
    assert x[..|h|] == h && x[|h| + 2..] == y;
    FindByte(h, SEMICOLON);
    assert ParseSize(h) == Success(n);
  }

  /** A whole frame is delivered as one chunk, whatever follows. */
  lemma FrameScans(lim: Limits, st: Parser, sink: Sink, c: bytes, y: bytes)
    requires st == START && c != []
    ensures Scan(lim, st, sink, Frame(c) + y) == Scan(lim, st, Take(sink, c), y)
  {
    var rest := c + CRLF + y;
    FrameParts(c, y);
    SizeLineTurns(lim, st, sink, |c|, rest);
    ScanTurns(lim, st, sink, Frame(c) + y);
    BodyEnds(lim, st.(phase := ChunkBody, left := |c|), sink.Begin(), c, y);
    assert st.(phase := ChunkBody, left := |c|).(phase := SizeLine, left := 0) == st;
  }

  lemma FrameParts(c: bytes, y: bytes)
    requires c != []
    ensures Frame(c) + y == Hex(|c|) + CRLF + (c + CRLF + y)
  {
    FourParts(Hex(|c|) + CRLF, c, CRLF, y);
  }

  lemma FourParts(a: bytes, b: bytes, c: bytes, d: bytes)
    ensures a + b + c + d == a + (b + c + d)
  {
    Assoc(a, b, c);
    Assoc(a, b + c, d);
  }

  lemma BehindFirst(a: bytes, b: bytes, c: bytes)
    ensures (a + b + c)[..|a|] == a && (a + b + c)[|a|..] == b + c
  {
  }

  /** The bytes of a chunk and the line end behind them are two turns. */
  lemma BodyTurns(lim: Limits, st: Parser, sink: Sink, c: bytes, y: bytes)
    requires Ok(st) && st.tail == [] && st.phase == ChunkBody && st.left == |c|
    ensures TurnOf(lim, st, sink, c + CRLF + y)
         == GoesOn(st.(phase := ChunkEnd, left := 0), sink.Feed(c).End(), CRLF + y)
    ensures TurnOf(lim, st.(phase := ChunkEnd, left := 0), sink.Feed(c).End(), CRLF + y)
         == GoesOn(st.(phase := SizeLine, left := 0), sink.Feed(c).End(), y)
  {
    BehindFirst(c, CRLF, y);
    assert CRLF <= CRLF + y && (CRLF + y)[2..] == y;
  }

  lemma BodyEnds(lim: Limits, st: Parser, sink: Sink, c: bytes, y: bytes)
    requires Ok(st) && st.tail == [] && st.phase == ChunkBody && st.left == |c|
    ensures Scan(lim, st, sink, c + CRLF + y) == Scan(lim, st.(phase := SizeLine, left := 0), sink.Feed(c).End(), y)
  {
    BodyTurns(lim, st, sink, c, y);
    ScanTurns(lim, st, sink, c + CRLF + y);
    ScanTurns(lim, st.(phase := ChunkEnd, left := 0), sink.Feed(c).End(), CRLF + y);
  }

  /** The wire form of one payload. */
  function FrameOrNone(c: bytes): bytes { if c == [] then [] else Frame(c) }

  lemma PayloadScans(lim: Limits, st: Parser, sink: Sink, c: bytes, y: bytes)
    requires st == START
    ensures Scan(lim, st, sink, FrameOrNone(c) + y) == Scan(lim, st, Take(sink, c), y)
  {
    if c == [] {
      assert [] + y == y;
    } else {
      FrameScans(lim, st, sink, c, y);
    }
  }

  lemma {:induction false} FramesScan(lim: Limits, st: Parser, sink: Sink, payloads: seq<bytes>, y: bytes)
    requires st == START
    ensures Scan(lim, st, sink, Frames(payloads) + y) == Scan(lim, st, TakeAll(sink, payloads), y)
    decreases |payloads|
  {
    if payloads == [] {
      assert [] + y == y;
    } else {
      var c, more := payloads[0], Frames(payloads[1..]);
      assert FrameOrNone(c) + more + y == FrameOrNone(c) + (more + y);
      PayloadScans(lim, st, sink, c, more + y);
      FramesScan(lim, st, Take(sink, c), payloads[1..], y);
    }
  }

  /** The line of the last chunk, and the empty line behind it. */
  lemma LastChunkTurns(lim: Limits, st: Parser, sink: Sink, y: bytes)
    requires st == START
    ensures Find(LAST_CHUNK + y, CRLF, 0) == 1 && Find(CRLF + y, CRLF, 0) == 0
    ensures TurnOf(lim, st, sink, LAST_CHUNK + y) == GoesOn(st.(phase := Trailers), sink, CRLF + y)
  {
    var zero: bytes := [48];
    var rest := CRLF + y;
    var x := LAST_CHUNK + y;
    assert x == zero + CRLF + rest;
    FindLineEnd(zero, rest);
    assert x[..1] == zero && x[3..] == rest;
    FindByte(zero, SEMICOLON);
    assert HexValue(zero) == 0 by { assert zero[..0] == []; }
    assert ParseSize(zero) == Success(0);
    assert [] + CRLF + y == rest;
    FindLineEnd([], y);
  }

  /** The terminator ends the body if one trailer line is allowed, and is refused if none is. */
  lemma LastChunkScans(lim: Limits, st: Parser, sink: Sink, y: bytes)
    requires st == START && lim.maxField >= 0
    ensures Scan(lim, st, sink, LAST_CHUNK + y)
         == if lim.maxTrailers >= 1 then Done(sink.Eof(), y) else Fail(BadHttpMessage, sink)
  {
    LastChunkTurns(lim, st, sink, y);
    ScanTurns(lim, st, sink, LAST_CHUNK + y);
    EmptyTrailer(lim, st.(phase := Trailers), sink, y);
  }

  lemma EmptyTrailer(lim: Limits, st: Parser, sink: Sink, y: bytes)
    requires st == START.(phase := Trailers) && lim.maxField >= 0 && Find(CRLF + y, CRLF, 0) == 0
    ensures Scan(lim, st, sink, CRLF + y)
         == if lim.maxTrailers >= 1 then Done(sink.Eof(), y) else Fail(BadHttpMessage, sink)
  {
    var rest := CRLF + y;
    assert rest[..0] == [] && rest[2..] == y;
    var none: seq<bytes> := [];
    assert none + [[]] == [[]];
    assert Parse([[]]) == Success([]);
  }

  /** The whole body of a message. */
  function Body(payloads: seq<bytes>): bytes { Frames(payloads) + LAST_CHUNK }

  lemma BodyScans(lim: Limits, st: Parser, sink: Sink, payloads: seq<bytes>, y: bytes)
    requires st == START && lim.maxField >= 0
    ensures Scan(lim, st, sink, Body(payloads) + y)
         == if lim.maxTrailers >= 1 then Done(TakeAll(sink, payloads).Eof(), y)
            else Fail(BadHttpMessage, TakeAll(sink, payloads))
  {
    Assoc(Frames(payloads), LAST_CHUNK, y);
    FramesScan(lim, st, sink, payloads, LAST_CHUNK + y);
    LastChunkScans(lim, st, TakeAll(sink, payloads), y);
  }

  /** The delivered bytes are the payloads, and every non-empty payload is one HTTP chunk. */
  lemma {:induction false} TakeAllDelivers(sink: Sink, payloads: seq<bytes>)
    ensures TakeAll(sink, payloads).data == sink.data + Flatten(payloads)
    ensures TakeAll(sink, payloads).eof == sink.eof
    decreases |payloads|
  {
    if payloads == [] {
      assert sink.data + [] == sink.data;
    } else {
      TakeAllDelivers(Take(sink, payloads[0]), payloads[1..]);
      assert sink.data + payloads[0] + Flatten(payloads[1..]) == sink.data + (payloads[0] + Flatten(payloads[1..]));
      assert sink.data + [] == sink.data;
    }
  }

  // ----- the lines of a body are short -----

  /** Every line of the body is strictly below its limit. */
  predicate Roomy(lim: Limits, payloads: seq<bytes>)
  {
    && lim.maxLine >= 2 && lim.maxField >= 1
    && forall i :: 0 <= i < |payloads| ==> |Hex(|payloads[i]|)| < lim.maxLine
  }

  lemma FrameIsShort(lim: Limits, st: Parser, sink: Sink, c: bytes, y: bytes)
    requires st == START && c != [] && |Hex(|c|)| < lim.maxLine && Short(lim, st, Take(sink, c), y)
    ensures Short(lim, st, sink, Frame(c) + y)
  {
    var rest := c + CRLF + y;
    FrameParts(c, y);
    SizeLineTurns(lim, st, sink, |c|, rest);
    BodyTurns(lim, st.(phase := ChunkBody, left := |c|), sink.Begin(), c, y);
    assert st.(phase := ChunkBody, left := |c|).(phase := SizeLine, left := 0) == st;
  }

  lemma LastChunkIsShort(lim: Limits, st: Parser, sink: Sink, y: bytes)
    requires st == START && lim.maxLine >= 2 && lim.maxField >= 1
    ensures Short(lim, st, sink, LAST_CHUNK + y)
  {
    LastChunkTurns(lim, st, sink, y);
  }

  lemma {:induction false} BodyIsShort(lim: Limits, st: Parser, sink: Sink, payloads: seq<bytes>, y: bytes)
    requires st == START && Roomy(lim, payloads)
    ensures Short(lim, st, sink, Body(payloads) + y)
    decreases |payloads|
  {
    if payloads == [] {
      assert Body(payloads) == LAST_CHUNK;
      LastChunkIsShort(lim, st, sink, y);
    } else {
      var c, more := payloads[0], Body(payloads[1..]);
      BodyIsShort(lim, st, Take(sink, c), payloads[1..], y);
      Assoc(FrameOrNone(c), more, y);
      FirstFrame(payloads);
      if c == [] {
        assert [] + (more + y) == more + y;
      } else {
        FrameIsShort(lim, st, sink, c, more + y);
      }
    }
  }

  lemma FirstFrame(payloads: seq<bytes>)
    requires payloads != []
    ensures Body(payloads) == FrameOrNone(payloads[0]) + Body(payloads[1..])
  {
    Assoc(FrameOrNone(payloads[0]), Frames(payloads[1..]), LAST_CHUNK);
  }

  /**
   * The chunked round trip. For every run of writes, empty ones included, ended either way, and
   * for every cutting of the body and of what follows it into fragments: the strict parser
   * delivers exactly the payloads, one HTTP chunk for each that is not empty, ends the body, and
   * hands back what followed.
   */
  lemma ChunkedRoundTrip(w: Writer, payloads: seq<bytes>, e: Ending, lim: Limits, st: Parser, sink: Sink,
                         extra: bytes, frags: seq<bytes>)
    requires Chunking(w) && st == START
    requires Roomy(lim, payloads + LastPayload(e)) && lim.maxTrailers >= 1
    requires NonEmpty(frags)
    requires OnWire(w) + Flatten(frags) == Finish(WriteAll(w, payloads), e).sent + extra
    ensures var all := payloads + LastPayload(e);
            && FeedAll(lim, st, sink, frags) == Done(TakeAll(sink, all).Eof(), extra)
            && TakeAll(sink, all).data == sink.data + Flatten(all)
  {
    var all := payloads + LastPayload(e);
    ChunkedRun(w, payloads, e);
    assert OnWire(w) + Flatten(frags) == OnWire(w) + (Body(all) + extra);
    EqualHeads(OnWire(w), Flatten(frags), OnWire(w), Body(all) + extra);
    BodyScans(lim, st, sink, all, extra);
    BodyIsShort(lim, st, sink, all, extra);
    FragmentationIndependence(lim, st, sink, Body(all) + extra);
    assert Feed(lim, st, sink, Body(all) + extra) == Scan(lim, st, sink, Body(all) + extra);
    assert Independent(lim, st, sink, Body(all) + extra);
    TakeAllDelivers(sink, all);
  }

  /** The end is signalled on the last byte of the body and not before. */
  lemma EndComesLast(lim: Limits, st: Parser, sink: Sink, payloads: seq<bytes>, n: nat)
    requires st == START && lim.maxField >= 0 && lim.maxTrailers >= 1 && n <= |Body(payloads)|
    ensures Scan(lim, st, sink, Body(payloads)[..n]).Done? <==> n == |Body(payloads)|
    ensures !Scan(lim, st, sink, Body(payloads)[..n]).Fail?
  {
    var x := Body(payloads);
    var a, b := x[..n], x[n..];
    assert a + b == x && x + [] == x;
    BodyScans(lim, st, sink, payloads, []);
    ScanSplit(lim, st, sink, a, b);
    ScanKeepsOk(lim, st, sink, a);
    if n == |x| {
      assert a == x;
    }
  }
}
