/** What the strict parser of chunked bodies accepts: section 7.1 of RFC 9112, and nothing else. */
module ChunkGrammar {
  import opened Common
  import opened Bytes
  import opened Headers
  import opened PayloadSpec
  import opened Fragmentation

  // ----- size lines -----

  /** Hexadecimal digits, and possibly an extension behind a semicolon, without a line feed. */
  predicate SizeLineParts(line: bytes, digits: bytes, ext: Option<bytes>)
  {
    && IsHex(digits)
    && match ext
       case None => line == digits
       case Some(e) => line == digits + [SEMICOLON] + e && LF !in e
  }

  /** A line is read as a size exactly if it is made so, and then as the value of its digits. */
  lemma SizeLines(line: bytes, n: nat)
    ensures ParseSize(line) == Success(n)
       <==> exists digits, ext :: SizeLineParts(line, digits, ext) && HexValue(digits) == n
    ensures ParseSize(line).Failure? ==> ParseSize(line).error == TransferEncodingError
  {
    if ParseSize(line) == Success(n) {
      var digits, ext := PartsOf(line);
    }
    if digits, ext :| SizeLineParts(line, digits, ext) && HexValue(digits) == n {
      PartsParse(line, digits, ext);
    }
  }

  lemma PartsOf(line: bytes) returns (digits: bytes, ext: Option<bytes>)
    requires ParseSize(line).Success?
    ensures SizeLineParts(line, digits, ext) && HexValue(digits) == ParseSize(line).value
  {
    FindByte(line, SEMICOLON);
    var i := Find(line, [SEMICOLON], 0);
    if i >= 0 {
      digits, ext := line[..i], Some(line[i + 1..]);
      assert line[i] == SEMICOLON && line[i..] == [SEMICOLON] + line[i + 1..];
      assert line == digits + line[i..];
      Assoc(digits, [SEMICOLON], line[i + 1..]);
      assert LF !in line[i + 1..] by { assert LF !in [SEMICOLON] + line[i + 1..]; }
    } else {
      digits, ext := line, None;
    }
  }

  lemma PartsParse(line: bytes, digits: bytes, ext: Option<bytes>)
    requires SizeLineParts(line, digits, ext)
    ensures ParseSize(line) == Success(HexValue(digits))
  {
    assert SEMICOLON !in digits by {
      assert forall i :: 0 <= i < |digits| ==> IsHexDigit(digits[i]);
    }
    match ext
    case None => FindByte(line, SEMICOLON);
    case Some(e) =>
      var tail := [SEMICOLON] + e;
      Assoc(digits, [SEMICOLON], e);
      FindByteBehind(digits, tail, SEMICOLON);
      FindByte(tail, SEMICOLON);
      assert Find(tail, [SEMICOLON], 0) == 0 by {
        assert tail[0] == SEMICOLON;
      }
      assert line[..|digits|] == digits && line[|digits|..] == tail;
  }

  // ----- bodies -----

  /** A chunk as it was sent. */
  datatype Chunk = Chunk(line: bytes, data: bytes)

  function ChunkBytes(chunks: seq<Chunk>): bytes
  {
    if chunks == [] then [] else chunks[0].line + CRLF + (chunks[0].data + CRLF) + ChunkBytes(chunks[1..])
  }

  function LineBytes(lines: seq<bytes>): bytes
  {
    if lines == [] then [] else lines[0] + CRLF + LineBytes(lines[1..])
  }

  function DataOf(chunks: seq<Chunk>): bytes
  {
    if chunks == [] then [] else chunks[0].data + DataOf(chunks[1..])
  }

  /** Each chunk has as many bytes as its line says, and some. */
  predicate Sized(chunks: seq<Chunk>)
  {
    forall i :: 0 <= i < |chunks| ==> chunks[i].data != [] && ParseSize(chunks[i].line) == Success(|chunks[i].data|)
  }

  /** The trailer lines meet the limits, and are header fields. */
  predicate TrailersFit(lim: Limits, trailers: seq<bytes>)
  {
    && |trailers| + 1 <= lim.maxTrailers && Parse(trailers + [[]]).Success?
    && forall i :: 0 <= i < |trailers| ==> trailers[i] != [] && |trailers[i]| <= lim.maxField
  }

  lemma LineCut(x: bytes)
    requires Find(x, CRLF, 0) >= 0
    ensures var pos := Find(x, CRLF, 0); x == x[..pos] + CRLF + x[pos + 2..]
  {
    var first := LineAlone(x);
    var pos := Find(x, CRLF, 0);
    assert x[pos..pos + 2] == CRLF;
    assert first == x[..pos] + CRLF;
  }

  /** The rest of a body behind its last chunk. */
  lemma {:induction false} AcceptedTrailers(lim: Limits, st: Parser, sink: Sink, x: bytes) returns (more: seq<bytes>)
    requires Ok(st) && st.tail == [] && st.phase == Trailers && Scan(lim, st, sink, x).Done?
    requires forall i :: 0 <= i < |st.trailers| ==> |st.trailers[i]| <= lim.maxField
    ensures var o := Scan(lim, st, sink, x);
            && x == LineBytes(more) + CRLF + o.rest && o.sink == sink.Eof()
            && TrailersFit(lim, st.trailers + more)
    decreases |x|
  {
    ScanTurns(lim, st, sink, x);
    var t := TurnOf(lim, st, sink, x);
    var pos := Find(x, CRLF, 0);
    LineCut(x);
    var rest := Scan(lim, st, sink, x).rest;
    if t.GoesOn? {
      var others := AcceptedTrailers(lim, t.st, t.sink, t.rest);
      more := [x[..pos]] + others;
      assert more[1..] == others;
      Assoc(st.trailers, [x[..pos]], others);
      FourParts(x[..pos] + CRLF, LineBytes(others), CRLF, rest);
    } else {
      more := [];
      assert x[..pos] == [] && [] + CRLF + rest == x;
      assert st.trailers + [] == st.trailers;
    }
  }

  lemma FourParts(a: bytes, b: bytes, c: bytes, d: bytes)
    ensures a + (b + c + d) == a + b + c + d
  {
    Assoc(a, b, c);
    Assoc(a, b + c, d);
  }

  /** A chunk at the beginning of a body that is accepted. */
  lemma FirstChunk(lim: Limits, st: Parser, sink: Sink, x: bytes) returns (c: Chunk, rest: bytes)
    requires st == START && Scan(lim, st, sink, x).Done? && Find(x, CRLF, 0) >= 0
    requires ParseSize(x[..Find(x, CRLF, 0)]).Success? && ParseSize(x[..Find(x, CRLF, 0)]).value > 0
    ensures c.data != [] && ParseSize(c.line) == Success(|c.data|)
    ensures x == c.line + CRLF + (c.data + CRLF) + rest
    ensures Scan(lim, st, sink, x) == Scan(lim, st, sink.Begin().Feed(c.data).End(), rest)
  {
    var pos := Find(x, CRLF, 0);
    var n, y := ParseSize(x[..pos]).value, x[pos + 2..];
    LineCut(x);
    ScanTurns(lim, st, sink, x);
    var body := st.(phase := ChunkBody, left := n);
    assert TurnOf(lim, st, sink, x) == GoesOn(body, sink.Begin(), y);
    c, rest := BodyAndEnd(lim, body, sink.Begin(), x[..pos], y);
    assert body.(phase := SizeLine, left := 0) == st;
    Assoc(x[..pos] + CRLF, c.data + CRLF, rest);
  }

  lemma BodyIsThere(lim: Limits, st: Parser, sink: Sink, y: bytes) returns (data: bytes, behind: bytes)
    requires Ok(st) && st.tail == [] && st.phase == ChunkBody && Scan(lim, st, sink, y).Done?
    ensures y == data + behind && |data| == st.left
    ensures Scan(lim, st, sink, y) == Scan(lim, st.(phase := ChunkEnd, left := 0), sink.Feed(data).End(), behind)
  {
    data, behind := y[..st.left], y[st.left..];
  }

  lemma EndIsThere(lim: Limits, st: Parser, sink: Sink, y: bytes) returns (rest: bytes)
    requires Ok(st) && st.tail == [] && st.phase == ChunkEnd && Scan(lim, st, sink, y).Done?
    ensures y == CRLF + rest && Scan(lim, st, sink, y) == Scan(lim, st.(phase := SizeLine), sink, rest)
  {
    rest := y[2..];
  }

  lemma BodyAndEnd(lim: Limits, st: Parser, sink: Sink, line: bytes, y: bytes) returns (c: Chunk, rest: bytes)
    requires Ok(st) && st.tail == [] && st.phase == ChunkBody && Scan(lim, st, sink, y).Done?
    ensures c.line == line && |c.data| == st.left && y == c.data + CRLF + rest
    ensures Scan(lim, st, sink, y) == Scan(lim, st.(phase := SizeLine, left := 0), sink.Feed(c.data).End(), rest)
  {
    var data, behind := BodyIsThere(lim, st, sink, y);
    var ended := st.(phase := ChunkEnd, left := 0);
    rest := EndIsThere(lim, ended, sink.Feed(data).End(), behind);
    c := Chunk(line, data);
    Assoc(data, CRLF, rest);
    assert ended.(phase := SizeLine) == st.(phase := SizeLine, left := 0);
  }

  /**
   * A body that is accepted is made of chunks, each with a size line, as many bytes as that says and
   * a line end, of the line of the last chunk, of trailer lines, and of an empty line. Delivered are
   * the bytes of the chunks, and what stands behind comes back.
   */
  lemma {:induction false} AcceptedIsChunked(lim: Limits, st: Parser, sink: Sink, x: bytes)
    returns (chunks: seq<Chunk>, last: bytes, trailers: seq<bytes>)
    requires st == START && Scan(lim, st, sink, x).Done?
    ensures Sized(chunks) && ParseSize(last) == Success(0) && TrailersFit(lim, trailers)
    ensures var o := Scan(lim, st, sink, x);
            && x == ChunkBytes(chunks) + (last + CRLF + (LineBytes(trailers) + CRLF + o.rest))
            && o.sink.data == sink.data + DataOf(chunks) && o.sink.eof
            && |o.sink.ends| == |sink.ends| + |chunks|
    decreases |x|
  {
    FirstLineOf(lim, st, sink, x);
    if ParseSize(x[..Find(x, CRLF, 0)]).value == 0 {
      last, trailers := LastChunk(lim, st, sink, x);
      chunks := [];
      assert [] + x == x && sink.data + [] == sink.data;
    } else {
      var c, rest := FirstChunk(lim, st, sink, x);
      var k := sink.Begin().Feed(c.data).End();
      var others;
      others, last, trailers := AcceptedIsChunked(lim, st, k, rest);
      chunks := [c] + others;
      assert chunks[1..] == others;
      ManyChunks(c, others, sink.data, last + CRLF + (LineBytes(trailers) + CRLF + Scan(lim, st, k, rest).rest));
    }
  }

  /** A body that is accepted begins with a size line. */
  lemma FirstLineOf(lim: Limits, st: Parser, sink: Sink, x: bytes)
    requires st == START && Scan(lim, st, sink, x).Done?
    ensures Find(x, CRLF, 0) >= 0 && ParseSize(x[..Find(x, CRLF, 0)]).Success?
  {
  }

  lemma LastChunk(lim: Limits, st: Parser, sink: Sink, x: bytes) returns (last: bytes, trailers: seq<bytes>)
    requires st == START && Scan(lim, st, sink, x).Done? && Find(x, CRLF, 0) >= 0
    requires ParseSize(x[..Find(x, CRLF, 0)]) == Success(0)
    ensures ParseSize(last) == Success(0) && TrailersFit(lim, trailers)
    ensures var o := Scan(lim, st, sink, x);
            x == last + CRLF + (LineBytes(trailers) + CRLF + o.rest) && o.sink == sink.Eof()
  {
    ScanTurns(lim, st, sink, x);
    var t := TurnOf(lim, st, sink, x);
    LineCut(x);
    last := x[..Find(x, CRLF, 0)];
    trailers := AcceptedTrailers(lim, t.st, t.sink, t.rest);
    assert t.st.trailers + trailers == trailers;
  }

  lemma ManyChunks(c: Chunk, others: seq<Chunk>, data: bytes, tail: bytes)
    ensures var chunks := [c] + others;
            && ChunkBytes(chunks) + tail == c.line + CRLF + (c.data + CRLF) + (ChunkBytes(others) + tail)
            && data + DataOf(chunks) == data + c.data + DataOf(others)
  {
    assert ([c] + others)[1..] == others;
    Assoc(c.line + CRLF + (c.data + CRLF), ChunkBytes(others), tail);
    Assoc(data, c.data, DataOf(others));
  }

  /** Behind the bytes of a chunk comes a line end or the body is malformed; half a line end is waited for. */
  lemma ChunkEndRefused(lim: Limits, st: Parser, sink: Sink, y: bytes)
    requires Ok(st) && st.tail == [] && st.phase == ChunkEnd && y != []
    ensures !(y <= CRLF) && !(CRLF <= y) ==> Scan(lim, st, sink, y) == Fail(TransferEncodingError, sink)
    ensures y < CRLF ==> Scan(lim, st, sink, y) == More(st.(tail := y), sink)
  {
  }
}
