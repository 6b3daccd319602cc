/**
 * What the body writer puts on the wire: headers held back for the first write, then chunked,
 * length-limited or plain bodies.
 */
module WriterSpec {
  import opened Common
  import opened Bytes

  const LAST_CHUNK: bytes := [48, CR, LF, CR, LF]

  datatype Writer = Writer(
    length: Option<nat>,
    chunked: bool,
    eof: bool,
    headersBuf: Option<bytes>,
    headersWritten: bool,
    sent: bytes
  )

  /** One chunk on the wire. */
  function Frame(c: bytes): bytes { Hex(|c|) + CRLF + c + CRLF }

  predicate HeadersHeld(w: Writer)
  {
    w.headersBuf.Some? && w.headersBuf.value != [] && !w.headersWritten
  }

  function Emit(w: Writer, data: bytes): Writer { w.(sent := w.sent + data) }

  /** A held head and the first chunk behind it, with the terminator if the body ends with it. */
  function FirstChunked(head: bytes, chunk: bytes, isEof: bool): bytes
  {
    if chunk != [] then head + Hex(|chunk|) + CRLF + chunk + (if isEof then CRLF + LAST_CHUNK else CRLF)
    else if isEof then head + LAST_CHUNK
    else head
  }

  /** `_send_headers_with_payload`. */
  function SendHeadersWith(w: Writer, chunk: bytes, isEof: bool): Writer
    requires HeadersHeld(w)
  {
    var head := w.headersBuf.value;
    var v := w.(headersWritten := true, headersBuf := None);
    if !w.chunked then Emit(v, head + chunk)
    else Emit(v, FirstChunked(head, chunk, isEof))
  }

  /** What is left of `write` once the chunk is cut to the length: a held head goes out in front of it. */
  function WriteOut(w: Writer, chunk: bytes): Writer
  {
    if HeadersHeld(w) then SendHeadersWith(w, chunk, false)
    else if chunk == [] then w
    else if w.chunked then Emit(w, Frame(chunk))
    else Emit(w, chunk)
  }

  /** `write` without compression. */
  function Write(w: Writer, data: bytes): Writer
  {
    var chunk := if w.length.Some? && w.length.value < |data| then data[..w.length.value] else data;
    var v := if w.length.Some? then w.(length := Some(w.length.value - |chunk|)) else w;
    if w.length.Some? && w.length.value < |data| && chunk == [] then v else WriteOut(v, chunk)
  }

  /** `write_eof` without compression. */
  function WriteEof(w: Writer, chunk: bytes): Writer
  {
    if w.eof then w
    else if HeadersHeld(w) then SendHeadersWith(w, chunk, true).(eof := true)
    else if w.chunked then
      (if chunk != [] then Emit(w, Hex(|chunk|) + CRLF + chunk + (CRLF + LAST_CHUNK))
       else Emit(w, LAST_CHUNK)).(eof := true)
    else Emit(w, chunk).(eof := true)
  }

  function SetEof(w: Writer): Writer
  {
    if w.eof then w
    else if HeadersHeld(w) then
      var v := w.(headersWritten := true, headersBuf := None);
      Emit(v, w.headersBuf.value + (if w.chunked then LAST_CHUNK else [])).(eof := true)
    else if w.chunked && w.headersWritten then Emit(w, LAST_CHUNK).(eof := true)
    else w.(eof := true)
  }

  function SendHeaders(w: Writer): Writer
  {
    if HeadersHeld(w) then Emit(w.(headersWritten := true, headersBuf := None), w.headersBuf.value) else w
  }

  function WriteAll(w: Writer, payloads: seq<bytes>): Writer
    decreases |payloads|
  {
    if payloads == [] then w else WriteAll(Write(w, payloads[0]), payloads[1..])
  }

  datatype Ending = ByWriteEof(last: bytes) | BySetEof

  function Finish(w: Writer, e: Ending): Writer
  {
    match e
    case ByWriteEof(last) => WriteEof(w, last)
    case BySetEof => SetEof(w)
  }

  /** The chunks of a body on the wire, without the terminator: empty payloads leave no trace. */
  function Frames(payloads: seq<bytes>): bytes
  {
    if payloads == [] then []
    else (if payloads[0] == [] then [] else Frame(payloads[0])) + Frames(payloads[1..])
  }

  function LastPayload(e: Ending): seq<bytes>
  {
    if e.ByWriteEof? then [e.last] else []
  }

  /** A writer in the middle of a chunked message, its headers held or sent. */
  predicate Chunking(w: Writer)
  {
    w.chunked && w.length.None? && !w.eof && (HeadersHeld(w) || w.headersWritten)
  }

  function HeldHead(w: Writer): bytes { if HeadersHeld(w) then w.headersBuf.value else [] }

  lemma WriteChunked(w: Writer, c: bytes)
    requires Chunking(w)
    ensures Chunking(Write(w, c))
    ensures !HeadersHeld(Write(w, c))
    ensures Write(w, c).sent == w.sent + HeldHead(w) + (if c == [] then [] else Frame(c))
  {
    if HeadersHeld(w) && c != [] {
      var head := w.headersBuf.value;
      assert head + Hex(|c|) + CRLF + c + CRLF == head + Frame(c);
    }
  }

  lemma {:induction false} WriteAllChunked(w: Writer, payloads: seq<bytes>)
    requires Chunking(w)
    ensures Chunking(WriteAll(w, payloads))
    ensures WriteAll(w, payloads).sent + HeldHead(WriteAll(w, payloads)) == w.sent + HeldHead(w) + Frames(payloads)
    decreases |payloads|
  {
    if payloads != [] {
      var c := payloads[0];
      WriteChunked(w, c);
      WriteAllChunked(Write(w, c), payloads[1..]);
      var f := if c == [] then [] else Frame(c);
      Assoc(w.sent + HeldHead(w), f, Frames(payloads[1..]));
    }
  }

  lemma FinishChunked(w: Writer, e: Ending)
    requires Chunking(w)
    ensures Finish(w, e).eof
    ensures Finish(w, e).sent == w.sent + HeldHead(w) + (Frames(LastPayload(e)) + LAST_CHUNK)
  {
    var c := if e.ByWriteEof? then e.last else [];
    if c != [] {
      assert Frames([c]) == Frame(c);
      LastFrame(HeldHead(w), c);
      LastFrame([], c);
    } else {
      assert Frames(LastPayload(e)) == [];
      assert [] + LAST_CHUNK == LAST_CHUNK;
    }
  }

  /** The parts in which a head and the last frame are put together. */
  lemma LastFrame(head: bytes, c: bytes)
    requires c != []
    ensures head + Hex(|c|) + CRLF + c + (CRLF + LAST_CHUNK) == head + (Frame(c) + LAST_CHUNK)
  {
    var h := Hex(|c|);
    Assoc(head, h, CRLF);
    Assoc(head, h + CRLF, c);
    Assoc(h + CRLF + c, CRLF, LAST_CHUNK);
    Assoc(head, h + CRLF + c, CRLF + LAST_CHUNK);
  }

  lemma {:induction false} FramesAppend(a: seq<bytes>, b: seq<bytes>)
    ensures Frames(a + b) == Frames(a) + Frames(b)
  {
    if a == [] {
      assert a + b == b;
    } else {
      assert (a + b)[1..] == a[1..] + b;
      FramesAppend(a[1..], b);
    }
  }

  /** Every run of writes and either ending: what goes out is the head, the frames and the terminator. */
  lemma ChunkedRun(w: Writer, payloads: seq<bytes>, e: Ending)
    requires Chunking(w)
    ensures Finish(WriteAll(w, payloads), e).sent
         == w.sent + HeldHead(w) + (Frames(payloads + LastPayload(e)) + LAST_CHUNK)
  {
    WriteAllChunked(w, payloads);
    FinishChunked(WriteAll(w, payloads), e);
    FramesAppend(payloads, LastPayload(e));
    Regroup(w.sent + HeldHead(w), Frames(payloads), Frames(LastPayload(e)), LAST_CHUNK);
  }

  lemma Regroup(a: bytes, b: bytes, c: bytes, d: bytes)
    ensures a + b + (c + d) == a + (b + c + d)
  {
  }

  // ----- bodies limited by a length -----

  /** A writer in the middle of a plain body of which `n` bytes may still go out. */
  predicate Limited(w: Writer, n: nat)
  {
    !w.chunked && w.length == Some(n) && !w.eof && (HeadersHeld(w) || w.headersWritten)
  }

  /** The bytes of a message so far, headers still held included. */
  function OnWire(w: Writer): bytes { w.sent + HeldHead(w) }

  function Cut(data: bytes, n: nat): bytes { if |data| <= n then data else data[..n] }

  lemma WriteLimited(w: Writer, n: nat, data: bytes)
    requires Limited(w, n)
    ensures Limited(Write(w, data), n - |Cut(data, n)|)
    ensures OnWire(Write(w, data)) == OnWire(w) + Cut(data, n)
  {
    var chunk := Cut(data, n);
    if HeadersHeld(w) {
      assert w.sent + (w.headersBuf.value + chunk) == OnWire(w) + chunk;
    } else {
      assert w.sent + [] == w.sent && w.sent + [] + chunk == w.sent + chunk;
    }
    assert OnWire(w) + [] == OnWire(w);
  }

  lemma {:induction false} WriteAllLimited(w: Writer, n: nat, payloads: seq<bytes>)
    requires Limited(w, n)
    ensures Limited(WriteAll(w, payloads), n - |Cut(Flatten(payloads), n)|)
    ensures OnWire(WriteAll(w, payloads)) == OnWire(w) + Cut(Flatten(payloads), n)
    decreases |payloads|
  {
    if payloads == [] {
      assert OnWire(w) + [] == OnWire(w);
    } else {
      var c, rest := payloads[0], Flatten(payloads[1..]);
      WriteLimited(w, n, c);
      var k := n - |Cut(c, n)|;
      WriteAllLimited(Write(w, c), k, payloads[1..]);
      CutTwice(c, rest, n);
      Assoc(OnWire(w), Cut(c, n), Cut(rest, k));
    }
  }

  lemma CutTwice(a: bytes, b: bytes, n: nat)
    ensures Cut(a, n) + Cut(b, n - |Cut(a, n)|) == Cut(a + b, n)
  {
  }

  lemma FinishPlain(w: Writer, e: Ending)
    requires !w.chunked && !w.eof
    ensures Finish(w, e).sent == OnWire(w) + (if e.ByWriteEof? then e.last else [])
  {
    var c := if e.ByWriteEof? then e.last else [];
    if HeadersHeld(w) {
      assert w.sent + (w.headersBuf.value + c) == OnWire(w) + c;
    } else {
      assert w.sent + [] == w.sent;
    }
  }

  /**
   * Across all writes exactly the first L bytes of their concatenation go out (all of it if
   * shorter); but a payload handed to `write_eof` goes out whole, whatever the length says.
   */
  lemma LimitedRun(w: Writer, length: nat, payloads: seq<bytes>, e: Ending)
    requires Limited(w, length)
    ensures Finish(WriteAll(w, payloads), e).sent
         == OnWire(w) + Cut(Flatten(payloads), length) + Flatten(LastPayload(e))
  {
    WriteAllLimited(w, length, payloads);
    FinishPlain(WriteAll(w, payloads), e);
    if e.ByWriteEof? {
      assert Flatten([e.last]) == e.last;
    }
  }

  /** So the body keeps within its length exactly if nothing is left for `write_eof` to overrun it with. */
  lemma LengthIsKept(w: Writer, length: nat, payloads: seq<bytes>, e: Ending)
    requires Limited(w, length)
    ensures Finish(WriteAll(w, payloads), e).sent == OnWire(w) + Cut(Flatten(payloads + LastPayload(e)), length)
       <==> Flatten(LastPayload(e)) == [] || |Flatten(payloads + LastPayload(e))| <= length
  {
    LimitedRun(w, length, payloads, e);
    FlattenAppend(payloads, LastPayload(e));
    var a, b := Flatten(payloads), Flatten(LastPayload(e));
    assert OnWire(w) + Cut(a, length) + b == OnWire(w) + (Cut(a, length) + b);
    var whole, head := OnWire(w) + (Cut(a, length) + b), OnWire(w);
    assert whole[|head|..] == Cut(a, length) + b;
    assert (head + Cut(a + b, length))[|head|..] == Cut(a + b, length);
    if |a| > length {
      assert Cut(a + b, length) == Cut(a, length);
    }
    assert a + [] == a;
  }

  // ----- bodies without framing -----

  /** A writer in the middle of a body whose end is the end of the connection. */
  predicate Plain(w: Writer)
  {
    !w.chunked && w.length.None? && !w.eof && (HeadersHeld(w) || w.headersWritten)
  }

  lemma WritePlain(w: Writer, c: bytes)
    requires Plain(w)
    ensures Plain(Write(w, c)) && !HeadersHeld(Write(w, c)) && OnWire(Write(w, c)) == OnWire(w) + c
  {
    if HeadersHeld(w) {
      Assoc(w.sent, w.headersBuf.value, c);
    } else {
      assert w.sent + [] == w.sent;
    }
    assert OnWire(w) + c + [] == OnWire(w) + c;
    assert c == [] ==> OnWire(w) + c == OnWire(w);
  }

  lemma {:induction false} WriteAllPlain(w: Writer, payloads: seq<bytes>)
    requires Plain(w)
    ensures Plain(WriteAll(w, payloads)) && OnWire(WriteAll(w, payloads)) == OnWire(w) + Flatten(payloads)
    decreases |payloads|
  {
    if payloads == [] {
      assert OnWire(w) + [] == OnWire(w);
    } else {
      WritePlain(w, payloads[0]);
      WriteAllPlain(Write(w, payloads[0]), payloads[1..]);
      Assoc(OnWire(w), payloads[0], Flatten(payloads[1..]));
    }
  }

  /** Without chunks and without a length the head and the payloads go out as they are. */
  lemma PlainRun(w: Writer, payloads: seq<bytes>, e: Ending)
    requires Plain(w)
    ensures Finish(WriteAll(w, payloads), e).sent == OnWire(w) + Flatten(payloads + LastPayload(e))
  {
    WriteAllPlain(w, payloads);
    FinishPlain(WriteAll(w, payloads), e);
    FlattenAppend(payloads, LastPayload(e));
    if e.ByWriteEof? {
      assert Flatten([e.last]) == e.last;
      Assoc(OnWire(w), Flatten(payloads), e.last);
    } else {
      assert OnWire(w) + Flatten(payloads) + [] == OnWire(w) + (Flatten(payloads) + []);
    }
  }

  // ----- headers sent early -----

  /**
   * `send_headers` puts a held head on the wire, once; the whole message is the same as when the head
   * goes out with its first bytes.
   */
  lemma HeadersEarly(w: Writer, n: nat, payloads: seq<bytes>, e: Ending)
    requires Chunking(w) || Limited(w, n) || Plain(w)
    ensures var v := SendHeaders(w);
            && v.sent == w.sent + HeldHead(w) && HeldHead(v) == [] && SendHeaders(v) == v
            && Finish(WriteAll(v, payloads), e).sent == Finish(WriteAll(w, payloads), e).sent
  {
    var v := SendHeaders(w);
    assert w.sent + [] == w.sent && v.sent + [] == v.sent;
    if Chunking(w) {
      ChunkedRun(w, payloads, e);
      ChunkedRun(v, payloads, e);
    } else if Plain(w) {
      PlainRun(w, payloads, e);
      PlainRun(v, payloads, e);
    } else {
      LimitedRun(w, n, payloads, e);
      LimitedRun(v, n, payloads, e);
    }
  }

  /** A writer without a head ends a chunked body with a last chunk by `write_eof`, and with nothing by `set_eof`. */
  lemma HeadlessEnd(w: Writer, last: bytes)
    requires w.chunked && !HeadersHeld(w) && !w.headersWritten && !w.eof
    ensures Finish(w, BySetEof).sent == w.sent
    ensures Finish(w, ByWriteEof(last)).sent == w.sent + (Frames([last]) + LAST_CHUNK)
  {
    if last != [] {
      LastFrame([], last);
      assert Frames([last]) == Frame(last);
    } else {
      assert [] + LAST_CHUNK == LAST_CHUNK;
    }
  }

  /** A message is ended once: whatever ends it again sends nothing. */
  lemma FinishOnce(w: Writer, e: Ending, again: Ending)
    ensures Finish(w, e).eof && Finish(Finish(w, e), again) == Finish(w, e)
  {
  }
}
