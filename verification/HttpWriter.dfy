/** The body writer: fields updated in place over a transport. */
module HttpWriter {
  import opened Common
  import opened Bytes
  import opened WriterSpec

  /** The bytes taken to be buffered once `grown` more are written: writing any may drain them all. */
  function Buffered(before: int, grown: int, drain: bool, limit: int): (r: int)
    ensures drain && grown != 0 ==> r <= Max(limit, 0)
    ensures !drain || grown == 0 ==> r == before + grown
  {
    if drain && grown != 0 && before + grown > limit then 0 else before + grown
  }

  /** `StreamWriter` over a transport that keeps what is written to it. */
  class StreamWriter {
    var length: Option<nat>
    var chunked: bool
    var eof: bool
    var headersBuf: Option<bytes>
    var headersWritten: bool
    var bufferSize: int
    var outputSize: int
    var closing: bool   // the transport is gone or closing: writing raises
    var sent: bytes

    ghost function State(): Writer
      reads this
    {
      Writer(length, chunked, eof, headersBuf, headersWritten, sent)
    }

    constructor ()
      ensures State() == Writer(None, false, false, None, false, []) && !closing
    {
      length, chunked, eof, headersBuf, headersWritten := None, false, false, None, false;
      bufferSize, outputSize, closing, sent := 0, 0, false, [];
    }

    /** The end of `write_headers`: the serialised head is held back. */
    method HoldHeaders(head: bytes)
      modifies this`headersBuf, this`headersWritten
      ensures headersBuf == Some(head) && !headersWritten
    {
      headersWritten := false;
      headersBuf := Some(head);
    }

    /** `_write`: false where the source raises ClientConnectionResetError. */
    method WriteRaw(data: bytes) returns (ok: bool)
      modifies this`bufferSize, this`outputSize, this`sent
      ensures ok == !closing
      ensures sent == old(sent) + (if ok then data else [])
      ensures outputSize == old(outputSize) + |data| && bufferSize == old(bufferSize) + |data|
    {
      bufferSize := bufferSize + |data|;
      outputSize := outputSize + |data|;
      if closing {
        assert sent + [] == sent;
        return false;
      }
      sent := sent + data;
      return true;
    }

    /** `_writelines`: the pieces leave as one. */
    method WriteLines(chunks: seq<bytes>) returns (ok: bool)
      modifies this`bufferSize, this`outputSize, this`sent
      ensures ok == !closing
      ensures sent == old(sent) + (if ok then Flatten(chunks) else [])
      ensures outputSize == old(outputSize) + |Flatten(chunks)|
      ensures bufferSize == old(bufferSize) + |Flatten(chunks)|
    {
      var total, i := 0, 0;
      while i < |chunks|
        invariant 0 <= i <= |chunks|
        invariant total == |Flatten(chunks[..i])|
        invariant sent == old(sent) && outputSize == old(outputSize) && bufferSize == old(bufferSize)
      {
        FlattenUpTo(chunks, i);
        total := total + |chunks[i]|;
        i := i + 1;
      }
      assert total == |Flatten(chunks)| by {
        assert chunks[..i] == chunks;
      }
      bufferSize := bufferSize + total;
      outputSize := outputSize + total;
      if closing {
        assert old(sent) + [] == sent;
        return false;
      }
      sent := sent + Flatten(chunks);
      return true;
    }

    /** `_send_headers_with_payload`. */
    method SendHeadersWithPayload(chunk: bytes, isEof: bool) returns (ok: bool)
      requires HeadersHeld(State())
      modifies this`headersWritten, this`headersBuf, this`bufferSize, this`outputSize, this`sent
      ensures ok == !closing
      ensures ok ==> State() == SendHeadersWith(old(State()), chunk, isEof)
      ensures !ok ==> sent == old(sent)
      ensures ok ==> outputSize - old(outputSize) == bufferSize - old(bufferSize) == |sent| - |old(sent)|
    {
      headersWritten := true;
      var head := headersBuf.value;
      headersBuf := None;
      if !chunked {
        if chunk != [] {
          FlattenTwo(head, chunk);
          ok := WriteLines([head, chunk]);
        } else {
          assert head + [] == head;
          ok := WriteRaw(head);
        }
        return;
      }
      ok := SendChunkBehind(head, chunk, isEof);
    }

    /** The chunked part: the head, the first chunk and, at the end of the body, the terminator. */
    method SendChunkBehind(head: bytes, chunk: bytes, isEof: bool) returns (ok: bool)
      modifies this`bufferSize, this`outputSize, this`sent
      ensures ok == !closing
      ensures sent == old(sent) + (if ok then FirstChunked(head, chunk, isEof) else [])
      ensures ok ==> outputSize - old(outputSize) == bufferSize - old(bufferSize) == |sent| - |old(sent)|
    {
      if chunk != [] {
        var pre := Hex(|chunk|) + CRLF;
        var post := if isEof then CRLF + LAST_CHUNK else CRLF;
        FlattenFour(head, pre, chunk, post);
        assert head + Hex(|chunk|) + CRLF + chunk + post == head + pre + chunk + post;
        ok := WriteLines([head, pre, chunk, post]);
      } else if isEof {
        FlattenTwo(head, LAST_CHUNK);
        ok := WriteLines([head, LAST_CHUNK]);
      } else {
        ok := WriteRaw(head);
      }
    }

    /** `_write_chunked_payload`. */
    method WriteChunkedPayload(chunk: bytes) returns (ok: bool)
      modifies this`bufferSize, this`outputSize, this`sent
      ensures ok == !closing
      ensures sent == old(sent) + (if ok then Frame(chunk) else [])
      ensures ok ==> outputSize - old(outputSize) == bufferSize - old(bufferSize) == |sent| - |old(sent)|
    {
      var pre := Hex(|chunk|) + CRLF;
      FlattenThree(pre, chunk, CRLF);
      ok := WriteLines([pre, chunk, CRLF]);
    }

    /** `write` with `drain` and the mark above which the buffer is drained. */
    method Write(data: bytes, drain: bool, limit: int) returns (ok: bool)
      modifies this
      ensures closing == old(closing) && (!closing ==> ok)
      ensures ok ==> State() == WriterSpec.Write(old(State()), data)
      ensures !ok ==> sent == old(sent)
      ensures ok ==> outputSize - old(outputSize) == |sent| - |old(sent)|
      ensures ok ==> bufferSize == Buffered(old(bufferSize), |sent| - |old(sent)|, drain, limit)
    {
      var chunk := data;
      if length.Some? {
        if length.value >= |chunk| {
          length := Some(length.value - |chunk|);
        } else {
          chunk := chunk[..length.value];
          length := Some(0);
          if chunk == [] {
            return true;
          }
        }
      }
      ok := WriteOut(chunk, drain, limit);
    }

    /** The rest of `write`: what is left of the data goes out, and the buffer may be drained. */
    method WriteOut(chunk: bytes, drain: bool, limit: int) returns (ok: bool)
      modifies this`headersWritten, this`headersBuf, this`bufferSize, this`outputSize, this`sent
      ensures !closing ==> ok
      ensures ok ==> State() == WriterSpec.WriteOut(old(State()), chunk)
      ensures !ok ==> sent == old(sent)
      ensures ok ==> outputSize - old(outputSize) == |sent| - |old(sent)|
      ensures ok ==> bufferSize == Buffered(old(bufferSize), |sent| - |old(sent)|, drain, limit)
    {
      if headersBuf.Some? && headersBuf.value != [] && !headersWritten {
        ok := SendHeadersWithPayload(chunk, false);
        if ok {
          DrainIfFull(drain, limit);
        }
        return;
      }
      ok := true;
      if chunk != [] {
        if chunked {
          ok := WriteChunkedPayload(chunk);
        } else {
          ok := WriteRaw(chunk);
        }
        if ok {
          DrainIfFull(drain, limit);
        }
      }
    }

    method DrainIfFull(drain: bool, limit: int)
      modifies this`bufferSize
      ensures bufferSize == if drain && old(bufferSize) > limit then 0 else old(bufferSize)
    {
      if drain && bufferSize > limit {
        bufferSize := 0;
      }
    }

    method SendHeaders() returns (ok: bool)
      modifies this
      ensures closing == old(closing) && (!closing ==> ok)
      ensures ok ==> State() == WriterSpec.SendHeaders(old(State()))
      ensures !ok ==> sent == old(sent)
      ensures ok ==> outputSize - old(outputSize) == bufferSize - old(bufferSize) == |sent| - |old(sent)|
    {
      if headersBuf.None? || headersBuf.value == [] || headersWritten {
        return true;
      }
      headersWritten := true;
      var head := headersBuf.value;
      headersBuf := None;
      ok := WriteRaw(head);
    }

    method SetEof() returns (ok: bool)
      modifies this
      ensures closing == old(closing) && (!closing ==> ok)
      ensures ok ==> State() == WriterSpec.SetEof(old(State()))
      ensures !ok ==> sent == old(sent)
      ensures ok ==> outputSize - old(outputSize) == bufferSize - old(bufferSize) == |sent| - |old(sent)|
    {
      if eof {
        return true;
      }
      ok := true;
      if headersBuf.Some? && headersBuf.value != [] && !headersWritten {
        headersWritten := true;
        var head := headersBuf.value;
        headersBuf := None;
        if chunked {
          FlattenTwo(head, LAST_CHUNK);
          ok := WriteLines([head, LAST_CHUNK]);
        } else {
          assert head + [] == head;
          ok := WriteRaw(head);
        }
      } else if chunked && headersWritten {
        ok := WriteRaw(LAST_CHUNK);
      }
      if !ok {
        return;
      }
      eof := true;
    }

    method WriteEof(chunk: bytes) returns (ok: bool)
      modifies this
      ensures closing == old(closing) && (!closing ==> ok)
      ensures ok ==> State() == WriterSpec.WriteEof(old(State()), chunk)
      ensures !ok ==> sent == old(sent)
      ensures ok ==> outputSize - old(outputSize) == bufferSize - old(bufferSize) == |sent| - |old(sent)|
    {
      if eof {
        return true;
      }
      if headersBuf.Some? && headersBuf.value != [] && !headersWritten {
        ok := SendHeadersWithPayload(chunk, true);
        if ok {
          eof := true;
        }
        return;
      }
      if chunked {
        if chunk != [] {
          var pre := Hex(|chunk|) + CRLF;
          FlattenThree(pre, chunk, CRLF + LAST_CHUNK);
          ok := WriteLines([pre, chunk, CRLF + LAST_CHUNK]);
        } else {
          ok := WriteRaw(LAST_CHUNK);
        }
        if ok {
          eof := true;
        }
        return;
      }
      ok := true;
      if chunk != [] {
        ok := WriteRaw(chunk);
      } else {
        assert sent + chunk == sent;
      }
      if ok {
        eof := true;
      }
    }
  }

  lemma FlattenTwo(a: bytes, b: bytes)
    ensures Flatten([a, b]) == a + b
  {
    assert [a, b][1..] == [b] && Flatten([b]) == b;
  }

  lemma FlattenThree(a: bytes, b: bytes, c: bytes)
    ensures Flatten([a, b, c]) == a + b + c
  {
    FlattenTwo(b, c);
    assert [a, b, c][1..] == [b, c];
    assert a + (b + c) == a + b + c;
  }

  lemma FlattenFour(a: bytes, b: bytes, c: bytes, d: bytes)
    ensures Flatten([a, b, c, d]) == a + b + c + d
  {
    FlattenThree(b, c, d);
    assert [a, b, c, d][1..] == [b, c, d];
    assert a + (b + c + d) == a + b + c + d;
  }
}
