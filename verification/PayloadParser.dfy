/** The body parser: its fields are updated while it runs over the bytes, and it fills a body stream. */
module PayloadParsers {
  import opened Common
  import opened Bytes
  import opened Headers
  import opened PayloadSpec
  import opened StreamReaders

  datatype Kind = ParseNone | ParseLength | ParseChunked | ParseUntilEof

  type FeedResult = Result<(bool, bytes), HttpError>

  /** Where a part of the chunked loop leaves off. */
  datatype Step = Go(chunk: bytes) | Stop(r: FeedResult)

  function SizeState(st: Parser, size: nat): Parser
  {
    if size == 0 then st.(phase := Trailers) else st.(phase := ChunkBody, left := size)
  }

  function SizeSink(sink: Sink, size: nat): Sink
  {
    if size == 0 then sink else sink.Begin()
  }

  /** Behind a size line the scan goes on as the size says. */
  lemma SizeLineOutcome(lim: Limits, st: Parser, sink: Sink, chunk: bytes, pos: nat, size: Result<nat, HttpError>)
    requires Ok(st) && st.tail == [] && st.phase == SizeLine && chunk != []
    requires pos == Find(chunk, CRLF, 0) && ParseSize(chunk[..pos]) == size
    ensures size.Failure? ==> Scan(lim, st, sink, chunk) == Fail(size.error, sink)
    ensures size.Success? ==>
              (Scan(lim, st, sink, chunk)
               == Scan(lim, SizeState(st, size.value), SizeSink(sink, size.value), chunk[pos + 2..]))
  {
  }

  lemma NoLineYet(lim: Limits, st: Parser, sink: Sink, chunk: bytes)
    requires Ok(st) && st.tail == [] && (st.phase == SizeLine || st.phase == Trailers)
    requires Find(chunk, CRLF, 0) < 0
    ensures Scan(lim, st, sink, chunk) == More(st.(tail := chunk), sink)
  {
  }

  lemma LengthTakesAll(left: nat, sink: Sink, chunk: bytes)
    ensures left == |chunk| ==> FeedLength(left, sink, chunk) == LengthDone(sink.Feed(chunk).Eof(), [])
  {
    assert chunk[..|chunk|] == chunk && chunk[|chunk|..] == [];
  }

  /** Inside a chunk the scan delivers what there is, up to the end of the chunk. */
  lemma BodyScans(lim: Limits, st: Parser, sink: Sink, chunk: bytes)
    requires Ok(st) && st.tail == [] && st.phase == ChunkBody
    ensures st.left > |chunk| ==> Scan(lim, st, sink, chunk) == More(st.(left := st.left - |chunk|), sink.Feed(chunk))
    ensures st.left <= |chunk| ==>
              Scan(lim, st, sink, chunk)
              == Scan(lim, st.(phase := ChunkEnd, left := 0), sink.Feed(chunk[..st.left]).End(), chunk[st.left..])
  {
    if chunk == [] {
      assert sink.data + chunk == sink.data;
    }
  }

  /** The end of the body, its trailers being parsed. */
  function Ended(lines: seq<bytes>, sink: Sink, rest: bytes): Outcome
    requires lines != [] && lines[|lines| - 1] == []
  {
    match Parse(lines)
    case Failure(e) => Fail(e, sink)
    case Success(_) => Done(sink.Eof(), rest)
  }

  /** A trailer line is added to the others; an empty one ends the body. */
  lemma TrailerScans(lim: Limits, st: Parser, sink: Sink, chunk: bytes, pos: nat, lines: seq<bytes>)
    requires Ok(st) && st.tail == [] && st.phase == Trailers && pos == Find(chunk, CRLF, 0) && chunk != []
    requires lines == st.trailers + [chunk[..pos]]
    ensures pos > lim.maxField ==> Scan(lim, st, sink, chunk) == Fail(LineTooLong, sink)
    ensures pos <= lim.maxField && |lines| > lim.maxTrailers ==>
              Scan(lim, st, sink, chunk) == Fail(BadHttpMessage, sink)
    ensures pos <= lim.maxField && |lines| <= lim.maxTrailers && pos > 0 ==>
              Scan(lim, st, sink, chunk) == Scan(lim, st.(trailers := lines), sink, chunk[pos + 2..])
    ensures pos <= lim.maxField && |lines| <= lim.maxTrailers && pos == 0 ==>
              Scan(lim, st, sink, chunk) == Ended(lines, sink, chunk[pos + 2..])
  {
  }

  class HttpPayloadParser {
    const payload: StreamReader
    const limits: Limits
    var kind: Kind
    var length: nat
    var phase: Phase
    var chunkSize: nat
    var chunkTail: bytes
    var trailerLines: seq<bytes>
    var done: bool

    ghost function State(): Parser
      reads this
    {
      Parser(phase, chunkSize, chunkTail, trailerLines)
    }

    /** What was put into the stream, whatever its readers took out meanwhile. */
    ghost function Delivered(): Sink
      reads payload
    {
      Sink(payload.splits.Some?, payload.fed, payload.ends, payload.eof)
    }

    ghost predicate Valid()
      reads this, payload, payload.protocol
    {
      && payload.Valid()
      && Ok(State())
      && (phase == ChunkBody ==> chunkTail == [])
      && (kind == ParseChunked ==> payload.splits.None? ==> payload.totalBytes == 0)
      && (phase == ChunkBody ==> payload.splits.Some?)
    }

    constructor (payload: StreamReader, length: Option<nat>, chunked: bool, responseWithBody: bool, limits: Limits)
      requires payload.Valid() && payload.fed == []
      modifies payload, payload.protocol
      ensures Valid() && this.payload == payload && this.limits == limits && State() == START
      ensures kind == if !responseWithBody then ParseNone else if chunked then ParseChunked
                      else if length.Some? then ParseLength else ParseUntilEof
      ensures kind == ParseLength ==> this.length == length.value
      ensures done == (!responseWithBody || (!chunked && length == Some(0)))
      ensures payload.eof == (done || old(payload.eof)) && payload.fed == []
    {
      this.payload := payload;
      this.limits := limits;
      this.length, phase, chunkSize, chunkTail, trailerLines := 0, SizeLine, 0, [], [];
      kind, done := ParseUntilEof, false;
      new;
      if !responseWithBody {
        kind := ParseNone;
        payload.FeedEof();
        done := true;
      } else if chunked {
        kind := ParseChunked;
      } else if length.Some? {
        kind := ParseLength;
        this.length := length.value;
        if length.value == 0 {
          payload.FeedEof();
          done := true;
        }
      }
    }

    method FeedEof() returns (r: Option<HttpError>)
      requires Valid()
      modifies payload, payload.protocol
      ensures payload.Valid()
      ensures r == match kind
                   case ParseLength => Some(ContentLengthError)
                   case ParseChunked => Some(TransferEncodingError)
                   case _ => None
      ensures payload.eof == (old(payload.eof) || kind == ParseUntilEof)
    {
      match kind
      case ParseUntilEof =>
        payload.FeedEof();
        return None;
      case ParseLength => return Some(ContentLengthError);
      case ParseChunked => return Some(TransferEncodingError);
      case ParseNone => return None;
    }

    /** The result and the state are those of the outcome; a fault in the framing is noted in the stream. */
    ghost predicate Matches(o: Outcome, r: FeedResult)
      reads this, payload
    {
      Delivered() == o.sink &&
      match o
      case More(st, _) => r == Success((false, [])) && State() == st
      case Done(_, rest) => r == Success((true, rest))
      case Fail(e, _) => r == Failure(e) && (e == TransferEncodingError ==> payload.exception)
    }

    /** What is left to scan has the outcome the whole has. */
    ghost predicate OnTheWay(o: Outcome, step: Step)
      reads this, payload
    {
      match step
      case Go(chunk) => Ok(State()) && chunkTail == [] && Scan(limits, State(), Delivered(), chunk) == o
      case Stop(r) => Matches(o, r)
    }

    /** The size on the line that ends at `pos`; an error is noted in the stream. */
    method ReadSize(chunk: bytes, pos: nat) returns (r: Result<nat, HttpError>)
      requires payload.Valid() && pos <= |chunk|
      modifies payload
      ensures payload.Valid() && r == ParseSize(chunk[..pos]) && (r.Failure? ==> payload.exception)
      ensures Delivered() == old(Delivered()) && payload.totalBytes == old(payload.totalBytes)
    {
      var line := chunk[..pos];
      var i := Find(line, [SEMICOLON], 0);
      var size := line;
      if i >= 0 {
        size := line[..i];
        if LF in line[i..] {
          payload.SetException();
          return Failure(TransferEncodingError);
        }
      }
      if !IsHex(size) {
        payload.SetException();
        return Failure(TransferEncodingError);
      }
      return Success(HexValue(size));
    }

    /** A size was read: the last chunk leads to the trailers, any other one to its body. */
    method StartChunk(size: nat)
      requires Valid() && !payload.eof && kind == ParseChunked && phase == SizeLine && chunkTail == []
      modifies this`phase, this`chunkSize, payload
      ensures Valid() && payload.eof == old(payload.eof) && chunkTail == []
      ensures State() == SizeState(old(State()), size) && Delivered() == SizeSink(old(Delivered()), size)
    {
      if size == 0 {
        phase := Trailers;
      } else {
        phase := ChunkBody;
        chunkSize := size;
        var ok := payload.BeginHttpChunkReceiving();
      }
    }

    /** The bytes of an incomplete line are kept for the next call. */
    method Hold(chunk: bytes) returns (step: Step)
      requires Valid() && phase != ChunkBody && chunkTail == []
      modifies this`chunkTail
      ensures Valid() && step == Stop(Success((false, [])))
      ensures State() == old(State()).(tail := chunk) && Delivered() == old(Delivered())
    {
      chunkTail := chunk;
      return Stop(Success((false, [])));
    }

    method OnSizeLine(chunk: bytes) returns (step: Step)
      requires Valid() && !payload.eof && kind == ParseChunked && phase == SizeLine && chunkTail == [] && chunk != []
      modifies this`phase, this`chunkSize, this`chunkTail, payload
      ensures OnTheWay(old(Scan(limits, State(), Delivered(), chunk)), step)
      ensures (step.Stop? && step.r.Failure?) || Valid()
      ensures payload.eof == old(payload.eof)
      ensures step.Go? ==> (phase == ChunkBody || phase == Trailers) && |step.chunk| < |chunk|
    {
      var pos := Find(chunk, CRLF, 0);
      if pos < 0 {
        NoLineYet(limits, State(), Delivered(), chunk);
        step := Hold(chunk);
        return;
      }
      step := TakeSize(chunk, pos);
    }

    /** A whole size line is there. */
    method TakeSize(chunk: bytes, pos: nat) returns (step: Step)
      requires Valid() && !payload.eof && kind == ParseChunked && phase == SizeLine && chunkTail == []
      requires pos == Find(chunk, CRLF, 0)
      modifies this`phase, this`chunkSize, payload
      ensures OnTheWay(old(Scan(limits, State(), Delivered(), chunk)), step)
      ensures (step.Stop? && step.r.Failure?) || Valid()
      ensures payload.eof == old(payload.eof)
      ensures step.Go? ==> (phase == ChunkBody || phase == Trailers) && |step.chunk| < |chunk|
      ensures step.Stop? ==> step.r.Failure?
    {
      ghost var st, sink := State(), Delivered();
      var size := ReadSize(chunk, pos);
      SizeLineOutcome(limits, st, sink, chunk, pos, size);
      if size.Failure? {
        return Stop(Failure(size.error));
      }
      StartChunk(size.value);
      return Go(chunk[pos + 2..]);
    }

    method OnChunkBody(chunk: bytes) returns (step: Step)
      requires Valid() && !payload.eof && kind == ParseChunked && phase == ChunkBody
      modifies this`phase, this`chunkSize, payload, payload.protocol
      ensures OnTheWay(old(Scan(limits, State(), Delivered(), chunk)), step)
      ensures Valid()
      ensures payload.eof == old(payload.eof) && (step.Go? ==> phase == ChunkEnd && |step.chunk| < |chunk|)
    {
      BodyScans(limits, State(), Delivered(), chunk);
      var required := chunkSize;
      if required > |chunk| {
        chunkSize := required - |chunk|;
        payload.FeedData(chunk);
        return Stop(Success((false, [])));
      }
      FinishChunk(chunk[..required]);
      return Go(chunk[required..]);
    }

    /** The last bytes of a chunk. */
    method FinishChunk(data: bytes)
      requires Valid() && !payload.eof && kind == ParseChunked && phase == ChunkBody && |data| == chunkSize
      modifies this`phase, this`chunkSize, payload, payload.protocol
      ensures Valid() && payload.eof == old(payload.eof)
      ensures State() == old(State()).(phase := ChunkEnd, left := 0)
      ensures Delivered() == old(Delivered()).Feed(data).End()
    {
      chunkSize := 0;
      payload.FeedData(data);
      phase := ChunkEnd;
      var ok := payload.EndHttpChunkReceiving();
    }

    method OnChunkEnd(chunk: bytes) returns (step: Step)
      requires Valid() && !payload.eof && kind == ParseChunked && phase == ChunkEnd && chunkTail == []
      modifies this`phase, this`chunkTail, payload
      ensures OnTheWay(old(Scan(limits, State(), Delivered(), chunk)), step)
      ensures (step.Stop? && step.r.Failure?) || Valid()
      ensures payload.eof == old(payload.eof) && (step.Go? ==> phase == SizeLine && |step.chunk| < |chunk|)
    {
      if |chunk| >= 2 && chunk[..2] == CRLF {
        phase := SizeLine;
        return Go(chunk[2..]);
      }
      if |chunk| >= 2 || chunk != CRLF[..|chunk|] {
        payload.SetException();
        return Stop(Failure(TransferEncodingError));
      }
      step := Hold(chunk);
    }

    method OnTrailers(chunk: bytes) returns (step: Step)
      requires Valid() && !payload.eof && kind == ParseChunked && phase == Trailers && chunkTail == []
      modifies this`chunkTail, this`trailerLines, payload, payload.protocol
      ensures OnTheWay(old(Scan(limits, State(), Delivered(), chunk)), step)
      ensures (step.Stop? && step.r.Failure?) || Valid()
      ensures step.Go? ==> payload.eof == old(payload.eof) && phase == Trailers && |step.chunk| < |chunk|
    {
      var pos := Find(chunk, CRLF, 0);
      if pos < 0 {
        NoLineYet(limits, State(), Delivered(), chunk);
        step := Hold(chunk);
        return;
      }
      step := TakeTrailer(chunk, pos);
    }

    /** A whole trailer line is there. */
    method TakeTrailer(chunk: bytes, pos: nat) returns (step: Step)
      requires Valid() && !payload.eof && kind == ParseChunked && phase == Trailers && chunkTail == []
      requires pos == Find(chunk, CRLF, 0)
      modifies this`trailerLines, payload, payload.protocol
      ensures OnTheWay(old(Scan(limits, State(), Delivered(), chunk)), step)
      ensures (step.Stop? && step.r.Failure?) || Valid()
      ensures step.Go? ==> payload.eof == old(payload.eof) && |step.chunk| < |chunk|
    {
      var line, rest := chunk[..pos], chunk[pos + 2..];
      TrailerScans(limits, State(), Delivered(), chunk, pos, trailerLines + [line]);
      if |line| > limits.maxField {
        return Stop(Failure(LineTooLong));
      }
      trailerLines := trailerLines + [line];
      if |trailerLines| > limits.maxTrailers {
        return Stop(Failure(BadHttpMessage));
      }
      if trailerLines[|trailerLines| - 1] == [] {
        step := FinishBody(rest);
        return;
      }
      return Go(rest);
    }

    /** The trailers are complete: they are parsed, and the body ends. */
    method FinishBody(rest: bytes) returns (step: Step)
      requires payload.Valid() && Ok(State().(trailers := [])) && phase == Trailers && chunkTail == []
      requires trailerLines != [] && trailerLines[|trailerLines| - 1] == []
      modifies this`trailerLines, payload, payload.protocol
      ensures step.Stop? && Matches(old(Ended(trailerLines, Delivered(), rest)), step.r)
      ensures payload.Valid() && trailerLines == []
      ensures payload.splits == old(payload.splits) && payload.totalBytes == old(payload.totalBytes)
    {
      var parsed := ParseHeaders(trailerLines);
      trailerLines := [];
      if parsed.Failure? {
        return Stop(Failure(parsed.error));
      }
      payload.FeedEof();
      return Stop(Success((true, rest)));
    }

    /** One turn of the chunked loop: each part may hand over to the next one. */
    method Turn(chunk: bytes) returns (step: Step)
      requires Valid() && !payload.eof && kind == ParseChunked && chunkTail == [] && chunk != []
      modifies this`phase, this`chunkSize, this`chunkTail, this`trailerLines, payload, payload.protocol
      ensures OnTheWay(old(Scan(limits, State(), Delivered(), chunk)), step)
      ensures step.Go? ==> Valid() && !payload.eof && |step.chunk| < |chunk|
      ensures step.Stop? && step.r.Success? ==> Valid()
    {
      ghost var goal := Scan(limits, State(), Delivered(), chunk);
      step := Go(chunk);
      if phase == SizeLine {
        step := OnSizeLine(chunk);
        if step.Stop? { return; }
      }
      if phase == ChunkBody {
        step := OnChunkBody(step.chunk);
        if step.Stop? { return; }
      }
      if phase == ChunkEnd {
        step := OnChunkEnd(step.chunk);
        if step.Stop? { return; }
      }
      if phase == Trailers {
        step := OnTrailers(step.chunk);
      }
    }

    /** The chunked part of `feed_data`. */
    method FeedChunked(data: bytes) returns (r: FeedResult)
      requires Valid() && !payload.eof && kind == ParseChunked
      modifies this`phase, this`chunkSize, this`chunkTail, this`trailerLines, payload, payload.protocol
      ensures Matches(old(Feed(limits, State(), Delivered(), data)), r)
      ensures r.Success? ==> Valid()
    {
      var chunk := data;
      ghost var goal := Feed(limits, State(), Delivered(), data);
      if chunkTail != [] {
        assert phase != ChunkBody;
        if |chunkTail| > (if phase == Trailers then limits.maxField else limits.maxLine) {
          return Failure(LineTooLong);
        }
        chunk := chunkTail + chunk;
        chunkTail := [];
      }
      while chunk != []
        invariant Valid() && !payload.eof
        invariant OnTheWay(goal, Go(chunk))
        decreases |chunk|
      {
        var step := Turn(chunk);
        if step.Stop? {
          return step.r;
        }
        chunk := step.chunk;
      }
      return Success((false, []));
    }

    method LastBytes(chunk: bytes)
      requires Valid() && !payload.eof && kind == ParseLength
      modifies payload, payload.protocol
      ensures Valid() && Delivered() == old(Delivered()).Feed(chunk).Eof()
    {
      payload.FeedData(chunk);
      payload.FeedEof();
    }

    /** The part of `feed_data` for bodies of known length. */
    method FeedByLength(chunk: bytes) returns (r: FeedResult)
      requires Valid() && !payload.eof && kind == ParseLength
      modifies this`length, payload, payload.protocol
      ensures Valid()
      ensures match old(FeedLength(length, Delivered(), chunk))
              case LengthMore(left, sink) => r == Success((false, [])) && length == left && Delivered() == sink
              case LengthDone(sink, rest) => r == Success((true, rest)) && length == 0 && Delivered() == sink
    {
      ghost var sink := Delivered();
      LengthTakesAll(length, sink, chunk);
      var required := length;
      if required >= |chunk| {
        length := required - |chunk|;
        if length == 0 {
          LastBytes(chunk);
          return Success((true, []));
        }
        payload.FeedData(chunk);
        return Success((false, []));
      }
      length := 0;
      LastBytes(chunk[..required]);
      return Success((true, chunk[required..]));
    }

    /** `feed_data`: whether the body ended, and the bytes behind it. */
    method FeedData(chunk: bytes) returns (r: FeedResult)
      requires Valid() && !payload.eof
      modifies this, payload, payload.protocol
      ensures kind == old(kind)
      ensures kind == ParseChunked ==> Matches(old(Feed(limits, State(), Delivered(), chunk)), r)
      ensures kind == ParseLength ==>
                match old(FeedLength(length, Delivered(), chunk))
                case LengthMore(left, sink) => r == Success((false, [])) && length == left && Delivered() == sink
                case LengthDone(sink, rest) => r == Success((true, rest)) && length == 0 && Delivered() == sink
      ensures kind == ParseUntilEof ==>
                r == Success((false, [])) && Delivered() == old(Delivered()).Feed(chunk)
      ensures kind == ParseNone ==> r == Success((false, [])) && Delivered() == old(Delivered())
    {
      match kind
      case ParseLength => r := FeedByLength(chunk);
      case ParseChunked => r := FeedChunked(chunk);
      case ParseUntilEof =>
        payload.FeedData(chunk);
        r := Success((false, []));
      case ParseNone => r := Success((false, []));
    }
  }
}
