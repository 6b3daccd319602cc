/** What the strict body parser does with a stretch of bytes, for chunked and length-framed bodies. */
module PayloadSpec {
  import opened Common
  import opened Bytes
  import opened Headers

  datatype Phase = SizeLine | ChunkBody | ChunkEnd | Trailers

  datatype Limits = Limits(maxLine: int, maxField: int, maxTrailers: int)

  /** The chunked parser between two calls. `left` counts the bytes missing from the current chunk. */
  datatype Parser = Parser(phase: Phase, left: nat, tail: bytes, trailers: seq<bytes>)

  const START: Parser := Parser(SizeLine, 0, [], [])

  /** What the parser has put into the body stream so far. */
  datatype Sink = Sink(begun: bool, data: bytes, ends: seq<int>, eof: bool)
  {
    function Begin(): Sink { this.(begun := true) }
    function Feed(d: bytes): Sink { this.(data := data + d) }
    function End(): Sink { this.(ends := ends + [|data|]) }
    function Eof(): Sink { this.(eof := true) }
  }

  const EMPTY_SINK: Sink := Sink(false, [], [], false)

  datatype Outcome =
    | More(st: Parser, sink: Sink)
    | Done(sink: Sink, rest: bytes)
    | Fail(error: HttpError, sink: Sink)

  predicate Ok(st: Parser)
  {
    && (st.phase == ChunkBody ==> st.left > 0)
    && (forall i :: 0 <= i < |st.trailers| ==> st.trailers[i] != [])
  }

  /** The size on a chunk's first line; an extension behind `;` is dropped. */
  function ParseSize(line: bytes): Result<nat, HttpError>
  {
    var i := Find(line, [SEMICOLON], 0);
    var size := if i >= 0 then line[..i] else line;
    if i >= 0 && LF in line[i..] then Failure(TransferEncodingError)
    else if !IsHex(size) then Failure(TransferEncodingError)
    else Success(HexValue(size))
  }

  /** The chunked parser over a stretch of bytes, nothing being held over. */
  function Scan(lim: Limits, st: Parser, sink: Sink, chunk: bytes): Outcome
    requires Ok(st) && st.tail == []
    decreases |chunk|
  {
    if chunk == [] then More(st, sink)
    else
      match st.phase
      case SizeLine =>
        var pos := Find(chunk, CRLF, 0);
        if pos < 0 then More(st.(tail := chunk), sink)
        else
          var rest := chunk[pos + 2..];
          (match ParseSize(chunk[..pos])
           case Failure(e) => Fail(e, sink)
           case Success(n) =>
             if n == 0 then Scan(lim, st.(phase := Trailers), sink, rest)
             else Scan(lim, st.(phase := ChunkBody, left := n), sink.Begin(), rest))
      case ChunkBody =>
        if st.left > |chunk| then
          More(st.(left := st.left - |chunk|), sink.Feed(chunk))
        else
          Scan(lim, st.(phase := ChunkEnd, left := 0), sink.Feed(chunk[..st.left]).End(), chunk[st.left..])
      case ChunkEnd =>
        if CRLF <= chunk then Scan(lim, st.(phase := SizeLine), sink, chunk[2..])
        else if |chunk| >= 2 || chunk[0] != CR then Fail(TransferEncodingError, sink)
        else More(st.(tail := chunk), sink)
      case Trailers =>
        var pos := Find(chunk, CRLF, 0);
        if pos < 0 then More(st.(tail := chunk), sink)
        else
          var line, rest := chunk[..pos], chunk[pos + 2..];
          var lines := st.trailers + [line];
          if |line| > lim.maxField then Fail(LineTooLong, sink)
          else if |lines| > lim.maxTrailers then Fail(BadHttpMessage, sink)
          else if line == [] then
            match Parse(lines)
            case Failure(e) => Fail(e, sink)
            case Success(_) => Done(sink.Eof(), rest)
          else Scan(lim, st.(trailers := lines), sink, rest)
  }

  function TailLimit(lim: Limits, phase: Phase): int
  {
    if phase == Trailers then lim.maxField else lim.maxLine
  }

  /** One call of `feed_data`: the held-over bytes are checked against their limit and put in front. */
  function Feed(lim: Limits, st: Parser, sink: Sink, chunk: bytes): Outcome
    requires Ok(st)
  {
    if st.tail == [] then Scan(lim, st, sink, chunk)
    else if |st.tail| > TailLimit(lim, st.phase) then Fail(LineTooLong, sink)
    else Scan(lim, st.(tail := []), sink, st.tail + chunk)
  }

  datatype LengthOutcome =
    | LengthMore(left: nat, sink: Sink)
    | LengthDone(sink: Sink, rest: bytes)

  /** One call of `feed_data` on a body of which `left` bytes are missing. */
  function FeedLength(left: nat, sink: Sink, chunk: bytes): LengthOutcome
  {
    if left > |chunk| then LengthMore(left - |chunk|, sink.Feed(chunk))
    else LengthDone(sink.Feed(chunk[..left]).Eof(), chunk[left..])
  }

  function FeedAllLength(left: nat, sink: Sink, frags: seq<bytes>): LengthOutcome
    decreases |frags|
  {
    if frags == [] then LengthMore(left, sink)
    else
      match FeedLength(left, sink, frags[0])
      case LengthMore(n, k) => FeedAllLength(n, k, frags[1..])
      case LengthDone(k, rest) => LengthDone(k, rest + Flatten(frags[1..]))
  }
}
