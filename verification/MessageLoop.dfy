/** A whole connection: heads, bodies, and whatever follows a change of protocol. */
module MessageLoop {
  import opened Common
  import opened Bytes
  import opened Headers
  import opened PayloadSpec
  import opened Fragmentation
  import opened HeadFraming

  /** What a complete head says about its body, and about the connection behind it. */
  datatype Framing = NoBody | OfLength(n: nat) | InChunks | ToTheEnd | Upgrade
  datatype Kind = Kind(framing: Framing, close: bool)

  datatype Config = Config(limits: HeadLimits, parse: seq<bytes> -> Result<Kind, HttpError>)

  /** A body parser between two calls; what it holds over is kept beside it. */
  datatype Body = Sized(left: nat) | Chunked(st: Parser) | Endless

  datatype Stage =
    | Heading(lines: seq<bytes>)
    | Reading(head: seq<bytes>, body: Body, sink: Sink)
    | Upgraded

  /** A message that is through, with the error its body ended in, if any. */
  datatype Message = Message(head: seq<bytes>, body: Sink, error: Option<HttpError>)

  datatype Conn = Conn(stage: Stage, messages: seq<Message>, handed: bytes)

  /** Variables of one call: the last head asked to close the connection, and the limit for the next line. */
  datatype Vars = Vars(closing: bool, limit: int)

  datatype CallOutcome = Waits(c: Conn, tail: bytes) | Raises(error: HttpError)

  function FreshVars(cfg: Config): Vars { Vars(false, cfg.limits.maxLine) }

  function BodyLimits(cfg: Config, head: seq<bytes>): Limits
  {
    Limits(cfg.limits.maxLine, cfg.limits.maxField, cfg.limits.maxHeaders - |head|)
  }

  predicate Good(c: Conn)
  {
    c.stage.Reading? ==>
      match c.stage.body
      case Sized(left) => left > 0
      case Chunked(st) => Ok(st) && st.tail == []
      case Endless => true
  }

  function Closed(c: Conn, head: seq<bytes>, sink: Sink, error: Option<HttpError>): Conn
  {
    c.(stage := Heading([]), messages := c.messages + [Message(head, sink, error)])
  }

  /** A head is complete. */
  function Begun(c: Conn, head: seq<bytes>, framing: Framing): (d: Conn)
    ensures Good(d)
  {
    match framing
    case NoBody => Closed(c, head, EMPTY_SINK.Eof(), None)
    case OfLength(n) =>
      if n == 0 then Closed(c, head, EMPTY_SINK.Eof(), None) else c.(stage := Reading(head, Sized(n), EMPTY_SINK))
    case InChunks => c.(stage := Reading(head, Chunked(START), EMPTY_SINK))
    case ToTheEnd => c.(stage := Reading(head, Endless, EMPTY_SINK))
    case Upgrade => c.(stage := Upgraded, messages := c.messages + [Message(head, EMPTY_SINK.Eof(), None)])
  }

  /** One turn of the loop: it goes on with the rest, or the call is over. */
  datatype LoopTurn = Onward(c: Conn, v: Vars, rest: bytes) | Over(o: CallOutcome)

  function HeadLine(cfg: Config, c: Conn, v: Vars, line: bytes, rest: bytes): LoopTurn
    requires c.stage.Heading?
  {
    var lines := c.stage.lines + [line];
    if v.closing then Over(Raises(BadHttpMessage))
    else if |line| > v.limit then Over(Raises(LineTooLong))
    else if |lines| > cfg.limits.maxHeaders then Over(Raises(BadHttpMessage))
    else if line != [] then Onward(c.(stage := Heading(lines)), v.(limit := cfg.limits.maxField), rest)
    else
      match cfg.parse(lines)
      case Failure(e) => Over(Raises(e))
      case Success(kind) => Onward(Begun(c, lines, kind.framing), Vars(kind.close, cfg.limits.maxField), rest)
  }

  /** The body parser gets all there is. Most of its errors end the body alone, and drop what is left. */
  function BodyTurn(cfg: Config, c: Conn, v: Vars, x: bytes): LoopTurn
    requires c.stage.Reading? && Good(c)
  {
    var Reading(head, body, sink) := c.stage;
    match body
    case Sized(left) =>
      (match FeedLength(left, sink, x)
       case LengthMore(n, k) => Over(Waits(c.(stage := Reading(head, Sized(n), k)), []))
       case LengthDone(k, rest) => Onward(Closed(c, head, k, None), v, rest))
    case Chunked(st) =>
      (match Scan(BodyLimits(cfg, head), st, sink, x)
       case More(t, k) => Over(Waits(c.(stage := Reading(head, Chunked(t.(tail := [])), k)), t.tail))
       case Done(k, rest) => Onward(Closed(c, head, k, None), v, rest)
       case Fail(e, k) => Over(BodyFails(c, head, k, e)))
    case Endless => Over(Waits(c.(stage := Reading(head, Endless, sink.Feed(x))), []))
  }

  function BodyFails(c: Conn, head: seq<bytes>, sink: Sink, e: HttpError): CallOutcome
  {
    if e.InvalidHeader? || e.TransferEncodingError? then Raises(e) else Waits(Closed(c, head, sink, Some(e)), [])
  }

  function TurnOfLoop(cfg: Config, c: Conn, v: Vars, x: bytes): LoopTurn
    requires Good(c) && x != []
  {
    match c.stage
    case Heading(lines) =>
      var pos := Find(x, CRLF, 0);
      if pos < 0 then Over(if |x| > cfg.limits.maxLine then Raises(LineTooLong) else Waits(c, x))
      else if pos == 0 && lines == [] then Onward(c, v, x[2..])
      else HeadLine(cfg, c, v, x[..pos], x[pos + 2..])
    case Reading(_, _, _) => BodyTurn(cfg, c, v, x)
    case Upgraded => Over(Waits(c.(handed := c.handed + x), []))
  }

  lemma {:induction false} DoneIsShorter(lim: Limits, st: Parser, sink: Sink, x: bytes)
    requires Ok(st) && st.tail == [] && Scan(lim, st, sink, x).Done?
    ensures |Scan(lim, st, sink, x).rest| < |x|
    decreases |x|
  {
    ScanTurns(lim, st, sink, x);
    var t := TurnOf(lim, st, sink, x);
    if t.GoesOn? {
      DoneIsShorter(lim, t.st, t.sink, t.rest);
    }
  }

  lemma TurnIsGood(cfg: Config, c: Conn, v: Vars, x: bytes)
    requires Good(c) && x != []
    ensures match TurnOfLoop(cfg, c, v, x)
            case Onward(d, _, rest) => Good(d) && |rest| < |x|
            case Over(Waits(d, _)) => Good(d)
            case Over(Raises(_)) => true
  {
    if c.stage.Reading? && c.stage.body.Chunked? {
      var lim := BodyLimits(cfg, c.stage.head);
      ScanKeepsOk(lim, c.stage.body.st, c.stage.sink, x);
      if Scan(lim, c.stage.body.st, c.stage.sink, x).Done? {
        DoneIsShorter(lim, c.stage.body.st, c.stage.sink, x);
      }
    }
  }

  /** The loop of `HttpParser.feed_data`, from a state in which nothing is held over. */
  function Loop(cfg: Config, c: Conn, v: Vars, x: bytes): CallOutcome
    requires Good(c)
    decreases |x|
  {
    if x == [] then Waits(c, [])
    else
      TurnIsGood(cfg, c, v, x);
      match TurnOfLoop(cfg, c, v, x)
      case Onward(d, w, rest) => Loop(cfg, d, w, rest)
      case Over(o) => o
  }

  /** One call of `feed_data` with what was held over before. */
  function FeedConn(cfg: Config, c: Conn, tail: bytes, data: bytes): CallOutcome
    requires Good(c)
  {
    if !c.stage.Reading? || tail == [] then Loop(cfg, c, FreshVars(cfg), tail + data)
    else if data == [] then Waits(c, tail)
    else if |tail| > BodyTailLimit(cfg, c) then BodyFails(c, c.stage.head, c.stage.sink, LineTooLong)
    else Loop(cfg, c, FreshVars(cfg), tail + data)
  }

  function BodyTailLimit(cfg: Config, c: Conn): int
    requires c.stage.Reading?
  {
    if c.stage.body.Chunked? then TailLimit(BodyLimits(cfg, c.stage.head), c.stage.body.st.phase)
    else cfg.limits.maxLine
  }

  lemma {:induction false} LoopIsGood(cfg: Config, c: Conn, v: Vars, x: bytes)
    requires Good(c)
    ensures Loop(cfg, c, v, x).Waits? ==> Good(Loop(cfg, c, v, x).c)
    decreases |x|
  {
    if x != [] {
      TurnIsGood(cfg, c, v, x);
      var t := TurnOfLoop(cfg, c, v, x);
      if t.Onward? {
        LoopIsGood(cfg, t.c, t.v, t.rest);
      }
    }
  }

  lemma FeedIsGood(cfg: Config, c: Conn, tail: bytes, data: bytes)
    requires Good(c)
    ensures FeedConn(cfg, c, tail, data).Waits? ==> Good(FeedConn(cfg, c, tail, data).c)
  {
    LoopIsGood(cfg, c, FreshVars(cfg), tail + data);
  }

  /** One call after the other, until one raises. */
  function FeedAllConn(cfg: Config, c: Conn, tail: bytes, frags: seq<bytes>): CallOutcome
    requires Good(c)
    decreases |frags|
  {
    if frags == [] then Waits(c, tail)
    else
      FeedIsGood(cfg, c, tail, frags[0]);
      match FeedConn(cfg, c, tail, frags[0])
      case Waits(d, t) => FeedAllConn(cfg, d, t, frags[1..])
      case Raises(e) => Raises(e)
  }
}
