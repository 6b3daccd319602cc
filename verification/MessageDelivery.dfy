/** What the parser of a connection delivers for a whole message, by the framing its head announces. */
module MessageDelivery {
  import opened Common
  import opened Bytes
  import opened Headers
  import opened PayloadSpec
  import Fragmentation
  import opened HeadFraming
  import HeadRoundTrip
  import opened WriterSpec
  import opened BodyRoundTrip
  import StreamChunks
  import opened ChunkGrammar
  import opened ChunkPipeline
  import opened MessageLoop
  import opened MessageFragments

  /** The loop goes on from one state with some bytes as from the other with the rest of them. */
  ghost predicate Leads(cfg: Config, c: Conn, v: Vars, x: bytes, d: Conn, w: Vars, y: bytes)
  {
    && Good(c) && Good(d)
    && Loop(cfg, c, v, x) == Loop(cfg, d, w, y)
    && (Fits(cfg, d, w, y) ==> Fits(cfg, c, v, x))
  }

  // ----- heads -----

  /** Lines as they stand in a head. */
  function HeadBytes(lines: seq<bytes>): bytes { HeadRoundTrip.Terminated(lines) + CRLF }

  /** A first line and field lines that meet the limits. */
  predicate HeadFits(lim: HeadLimits, lines: seq<bytes>)
  {
    && lines != [] && HeadRoundTrip.PlainLines(lim, [], lines) && 0 < lim.maxLine && 0 <= lim.maxField
    && |lines| + 1 <= lim.maxHeaders
  }

  lemma LineLeads(cfg: Config, c: Conn, v: Vars, line: bytes, more: bytes)
    requires c.stage.Heading? && !v.closing && LF !in line && (line == [] ==> c.stage.lines != [])
    requires |line| < cfg.limits.maxLine && |line| <= v.limit && |c.stage.lines| + 1 <= cfg.limits.maxHeaders
    ensures var lines := c.stage.lines + [line];
            && (line != [] ==> Leads(cfg, c, v, line + CRLF + more, c.(stage := Heading(lines)),
                                     v.(limit := cfg.limits.maxField), more))
            && (line == [] && cfg.parse(lines).Success? ==>
                  var kind := cfg.parse(lines).value;
                  Leads(cfg, c, v, line + CRLF + more, Begun(c, lines, kind.framing),
                        Vars(kind.close, cfg.limits.maxField), more))
  {
    var x := line + CRLF + more;
    FindLineEnd(line, more);
    assert x[..|line|] == line && x[|line| + 2..] == more;
    TurnFacts(cfg, c, v, x);
  }

  lemma LeadsOn(cfg: Config, c: Conn, v: Vars, x: bytes, d: Conn, w: Vars, y: bytes, e: Conn, u: Vars, z: bytes)
    requires Leads(cfg, c, v, x, d, w, y) && Leads(cfg, d, w, y, e, u, z)
    ensures Leads(cfg, c, v, x, e, u, z)
  {
  }

  /** The lines meet the limits behind those that were read, and are not too many. */
  predicate LinesFit(cfg: Config, before: seq<bytes>, lines: seq<bytes>)
  {
    && HeadRoundTrip.PlainLines(cfg.limits, before, lines) && (before == [] ==> lines != [])
    && 0 < cfg.limits.maxLine && 0 <= cfg.limits.maxField && |before| + |lines| + 1 <= cfg.limits.maxHeaders
  }

  /** The limit a line meets in a call that began with its head. */
  function LimitBehind(cfg: Config, before: seq<bytes>): int
  {
    if before == [] then cfg.limits.maxLine else cfg.limits.maxField
  }

  lemma FirstLineLeads(cfg: Config, c: Conn, lines: seq<bytes>, y: bytes) returns (d: Conn)
    requires c.stage.Heading? && LinesFit(cfg, c.stage.lines, lines) && lines != []
    ensures d == c.(stage := Heading(c.stage.lines + [lines[0]])) && LinesFit(cfg, d.stage.lines, lines[1..])
    ensures Leads(cfg, c, Vars(false, LimitBehind(cfg, c.stage.lines)), HeadBytes(lines) + y,
                  d, Vars(false, cfg.limits.maxField), HeadBytes(lines[1..]) + y)
    ensures d.stage.lines + lines[1..] == c.stage.lines + lines
  {
    d := c.(stage := Heading(c.stage.lines + [lines[0]]));
    HeadRoundTrip.TerminatedFirst(lines, y);
    HeadRoundTrip.PlainTail(cfg.limits, c.stage.lines, lines);
    LineLeads(cfg, c, Vars(false, LimitBehind(cfg, c.stage.lines)), lines[0], HeadBytes(lines[1..]) + y);
    Assoc(c.stage.lines, [lines[0]], lines[1..]);
  }

  /** The lines that are left of a head, and the empty one. */
  lemma {:induction false} HeadLeads(cfg: Config, c: Conn, lines: seq<bytes>, all: seq<bytes>, kind: Kind, y: bytes)
    requires c.stage.Heading? && LinesFit(cfg, c.stage.lines, lines)
    requires all == c.stage.lines + lines + [[]] && cfg.parse(all) == Success(kind)
    ensures Leads(cfg, c, Vars(false, LimitBehind(cfg, c.stage.lines)), HeadBytes(lines) + y,
                  Begun(c, all, kind.framing), Vars(kind.close, cfg.limits.maxField), y)
    decreases |lines|
  {
    var v, w := Vars(false, LimitBehind(cfg, c.stage.lines)), Vars(kind.close, cfg.limits.maxField);
    if lines == [] {
      assert [] + CRLF + y == HeadBytes(lines) + y;
      assert c.stage.lines + lines == c.stage.lines;
      LineLeads(cfg, c, v, [], y);
    } else {
      var d := FirstLineLeads(cfg, c, lines, y);
      HeadLeads(cfg, d, lines[1..], all, kind, y);
      BegunAlike(c, d, all, kind.framing);
      LeadsOn(cfg, c, v, HeadBytes(lines) + y, d, Vars(false, cfg.limits.maxField), HeadBytes(lines[1..]) + y,
              Begun(c, all, kind.framing), w, y);
    }
  }

  /** What begins does not depend on how far the head was read. */
  lemma BegunAlike(c: Conn, d: Conn, head: seq<bytes>, framing: Framing)
    requires d == c.(stage := d.stage)
    ensures Begun(d, head, framing) == Begun(c, head, framing)
  {
  }

  /** A whole head at the beginning of a call. */
  lemma WholeHeadLeads(cfg: Config, c: Conn, lines: seq<bytes>, kind: Kind, y: bytes)
    requires c.stage == Heading([]) && HeadFits(cfg.limits, lines) && cfg.parse(lines + [[]]) == Success(kind)
    ensures Leads(cfg, c, Vars(false, cfg.limits.maxLine), HeadBytes(lines) + y,
                  Begun(c, lines + [[]], kind.framing), Vars(kind.close, cfg.limits.maxField), y)
  {
    assert [] + lines + [[]] == lines + [[]];
    HeadLeads(cfg, c, lines, lines + [[]], kind, y);
  }

  // ----- whole messages -----

  /** The connection with one more message that ended well, ready for the next head. */
  function With(c: Conn, m: Message): Conn
  {
    Conn(Heading([]), c.messages + [m], c.handed)
  }

  /** What one call makes of the bytes is what it makes of the rest once this message is there. */
  ghost predicate Delivers(cfg: Config, c: Conn, x: bytes, m: Message, close: bool, y: bytes)
    requires c.stage == Heading([])
  {
    Loop(cfg, c, Vars(false, cfg.limits.maxLine), x) == Loop(cfg, With(c, m), Vars(close, cfg.limits.maxField), y)
  }

  /** The message holds the bytes of the payloads and ends where each of them that is not empty ends. */
  ghost predicate Holds(m: Message, lines: seq<bytes>, payloads: seq<bytes>)
  {
    && m.head == lines + [[]] && m.error == None
    && m.body.data == Flatten(payloads) && m.body.eof
    && |m.body.ends| == |NonEmptyOf(payloads)|
    && forall k :: 0 <= k < |m.body.ends| ==> m.body.ends[k] == |Flatten(NonEmptyOf(payloads)[..k + 1])|
  }

  /** A chunked body that was written payload by payload. */
  lemma ChunkedBodyLeads(cfg: Config, c: Conn, v: Vars, head: seq<bytes>, payloads: seq<bytes>, y: bytes)
    returns (m: Message)
    requires c.stage == Reading(head, Chunked(START), EMPTY_SINK)
    requires Roomy(BodyLimits(cfg, head), payloads) && |head| < cfg.limits.maxHeaders
    ensures Leads(cfg, c, v, BodyRoundTrip.Body(payloads) + y, With(c, m), v, y)
    ensures m == Message(head, TakeAll(EMPTY_SINK, payloads).Eof(), None)
  {
    var lim := BodyLimits(cfg, head);
    m := Message(head, TakeAll(EMPTY_SINK, payloads).Eof(), None);
    BodyScans(lim, START, EMPTY_SINK, payloads, y);
    BodyIsShort(lim, START, EMPTY_SINK, payloads, y);
    TurnFacts(cfg, c, v, BodyRoundTrip.Body(payloads) + y);
  }

  lemma TakeAllHolds(payloads: seq<bytes>, m: Message, lines: seq<bytes>)
    requires m == Message(lines + [[]], TakeAll(EMPTY_SINK, payloads).Eof(), None)
    ensures Holds(m, lines, payloads)
  {
    var none: seq<bytes> := [];
    TakeAllDelivers(EMPTY_SINK, payloads);
    TakeAllMirrors(EMPTY_SINK, payloads, none);
    assert none + NonEmptyOf(payloads) == NonEmptyOf(payloads);
    assert [] + Flatten(payloads) == Flatten(payloads);
    var p := StreamChunks.Made(NonEmptyOf(payloads), false, [], false);
    assert Mirrors(p, TakeAll(EMPTY_SINK, payloads));
    forall k | 0 <= k < |m.body.ends|
      ensures m.body.ends[k] == |Flatten(NonEmptyOf(payloads)[..k + 1])|
    {
      assert m.body.ends[k] == StreamChunks.EndOf(p.done, k + 1);
    }
  }

  /** A head that announces a chunked body, such a body, and what follows. */
  lemma ChunkedMessage(
      cfg: Config, c: Conn, lines: seq<bytes>, close: bool, payloads: seq<bytes>, y: bytes) returns (m: Message)
    requires c.stage == Heading([]) && HeadFits(cfg.limits, lines) && |lines| + 1 < cfg.limits.maxHeaders
    requires cfg.parse(lines + [[]]) == Success(Kind(InChunks, close)) && Roomy(BodyLimits(cfg, lines + [[]]), payloads)
    ensures Delivers(cfg, c, HeadBytes(lines) + (Frames(payloads) + LAST_CHUNK + y), m, close, y)
    ensures Holds(m, lines, payloads)
    ensures Fits(cfg, With(c, m), Vars(close, cfg.limits.maxField), y) ==>
              Fits(cfg, c, Vars(false, cfg.limits.maxLine), HeadBytes(lines) + (Frames(payloads) + LAST_CHUNK + y))
  {
    var head, body := lines + [[]], Frames(payloads) + LAST_CHUNK + y;
    WholeHeadLeads(cfg, c, lines, Kind(InChunks, close), body);
    var d := Begun(c, head, InChunks);
    m := ChunkedBodyLeads(cfg, d, Vars(close, cfg.limits.maxField), head, payloads, y);
    TakeAllHolds(payloads, m, lines);
  }

  /** A head that announces a length: exactly so many of the bytes behind it are the body. */
  lemma SizedMessage(cfg: Config, c: Conn, lines: seq<bytes>, close: bool, body: bytes, y: bytes) returns (m: Message)
    requires c.stage == Heading([]) && HeadFits(cfg.limits, lines)
    requires cfg.parse(lines + [[]]) == Success(Kind(OfLength(|body|), close))
    ensures Delivers(cfg, c, HeadBytes(lines) + (body + y), m, close, y)
    ensures m.head == lines + [[]] && m.error == None && m.body.data == body && m.body.eof && m.body.ends == []
    ensures Fits(cfg, With(c, m), Vars(close, cfg.limits.maxField), y) ==>
              Fits(cfg, c, Vars(false, cfg.limits.maxLine), HeadBytes(lines) + (body + y))
  {
    WholeHeadLeads(cfg, c, lines, Kind(OfLength(|body|), close), body + y);
    m := Message(lines + [[]], Sink(false, body, [], true), None);
    SizedBodyLeads(cfg, c, Vars(close, cfg.limits.maxField), lines + [[]], body, y);
  }

  lemma SizedBodyLeads(cfg: Config, c: Conn, v: Vars, head: seq<bytes>, body: bytes, y: bytes)
    ensures Leads(cfg, Begun(c, head, OfLength(|body|)), v, body + y,
                  With(c, Message(head, Sink(false, body, [], true), None)), v, y)
  {
    if body == [] {
      assert body + y == y;
    } else {
      var d := Begun(c, head, OfLength(|body|));
      TurnFacts(cfg, d, v, body + y);
      assert (body + y)[..|body|] == body && (body + y)[|body|..] == y;
      assert [] + body == body;
    }
  }

  /** Fewer bytes than announced are delivered, and the message does not end. */
  lemma SizedStart(cfg: Config, c: Conn, lines: seq<bytes>, close: bool, n: nat, x: bytes) returns (d: Conn)
    requires c.stage == Heading([]) && HeadFits(cfg.limits, lines) && |x| < n
    requires cfg.parse(lines + [[]]) == Success(Kind(OfLength(n), close))
    ensures Loop(cfg, c, Vars(false, cfg.limits.maxLine), HeadBytes(lines) + x) == Waits(d, [])
    ensures StillReads(c, d, lines, x)
  {
    WholeHeadLeads(cfg, c, lines, Kind(OfLength(n), close), x);
    d := SizedReads(cfg, c, Vars(close, cfg.limits.maxField), lines + [[]], n, x);
  }

  lemma SizedReads(cfg: Config, c: Conn, v: Vars, head: seq<bytes>, n: nat, x: bytes) returns (d: Conn)
    requires |x| < n
    ensures d == Conn(Reading(head, Sized(n - |x|), Sink(false, x, [], false)), c.messages, c.handed)
    ensures Loop(cfg, Begun(c, head, OfLength(n)), v, x) == Waits(d, [])
  {
    d := Conn(Reading(head, Sized(n - |x|), Sink(false, x, [], false)), c.messages, c.handed);
    if x != [] {
      TurnFacts(cfg, Begun(c, head, OfLength(n)), v, x);
      assert [] + x == x;
    }
  }

  /** No message ended; so much of the body was delivered. */
  predicate StillReads(c: Conn, d: Conn, lines: seq<bytes>, x: bytes)
  {
    && d.messages == c.messages && d.handed == c.handed
    && d.stage.Reading? && d.stage.head == lines + [[]] && d.stage.sink.data == x && !d.stage.sink.eof
  }

  /** A head without a body. */
  lemma BodilessMessage(cfg: Config, c: Conn, lines: seq<bytes>, close: bool, y: bytes) returns (m: Message)
    requires c.stage == Heading([]) && HeadFits(cfg.limits, lines)
    requires cfg.parse(lines + [[]]) == Success(Kind(NoBody, close))
    ensures Delivers(cfg, c, HeadBytes(lines) + y, m, close, y)
    ensures m.head == lines + [[]] && m.error == None && m.body.data == [] && m.body.eof
  {
    WholeHeadLeads(cfg, c, lines, Kind(NoBody, close), y);
    m := Message(lines + [[]], Sink(false, [], [], true), None);
  }

  /** A body up to the end of the connection: all bytes are delivered, and no message ends. */
  lemma EndlessMessage(cfg: Config, c: Conn, lines: seq<bytes>, close: bool, x: bytes) returns (d: Conn)
    requires c.stage == Heading([]) && HeadFits(cfg.limits, lines)
    requires cfg.parse(lines + [[]]) == Success(Kind(ToTheEnd, close))
    ensures Loop(cfg, c, Vars(false, cfg.limits.maxLine), HeadBytes(lines) + x) == Waits(d, [])
    ensures StillReads(c, d, lines, x)
  {
    WholeHeadLeads(cfg, c, lines, Kind(ToTheEnd, close), x);
    var e := Begun(c, lines + [[]], ToTheEnd);
    d := Conn(Reading(lines + [[]], Endless, Sink(false, x, [], false)), c.messages, c.handed);
    if x != [] {
      TurnFacts(cfg, e, Vars(close, cfg.limits.maxField), x);
      assert [] + x == x;
    }
  }

  /** A change of protocol: the message has no body, and all that follows is handed on, in this call and the next. */
  lemma UpgradedMessage(cfg: Config, c: Conn, lines: seq<bytes>, close: bool, y: bytes, z: bytes)
      returns (m: Message, d: Conn)
    requires c.stage == Heading([]) && HeadFits(cfg.limits, lines)
    requires cfg.parse(lines + [[]]) == Success(Kind(Upgrade, close))
    ensures Loop(cfg, c, Vars(false, cfg.limits.maxLine), HeadBytes(lines) + y) == Waits(d, [])
    ensures d.messages == c.messages + [m] && d.handed == c.handed + y
    ensures m.head == lines + [[]] && m.error == None && m.body.data == [] && m.body.eof
    ensures Good(d) && FeedConn(cfg, d, [], z) == Waits(d.(handed := d.handed + z), [])
  {
    WholeHeadLeads(cfg, c, lines, Kind(Upgrade, close), y);
    m := Message(lines + [[]], Sink(false, [], [], true), None);
    var e := Begun(c, lines + [[]], Upgrade);
    d := e.(handed := c.handed + y);
    HandedOn(cfg, e, Vars(close, cfg.limits.maxField), y);
    HandedOn(cfg, d, FreshVars(cfg), z);
    assert [] + z == z;
  }

  lemma HandedOn(cfg: Config, c: Conn, v: Vars, y: bytes)
    requires c.stage.Upgraded?
    ensures Loop(cfg, c, v, y) == Waits(c.(handed := c.handed + y), [])
  {
    if y == [] {
      assert c.handed + y == c.handed;
    } else {
      TurnFacts(cfg, c, v, y);
    }
  }

  // ----- over any fragments -----

  /**
   * A head and the chunked body it announces, cut into calls in any way: in the end the connection has
   * one more message, with the lines of the head and the payloads, and is ready for the next.
   */
  lemma ChunkedMessageArrives(
      cfg: Config, c: Conn, lines: seq<bytes>, close: bool, payloads: seq<bytes>, frags: seq<bytes>)
    returns (m: Message)
    requires c.stage == Heading([]) && Clean(c) && HeadFits(cfg.limits, lines) && |lines| + 1 < cfg.limits.maxHeaders
    requires cfg.parse(lines + [[]]) == Success(Kind(InChunks, close)) && Roomy(BodyLimits(cfg, lines + [[]]), payloads)
    requires Fragmentation.NonEmpty(frags) && Flatten(frags) == HeadBytes(lines) + (Frames(payloads) + LAST_CHUNK)
    ensures FeedAllConn(cfg, c, [], frags) == Waits(With(c, m), []) && Holds(m, lines, payloads)
  {
    m := ChunkedMessage(cfg, c, lines, close, payloads, []);
    var x := HeadBytes(lines) + (Frames(payloads) + LAST_CHUNK);
    assert Frames(payloads) + LAST_CHUNK + [] == Frames(payloads) + LAST_CHUNK;
    OneCallDelivers(cfg, c, x, m, close);
    ConnFragmentation(cfg, c, x);
  }

  lemma OneCallDelivers(cfg: Config, c: Conn, x: bytes, m: Message, close: bool)
    requires c.stage == Heading([]) && Clean(c) && m.error == None && Delivers(cfg, c, x, m, close, [])
    ensures Loop(cfg, c, FreshVars(cfg), x) == Waits(With(c, m), []) && Accepted(Waits(With(c, m), []))
  {
  }

  /** The same for a body of known length. */
  lemma SizedMessageArrives(
      cfg: Config, c: Conn, lines: seq<bytes>, close: bool, body: bytes, frags: seq<bytes>) returns (m: Message)
    requires c.stage == Heading([]) && Clean(c) && HeadFits(cfg.limits, lines)
    requires cfg.parse(lines + [[]]) == Success(Kind(OfLength(|body|), close))
    requires Fragmentation.NonEmpty(frags) && Flatten(frags) == HeadBytes(lines) + body
    ensures FeedAllConn(cfg, c, [], frags) == Waits(With(c, m), [])
    ensures m.head == lines + [[]] && m.error == None && m.body.data == body && m.body.eof && m.body.ends == []
  {
    m := SizedMessage(cfg, c, lines, close, body, []);
    assert HeadBytes(lines) + (body + []) == HeadBytes(lines) + body;
    OneCallDelivers(cfg, c, HeadBytes(lines) + body, m, close);
    ConnFragmentation(cfg, c, HeadBytes(lines) + body);
  }

  // ----- bodies that fail -----

  /**
   * An error in a chunked body raises if it is about a header or the transfer encoding. Any other
   * ends the message with that error, and what is left of the call is dropped.
   */
  lemma BodyFailure(
      cfg: Config, c: Conn, v: Vars, head: seq<bytes>, st: Parser, sink: Sink, x: bytes, e: HttpError, k: Sink)
    requires c.stage == Reading(head, Chunked(st), sink) && Good(c) && x != []
    requires Scan(BodyLimits(cfg, head), st, sink, x) == Fail(e, k)
    ensures Loop(cfg, c, v, x)
         == if e == InvalidHeader || e == TransferEncodingError then Raises(e)
            else Waits(With(c, Message(head, k, Some(e))), [])
  {
    TurnFacts(cfg, c, v, x);
  }

  /** So does a line of which too much was held over. */
  lemma HeldTooLongFails(cfg: Config, c: Conn, tail: bytes, data: bytes)
    requires c.stage.Reading? && c.stage.body.Chunked? && Good(c) && data != []
    requires |tail| > 0
          && |tail| > (if c.stage.body.st.phase == Trailers then cfg.limits.maxField else cfg.limits.maxLine)
    ensures FeedConn(cfg, c, tail, data) == Waits(With(c, Message(c.stage.head, c.stage.sink, Some(LineTooLong))), [])
  {
  }

  /**
   * The limit on the number of header lines holds for a head and the trailers of its body together:
   * a chunked body ends well only behind trailers that leave it unexceeded.
   */
  lemma HeadAndTrailers(cfg: Config, head: seq<bytes>, x: bytes) returns (trailers: seq<bytes>)
    requires Scan(BodyLimits(cfg, head), START, EMPTY_SINK, x).Done?
    ensures |head| + |trailers| + 1 <= cfg.limits.maxHeaders
    ensures forall i :: 0 <= i < |trailers| ==> |trailers[i]| <= cfg.limits.maxField
    ensures var rest := Scan(BodyLimits(cfg, head), START, EMPTY_SINK, x).rest;
            exists front :: x == front + (LineBytes(trailers) + CRLF + rest)
  {
    var chunks, last;
    chunks, last, trailers := AcceptedIsChunked(BodyLimits(cfg, head), START, EMPTY_SINK, x);
    var tail := LineBytes(trailers) + CRLF + Scan(BodyLimits(cfg, head), START, EMPTY_SINK, x).rest;
    Assoc(ChunkBytes(chunks), last + CRLF, tail);
    assert x == (ChunkBytes(chunks) + (last + CRLF)) + tail;
  }

  /** A call without bytes changes nothing, whatever is held over. */
  lemma NoBytes(cfg: Config, c: Conn, tail: bytes)
    requires Good(c)
    requires match c.stage
             case Heading(_) => Find(tail, CRLF, 0) < 0 && |tail| <= cfg.limits.maxLine
             case Reading(_, _, _) => true
             case Upgraded => tail == []
    ensures FeedConn(cfg, c, tail, []) == Waits(c, tail)
  {
    assert tail + [] == tail;
  }
}
