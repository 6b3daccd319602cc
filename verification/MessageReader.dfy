/** The parser of a connection, with the fields its loop updates. */
module MessageReader {
  import opened Common
  import opened Bytes
  import opened Headers
  import opened PayloadSpec
  import opened HeadFraming
  import opened MessageLoop
  import opened MessageFragments

  class HttpParser {
    const cfg: Config
    var stage: Stage
    var messages: seq<Message>
    var handed: bytes
    var tail: bytes

    constructor (cfg: Config)
      ensures this.cfg == cfg && State() == Conn(Heading([]), [], []) && tail == []
    {
      this.cfg := cfg;
      stage, messages, handed, tail := Heading([]), [], [], [];
    }

    function State(): Conn
      reads this
    {
      Conn(stage, messages, handed)
    }

    /** A line of a head: it is checked and kept, and the empty one begins a message. */
    method KeepLine(line: bytes, closing: bool, maxLineLength: int)
      returns (error: Option<HttpError>, nowClosing: bool)
      requires stage.Heading?
      modifies this`stage, this`messages
      ensures forall rest ::
                match old(HeadLine(cfg, State(), Vars(closing, maxLineLength), line, rest))
                case Onward(c, v, r) =>
                  error.None? && State() == c && v == Vars(nowClosing, cfg.limits.maxField) && r == rest && Good(c)
                case Over(o) => error.Some? && o == Raises(error.value)
    {
      if closing {
        return Some(BadHttpMessage), closing;
      }
      if |line| > maxLineLength {
        return Some(LineTooLong), closing;
      }
      var lines := stage.lines + [line];
      if |lines| > cfg.limits.maxHeaders {
        return Some(BadHttpMessage), closing;
      }
      if line != [] {
        stage := Heading(lines);
        return None, closing;
      }
      match cfg.parse(lines)
      case Failure(e) => return Some(e), closing;
      case Success(kind) =>
        var c := Begun(State(), lines, kind.framing);
        stage, messages := c.stage, c.messages;
        return None, kind.close;
    }

    /** All there is goes to the body parser. */
    method FeedBody(chunk: bytes) returns (error: Option<HttpError>, over: bool, rest: bytes)
      requires stage.Reading? && Good(State()) && tail == [] && chunk != []
      modifies this`stage, this`messages, this`tail
      ensures error.None? ==> Good(State())
      ensures forall v ::
                match old(BodyTurn(cfg, State(), v, chunk))
                case Onward(c, w, r) =>
                  error.None? && over && State() == c && w == v && r == rest && tail == [] && |rest| < |chunk|
                case Over(Waits(c, t)) => error.None? && !over && State() == c && tail == t
                case Over(Raises(e)) => error == Some(e)
    {
      TurnIsGood(cfg, State(), FreshVars(cfg), chunk);
      var Reading(head, body, sink) := stage;
      error, over, rest := None, false, [];
      match body
      case Sized(left) =>
        if left > |chunk| {
          stage := Reading(head, Sized(left - |chunk|), sink.Feed(chunk));
        } else {
          over, rest := true, chunk[left..];
          End(head, sink.Feed(chunk[..left]).Eof(), None);
        }
      case Endless => stage := Reading(head, Endless, sink.Feed(chunk));
      case Chunked(st) =>
        match Scan(BodyLimits(cfg, head), st, sink, chunk)
        case More(t, k) => stage, tail := Reading(head, Chunked(t.(tail := [])), k), t.tail;
        case Done(k, r) =>
          over, rest := true, r;
          End(head, k, None);
        case Fail(e, k) =>
          if e.InvalidHeader? || e.TransferEncodingError? {
            error := Some(e);
          } else {
            End(head, k, Some(e));
          }
    }

    method End(head: seq<bytes>, sink: Sink, error: Option<HttpError>)
      modifies this`stage, this`messages
      ensures State() == old(Closed(State(), head, sink, error))
    {
      stage, messages := Heading([]), messages + [Message(head, sink, error)];
    }

    /** `feed_data`: the error it raises, if any. */
    method FeedData(input: bytes) returns (error: Option<HttpError>)
      requires Good(State())
      modifies this
      ensures match old(FeedConn(cfg, State(), tail, input))
              case Waits(c, t) => error.None? && State() == c && tail == t && Good(c)
              case Raises(e) => error == Some(e)
    {
      FeedIsGood(cfg, State(), tail, input);
      if stage.Reading? && tail != [] {
        if input == [] {
          return None;
        }
        if |tail| > BodyTailLimit(cfg, State()) {
          tail := [];
          End(stage.head, stage.sink, Some(LineTooLong));
          return None;
        }
      }
      var data := tail + input;
      tail := [];
      error := ReadAll(data);
    }

    /** One turn of the loop in a head: the line at the position, or what is held of it. */
    method ReadLine(data: bytes, startPos: nat, closing: bool, maxLineLength: int)
      returns (error: Option<HttpError>, over: bool, nextPos: nat, nowClosing: bool, nextLength: int)
      requires stage.Heading? && tail == [] && startPos < |data|
      modifies this`stage, this`messages, this`tail
      ensures match old(TurnOfLoop(cfg, State(), Vars(closing, maxLineLength), data[startPos..]))
              case Onward(c, v, rest) =>
                && error.None? && !over && State() == c && v == Vars(nowClosing, nextLength) && tail == []
                && startPos < nextPos <= |data| && rest == data[nextPos..]
              case Over(Waits(c, t)) => error.None? && over && State() == c && tail == t
              case Over(Raises(e)) => error == Some(e)
    {
      FindBehindOffset(data, startPos, CRLF);
      var pos := Find(data, CRLF, startPos);
      if pos < startPos {
        tail := data[startPos..];
        error := if |tail| > cfg.limits.maxLine then Some(LineTooLong) else None;
        return error, true, startPos, closing, maxLineLength;
      }
      Offsets(data, startPos, pos);
      if pos == startPos && stage.lines == [] {
        return None, false, pos + 2, closing, maxLineLength;
      }
      error, nowClosing := KeepLine(data[startPos..pos], closing, maxLineLength);
      return error, false, pos + 2, nowClosing, cfg.limits.maxField;
    }

    /** The loop, which cuts the data at a position or hands it to the body. */
    method ReadAll(input: bytes) returns (error: Option<HttpError>)
      requires Good(State()) && tail == []
      modifies this
      ensures match old(Loop(cfg, State(), FreshVars(cfg), input))
              case Waits(c, t) => error.None? && State() == c && tail == t
              case Raises(e) => error == Some(e)
    {
      var data, startPos := input, 0;
      var closing, maxLineLength := false, cfg.limits.maxLine;
      ghost var goal := Loop(cfg, State(), FreshVars(cfg), input);
      assert data[0..] == data;
      while startPos < |data|
        invariant 0 <= startPos <= |data| && Good(State()) && tail == []
        invariant Loop(cfg, State(), Vars(closing, maxLineLength), data[startPos..]) == goal
        decreases |data| - startPos
      {
        TurnFacts(cfg, State(), Vars(closing, maxLineLength), data[startPos..]);
        var over;
        match stage
        case Heading(_) =>
          error, over, startPos, closing, maxLineLength := ReadLine(data, startPos, closing, maxLineLength);
          if error.Some? || over {
            return;
          }
        case Upgraded =>
          handed := handed + data[startPos..];
          return None;
        case Reading(_, _, _) =>
          var rest;
          error, over, rest := FeedBody(data[startPos..]);
          if error.Some? || !over {
            return;
          }
          data, startPos := rest, 0;
          assert data[0..] == data;
      }
      assert data[startPos..] == [];
      return None;
    }
  }

  lemma Offsets(data: bytes, start: nat, pos: nat)
    requires start <= pos && pos + 2 <= |data|
    ensures data[start..][..pos - start] == data[start..pos] && data[start..][pos - start + 2..] == data[pos + 2..]
  {
  }
}
