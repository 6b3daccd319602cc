/** Cutting the head of a message into lines, and the head of a message on the wire. */
module HeadFraming {
  import opened Common
  import opened Bytes
  import opened Headers

  datatype HeadLimits = HeadLimits(maxLine: int, maxField: int, maxHeaders: int)

  datatype HeadState = HeadState(lines: seq<bytes>, tail: bytes)

  datatype HeadOutcome =
    | NeedMore(st: HeadState)
    | Head(lines: seq<bytes>, rest: bytes)  // the last line is the empty one
    | Refused(error: HttpError)

  /**
   * The head part of `HttpParser.feed_data`. The limit for the next line starts as the limit for
   * the first line in every call and becomes the limit for fields behind the first line it cuts.
   */
  function ScanHead(lim: HeadLimits, lines: seq<bytes>, limit: int, data: bytes): HeadOutcome
    decreases |data|, 0
  {
    if data == [] then NeedMore(HeadState(lines, []))
    else
      var pos := Find(data, CRLF, 0);
      if pos == 0 && lines == [] then ScanHead(lim, lines, limit, data[2..])
      else if pos >= 0 then CutLine(lim, lines, limit, data[..pos], data[pos + 2..])
      else if |data| > lim.maxLine then Refused(LineTooLong)
      else NeedMore(HeadState(lines, data))
  }

  /** A line was found: it is checked, kept, and may be the empty one that ends the head. */
  function CutLine(lim: HeadLimits, lines: seq<bytes>, limit: int, line: bytes, rest: bytes): HeadOutcome
    decreases |rest|, 1
  {
    if |line| > limit then Refused(LineTooLong)
    else if |lines| + 1 > lim.maxHeaders then Refused(BadHttpMessage)
    else if line == [] then Head(lines + [line], rest)
    else ScanHead(lim, lines + [line], lim.maxField, rest)
  }

  function FeedHead(lim: HeadLimits, st: HeadState, data: bytes): HeadOutcome
  {
    ScanHead(lim, st.lines, lim.maxLine, st.tail + data)
  }

  /** The parser's fields while it reads a head. */
  class HeadReader {
    const limits: HeadLimits
    var lines: seq<bytes>
    var tail: bytes

    constructor (limits: HeadLimits)
      ensures this.limits == limits && lines == [] && tail == []
    {
      this.limits := limits;
      lines, tail := [], [];
    }

    /**
     * `HttpParser.feed_data` as long as no body parser is set and the connection is not upgraded:
     * it returns when the head is complete or the data is used up.
     */
    method FeedData(input: bytes) returns (o: HeadOutcome)
      modifies this
      ensures o == old(FeedHead(limits, HeadState(lines, tail), input))
      ensures o.NeedMore? ==> o.st == HeadState(lines, tail)
      ensures o.Head? ==> lines == [] && tail == []
    {
      var data := input;
      if tail != [] {
        data := tail + data;
        tail := [];
      } else {
        assert tail + data == data;
      }
      o := CutLines(data);
    }

    /** A line that was found is checked and kept; the empty one ends the head. */
    method KeepLine(line: bytes, maxLineLength: int, rest: bytes) returns (o: Option<HeadOutcome>)
      requires tail == []
      modifies this`lines
      ensures o.None? ==>
                old(CutLine(limits, lines, maxLineLength, line, rest)) == ScanHead(limits, lines, limits.maxField, rest)
      ensures o.Some? ==> o.value == old(CutLine(limits, lines, maxLineLength, line, rest)) && !o.value.NeedMore?
      ensures o.Some? && o.value.Head? ==> lines == []
    {
      if |line| > maxLineLength {
        return Some(Refused(LineTooLong));
      }
      lines := lines + [line];
      if |lines| > limits.maxHeaders {
        return Some(Refused(BadHttpMessage));
      }
      if lines[|lines| - 1] == [] {
        var head := lines;
        lines := [];
        return Some(Head(head, rest));
      }
      return None;
    }

    /** One turn of the loop: the outcome, or else where and with which limit the next turn begins. */
    method CutNext(data: bytes, startPos: nat, maxLineLength: int)
      returns (o: Option<HeadOutcome>, nextPos: nat, nextLength: int)
      requires tail == [] && startPos < |data|
      modifies this
      ensures o.None? ==> tail == [] && startPos < nextPos <= |data|
      ensures o.None? ==>
                (old(ScanHead(limits, lines, maxLineLength, data[startPos..]))
                 == ScanHead(limits, lines, nextLength, data[nextPos..]))
      ensures o.Some? ==> o.value == old(ScanHead(limits, lines, maxLineLength, data[startPos..]))
      ensures o.Some? && o.value.NeedMore? ==> o.value.st == HeadState(lines, tail)
      ensures o.Some? && o.value.Head? ==> lines == [] && tail == []
    {
      HeadTurn(limits, lines, maxLineLength, data, startPos);
      var pos := Find(data, CRLF, startPos);
      if pos == startPos && lines == [] {
        return None, pos + 2, maxLineLength;
      }
      if pos >= startPos {
        o := KeepLine(data[startPos..pos], maxLineLength, data[pos + 2..]);
        return o, pos + 2, limits.maxField;
      }
      tail := data[startPos..];
      o := Some(if |tail| > limits.maxLine then Refused(LineTooLong) else NeedMore(HeadState(lines, tail)));
      return o, |data|, maxLineLength;
    }

    method CutLines(data: bytes) returns (o: HeadOutcome)
      requires tail == []
      modifies this
      ensures o == old(ScanHead(limits, lines, limits.maxLine, data))
      ensures o.NeedMore? ==> o.st == HeadState(lines, tail)
      ensures o.Head? ==> lines == [] && tail == []
    {
      var startPos := 0;
      var maxLineLength := limits.maxLine;
      ghost var goal := ScanHead(limits, lines, limits.maxLine, data);
      assert data[0..] == data;
      while startPos < |data|
        invariant 0 <= startPos <= |data| && tail == []
        invariant ScanHead(limits, lines, maxLineLength, data[startPos..]) == goal
        decreases |data| - startPos
      {
        var head;
        head, startPos, maxLineLength := CutNext(data, startPos, maxLineLength);
        if head.Some? {
          return head.value;
        }
      }
      NothingLeft(limits, lines, maxLineLength, data, startPos);
      return NeedMore(HeadState(lines, tail));
    }
  }

  lemma NothingLeft(lim: HeadLimits, lines: seq<bytes>, limit: int, data: bytes, start: nat)
    requires start == |data|
    ensures ScanHead(lim, lines, limit, data[start..]) == NeedMore(HeadState(lines, []))
  {
    assert data[start..] == [];
  }

  /** One turn of the loop, in terms of a position in the data. */
  lemma HeadTurn(lim: HeadLimits, lines: seq<bytes>, limit: int, data: bytes, start: nat)
    requires start < |data|
    ensures ScanHead(lim, lines, limit, data[start..])
         == var pos := Find(data, CRLF, start);
            if pos == start && lines == [] then ScanHead(lim, lines, limit, data[pos + 2..])
            else if pos >= start then CutLine(lim, lines, limit, data[start..pos], data[pos + 2..])
            else if |data[start..]| > lim.maxLine then Refused(LineTooLong)
            else NeedMore(HeadState(lines, data[start..]))
  {
    FindBehindOffset(data, start, CRLF);
    var pos := Find(data, CRLF, start);
    var rest := data[start..];
    if pos >= start {
      assert rest[..pos - start] == data[start..pos];
      assert rest[pos - start + 2..] == data[pos + 2..];
    }
  }
}
