/** A serialised head, cut into any fragments, is read back line by line and field by field. */
module HeadRoundTrip {
  import opened Common
  import opened Bytes
  import opened Headers
  import opened HeadFraming

  // ----- fragmentation, where it makes no difference -----

  /**
   * Every line that the head is cut into is shorter than a first line may be, so that its CR can be
   * held with it, and a field line is no longer than a field may be.
   */
  predicate Moderate(lim: HeadLimits, lines: seq<bytes>, data: bytes)
    decreases |data|
  {
    var pos := Find(data, CRLF, 0);
    if pos < 0 then true
    else if pos == 0 && lines == [] then 0 < lim.maxLine && Moderate(lim, lines, data[2..])
    else
      && pos < lim.maxLine && (lines != [] ==> pos <= lim.maxField)
      && (pos == 0 || |lines| + 1 > lim.maxHeaders || Moderate(lim, lines + [data[..pos]], data[pos + 2..]))
  }

  /** The limits the next line can meet, in one call or another. */
  predicate Applies(lim: HeadLimits, lines: seq<bytes>, limit: int)
  {
    limit == lim.maxLine || (lines != [] && limit == lim.maxField)
  }

  lemma {:induction false} LimitIsMoot(lim: HeadLimits, lines: seq<bytes>, c: int, d: int, data: bytes)
    requires Moderate(lim, lines, data) && Applies(lim, lines, c) && Applies(lim, lines, d)
    ensures ScanHead(lim, lines, c, data) == ScanHead(lim, lines, d, data)
    decreases |data|
  {
    if data != [] && Find(data, CRLF, 0) == 0 && lines == [] {
      LimitIsMoot(lim, lines, c, d, data[2..]);
    }
  }

  /** What the scan of `a` says about the scan of `a + b`. */
  ghost predicate Settles(lim: HeadLimits, lines: seq<bytes>, limit: int, a: bytes, b: bytes)
  {
    ScanHead(lim, lines, limit, a + b)
    == match ScanHead(lim, lines, limit, a)
       case NeedMore(st) => ScanHead(lim, st.lines, lim.maxLine, st.tail + b)
       case Head(all, rest) => Head(all, rest + b)
       case Refused(e) => Refused(e)
  }

  lemma {:induction false} HeadSplit(lim: HeadLimits, lines: seq<bytes>, limit: int, a: bytes, b: bytes)
    requires Moderate(lim, lines, a + b) && Applies(lim, lines, limit)
    ensures Settles(lim, lines, limit, a, b)
    decreases |a|, 1
  {
    if a == [] {
      assert a + b == b && [] + b == b;
      LimitIsMoot(lim, lines, limit, lim.maxLine, b);
    } else if Find(a, CRLF, 0) >= 0 {
      SplitBehindLine(lim, lines, limit, a, b);
    } else {
      SplitInLine(lim, lines, limit, a, b);
    }
  }

  lemma SplitInLine(lim: HeadLimits, lines: seq<bytes>, limit: int, a: bytes, b: bytes)
    requires Moderate(lim, lines, a + b) && Applies(lim, lines, limit) && a != [] && Find(a, CRLF, 0) < 0
    ensures Settles(lim, lines, limit, a, b)
  {
    LineLater(a, b);
    if |a| <= lim.maxLine {
      LimitIsMoot(lim, lines, limit, lim.maxLine, a + b);
    }
  }

  lemma {:induction false} SplitBehindLine(lim: HeadLimits, lines: seq<bytes>, limit: int, a: bytes, b: bytes)
    requires Moderate(lim, lines, a + b) && Applies(lim, lines, limit) && Find(a, CRLF, 0) >= 0
    ensures Settles(lim, lines, limit, a, b)
    decreases |a|, 0
  {
    var pos := Find(a, CRLF, 0);
    LineStable(a, b);
    if pos == 0 && lines == [] {
      HeadSplit(lim, lines, limit, a[2..], b);
    } else if pos > 0 && |lines| + 1 <= lim.maxHeaders {
      HeadSplit(lim, lines + [a[..pos]], lim.maxField, a[pos + 2..], b);
    }
  }

  function FeedAllHead(lim: HeadLimits, st: HeadState, frags: seq<bytes>): HeadOutcome
    decreases |frags|
  {
    if frags == [] then NeedMore(st)
    else
      match FeedHead(lim, st, frags[0])
      case NeedMore(t) => FeedAllHead(lim, t, frags[1..])
      case Head(lines, rest) => Head(lines, rest + Flatten(frags[1..]))
      case Refused(e) => Refused(e)
  }

  lemma {:induction false} HeadRest(lim: HeadLimits, p: bytes, frags: seq<bytes>)
    requires Moderate(lim, [], p + Flatten(frags)) && ScanHead(lim, [], lim.maxLine, p).NeedMore?
    ensures FeedAllHead(lim, ScanHead(lim, [], lim.maxLine, p).st, frags)
         == ScanHead(lim, [], lim.maxLine, p + Flatten(frags))
    decreases |frags|
  {
    var o := ScanHead(lim, [], lim.maxLine, p);
    if frags == [] {
      assert p + Flatten(frags) == p;
    } else {
      var f, later := frags[0], Flatten(frags[1..]);
      assert p + Flatten(frags) == (p + f) + later;
      ModeratePrefix(lim, [], p + f, later);
      HeadSplit(lim, [], lim.maxLine, p, f);
      HeadSplit(lim, [], lim.maxLine, p + f, later);
      assert FeedHead(lim, o.st, f) == ScanHead(lim, [], lim.maxLine, p + f);
      if ScanHead(lim, [], lim.maxLine, p + f).NeedMore? {
        HeadRest(lim, p + f, frags[1..]);
      }
    }
  }

  lemma {:induction false} ModeratePrefix(lim: HeadLimits, lines: seq<bytes>, a: bytes, b: bytes)
    requires Moderate(lim, lines, a + b)
    ensures Moderate(lim, lines, a)
    decreases |a|
  {
    var pos := Find(a, CRLF, 0);
    if pos >= 0 {
      LineStable(a, b);
      if pos == 0 && lines == [] {
        ModeratePrefix(lim, lines, a[2..], b);
      } else if pos > 0 && |lines| + 1 <= lim.maxHeaders {
        ModeratePrefix(lim, lines + [a[..pos]], a[pos + 2..], b);
      }
    }
  }

  // ----- lines that are too long for every call -----

  /** Field lines meet the limit for fields, or that for first lines if a call begins with them. */
  function Lenient(lim: HeadLimits): HeadLimits { lim.(maxField := Max(lim.maxField, lim.maxLine)) }

  function MostLenient(lim: HeadLimits, lines: seq<bytes>): int
  {
    if lines == [] then lim.maxLine else Lenient(lim).maxField
  }

  /** Even where the more generous limit holds for each field line the input is refused as too long. */
  predicate TooLong(lim: HeadLimits, lines: seq<bytes>, data: bytes)
  {
    ScanHead(Lenient(lim), lines, MostLenient(lim, lines), data) == Refused(LineTooLong)
  }

  /** What is held over is the start of a line. */
  predicate Held(lim: HeadLimits, st: HeadState)
  {
    st.tail == [] || (Find(st.tail, CRLF, 0) < 0 && |st.tail| <= lim.maxLine)
  }

  predicate StaysTooLong(lim: HeadLimits, o: HeadOutcome, b: bytes)
  {
    match o
    case NeedMore(st) => Held(lim, st) && TooLong(lim, st.lines, st.tail + b)
    case Head(_, _) => false
    case Refused(e) => e == LineTooLong
  }

  /** A line that fits is neither the end of the head nor one too many. */
  lemma TooLongBehind(lim: HeadLimits, lines: seq<bytes>, x: bytes, pos: nat)
    requires TooLong(lim, lines, x) && pos == Find(x, CRLF, 0) && pos <= MostLenient(lim, lines)
    requires lines == [] ==> pos > 0
    ensures pos > 0 && |lines| + 1 <= lim.maxHeaders && TooLong(lim, lines + [x[..pos]], x[pos + 2..])
  {
    assert ScanHead(Lenient(lim), lines, MostLenient(lim, lines), x)
        == CutLine(Lenient(lim), lines, MostLenient(lim, lines), x[..pos], x[pos + 2..]);
  }

  lemma {:induction false} TooLongSplit(lim: HeadLimits, lines: seq<bytes>, limit: int, a: bytes, b: bytes)
    requires TooLong(lim, lines, a + b) && limit <= MostLenient(lim, lines)
    ensures StaysTooLong(lim, ScanHead(lim, lines, limit, a), b)
    decreases |a|
  {
    if a == [] {
      assert a + b == b && [] + b == b;
    } else if Find(a, CRLF, 0) >= 0 {
      var pos := Find(a, CRLF, 0);
      LineStable(a, b);
      if pos == 0 && lines == [] {
        TooLongSplit(lim, lines, limit, a[2..], b);
      } else if pos <= limit {
        TooLongBehind(lim, lines, a + b, pos);
        TooLongSplit(lim, lines + [a[..pos]], lim.maxField, a[pos + 2..], b);
      }
    }
  }

  lemma {:induction false} AllTooLong(lim: HeadLimits, st: HeadState, frags: seq<bytes>)
    requires Held(lim, st) && TooLong(lim, st.lines, st.tail + Flatten(frags))
    ensures FeedAllHead(lim, st, frags) == Refused(LineTooLong)
    decreases |frags|
  {
    if frags == [] {
      assert st.tail + Flatten(frags) == st.tail;
    } else {
      Assoc(st.tail, frags[0], Flatten(frags[1..]));
      TooLongSplit(lim, st.lines, lim.maxLine, st.tail + frags[0], Flatten(frags[1..]));
      var o := FeedHead(lim, st, frags[0]);
      if o.NeedMore? {
        AllTooLong(lim, o.st, frags[1..]);
      }
    }
  }

  // ----- and where it makes one -----

  /** A fragment for each line. */
  function LineByLine(data: bytes): (frags: seq<bytes>)
    ensures Flatten(frags) == data
    decreases |data|
  {
    var pos := Find(data, CRLF, 0);
    if pos < 0 then
      assert Flatten([data]) == data;
      [data]
    else
      assert data[..pos + 2] + data[pos + 2..] == data;
      [data[..pos + 2]] + LineByLine(data[pos + 2..])
  }

  /** The scan of the first line and of any bytes behind it. */
  lemma ScanBehind(lim: HeadLimits, lines: seq<bytes>, limit: int, data: bytes, more: bytes)
    requires Find(data, CRLF, 0) >= 0
    ensures var pos := Find(data, CRLF, 0);
            ScanHead(lim, lines, limit, data[..pos + 2] + more)
            == if pos == 0 && lines == [] then ScanHead(lim, lines, limit, more)
               else CutLine(lim, lines, limit, data[..pos], more)
  {
    var pos := Find(data, CRLF, 0);
    var first := LineAlone(data);
    LineStable(data[..pos + 2], more);
    assert [] + more == more;
  }

  lemma FirstOfLines(lim: HeadLimits, lines: seq<bytes>, data: bytes)
    requires Find(data, CRLF, 0) >= 0
    ensures var pos := Find(data, CRLF, 0);
            && LineByLine(data)[0] == data[..pos + 2] && LineByLine(data)[1..] == LineByLine(data[pos + 2..])
            && FeedHead(lim, HeadState(lines, []), data[..pos + 2])
               == if pos == 0 && lines == [] then NeedMore(HeadState(lines, []))
                  else CutLine(lim, lines, lim.maxLine, data[..pos], [])
  {
    var pos := Find(data, CRLF, 0);
    ScanBehind(lim, lines, lim.maxLine, data, []);
    assert [] + data[..pos + 2] == data[..pos + 2] == data[..pos + 2] + [];
  }

  /** Cut line by line, every line meets the limit for first lines. */
  lemma {:induction false} LineByLineIsLenient(lim: HeadLimits, lines: seq<bytes>, data: bytes)
    requires lim.maxField <= lim.maxLine
    ensures FeedAllHead(lim, HeadState(lines, []), LineByLine(data)) == ScanHead(Lenient(lim), lines, lim.maxLine, data)
    decreases |data|
  {
    var frags, pos := LineByLine(data), Find(data, CRLF, 0);
    if pos < 0 {
      assert [] + data == data;
    } else {
      var rest := data[pos + 2..];
      FirstOfLines(lim, lines, data);
      FlattenRest(frags, rest);
      if pos == 0 && lines == [] {
        LineByLineIsLenient(lim, lines, rest);
      } else if 0 < pos <= lim.maxLine && |lines| + 1 <= lim.maxHeaders {
        LineByLineIsLenient(lim, lines + [data[..pos]], rest);
      }
    }
  }

  lemma FlattenRest(frags: seq<bytes>, rest: bytes)
    requires frags != [] && frags[1..] == LineByLine(rest)
    ensures [] + Flatten(frags[1..]) == rest
  {
  }

  /** The limit of the next line when the head comes in one piece. */
  function WholeLimit(lim: HeadLimits, lines: seq<bytes>): int
  {
    if lines == [] then lim.maxLine else lim.maxField
  }

  /** Cut here, a call that begins with the head is refused. */
  ghost predicate Refuses(lim: HeadLimits, lines: seq<bytes>, data: bytes, front: bytes, back: bytes)
  {
    data == front + back && ScanHead(lim, lines, WholeLimit(lim, lines), front) == Refused(LineTooLong)
  }

  /** A line that is too long is refused, if not whole then cut in front of its LF. */
  lemma LongCut(lim: HeadLimits, lines: seq<bytes>, data: bytes, pos: nat) returns (front: bytes, back: bytes)
    requires pos == Find(data, CRLF, 0) && (lines == [] || pos <= lim.maxField ==> pos >= lim.maxLine)
    ensures Refuses(lim, lines, data, front, back)
  {
    if lines != [] && pos > lim.maxField {
      ScanBehind(lim, lines, lim.maxField, data, []);
      front, back := data[..pos + 2] + [], data[pos + 2..];
    } else {
      NoLineIn(data, pos + 1);
      front, back := data[..pos + 1], data[pos + 1..];
    }
  }

  /** What is refused behind a line that is kept, or skipped, is refused with it. */
  lemma RefusedBehind(lim: HeadLimits, lines: seq<bytes>, data: bytes, pos: nat, front: bytes, back: bytes)
    requires pos == Find(data, CRLF, 0) && 0 < pos <= WholeLimit(lim, lines) && |lines| + 1 <= lim.maxHeaders
    requires Refuses(lim, lines + [data[..pos]], data[pos + 2..], front, back)
    ensures Refuses(lim, lines, data, data[..pos + 2] + front, back)
  {
    ScanBehind(lim, lines, WholeLimit(lim, lines), data, front);
    Rejoined(data, pos + 2, front, back);
  }

  lemma RefusedBehindBlank(lim: HeadLimits, data: bytes, front: bytes, back: bytes)
    requires Find(data, CRLF, 0) == 0 && Refuses(lim, [], data[2..], front, back)
    ensures Refuses(lim, [], data, data[..2] + front, back)
  {
    ScanBehind(lim, [], lim.maxLine, data, front);
    Rejoined(data, 2, front, back);
  }

  lemma Rejoined(data: bytes, i: nat, front: bytes, back: bytes)
    requires i <= |data| && data[i..] == front + back
    ensures data == data[..i] + front + back
  {
    Assoc(data[..i], front, back);
  }

  /** The line in front is not to blame. */
  lemma ImmoderateBehind(lim: HeadLimits, lines: seq<bytes>, data: bytes, pos: nat)
    requires !Moderate(lim, lines, data) && pos == Find(data, CRLF, 0)
    requires pos < lim.maxLine && (lines != [] ==> pos <= lim.maxField) && !(pos == 0 && lines == [])
    ensures pos > 0 && |lines| + 1 <= lim.maxHeaders && !Moderate(lim, lines + [data[..pos]], data[pos + 2..])
  {
  }

  /** A line that is not moderate is refused under some cut. */
  lemma {:induction false} ImmoderateCut(
      lim: HeadLimits, lines: seq<bytes>, data: bytes) returns (front: bytes, back: bytes)
    requires !Moderate(lim, lines, data)
    ensures Refuses(lim, lines, data, front, back)
    decreases |data|
  {
    var pos := Find(data, CRLF, 0);
    if (lines != [] && pos > lim.maxField) || pos >= lim.maxLine {
      front, back := LongCut(lim, lines, data, pos);
    } else if pos == 0 && lines == [] {
      front, back := ImmoderateCut(lim, lines, data[2..]);
      RefusedBehindBlank(lim, data, front, back);
      front := data[..2] + front;
    } else {
      ImmoderateBehind(lim, lines, data, pos);
      front, back := ImmoderateCut(lim, lines + [data[..pos]], data[pos + 2..]);
      RefusedBehind(lim, lines, data, pos, front, back);
      front := data[..pos + 2] + front;
    }
  }

  ghost predicate HeadIndependent(lim: HeadLimits, x: bytes)
  {
    forall frags :: Flatten(frags) == x ==>
      FeedAllHead(lim, HeadState([], []), frags) == ScanHead(lim, [], lim.maxLine, x)
  }

  /** If the input is not too long for every call, some fragmentation is not refused as too long. */
  lemma SomeAccept(lim: HeadLimits, x: bytes)
    requires HeadIndependent(lim, x) && !TooLong(lim, [], x)
    ensures ScanHead(lim, [], lim.maxLine, x) != Refused(LineTooLong)
  {
    if lim.maxField <= lim.maxLine {
      LineByLineIsLenient(lim, [], x);
    } else {
      assert Lenient(lim) == lim;
    }
  }

  lemma SomeRefuse(lim: HeadLimits, x: bytes)
    requires HeadIndependent(lim, x) && !Moderate(lim, [], x)
    ensures ScanHead(lim, [], lim.maxLine, x) == Refused(LineTooLong)
  {
    var front, back := ImmoderateCut(lim, [], x);
    TwoFragments(front, back);
    FirstRefuses(lim, front, back);
  }

  lemma FirstRefuses(lim: HeadLimits, a: bytes, b: bytes)
    requires ScanHead(lim, [], lim.maxLine, a) == Refused(LineTooLong)
    ensures FeedAllHead(lim, HeadState([], []), [a, b]) == Refused(LineTooLong)
  {
    assert [] + a == a;
    assert FeedHead(lim, HeadState([], []), a) == Refused(LineTooLong);
  }

  lemma TwoFragments(a: bytes, b: bytes)
    ensures Flatten([a, b]) == a + b
  {
    assert [b][1..] == [] && b + [] == b;
    assert Flatten([b]) == b;
    assert [a, b][1..] == [b];
  }

  /**
   * For every input: all fragmentations yield the lines and the rest, the held state or the error of
   * the whole, if and only if all lines are moderate, or one is too long for every call.
   */
  lemma HeadFragmentation(lim: HeadLimits, x: bytes)
    ensures HeadIndependent(lim, x) <==> Moderate(lim, [], x) || TooLong(lim, [], x)
  {
    if Moderate(lim, [], x) || TooLong(lim, [], x) {
      forall frags | Flatten(frags) == x
        ensures FeedAllHead(lim, HeadState([], []), frags) == ScanHead(lim, [], lim.maxLine, x)
      {
        assert [] + Flatten(frags) == x;
        if Moderate(lim, [], x) {
          HeadRest(lim, [], frags);
        } else {
          AllTooLong(lim, HeadState([], []), frags);
          assert x + [] == x;
          TooLongSplit(lim, [], lim.maxLine, x, []);
          HeldIsNotTooLong(lim, [], x);
        }
      }
    } else if HeadIndependent(lim, x) {
      SomeRefuse(lim, x);
      SomeAccept(lim, x);
    }
  }

  /** A first line as long as it may be is read whole, and refused when it is cut in front of its LF. */
  lemma LongestLineRefused(lim: HeadLimits, line: bytes)
    requires lim.maxLine >= 1 && lim.maxHeaders >= 1 && |line| == lim.maxLine && LF !in line
    ensures ScanHead(lim, [], lim.maxLine, line + CRLF) == NeedMore(HeadState([line], []))
    ensures FeedAllHead(lim, HeadState([], []), [line + [CR], [LF]]) == Refused(LineTooLong)
  {
    FindLineEnd(line, []);
    assert line + CRLF + [] == line + CRLF;
    assert (line + CRLF)[..|line|] == line && (line + CRLF)[|line| + 2..] == [];
    assert [] + [line] == [line];
    var front := line + [CR];
    FindNone(front);
    FirstRefuses(lim, front, [LF]);
  }

  /** What is only held over is not too long. */
  lemma HeldIsNotTooLong(lim: HeadLimits, lines: seq<bytes>, x: bytes)
    requires StaysTooLong(lim, ScanHead(lim, lines, lim.maxLine, x), [])
    ensures ScanHead(lim, lines, lim.maxLine, x) == Refused(LineTooLong)
  {
    var o := ScanHead(lim, lines, lim.maxLine, x);
    if o.NeedMore? {
      assert o.st.tail + [] == o.st.tail;
    }
  }

  // ----- serialising -----

  /** `_safe_header`. */
  predicate Safe(s: bytes) { CR !in s && LF !in s && 0 !in s }

  function Joined(lines: seq<bytes>): bytes
  {
    if lines == [] then []
    else if |lines| == 1 then lines[0]
    else lines[0] + CRLF + Joined(lines[1..])
  }

  /** `_py_serialize_headers`; None stands for its ValueError. */
  function Serialize(status: bytes, fields: seq<Field>): Option<bytes>
  {
    if !Safe(status) || exists i :: 0 <= i < |fields| && !(Safe(fields[i].name) && Safe(fields[i].value)) then None
    else Some(status + CRLF + Joined(FieldLines(fields)) + CRLF + CRLF)
  }

  /** Lines with a CRLF behind each. */
  function Terminated(lines: seq<bytes>): bytes
  {
    if lines == [] then [] else lines[0] + CRLF + Terminated(lines[1..])
  }

  lemma {:induction false} JoinedTerminated(lines: seq<bytes>)
    ensures Joined(lines) + CRLF == if lines == [] then CRLF else Terminated(lines)
    decreases |lines|
  {
    if |lines| == 1 {
      assert Terminated(lines[1..]) == [];
      assert lines[0] + CRLF + [] == lines[0] + CRLF;
    } else if |lines| > 1 {
      JoinedTerminated(lines[1..]);
      assert lines[0] + CRLF + Joined(lines[1..]) + CRLF == lines[0] + CRLF + (Joined(lines[1..]) + CRLF);
    }
  }

  /** Nothing but line ends. */
  predicate Blanks(b: bytes) { b == [] || (CRLF <= b && Blanks(b[2..])) }

  /**
   * A head that is made of lines behind those before: line ends, then its lines with theirs, the last
   * one empty and no other, and the rest. The lines meet the limits, and are not too many.
   */
  ghost predicate IsHead(
      lim: HeadLimits, before: seq<bytes>, limit: int, x: bytes, blanks: bytes, lines: seq<bytes>, rest: bytes)
  {
    && Blanks(blanks) && x == blanks + (Terminated(lines) + rest) && (before != [] ==> blanks == [])
    && lines != [] && lines[|lines| - 1] == [] && (forall i :: 0 <= i < |lines| - 1 ==> lines[i] != [])
    && (before == [] ==> lines[0] != []) && |before| + |lines| <= lim.maxHeaders
    && |lines[0]| <= limit && forall i :: 1 <= i < |lines| ==> |lines[i]| <= lim.maxField
  }

  lemma LineInFront(x: bytes) returns (line: bytes, rest: bytes)
    requires Find(x, CRLF, 0) >= 0
    ensures line == x[..Find(x, CRLF, 0)] && rest == x[Find(x, CRLF, 0) + 2..] && x == line + CRLF + rest
  {
    var pos := Find(x, CRLF, 0);
    var first := LineAlone(x);
    line, rest := x[..pos], x[pos + 2..];
    assert x[pos..pos + 2] == CRLF;
    assert first == line + CRLF;
  }

  lemma BlankInFront(
      lim: HeadLimits, limit: int, x: bytes, y: bytes, blanks: bytes, lines: seq<bytes>, rest: bytes)
    requires IsHead(lim, [], limit, y, blanks, lines, rest) && x == [] + CRLF + y
    ensures IsHead(lim, [], limit, x, CRLF + blanks, lines, rest)
  {
    assert (CRLF + blanks)[2..] == blanks && x == CRLF + y;
    Assoc(CRLF, blanks, Terminated(lines) + rest);
  }

  lemma LineInHead(
      lim: HeadLimits, before: seq<bytes>, limit: int, x: bytes, line: bytes, y: bytes, more: seq<bytes>, rest: bytes)
    requires IsHead(lim, before + [line], lim.maxField, y, [], more, rest) && x == line + CRLF + y
    requires line != [] && |line| <= limit
    ensures IsHead(lim, before, limit, x, [], [line] + more, rest)
  {
    var lines := [line] + more;
    assert y == Terminated(more) + rest && lines[1..] == more;
    Assoc(line + CRLF, Terminated(more), rest);
    assert [] + x == x;
    assert forall i :: 1 <= i < |lines| ==> lines[i] == more[i - 1];
  }

  lemma EmptyInHead(lim: HeadLimits, before: seq<bytes>, limit: int, x: bytes, rest: bytes)
    requires before != [] && |before| + 1 <= lim.maxHeaders && 0 <= limit && x == [] + CRLF + rest
    ensures IsHead(lim, before, limit, x, [], [[]], rest)
  {
    AloneTerminated([], rest);
    assert [] + x == x;
  }

  /**
   * A head that is accepted is made of lines within the limits: the first one, field lines, and an
   * empty one, not too many of them; line ends may stand in front.
   */
  lemma {:induction false} AcceptedHead(lim: HeadLimits, before: seq<bytes>, limit: int, x: bytes)
    returns (blanks: bytes, lines: seq<bytes>)
    requires ScanHead(lim, before, limit, x).Head?
    ensures var o := ScanHead(lim, before, limit, x);
            o.lines == before + lines && IsHead(lim, before, limit, x, blanks, lines, o.rest)
    decreases |x|
  {
    var line, rest := LineInFront(x);
    var end := ScanHead(lim, before, limit, x).rest;
    if line == [] && before == [] {
      var b;
      b, lines := AcceptedHead(lim, before, limit, rest);
      blanks := CRLF + b;
      BlankInFront(lim, limit, x, rest, b, lines, end);
    } else if line == [] {
      blanks, lines := [], [[]];
      EmptyInHead(lim, before, limit, x, rest);
    } else {
      var b, more := AcceptedHead(lim, before + [line], lim.maxField, rest);
      blanks, lines := [], [line] + more;
      LineInHead(lim, before, limit, x, line, rest, more, end);
      Assoc(before, [line], more);
    }
  }

  lemma AloneTerminated(line: bytes, rest: bytes)
    ensures Terminated([line]) + rest == line + CRLF + rest
  {
    assert [line][1..] == [];
    assert line + CRLF + [] == line + CRLF;
  }

  /** A line in front is cut out, the empty one only behind some line. */
  lemma LineScans(lim: HeadLimits, before: seq<bytes>, limit: int, line: bytes, more: bytes)
    requires LF !in line && (line == [] ==> before != [])
    ensures ScanHead(lim, before, limit, line + CRLF + more) == CutLine(lim, before, limit, line, more)
    ensures |line| < lim.maxLine && (before != [] ==> |line| <= lim.maxField) ==>
              (Moderate(lim, before, line + CRLF + more)
               <==> line == [] || |before| + 1 > lim.maxHeaders || Moderate(lim, before + [line], more))
  {
    var x := line + CRLF + more;
    FindLineEnd(line, more);
    assert x[..|line|] == line && x[|line| + 2..] == more;
  }

  /** Lines without LF, none of them empty, that meet the limits behind `before`. */
  predicate PlainLines(lim: HeadLimits, before: seq<bytes>, lines: seq<bytes>)
  {
    forall i :: 0 <= i < |lines| ==>
      && lines[i] != [] && LF !in lines[i] && |lines[i]| < lim.maxLine
      && (before != [] || i > 0 ==> |lines[i]| <= lim.maxField)
  }

  /** Plain lines that are ended by an empty one: exactly they are cut out. */
  lemma {:induction false} LinesScan(lim: HeadLimits, before: seq<bytes>, limit: int, lines: seq<bytes>, y: bytes)
    requires PlainLines(lim, before, lines) && 0 < lim.maxLine && 0 <= lim.maxField
    requires before == [] ==> lines != []
    requires Applies(lim, before, limit) && |before| + |lines| + 1 <= lim.maxHeaders
    ensures ScanHead(lim, before, limit, Terminated(lines) + CRLF + y) == Head(before + lines + [[]], y)
    ensures Moderate(lim, before, Terminated(lines) + CRLF + y)
    decreases |lines|
  {
    if lines == [] {
      assert [] + CRLF + y == CRLF + y;
      LineScans(lim, before, limit, [], y);
      assert before + lines == before;
    } else {
      var line, more := lines[0], Terminated(lines[1..]) + CRLF + y;
      TerminatedFirst(lines, y);
      LineScans(lim, before, limit, line, more);
      PlainTail(lim, before, lines);
      LinesScan(lim, before + [line], lim.maxField, lines[1..], y);
      Assoc(before, [line], lines[1..]);
    }
  }

  lemma PlainTail(lim: HeadLimits, before: seq<bytes>, lines: seq<bytes>)
    requires PlainLines(lim, before, lines) && lines != []
    ensures PlainLines(lim, before + [lines[0]], lines[1..])
    ensures [lines[0]] + lines[1..] == lines
  {
  }

  lemma TerminatedFirst(lines: seq<bytes>, y: bytes)
    requires lines != []
    ensures Terminated(lines) + CRLF + y == lines[0] + CRLF + (Terminated(lines[1..]) + CRLF + y)
  {
    var head, tail := lines[0] + CRLF, Terminated(lines[1..]);
    Assoc(head, tail, CRLF);
    Assoc(head, tail + CRLF, y);
  }

  lemma FieldLineIsPlain(f: Field)
    requires IsToken(f.name) && !HasForbiddenControl(f.value)
    ensures FieldLine(f) != [] && LF !in FieldLine(f) && Safe(f.name) && Safe(f.value)
  {
    forall i | 0 <= i < |f.name|
      ensures f.name[i] != LF && f.name[i] != CR && f.name[i] != 0
    {
      assert IsTokenChar(f.name[i]);
    }
    forall i | 0 <= i < |f.value|
      ensures f.value[i] != LF && f.value[i] != CR && f.value[i] != 0
    {
      assert !IsForbiddenControl(f.value[i]);
    }
  }

  /** What is left over behind a head: with no field at all the writer sends one CRLF too many. */
  function Surplus(fields: seq<Field>): bytes { if fields == [] then CRLF else [] }

  /** Each line is shorter than a first line may be, and a field line no longer than a field may be. */
  predicate Short(lim: HeadLimits, status: bytes, fields: seq<Field>)
  {
    && |status| < lim.maxLine && 0 <= lim.maxField
    && forall i :: 0 <= i < |fields| ==> |FieldLine(fields[i])| < lim.maxLine && |FieldLine(fields[i])| <= lim.maxField
  }

  /**
   * The head round trip. For a well-formed list of fields and a first line that meet the limits,
   * and for every cutting of the head and of what follows it into fragments: the reader
   * cuts out the first line and the field lines, the strict parser turns those into the same
   * names and values in the same order, and what follows comes back untouched.
   */
  lemma HeadComesBack(lim: HeadLimits, status: bytes, fields: seq<Field>, extra: bytes, frags: seq<bytes>)
    requires status != [] && Safe(status) && WellFormed(fields)
    requires Short(lim, status, fields) && |fields| + 2 <= lim.maxHeaders
    requires Serialize(status, fields).Some? ==> Flatten(frags) == Serialize(status, fields).value + extra
    ensures Serialize(status, fields).Some?
    ensures FeedAllHead(lim, HeadState([], []), frags)
         == Head([status] + (FieldLines(fields) + [[]]), Surplus(fields) + extra)
    ensures Parse(FieldLines(fields) + [[]]) == Success(fields)
  {
    PlainHead(lim, status, fields);
    var lines := [status] + FieldLines(fields);
    SerializedLines(status, fields, extra);
    LinesScan(lim, [], lim.maxLine, lines, Surplus(fields) + extra);
    HeadFragmentation(lim, Serialize(status, fields).value + extra);
    assert [] + lines == lines;
    Assoc([status], FieldLines(fields), [[]]);
    FieldsRoundTrip(fields);
  }

  lemma PlainHead(lim: HeadLimits, status: bytes, fields: seq<Field>)
    requires status != [] && Safe(status) && WellFormed(fields) && Short(lim, status, fields)
    ensures PlainLines(lim, [], [status] + FieldLines(fields)) && Serialize(status, fields).Some?
  {
    forall i | 0 <= i < |fields|
      ensures FieldLines(fields)[i] == FieldLine(fields[i]) && FieldLine(fields[i]) != [] && LF !in FieldLine(fields[i])
      ensures Safe(fields[i].name) && Safe(fields[i].value)
    {
      assert Admissible(fields[..i], fields[i]);
      FieldLineIsPlain(fields[i]);
    }
  }

  lemma SerializedLines(status: bytes, fields: seq<Field>, extra: bytes)
    requires Serialize(status, fields).Some?
    ensures Serialize(status, fields).value + extra
         == Terminated([status] + FieldLines(fields)) + CRLF + (Surplus(fields) + extra)
  {
    var fl, head := FieldLines(fields), status + CRLF;
    JoinedTerminated(fl);
    Assoc(head, Joined(fl), CRLF);
    assert ([status] + fl)[1..] == fl;
    if fl == [] {
      assert head + [] == head;
      Assoc(head + CRLF, CRLF, extra);
    } else {
      assert [] + extra == extra;
    }
  }
}
