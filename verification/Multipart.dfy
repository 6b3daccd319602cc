/** Reading the body of one part of a multipart message, of unknown length, up to its boundary. */
module Multipart {
  import opened Common
  import opened Bytes

  /**
   * The content stream as its reader sees it: bytes that arrived, bytes still on their way, and
   * whether the end was announced. Bytes and the end arrive whenever they like; a read waits for
   * something to arrive and takes what is there, up to n bytes.
   */
  lemma CutBehind(a: bytes, b: bytes, n: nat)
    requires n <= |a + b|
    ensures (a + b)[..n] + ([] + (a + b)[n..]) == a + b
  {
  }

  lemma CutBefore(a: bytes, b: bytes, n: nat)
    requires n <= |a|
    ensures (a + b)[..n] + (a[n..] + b) == a + b
  {
  }

  class Content {
    var buffered: bytes
    var future: bytes
    var eof: bool

    ghost function Rest(): bytes
      reads this
    {
      buffered + future
    }

    ghost predicate Valid()
      reads this
    {
      eof ==> future == []
    }

    /** Whatever arrives between two steps of the reader: at least `least` bytes or, behind the last, the end. */
    method Arrive(least: nat)
      requires Valid() && least <= 1
      modifies this
      ensures Valid() && Rest() == old(Rest())
      ensures old(eof) ==> eof && buffered == old(buffered)
      ensures least == 1 ==> buffered != [] || eof
    {
      if future != [] {
        var k: nat :| least <= k <= |future|;
        assert future == future[..k] + future[k..];
        assert buffered + (future[..k] + future[k..]) == buffered + future[..k] + future[k..];
        buffered, future := buffered + future[..k], future[k..];
      } else if least == 1 && buffered == [] {
        eof := true;
      }
      if future == [] {
        var announced: bool := *;
        eof := eof || announced;
      }
    }

    method Read(n: nat) returns (data: bytes)
      requires Valid() && n > 0
      modifies this
      ensures Valid() && data + Rest() == old(Rest()) && |data| <= n
      ensures data == [] ==> eof && Rest() == []
      ensures old(eof) ==> eof && data == old(Rest())[..Min(n, |old(Rest())|)]
    {
      Arrive(0);
      if buffered == [] && !eof {
        Arrive(1);
      }
      var k := Min(n, |buffered|);
      data := buffered[..k];
      assert buffered == data + buffered[k..];
      assert data + buffered[k..] + future == data + (buffered[k..] + future);
      buffered := buffered[k..];
    }

    /** `readline`: waits for the first LF, or the end, and takes everything up to it. */
    method ReadLine() returns (line: bytes)
      requires Valid()
      modifies this
      ensures Valid() && line + Rest() == old(Rest())
      ensures LF in old(Rest()) ==> |line| == Find(old(Rest()), [LF], 0) + 1
    {
      var i := Find(buffered + future, [LF], 0);
      FindByte(buffered + future, LF);
      var n := if i >= 0 then i + 1 else |buffered + future|;
      line := (buffered + future)[..n];
      if n > |buffered| {
        CutBehind(buffered, future, n);
        buffered, future := [], (buffered + future)[n..];
        eof := eof || (i < 0 && future == []);
      } else {
        CutBefore(buffered, future, n);
        buffered := buffered[n..];
      }
    }

    method UnreadData(data: bytes)
      requires Valid()
      modifies this
      ensures Valid() && Rest() == data + old(Rest()) && eof == old(eof)
    {
      assert data + buffered + future == data + (buffered + future);
      buffered := data + buffered;
    }

    method AtEof() returns (b: bool)
      requires Valid()
      ensures b ==> eof && Rest() == []
      ensures eof && Rest() == [] ==> b
    {
      assert buffered + future == [] ==> buffered == [];
      b := eof && buffered == [];
    }
  }

  datatype PartError = ReadingAfterEof | Malformed

  /** What separates a part from the next one. */
  function Delimiter(boundary: bytes): bytes { CRLF + boundary }

  class BodyPartReader {
    const boundary: bytes
    const content: Content
    var prevChunk: Option<bytes>
    var contentEof: nat
    var atEof: bool
    ghost const whole: bytes  // CRLF and everything the content had when the part began
    ghost const delim: int    // where the delimiter is in `whole`, or -1
    ghost var given: bytes    // everything returned so far

    ghost function Sub(): bytes { Delimiter(boundary) }

    ghost function SubLen(): nat { 2 + |boundary| }

    ghost predicate Located() { delim == Find(whole, Sub(), 0) && CRLF <= whole }

    ghost function Held(): bytes
      reads this
    {
      if prevChunk.Some? then prevChunk.value else []
    }

    /** How much of `whole` was given out; the leading CRLF counts once the reader started. */
    ghost function Off(): nat
      reads this
    {
      if prevChunk.None? then 0 else 2 + |given|
    }

    /** Before the delimiter: nothing of it was given out, and none of it is all in what is held. */
    ghost predicate Searching()
      reads this, content
    {
      && (prevChunk.None? ==> given == [] && contentEof == 0 && whole == CRLF + content.Rest())
      && (prevChunk.Some? ==> whole == CRLF + given + prevChunk.value + content.Rest())
      && (delim >= 0 ==> Off() <= delim && Off() + |Held()| < delim + SubLen())
      && (Held() == [] && prevChunk.Some? ==> content.Rest() == [] && contentEof >= 1)
      && (contentEof >= 1 ==> content.eof)
      && (contentEof == 1 && delim >= 0 ==> |content.Rest()| < SubLen() || delim == Off() + |Held()|)
      && contentEof <= 2
      && (contentEof == 2 ==> delim < 0)
    }

    /** What `whole` has in front of the body. */
    ghost function Lead(): bytes { if delim < 2 then [] else CRLF }

    /** At the delimiter: the body was given out, and the content is left at the delimiter. */
    ghost predicate Finished()
      reads this, content
    {
      whole == Lead() + given + content.Rest() && |Lead()| + |given| == delim
    }

    ghost predicate Valid()
      reads this, content
    {
      content.Valid() && if atEof then Finished() else Searching()
    }

    constructor (boundary: bytes, content: Content)
      requires content.Valid()
      ensures Valid() && Located() && !atEof && this.boundary == boundary && this.content == content
      ensures whole == CRLF + content.Rest() && given == []
    {
      this.boundary, this.content := boundary, content;
      prevChunk, contentEof, atEof := None, 0, false;
      whole, given := CRLF + content.Rest(), [];
      delim := Find(CRLF + content.Rest(), Delimiter(boundary), 0);
    }

    /**
     * The inner loop of `_read_chunk_from_stream`: reads until there is enough to recognise the
     * delimiter, or the end of the content was seen, now or earlier.
     */
    method FillChunk(size: nat) returns (r: Result<bytes, PartError>)
      requires content.Valid() && size >= SubLen() && contentEof <= 2
      requires contentEof >= 1 ==> content.eof
      modifies this`contentEof, content
      ensures content.Valid() && (contentEof >= 1 ==> content.eof)
      ensures r.Success? ==>
                && r.value + content.Rest() == old(content.Rest()) && |r.value| < SubLen() + size
                && (|r.value| >= SubLen() || content.Rest() == [])
      ensures r.Success? && old(contentEof) == 0 ==>
                if contentEof == 0 then |r.value| >= SubLen() else contentEof == 1 && content.Rest() == []
      ensures r.Success? && old(contentEof) >= 1 ==>
                && r.value == old(content.Rest())[..Min(size, |old(content.Rest())|)]
                && contentEof == old(contentEof) + (if content.Rest() == [] then 1 else 0) <= 2
      ensures r.Failure? ==> old(contentEof) == 2 && r.error == ReadingAfterEof
    {
      var chunk: bytes := [];
      assert chunk + content.Rest() == content.Rest();
      while |chunk| < |boundary| + 2
        invariant content.Valid() && contentEof == old(contentEof)
        invariant chunk + content.Rest() == old(content.Rest())
        invariant |chunk| < SubLen() + size
        invariant chunk == [] || old(contentEof) == 0
        invariant chunk == [] ==> content.Rest() == old(content.Rest())
        invariant contentEof >= 1 ==> content.eof
        decreases |content.Rest()|
      {
        ghost var before := content.Rest();
        var data := content.Read(size);
        Assoc(chunk, data, content.Rest());
        chunk := chunk + data;
        var ended := content.AtEof();
        if ended {
          contentEof := contentEof + 1;
        }
        if contentEof > 2 {
          return Failure(ReadingAfterEof);
        }
        if contentEof != 0 {
          break;
        }
      }
      return Success(chunk);
    }

    /** Nothing but the CRLF put in front is held. */
    ghost predicate Blank(prev: bytes, firstChunk: bool) { |prev| <= if firstChunk then 2 else 0 }

    /** The delimiter is in the window and was pushed back, with all behind it: what is in front is kept. */
    method PushBack(ghost base: bytes, prev: bytes, window: bytes, idx: nat, firstChunk: bool)
      returns (r: Result<bytes, PartError>)
      requires content.Valid() && !atEof && prevChunk == Some(prev) && idx <= |window| && prev <= window
      requires delim == |base| + idx && delim != 1
      requires whole == base + window[..idx] + content.Rest()
      requires base == if firstChunk then [] else CRLF + given
      requires firstChunk ==> given == [] && CRLF <= prev
      requires contentEof <= 2 && (contentEof >= 1 ==> content.eof) && (contentEof == 2 ==> idx <= |prev|)
      modifies this`prevChunk, this`atEof, this`given
      ensures Valid() && r.Success? && given == old(given) + r.value
      ensures r.value == [] && !atEof ==> Blank(prev, firstChunk)
    {
      var front := prev[..Min(idx, |prev|)];
      var chunk := window[|front|..idx];
      if chunk == [] {
        atEof := true;
      }
      var result := if firstChunk then front[Min(2, |front|)..] else front;
      prevChunk := Some(chunk);
      FrontOfWindow(prev, window, idx);
      FrontFacts(base, given, front, chunk, result, firstChunk);
      given := given + result;
      if chunk != [] {
        assert CRLF + given + chunk == base + window[..idx];
        assert |given| + 2 + |chunk| == delim;
      } else {
        assert Lead() + given == base + window[..idx];
      }
      r := Success(result);
    }

    /** No delimiter in sight: what was held is given out and the new chunk is held. */
    method HandOut(ghost base: bytes, prev: bytes, chunk: bytes, firstChunk: bool)
      returns (r: Result<bytes, PartError>)
      requires content.Valid() && !atEof && prevChunk == Some(prev)
      requires whole == base + prev + (chunk + content.Rest())
      requires base == if firstChunk then [] else CRLF + given
      requires firstChunk ==> given == [] && CRLF <= prev
      requires delim >= 0 ==> delim >= |base| + |prev| && delim + SubLen() > |base| + |prev| + |chunk|
      requires chunk == [] ==> content.Rest() == [] && contentEof >= 1
      requires contentEof <= 2 && (contentEof >= 1 ==> content.eof) && (contentEof == 2 ==> delim < 0)
      requires contentEof == 1 && delim >= 0 ==> |content.Rest()| < SubLen()
      modifies this`prevChunk, this`given
      ensures Valid() && r.Success? && given == old(given) + r.value
      ensures r.value == [] ==> Blank(prev, firstChunk)
    {
      var result := if firstChunk then prev[2..] else prev;
      prevChunk := Some(chunk);
      given := given + result;
      Assoc(CRLF, old(given), result);
      Assoc(CRLF + given, chunk, content.Rest());
      if firstChunk {
        assert prev == CRLF + result;
      }
      r := Success(result);
    }

    /** From where on the window has to be searched. */
    function SearchStart(prev: bytes, firstChunk: bool): nat
    {
      if firstChunk then 0 else Max(0, |prev| - |boundary| - 2)
    }

    /** A window was fetched: what is held, the new chunk, and how often the end was seen. */
    ghost predicate Fetched(base: bytes, prev: bytes, chunk: bytes, firstChunk: bool)
      reads this, content
    {
      && content.Valid() && !atEof && prevChunk == Some(prev)
      && base == (if firstChunk then [] else CRLF + given)
      && whole == base + prev + (chunk + content.Rest())
      && (firstChunk ==> given == [] && CRLF <= prev)
      && CRLF <= whole
      && (delim >= 0 ==> delim >= |base| + SearchStart(prev, firstChunk))
      && contentEof <= 2 && (contentEof >= 1 ==> content.eof)
      && (chunk == [] ==> contentEof >= 1)
      && (|chunk| >= SubLen() || content.Rest() == [])
      && (contentEof == 1 && delim >= 0 ==> |content.Rest()| < SubLen() || delim == |base| + |prev|)
      && (contentEof == 2 && delim >= 0 ==>
           (content.Rest() == [] && |chunk| < SubLen()) || delim == |base| + |prev|)
    }

    /** The first chunk is held with the CRLF in front that the header parsing removed. */
    method ReadFirst(size: nat)
      requires Valid() && !atEof && prevChunk.None? && size > 0
      modifies this`prevChunk, content
      ensures content.Valid() && prevChunk.Some? && CRLF <= prevChunk.value
      ensures whole == [] + prevChunk.value + content.Rest() && given == [] && contentEof == 0
      ensures |prevChunk.value| == 2 ==> content.Rest() == []
    {
      var data := content.Read(size);
      prevChunk := Some(CRLF + data);
      Assoc(CRLF, data, content.Rest());
    }

    /** The part of `_read_chunk_from_stream` that reads; bytes beyond `size` are pushed back. */
    method Fetch(size: nat) returns (r: Result<bytes, PartError>, firstChunk: bool, ghost base: bytes)
      requires Valid() && !atEof && size >= SubLen() && CRLF <= whole && delim != 1
      modifies this`prevChunk, this`contentEof, content
      ensures firstChunk == old(prevChunk).None? && prevChunk.Some?
      ensures r.Success? ==> Fetched(base, prevChunk.value, r.value, firstChunk)
      ensures r.Success? && Blank(prevChunk.value, firstChunk) ==> contentEof > old(contentEof)
      ensures r.Failure? ==> delim < 0 && r.error == ReadingAfterEof
    {
      firstChunk := prevChunk.None?;
      base := if firstChunk then [] else CRLF + given;
      if firstChunk {
        ReadFirst(size);
      }
      ghost var prev, rest, seen := prevChunk.value, content.Rest(), contentEof;
      assert whole == base + prev + rest;
      assert delim >= 0 ==> delim >= |base| + SearchStart(prev, firstChunk);
      assert seen == 1 && delim >= 0 ==> |rest| < SubLen() || delim == |base| + |prev|;
      var filled := FillChunk(size);
      if filled.Failure? {
        return filled, firstChunk, base;
      }
      var chunk := filled.value;
      if |chunk| > size {
        content.UnreadData(chunk[size..]);
        assert chunk == chunk[..size] + chunk[size..];
        chunk := chunk[..size];
      }
      assert chunk + content.Rest() == rest;
      return Success(chunk), firstChunk, base;
    }

    /** The search of the window; what is not in the window cannot have begun in what is held. */
    method Search(ghost base: bytes, prev: bytes, chunk: bytes, firstChunk: bool) returns (idx: int)
      requires Fetched(base, prev, chunk, firstChunk) && Located()
      ensures idx >= 0 ==>
                && idx <= |prev + chunk| && delim == |base| + idx
                && whole == base + (prev + chunk)[..idx] + ((prev + chunk)[idx..] + content.Rest())
                && (contentEof == 2 ==> idx <= |prev|)
      ensures idx < 0 && delim >= 0 ==>
                && delim >= |base| + |prev| && delim + SubLen() > |base| + |prev| + |chunk|
                && contentEof < 2 && (contentEof == 1 ==> |content.Rest()| < SubLen())
    {
      var start := SearchStart(prev, firstChunk);
      idx := Find(prev + chunk, CRLF + boundary, start);
      ghost var answer := WindowAnswers(whole, base, prev, chunk, content.Rest(), Sub(), start);
      assert delim >= 0 ==> delim + SubLen() <= |whole| == |base| + |prev| + |chunk| + |content.Rest()|;
    }

    /** The part of `_read_chunk_from_stream` behind the reading. */
    method Give(ghost base: bytes, chunk: bytes, firstChunk: bool) returns (r: Result<bytes, PartError>)
      requires prevChunk.Some? && Fetched(base, prevChunk.value, chunk, firstChunk) && Located()
      modifies this`prevChunk, this`atEof, this`given, content
      ensures Valid() && r.Success? && given == old(given) + r.value
      ensures r.value == [] && !atEof ==> Blank(old(prevChunk.value), firstChunk)
    {
      var prev := prevChunk.value;
      NotInTheMiddle(whole, Sub());
      var idx := Search(base, prev, chunk, firstChunk);
      if idx >= 0 {
        var window := prev + chunk;
        content.UnreadData(window[idx..]);
        r := PushBack(base, prev, window, idx, firstChunk);
      } else {
        r := HandOut(base, prev, chunk, firstChunk);
      }
    }

    /** `_read_chunk_from_stream`. */
    method ReadChunkFromStream(size: nat) returns (r: Result<bytes, PartError>)
      requires Valid() && Located() && !atEof && size >= SubLen()
      modifies this`prevChunk, this`contentEof, this`atEof, this`given, content
      ensures r.Success? ==> Valid() && given == old(given) + r.value
      ensures r.Success? && !atEof && r.value == [] ==> contentEof > old(contentEof)
      ensures r.Failure? ==> delim < 0 && r.error == ReadingAfterEof
    {
      NotInTheMiddle(whole, Sub());
      var fetched, firstChunk;
      ghost var base;
      fetched, firstChunk, base := Fetch(size);
      if fetched.Failure? {
        return fetched;
      }
      r := Give(base, fetched.value, firstChunk);
    }

    /** The body was read, and so was the CRLF in front of the boundary. */
    ghost predicate AtBoundary()
      reads this, content
    {
      && content.Valid() && atEof && delim >= 0
      && whole == Lead() + given + CRLF + content.Rest() && |Lead()| + |given| == delim
    }

    /** `read_chunk` for a part without Content-Length and transfer encoding. */
    method ReadChunk(size: nat) returns (r: Result<bytes, PartError>)
      requires if atEof then AtBoundary() else Valid()
      requires Located() && size >= SubLen()
      modifies this`prevChunk, this`contentEof, this`atEof, this`given, content
      ensures r.Success? ==> given == old(given) + r.value && if atEof then AtBoundary() else Valid()
      ensures r.Success? && !atEof && r.value == [] ==> contentEof > old(contentEof)
      ensures r.Failure? ==> delim < 0 && r.error == ReadingAfterEof
      ensures old(atEof) ==> r == Success([]) && content.Rest() == old(content.Rest())
    {
      if atEof {
        assert given + [] == given;
        return Success([]);
      }
      r := ReadChunkFromStream(size);
      if r.Failure? {
        return;
      }
      if atEof {
        DelimiterIsNext();
        var line := content.ReadLine();
        Assoc(Lead() + given, CRLF, content.Rest());
        if line != CRLF {
          return Failure(Malformed);
        }
      }
    }

    /** The content is left at the delimiter, whose first line is the bare CRLF. */
    lemma DelimiterIsNext()
      requires Valid() && atEof && Located()
      ensures var rest := content.Rest();
              CRLF <= rest && LF in rest && Find(rest, [LF], 0) == 1
    {
      var rest, front := content.Rest(), Lead() + given;
      assert OccursAt(whole, Sub(), delim);
      assert whole[delim..delim + SubLen()] == Sub();
      assert rest[0] == whole[delim] == Sub()[0] == CR;
      assert rest[1] == whole[delim + 1] == Sub()[1] == LF;
      assert rest[..2] == CRLF;
      assert LF in rest;
      assert rest[1..2] == [LF] && rest[0..1] == [CR];
      FindIs(rest, [LF], 0, 1);
    }

    /**
     * `read`, with the chunk size of the class: for every pattern of arrivals it returns what was
     * not returned yet of the body up to the first delimiter and leaves the content at the boundary behind its CRLF, if
     * there is a delimiter; it raises "Reading after EOF" if there is none.
     */
    method Read() returns (r: Result<bytes, PartError>)
      requires if atEof then AtBoundary() else Valid()
      requires Located() && SubLen() <= CHUNK_SIZE
      modifies this`prevChunk, this`contentEof, this`atEof, this`given, content
      ensures r.Success? <==> delim >= 0
      ensures r.Success? ==> old(given) + r.value == (if delim < 2 then [] else whole[2..delim])
      ensures r.Success? ==> content.Rest() == whole[delim + 2..]
      ensures r.Failure? ==> r.error == ReadingAfterEof
      ensures old(atEof) ==> r == Success([]) && content.Rest() == old(content.Rest())
    {
      if atEof {
        NotInTheMiddle(whole, Sub());
        BodySlices(whole, Lead(), given, content.Rest());
        assert given + [] == given;
        return Success([]);
      }
      r := ReadOn((k: nat) => CHUNK_SIZE);
      if r.Success? {
        NotInTheMiddle(whole, Sub());
        BodySlices(whole, Lead(), given, content.Rest());
      }
    }

    /** The loop of `read`, whatever size its k-th call of `read_chunk` asks for. */
    method ReadOn(size: nat -> nat) returns (r: Result<bytes, PartError>)
      requires Valid() && Located() && !atEof
      requires forall k :: size(k) >= SubLen()
      modifies this`prevChunk, this`contentEof, this`atEof, this`given, content
      ensures r.Success? ==> AtBoundary() && given == old(given) + r.value
      ensures r.Failure? ==> delim < 0 && r.error == ReadingAfterEof
    {
      var data: bytes := [];
      ghost var before := given;
      var calls := 0;
      assert before + data == given;
      while !atEof
        invariant if atEof then AtBoundary() else Valid()
        invariant before + data == given
        decreases !atEof, |whole| - |given|, 3 - contentEof
      {
        var chunk := ReadChunk(size(calls));
        calls := calls + 1;
        if chunk.Failure? {
          return chunk;
        }
        Assoc(before, data, chunk.value);
        data := data + chunk.value;
      }
      return Success(data);
    }
  }

  const CHUNK_SIZE: nat := 8192

  lemma BodySlices(whole: bytes, lead: bytes, given: bytes, rest: bytes)
    requires whole == lead + given + CRLF + rest
    ensures given == whole[|lead|..|lead| + |given|]
    ensures rest == whole[|lead| + |given| + 2..]
  {
  }

  /** What is in front of the delimiter, split into what is given out now and what is held. */
  lemma FrontOfWindow(prev: bytes, window: bytes, idx: nat)
    requires idx <= |window| && prev <= window
    ensures var front := prev[..Min(idx, |prev|)]; front + window[|front|..idx] == window[..idx]
  {
  }

  lemma FrontFacts(base: bytes, given: bytes, front: bytes, chunk: bytes, result: bytes, firstChunk: bool)
    requires |base| + |front| + |chunk| != 1
    requires base == if firstChunk then [] else CRLF + given
    requires firstChunk ==> given == []
    requires result == if firstChunk then front[Min(2, |front|)..] else front
    requires firstChunk && |front| >= 2 ==> CRLF <= front
    requires firstChunk && chunk != [] ==> |front| >= 2
    ensures var lead := if |base| + |front| + |chunk| < 2 then [] else CRLF;
            lead + (given + result) + chunk == base + (front + chunk)
  {
    var lead := if |base| + |front| + |chunk| < 2 then [] else CRLF;
    assert lead + (given + result) == base + front by {
      if firstChunk {
        assert given + result == result;
        assert front == if |front| < 2 then [] else CRLF + result;
      } else {
        Assoc(CRLF, given, front);
      }
    }
    Assoc(base, front, chunk);
  }

  /** In a text that starts with CRLF the delimiter cannot start at the LF. */
  lemma NotInTheMiddle(whole: bytes, sub: bytes)
    requires CRLF <= whole && CRLF <= sub
    ensures Find(whole, sub, 0) != 1
  {
    assert whole[1] == LF && sub[0] == CR;
    assert 1 + |sub| <= |whole| ==> whole[1..1 + |sub|][0] == LF;
  }

  /** Where a window of the content stands in `whole`, and what the search in it answers. */
  lemma WindowAnswers(whole: bytes, base: bytes, prev: bytes, chunk: bytes, rest: bytes, sub: bytes, start: nat)
    returns (idx: int)
    requires whole == base + prev + (chunk + rest)
    requires var i := Find(whole, sub, 0); i >= 0 ==> i >= |base| + start
    ensures idx == Find(prev + chunk, sub, start)
    ensures var i := Find(whole, sub, 0);
            idx == if i >= 0 && i + |sub| <= |base| + |prev| + |chunk| then i - |base| else -1
    ensures idx >= 0 ==> idx <= |prev + chunk|
    ensures idx >= 0 ==> whole == base + (prev + chunk)[..idx] + ((prev + chunk)[idx..] + rest)
  {
    var window := prev + chunk;
    idx := Find(window, sub, start);
    Assoc(base, prev, chunk);
    Assoc(base + prev, chunk, rest);
    FindInWindow(whole, base, window, rest, sub, start);
    if idx >= 0 {
      CutWindow(base, window, rest, idx);
    }
  }

  lemma CutWindow(base: bytes, window: bytes, rest: bytes, idx: nat)
    requires idx <= |window|
    ensures base + window + rest == base + window[..idx] + (window[idx..] + rest)
  {
    assert window == window[..idx] + window[idx..];
    Assoc(base, window[..idx], window[idx..]);
    Assoc(base + window[..idx], window[idx..], rest);
  }

  /** Looking for the delimiter in a window of the content is looking for it in all of it. */
  lemma FindInWindow(whole: bytes, base: bytes, window: bytes, rest: bytes, sub: bytes, start: nat)
    requires whole == base + window + rest
    requires var i := Find(whole, sub, 0); i >= 0 ==> i >= |base| + start
    ensures var i := Find(whole, sub, 0);
            Find(window, sub, start) == if i >= 0 && i + |sub| <= |base| + |window| then i - |base| else -1
  {
    var i := Find(whole, sub, 0);
    forall j | start <= j <= |window| - |sub|
      ensures OccursAt(window, sub, j) <==> OccursAt(whole, sub, |base| + j)
    {
      assert window[j..j + |sub|] == whole[|base| + j..|base| + j + |sub|];
    }
    if i >= 0 && i + |sub| <= |base| + |window| {
      FindIs(window, sub, start, i - |base|);
    } else {
      var r := Find(window, sub, start);
      assert r >= 0 ==> OccursAt(whole, sub, |base| + r);
    }
  }
}
