/** Readers that span several awaits: `readuntil` and `readexactly`. */
module StreamReads {
  import opened Common
  import opened Bytes
  import opened StreamSpec
  import opened StreamRuns

  /** What can happen while a reader waits. */
  datatype Arrival = Data(data: bytes) | EndOfBody

  function Arrive(s: Stream, m: Marks, a: Arrival): Stream
  {
    match a
    case Data(data) => FeedData(s, m, data)
    case EndOfBody => FeedEof(s)
  }

  /** The bytes still to come, up to the end of the body. */
  function Incoming(eof: bool, arrivals: seq<Arrival>): bytes
  {
    if eof || arrivals == [] then []
    else
      match arrivals[0]
      case Data(data) => data + Incoming(false, arrivals[1..])
      case EndOfBody => []
  }

  predicate Ends(eof: bool, arrivals: seq<Arrival>) { eof || EndOfBody in arrivals }

  /** `readuntil` from its first pump to its return, or to the end of the arrivals. */
  function UntilRun(s: Stream, m: Marks, sep: bytes, maxSize: int, held: bytes,
                    arrivals: seq<Arrival>): LineOutcome
    requires sep != []
    decreases |arrivals|
  {
    var (t, o) := Pump(s, m, sep, maxSize, held);
    if o.Need? && arrivals != [] then
      UntilRun(Arrive(t, m, arrivals[0]), m, sep, maxSize, o.held, arrivals[1..])
    else o
  }

  /** What a line reader should do, given every byte it will ever see. */
  function LineSpec(all: bytes, sep: bytes, maxSize: int, eof: bool): LineOutcome
  {
    var i := Find(all, sep, 0);
    if i >= 0 then if i + |sep| > maxSize then TooLong else Line(all[..i + |sep|])
    else if |all| > maxSize then TooLong
    else if eof then Line(all)
    else Need(all)
  }

  /** A first block that holds the separator settles the answer. */
  lemma LineSpecHit(held: bytes, first: bytes, rest: bytes, c: byte, maxSize: int, eof: bool)
    requires c !in held && Find(first, [c], 0) >= 0
    ensures var line := held + first[..Find(first, [c], 0) + 1];
            LineSpec(held + (first + rest), [c], maxSize, eof) == if |line| > maxSize then TooLong else Line(line)
  {
    var i, all := Find(first, [c], 0), held + (first + rest);
    FindByte(first, c);
    FindStable(first, rest, [c], 0);
    assert c in first + rest by { assert (first + rest)[i] == c; }
    FindByteBehind(held, first + rest, c);
    PrefixOfThree(held, first, rest, i + 1);
    assert Find(all, [c], 0) == |held| + i;
  }

  lemma PrefixOfThree(a: bytes, b: bytes, d: bytes, n: nat)
    requires n <= |b|
    ensures (a + (b + d))[..|a| + n] == a + b[..n]
  {
  }

  /** One that does not hold it leaves the answer open, unless it is too long by itself. */
  lemma LineSpecMiss(held: bytes, first: bytes, rest: bytes, c: byte, maxSize: int, eof: bool)
    requires c !in held && Find(first, [c], 0) < 0
    ensures c !in held + first
    ensures |held + first| > maxSize ==> LineSpec(held + (first + rest), [c], maxSize, eof) == TooLong
  {
    FindByte(first, c);
    assert c !in held + first;
    FindByteBehind(held + first, rest, c);
    FindByte(rest, c);
    Assoc(held, first, rest);
  }

  /** One pump takes the line and leaves what is behind it, or takes everything. */
  lemma {:induction false} PumpTakesLine(s: Stream, m: Marks, c: byte, maxSize: int, held: bytes)
    requires c !in held && |held| <= maxSize
    ensures Pump(s, m, [c], maxSize, held).1 == LineSpec(held + Unread(s), [c], maxSize, s.eof)
    decreases |s.blocks|
  {
    if s.blocks == [] {
      FindByte(held, c);
      assert held + Unread(s) == held;
    } else {
      var first, rest := s.blocks[0], Flatten(s.blocks[1..]);
      var i := Find(first, [c], 0);
      if i < 0 {
        LineSpecMiss(held, first, rest, c, maxSize, s.eof);
        var t, data := TakeChunk(s, m, -1), held + first;
        assert ChunkData(s, -1) == first && Unread(t) == rest;
        if |data| <= maxSize {
          PumpTakesLine(t, m, c, maxSize, data);
          assert Pump(s, m, [c], maxSize, held) == Pump(t, m, [c], maxSize, data);
          Assoc(held, first, rest);
        }
      } else {
        LineSpecHit(held, first, rest, c, maxSize, s.eof);
        assert ChunkData(s, i + 1) == first[..i + 1];
      }
    }
  }

  lemma PrefixOfLineSpec(all: bytes, more: bytes, c: byte, maxSize: int, eof: bool)
    requires !LineSpec(all, [c], maxSize, false).Need?
    ensures LineSpec(all + more, [c], maxSize, eof) == LineSpec(all, [c], maxSize, false)
  {
    FindByte(all, c);
    if c in all {
      FindStable(all, more, [c], 0);
      var i := Find(all, [c], 0);
      assert (all + more)[..i + 1] == all[..i + 1];
    } else {
      FindByteBehind(all, more, c);
      FindByte(more, c);
    }
  }

  /**
   * For a one-byte separator, `readuntil` returns the shortest prefix of everything unread and
   * still to come that ends in the separator; without one, all of it at the end of the body; and
   * it raises for size exactly when that answer is too long. Block borders and the moments of
   * arrival play no part.
   */
  lemma {:induction false} ReadUntilReadsLine(s: Stream, m: Marks, c: byte, maxSize: int, held: bytes,
                                              arrivals: seq<Arrival>)
    requires c !in held && |held| <= maxSize
    ensures UntilRun(s, m, [c], maxSize, held, arrivals)
         == LineSpec(held + Unread(s) + Incoming(s.eof, arrivals), [c], maxSize, Ends(s.eof, arrivals))
    decreases |arrivals|
  {
    PumpTakesLine(s, m, c, maxSize, held);
    var (t, o) := Pump(s, m, [c], maxSize, held);
    var all, later := held + Unread(s), Incoming(s.eof, arrivals);
    if o.Need? && arrivals != [] {
      PumpNeeds(s, m, [c], maxSize, held);
      FindByte(all, c);
      var u := ArriveFacts(t, m, arrivals);
      ReadUntilReadsLine(u, m, c, maxSize, all, arrivals[1..]);
      Assoc(all, Unread(u), Incoming(u.eof, arrivals[1..]));
    } else if s.eof || arrivals == [] {
      assert all + later == all;
    } else {
      PrefixOfLineSpec(all, later, c, maxSize, Ends(s.eof, arrivals));
    }
  }

  /** Two blocks are fed, and the end is announced. */
  function TwoBlocks(a: bytes, b: bytes): seq<Op> { [Feed(a), Feed(b), Eof] }

  lemma TwoBlocksBuffered(limit: int, a: bytes, b: bytes)
    requires a != [] && b != []
    ensures After(limit, TwoBlocks(a, b)).blocks == [a, b] && After(limit, TwoBlocks(a, b)).eof
  {
    var m, ops := MarksOf(limit), TwoBlocks(a, b);
    assert ops[1..] == [Feed(b), Eof] && ops[1..][1..] == [Eof] && ops[1..][1..][1..] == [];
    var s := FeedData(FRESH, m, a);
    assert s.blocks == [a] && !s.eof;
    var t := FeedData(s, m, b);
    assert t.blocks == [a, b];
    assert Run(FRESH, m, ops) == Run(s, m, [Feed(b), Eof]) == Run(t, m, [Eof]) == FeedEof(t);
  }

  /** What the pump answers when neither of two blocks holds the separator. */
  lemma PumpJoins(s: Stream, m: Marks, sep: bytes, a: bytes, b: bytes, maxSize: int)
    requires s.blocks == [a, b] && s.eof && sep != [] && |a + b| <= maxSize
    requires Find(a, sep, 0) < 0 && Find(b, sep, 0) < 0
    ensures Pump(s, m, sep, maxSize, []).1 == Line(a + b)
  {
    var t := TakeChunk(s, m, -1);
    var u := TakeChunk(t, m, -1);
    assert t.blocks == [b] && u.blocks == [] && [] + a == a;
    assert Pump(u, m, sep, maxSize, a + b).1 == Line(a + b);
    assert Pump(t, m, sep, maxSize, a) == Pump(u, m, sep, maxSize, a + b);
    assert Pump(s, m, sep, maxSize, []) == Pump(t, m, sep, maxSize, a);
  }

  lemma NotInShorter(s: bytes, sub: bytes)
    requires |s| < |sub|
    ensures Find(s, sub, 0) < 0
  {
  }

  lemma NotInOther(s: bytes, sub: bytes)
    requires |s| == |sub| > 0 && s[|s| - 1] != sub[|sub| - 1]
    ensures Find(s, sub, 0) < 0
  {
    assert s[0..|sub|] == s;
  }

  lemma AtTheFront(s: bytes, sub: bytes)
    requires sub <= s
    ensures Find(s, sub, 0) == 0 && s[..|sub|] == sub
  {
    FindIs(s, sub, 0, 0);
  }

  lemma Rejoined(sep: bytes, x: byte)
    requires sep != []
    ensures [sep[0]] + (sep[1..] + [x]) == sep + [x]
  {
    Assoc([sep[0]], sep[1..], [x]);
    assert [sep[0]] + sep[1..] == sep;
  }

  /** A separator cut behind its first byte is in neither part. */
  lemma CutSeparator(sep: bytes, x: byte)
    requires |sep| >= 2 && x != sep[|sep| - 1]
    ensures Find([sep[0]], sep, 0) < 0 && Find(sep[1..] + [x], sep, 0) < 0
    ensures Find(sep + [x], sep, 0) == 0 && (sep + [x])[..|sep|] == sep
  {
    NotInShorter([sep[0]], sep);
    NotInOther(sep[1..] + [x], sep);
    AtTheFront(sep + [x], sep);
  }

  lemma TwoBlocksUnread(s: Stream, a: bytes, b: bytes)
    requires s.blocks == [a, b]
    ensures Unread(s) == a + b
  {
    assert s.blocks[1..] == [b] && Flatten([b]) == b;
  }

  /** In a stream fed with a longer separator in two blocks the separator goes unseen, and the line runs on. */
  lemma SplitSeparatorIsMissed(limit: int, sep: bytes, x: byte)
    requires |sep| >= 2 && x != sep[|sep| - 1]
    ensures var s := After(limit, TwoBlocks([sep[0]], sep[1..] + [x]));
            Pump(s, MarksOf(limit), sep, |sep| + 1, []).1 == Line(sep + [x]) &&
            LineSpec(Unread(s), sep, |sep| + 1, true) == Line(sep)
  {
    var a, b := [sep[0]], sep[1..] + [x];
    var s := After(limit, TwoBlocks(a, b));
    TwoBlocksBuffered(limit, a, b);
    CutSeparator(sep, x);
    Rejoined(sep, x);
    PumpJoins(s, MarksOf(limit), sep, a, b, |sep| + 1);
    TwoBlocksUnread(s, a, b);
  }

  /** A pump with nothing held answers as the specification says. */
  predicate PumpMeetsSpec(s: Stream, m: Marks, sep: bytes, maxSize: nat)
    requires sep != []
  {
    Pump(s, m, sep, maxSize, []).1 == LineSpec(Unread(s), sep, maxSize, s.eof)
  }

  /**
   * In every state a stream can be in, searching block by block is searching the stream: for
   * one-byte separators and for no others.
   */
  lemma SeparatorsThatWork(limit: int, sep: bytes)
    requires sep != []
    ensures (forall ops, maxSize: nat :: PumpMeetsSpec(After(limit, ops), MarksOf(limit), sep, maxSize)) <==> |sep| == 1
  {
    var m := MarksOf(limit);
    if |sep| == 1 {
      assert sep == [sep[0]];
      forall ops, maxSize: nat
        ensures PumpMeetsSpec(After(limit, ops), m, sep, maxSize)
      {
        PumpTakesLine(After(limit, ops), m, sep[0], maxSize, []);
        assert [] + Unread(After(limit, ops)) == Unread(After(limit, ops));
      }
    } else {
      var x: byte := if sep[|sep| - 1] == 0 then 1 else 0;
      var ops := TwoBlocks([sep[0]], sep[1..] + [x]);
      SplitSeparatorIsMissed(limit, sep, x);
      TwoBlocksBuffered(limit, [sep[0]], sep[1..] + [x]);
      assert sep != sep + [x];
      assert !PumpMeetsSpec(After(limit, ops), m, sep, |sep| + 1);
    }
  }

  datatype ExactOutcome =
    | Exactly(data: bytes)
    | Incomplete(partial: bytes)
    | Waiting(held: bytes)

  /** `readexactly(n)`: reads of what is missing, until it is there or the body ends. */
  function ExactRun(s: Stream, m: Marks, n: int, held: bytes, arrivals: seq<Arrival>): ExactOutcome
    decreases |arrivals|, n
  {
    if n <= 0 then Exactly(held)
    else if s.blocks == [] && !s.eof then
      if arrivals == [] then Waiting(held)
      else ExactRun(Arrive(s, m, arrivals[0]), m, n, held, arrivals[1..])
    else
      var (t, block) := ReadNowait(s, m, n);
      if block == [] then Incomplete(held)
      else ExactRun(t, m, n - |block|, held + block, arrivals)
  }

  /** What an exact reader should do, given every byte it will ever see. */
  function ExactSpec(all: bytes, n: nat, held: bytes, ends: bool): ExactOutcome
  {
    if |all| >= n then Exactly(held + all[..n])
    else if ends then Incomplete(held + all)
    else Waiting(held + all)
  }

  lemma ExactSpecSplit(block: bytes, rest: bytes, n: nat, held: bytes, ends: bool)
    requires |block| <= n
    ensures ExactSpec(block + rest, n, held, ends) == ExactSpec(rest, n - |block|, held + block, ends)
  {
    assert held + (block + rest) == held + block + rest;
    if |rest| >= n - |block| {
      assert held + (block + rest)[..n] == held + block + rest[..n - |block|];
    }
  }

  /** An arrival at an empty buffer. */
  lemma ArriveFacts(s: Stream, m: Marks, arrivals: seq<Arrival>) returns (t: Stream)
    requires s.blocks == [] && !s.eof && arrivals != []
    ensures t == Arrive(s, m, arrivals[0]) && NoEmptyBlocks(t)
    ensures Unread(t) + Incoming(t.eof, arrivals[1..]) == Incoming(s.eof, arrivals)
    ensures Ends(t.eof, arrivals[1..]) == Ends(s.eof, arrivals)
  {
    t := Arrive(s, m, arrivals[0]);
    var now := if arrivals[0].Data? then arrivals[0].data else [];
    FlattenSnoc(s.blocks, now);
    assert Unread(t) == now;
  }

  /** `readexactly` returns exactly the next n bytes, however they arrive, or reports all it got. */
  lemma {:induction false} ReadExactlyReadsExactly(s: Stream, m: Marks, n: nat, held: bytes,
                                                   arrivals: seq<Arrival>)
    requires NoEmptyBlocks(s)
    ensures ExactRun(s, m, n, held, arrivals)
         == ExactSpec(Unread(s) + Incoming(s.eof, arrivals), n, held, Ends(s.eof, arrivals))
    decreases |arrivals|, n
  {
    var later, ends := Incoming(s.eof, arrivals), Ends(s.eof, arrivals);
    if n == 0 {
      assert held + (Unread(s) + later)[..0] == held;
    } else if s.blocks == [] && !s.eof {
      assert Unread(s) + later == later;
      if arrivals != [] {
        var t := ArriveFacts(s, m, arrivals);
        ReadExactlyReadsExactly(t, m, n, held, arrivals[1..]);
      } else {
        assert held + later == held;
      }
    } else if s.blocks == [] {
      assert ReadNowait(s, m, n) == (s, []);
      assert Unread(s) + later == [] && held + [] == held;
    } else {
      var t, block, rest := ReadNowaitFacts(s, m, n);
      Assoc(block, rest, later);
      ExactSpecSplit(block, rest + later, n, held, ends);
      ReadExactlyReadsExactly(t, m, n - |block|, held + block, arrivals);
      ExactUnfolds(s, m, n, held, arrivals, t, block);
    }
  }

  lemma ExactUnfolds(s: Stream, m: Marks, n: nat, held: bytes, arrivals: seq<Arrival>, t: Stream, block: bytes)
    requires n > 0 && s.blocks != [] && ReadNowait(s, m, n) == (t, block) && block != [] && |block| <= n
    ensures ExactRun(s, m, n, held, arrivals) == ExactRun(t, m, n - |block|, held + block, arrivals)
  {
  }

  /** The facts about a positive read that a reader relies on. */
  lemma ReadNowaitFacts(s: Stream, m: Marks, n: nat) returns (t: Stream, block: bytes, rest: bytes)
    requires NoEmptyBlocks(s)
    ensures ReadNowait(s, m, n) == (t, block)
    ensures |block| <= n && block + rest == Unread(s) && rest == Unread(t) && t.eof == s.eof
    ensures n > 0 && s.blocks != [] ==> block != []
    ensures NoEmptyBlocks(t)
  {
    var r := ReadNowait(s, m, n);
    t, block := r.0, r.1;
    rest := Unread(t);
    ReadNowaitTakesPrefix(s, m, n);
    ReadNowaitKeepsBlocks(s, m, n);
    ReadNowaitCounts(s, m, n);
  }

  lemma {:induction false} ReadNowaitKeepsBlocks(s: Stream, m: Marks, n: int)
    requires n >= -1
    requires NoEmptyBlocks(s)
    ensures NoEmptyBlocks(ReadNowait(s, m, n).0)
    decreases |s.blocks|
  {
    if s.blocks != [] {
      var data, t := ChunkData(s, n), TakeChunk(s, m, n);
      assert NoEmptyBlocks(t);
      if n == -1 || n - |data| != 0 {
        ReadNowaitKeepsBlocks(t, m, if n == -1 then -1 else n - |data|);
      }
    }
  }
}
