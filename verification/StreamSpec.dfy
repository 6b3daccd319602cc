/**
 * The states of a body stream between two awaits, and what each operation does to them.
 * `blocks` are the buffered blocks with the consumed part of the first one cut off.
 */
module StreamSpec {
  import opened Common
  import opened Bytes

  /** Flow-control marks: in bytes, and in pending HTTP chunk ends. */
  datatype Marks = Marks(low: int, high: int, lowChunks: int, highChunks: int)

  function MarksOf(limit: int): Marks
  {
    var highChunks := Max(3, limit / 4);
    Marks(limit, limit * 2, Max(2, highChunks / 2), highChunks)
  }

  datatype Stream = Stream(
    blocks: seq<bytes>,
    cursor: int,
    total: int,
    splits: Option<seq<int>>,
    eof: bool,
    broken: bool,     // an exception was set
    waiting: bool,    // a reader waits for the next event
    paused: bool,     // the transport was told to stop reading
    connected: bool,  // the protocol has a transport
    skips: nat        // chunk ends dropped with a warning by readchunk
  )

  const FRESH: Stream := Stream([], 0, 0, None, false, false, false, false, true, 0)

  function Unread(s: Stream): bytes { Flatten(s.blocks) }

  function Size(s: Stream): nat { |Unread(s)| }

  function Pending(s: Stream): seq<int>
  {
    if s.splits.Some? then s.splits.value else []
  }

  function Pause(s: Stream, mustPause: bool): Stream
  {
    if mustPause && s.connected then s.(paused := true) else s
  }

  // ----- the producer's side -----

  /** `feed_data`; calling it after `feed_eof` fails an assertion and changes nothing. */
  function FeedData(s: Stream, m: Marks, data: bytes): Stream
  {
    if s.eof || data == [] then s
    else
      var t := s.(blocks := s.blocks + [data], total := s.total + |data|, waiting := false);
      Pause(t, Size(t) > m.high)
  }

  /** `begin_http_chunk_receiving`; None stands for its RuntimeError. */
  function BeginChunk(s: Stream): Option<Stream>
  {
    if s.splits.Some? then Some(s)
    else if s.total != 0 then None
    else Some(s.(splits := Some([])))
  }

  /** `end_http_chunk_receiving`; None stands for its RuntimeError. */
  function EndChunk(s: Stream, m: Marks): Option<Stream>
  {
    if s.splits.None? then None
    else
      var ends := s.splits.value;
      var pos := if ends != [] then ends[|ends| - 1] else 0;
      if s.total == pos then Some(s)
      else
        var t := s.(splits := Some(ends + [s.total]), waiting := false);
        Some(Pause(t, |ends| + 1 > m.highChunks))
  }

  function FeedEof(s: Stream): Stream
  {
    s.(eof := true, waiting := false, paused := s.paused && !s.connected)
  }

  function SetException(s: Stream): Stream { s.(broken := true, waiting := false) }

  // ----- the consumer's side -----

  function UnreadData(s: Stream, data: bytes): Stream
  {
    if data == [] then s
    else s.(blocks := [data] + s.blocks, cursor := s.cursor - |data|)
  }

  function DropBelow(ends: seq<int>, cursor: int): seq<int>
  {
    if ends != [] && ends[0] < cursor then DropBelow(ends[1..], cursor) else ends
  }

  lemma {:induction false} DropBelowIsSuffix(ends: seq<int>, cursor: int)
    ensures var r := DropBelow(ends, cursor);
            |r| <= |ends| && r == ends[|ends| - |r|..] && (r != [] ==> r[0] >= cursor)
  {
    if ends != [] && ends[0] < cursor {
      DropBelowIsSuffix(ends[1..], cursor);
    }
  }

  function DropSplits(splits: Option<seq<int>>, cursor: int): Option<seq<int>>
  {
    if splits.Some? then Some(DropBelow(splits.value, cursor)) else None
  }

  /** What `_read_nowait_chunk(n)` hands out. */
  function ChunkData(s: Stream, n: int): bytes
    requires s.blocks != [] && n >= -1
  {
    if n != -1 && |s.blocks[0]| > n then s.blocks[0][..n] else s.blocks[0]
  }

  /** The state `_read_nowait_chunk(n)` leaves, which ends with the check for resuming. */
  function TakeChunk(s: Stream, m: Marks, n: int): Stream
    requires s.blocks != [] && n >= -1
  {
    var first := s.blocks[0];
    var blocks := if n != -1 && |first| > n then [first[n..]] + s.blocks[1..] else s.blocks[1..];
    var cursor := s.cursor + |ChunkData(s, n)|;
    var splits := DropSplits(s.splits, cursor);
    var t := s.(blocks := blocks, cursor := cursor, splits := splits);
    var resume := Size(t) < m.low && (splits.None? || |splits.value| < m.lowChunks);
    t.(paused := s.paused && !(s.connected && resume))
  }

  /** `_read_nowait(n)`: the new state and the data. */
  function ReadNowait(s: Stream, m: Marks, n: int): (r: (Stream, bytes))
    requires n >= -1
    decreases |s.blocks|
  {
    if s.blocks == [] then (s, [])
    else
      var data := ChunkData(s, n);
      var t := TakeChunk(s, m, n);
      if n != -1 && n - |data| == 0 then (t, data)
      else
        var (u, more) := ReadNowait(t, m, if n == -1 then -1 else n - |data|);
        (u, data + more)
  }

  datatype ReadOutcome =
    | Got(data: bytes, endOfChunk: bool)
    | MustWait
    | Raised

  /** A reader that finds nothing: `_wait` refuses a lost connection and a second waiter. */
  function Wait(s: Stream): (Stream, ReadOutcome)
  {
    if !s.connected || s.waiting then (s, Raised) else (s.(waiting := true), MustWait)
  }

  /** `readany` up to its return or its next await; `read(n)` for n > 0 likewise. */
  function ReadStep(s: Stream, m: Marks, n: int): (Stream, ReadOutcome)
    requires n >= -1
  {
    if s.broken then (s, Raised)
    else if n == 0 then (s, Got([], false))
    else if s.blocks == [] && !s.eof then Wait(s)
    else
      var (t, data) := ReadNowait(s, m, n);
      (t, Got(data, false))
  }

  /** `readchunk` up to its return or its next await. */
  function ReadChunk(s: Stream, m: Marks): (Stream, ReadOutcome)
    decreases |Pending(s)|
  {
    if s.broken then (s, Raised)
    else if Pending(s) != [] then
      var pos := Pending(s)[0];
      var t := s.(splits := Some(Pending(s)[1..]));
      if pos == s.cursor then (t, Got([], true))
      else if pos > s.cursor then
        var (u, data) := ReadNowait(t, m, pos - s.cursor);
        (u, Got(data, true))
      else ReadChunk(t.(skips := t.skips + 1), m)
    else if s.blocks != [] then (TakeChunk(s, m, -1), Got(ChunkData(s, -1), false))
    else if s.eof then (s, Got([], false))
    else Wait(s)
  }

  datatype LineOutcome =
    | Line(line: bytes)
    | TooLong
    | Need(held: bytes)  // everything buffered was taken; more must arrive

  /** `readuntil` from one await to the next: the buffered blocks are searched one by one. */
  function Pump(s: Stream, m: Marks, sep: bytes, maxSize: int, held: bytes): (Stream, LineOutcome)
    requires sep != []
    decreases |s.blocks|
  {
    if s.blocks == [] then (s, if s.eof then Line(held) else Need(held))
    else
      var i := Find(s.blocks[0], sep, 0);
      var n := if i >= 0 then i + |sep| else -1;
      var data := held + ChunkData(s, n);
      var t := TakeChunk(s, m, n);
      if |data| > maxSize then (t, TooLong)
      else if i >= 0 then (t, Line(data))
      else Pump(t, m, sep, maxSize, data)
  }

  // ----- what every operation keeps -----

  predicate Increasing(ends: seq<int>)
  {
    forall i, j :: 0 <= i < j < |ends| ==> ends[i] < ends[j]
  }

  predicate NoEmptyBlocks(s: Stream)
  {
    forall i :: 0 <= i < |s.blocks| ==> s.blocks[i] != []
  }

  /** No block is empty, the counters add up, and chunk ends lie between cursor and total. */
  predicate Consistent(s: Stream)
  {
    && NoEmptyBlocks(s)
    && s.cursor + Size(s) == s.total
    && Increasing(Pending(s))
    && (forall i :: 0 <= i < |Pending(s)| ==> s.cursor <= Pending(s)[i] <= s.total)
    && s.skips == 0
  }

  /** One block of `_read_nowait`. */
  lemma ReadNowaitUnfolds(s: Stream, m: Marks, n: int)
    requires s.blocks != [] && n >= -1
    ensures var data, t := ChunkData(s, n), TakeChunk(s, m, n);
            var k := if n == -1 then -1 else n - |data|;
            && k >= -1
            && (k == 0 ==> ReadNowait(s, m, n) == (t, data))
            && (k != 0 ==> ReadNowait(s, m, n) == (ReadNowait(t, m, k).0, data + ReadNowait(t, m, k).1))
  {
  }

  /** One block of `readuntil`. */
  lemma PumpUnfoldsOnce(s: Stream, m: Marks, sep: bytes, maxSize: int, held: bytes, i: int, n: int)
    requires s.blocks != [] && sep != [] && i == Find(s.blocks[0], sep, 0) && n == if i >= 0 then i + |sep| else -1
    ensures var data, t := held + ChunkData(s, n), TakeChunk(s, m, n);
            Pump(s, m, sep, maxSize, held)
            == if |data| > maxSize then (t, TooLong)
               else if i >= 0 then (t, Line(data))
               else Pump(t, m, sep, maxSize, data)
    ensures i < 0 ==> |TakeChunk(s, m, n).blocks| < |s.blocks|
  {
  }

  /** While the transport is there, it is paused only if something is left to read. */
  predicate Live(s: Stream)
  {
    s.connected ==> (s.paused ==> s.blocks != []) && (s.waiting ==> !s.paused)
  }

  predicate Inv(s: Stream) { Consistent(s) && Live(s) }

  /** The marks a positive limit gives. */
  predicate UsableMarks(m: Marks) { m.low >= 1 && m.high >= 1 && m.lowChunks >= 2 && m.highChunks >= 2 }

  lemma TakeChunkMoves(s: Stream, m: Marks, n: int)
    requires s.blocks != [] && n >= -1
    ensures ChunkData(s, n) + Unread(TakeChunk(s, m, n)) == Unread(s)
  {
    var t := TakeChunk(s, m, n);
    var first := s.blocks[0];
    if n != -1 && |first| > n {
      assert first == first[..n] + first[n..];
      assert t.blocks[0] == first[n..] && t.blocks[1..] == s.blocks[1..];
    }
  }

  lemma FeedDataConsistent(s: Stream, m: Marks, data: bytes)
    requires Consistent(s)
    ensures Consistent(FeedData(s, m, data))
    ensures !s.eof ==> Unread(FeedData(s, m, data)) == Unread(s) + data
  {
    FlattenSnoc(s.blocks, data);
    if data == [] {
      assert Unread(s) + data == Unread(s);
    } else if !s.eof {
      var t := FeedData(s, m, data);
      assert NoEmptyBlocks(t) && Pending(t) == Pending(s);
    }
  }

  lemma UnreadDataConsistent(s: Stream, data: bytes)
    requires Consistent(s)
    ensures Consistent(UnreadData(s, data)) && Unread(UnreadData(s, data)) == data + Unread(s)
  {
    if data != [] {
      var t := UnreadData(s, data);
      assert t.blocks[1..] == s.blocks;
      assert NoEmptyBlocks(t) && Pending(t) == Pending(s);
    } else {
      assert [] + Unread(s) == Unread(s);
    }
  }

  /** The last chunk end is not behind the bytes fed. */
  lemma LastEndBound(s: Stream)
    requires Consistent(s)
    ensures Pending(s) != [] ==> Pending(s)[|Pending(s)| - 1] <= s.total
  {
  }

  /** Taking the first pending chunk end off, which is not behind the cursor. */
  lemma FirstEndTaken(s: Stream, t: Stream)
    requires Consistent(s) && Pending(s) != [] && t == s.(splits := Some(Pending(s)[1..]))
    ensures Consistent(t) && Pending(t) == Pending(s)[1..] && Pending(s)[0] >= s.cursor
  {
    assert Unread(t) == Unread(s);
  }

  lemma EndsGrow(ends: seq<int>, total: int)
    requires Increasing(ends) && (ends != [] ==> ends[|ends| - 1] < total)
    ensures Increasing(ends + [total])
  {
    forall i | 0 <= i < |ends|
      ensures ends[i] < total
    {
      assert i < |ends| - 1 ==> ends[i] < ends[|ends| - 1];
    }
  }

  lemma EndChunkConsistent(s: Stream, m: Marks)
    requires Consistent(s) && s.splits.Some?
    ensures Consistent(EndChunk(s, m).value)
  {
    LastEndBound(s);
    var t := EndChunk(s, m).value;
    if t.splits != s.splits {
      EndsGrow(Pending(s), s.total);
      EndAdded(s, t);
    }
  }

  lemma EndAdded(s: Stream, t: Stream)
    requires Consistent(s) && t == s.(splits := t.splits, waiting := t.waiting, paused := t.paused)
    requires Pending(t) == Pending(s) + [s.total] && Increasing(Pending(t))
    ensures Consistent(t)
  {
    assert Unread(t) == Unread(s);
    forall i | 0 <= i < |Pending(t)|
      ensures t.cursor <= Pending(t)[i] <= t.total
    {
      assert i < |Pending(s)| ==> Pending(t)[i] == Pending(s)[i];
    }
  }

  lemma TakeChunkConsistent(s: Stream, m: Marks, n: int)
    requires Consistent(s) && s.blocks != [] && n >= -1
    ensures Consistent(TakeChunk(s, m, n))
  {
    TakeChunkMoves(s, m, n);
    DropBelowIsSuffix(Pending(s), s.cursor + |ChunkData(s, n)|);
  }

  lemma {:induction false} IncreasingSpread(ends: seq<int>)
    requires Increasing(ends) && ends != []
    ensures ends[|ends| - 1] >= ends[0] + |ends| - 1
  {
    if |ends| > 1 {
      IncreasingSpread(ends[..|ends| - 1]);
    }
  }

  /** There is at most one chunk end pending more than there are unread bytes. */
  lemma PendingBound(s: Stream)
    requires Consistent(s)
    ensures |Pending(s)| <= Size(s) + 1
  {
    if Pending(s) != [] {
      IncreasingSpread(Pending(s));
    }
  }

  lemma TakeChunkLive(s: Stream, m: Marks, n: int)
    requires Inv(s) && s.blocks != [] && n >= -1 && UsableMarks(m)
    ensures Inv(TakeChunk(s, m, n))
  {
    TakeChunkConsistent(s, m, n);
    var t := TakeChunk(s, m, n);
    PendingBound(t);
  }

  /** The first n bytes, or all for n = -1. */
  function Prefix(u: bytes, n: int): bytes
    requires n >= -1
  {
    if n == -1 || n >= |u| then u else u[..n]
  }

  lemma PrefixSplit(data: bytes, u: bytes, n: int)
    requires n == -1 || n >= |data|
    ensures Prefix(data + u, n) == data + Prefix(u, if n == -1 then -1 else n - |data|)
  {
  }

  /**
   * `_read_nowait(n)` returns the first n unread bytes (all of them for n = -1, or when fewer are
   * there), wherever the block borders are, and leaves the rest.
   */
  lemma {:induction false} ReadNowaitTakesPrefix(s: Stream, m: Marks, n: int)
    requires n >= -1
    ensures ReadNowait(s, m, n).1 == Prefix(Unread(s), n)
    ensures ReadNowait(s, m, n).1 + Unread(ReadNowait(s, m, n).0) == Unread(s)
    decreases |s.blocks|
  {
    if s.blocks != [] {
      var data, t := ChunkData(s, n), TakeChunk(s, m, n);
      var whole, after := Unread(s), Unread(t);
      TakeChunkMoves(s, m, n);
      if n != -1 && n - |data| == 0 {
        assert Prefix(data + after, n) == data;
      } else {
        var k := if n == -1 then -1 else n - |data|;
        ReadNowaitTakesPrefix(t, m, k);
        PrefixSplit(data, after, n);
        var (u, more) := ReadNowait(t, m, k);
        assert ReadNowait(s, m, n) == (u, data + more);
        assert (data + more) + Unread(u) == data + (more + Unread(u));
      }
    }
  }

  lemma {:induction false} ReadNowaitConsistent(s: Stream, m: Marks, n: int)
    requires Consistent(s) && n >= -1
    ensures Consistent(ReadNowait(s, m, n).0)
    decreases |s.blocks|
  {
    if s.blocks != [] {
      var data, t := ChunkData(s, n), TakeChunk(s, m, n);
      TakeChunkConsistent(s, m, n);
      if n == -1 || n - |data| != 0 {
        ReadNowaitConsistent(t, m, if n == -1 then -1 else n - |data|);
      }
    }
  }

  /** `readchunk` keeps the counters and ends right whatever the marks are. */
  lemma ReadChunkConsistent(s: Stream, m: Marks)
    requires Consistent(s)
    ensures Consistent(ReadChunk(s, m).0)
  {
    if s.broken {
    } else if Pending(s) != [] {
      var t := s.(splits := Some(Pending(s)[1..]));
      FirstEndTaken(s, t);
      ReadNowaitConsistent(t, m, Pending(s)[0] - s.cursor);
    } else if s.blocks != [] {
      TakeChunkConsistent(s, m, -1);
    }
  }

  lemma {:induction false} ReadNowaitLive(s: Stream, m: Marks, n: int)
    requires Inv(s) && n >= -1 && UsableMarks(m)
    ensures Inv(ReadNowait(s, m, n).0)
    decreases |s.blocks|
  {
    if s.blocks != [] {
      var data, t := ChunkData(s, n), TakeChunk(s, m, n);
      TakeChunkLive(s, m, n);
      if n == -1 || n - |data| != 0 {
        ReadNowaitLive(t, m, if n == -1 then -1 else n - |data|);
      }
    }
  }
}
