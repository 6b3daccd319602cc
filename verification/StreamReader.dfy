/** The body stream itself: a deque of blocks with an offset, updated in place. */
module StreamReaders {
  import opened Common
  import opened Bytes
  import opened StreamSpec

  class BaseProtocol {
    var readingPaused: bool
    var hasTransport: bool

    constructor ()
      ensures !readingPaused && hasTransport
    {
      readingPaused, hasTransport := false, true;
    }

    method PauseReading()
      modifies this
      ensures readingPaused == (old(readingPaused) || hasTransport) && hasTransport == old(hasTransport)
    {
      if !readingPaused && hasTransport {
        readingPaused := true;
      }
    }

    method ResumeReading()
      modifies this
      ensures readingPaused == (old(readingPaused) && !hasTransport) && hasTransport == old(hasTransport)
    {
      if readingPaused && hasTransport {
        readingPaused := false;
      }
    }
  }

  class StreamReader {
    const protocol: BaseProtocol
    const marks: Marks
    var buffer: seq<bytes>
    var offset: nat             // consumed bytes of the first block
    var size: int
    var cursor: int
    var totalBytes: int
    var splits: Option<seq<int>>
    var eof: bool
    var exception: bool
    var waiter: bool
    ghost var fed: bytes        // everything ever fed
    ghost var ends: seq<int>    // every chunk end ever recorded

    ghost function State(): Stream
      reads this, protocol
      requires buffer != [] ==> offset <= |buffer[0]|
    {
      Stream(
        if buffer == [] then [] else [buffer[0][offset..]] + buffer[1..],
        cursor, totalBytes, splits, eof, exception, waiter,
        protocol.readingPaused, protocol.hasTransport, 0)
    }

    ghost predicate Valid()
      reads this, protocol
    {
      && (if buffer == [] then offset == 0 else offset < |buffer[0]|)
      && size == Size(State())
      && Consistent(State())
      && |fed| == totalBytes
    }

    /** Bytes came in since the last pending chunk end. */
    ghost predicate EndIsNew()
      reads this
    {
      splits.Some? && totalBytes != if splits.value != [] then splits.value[|splits.value| - 1] else 0
    }

    constructor (protocol: BaseProtocol, limit: int)
      ensures Valid() && this.protocol == protocol && marks == MarksOf(limit)
      ensures |buffer| == 0 && splits.None? && !eof && !exception && !waiter
      ensures fed == [] && ends == []
    {
      this.protocol := protocol;
      marks := MarksOf(limit);
      buffer, offset, size, cursor, totalBytes, splits := [], 0, 0, 0, 0, None;
      eof, exception, waiter := false, false, false;
      fed, ends := [], [];
    }

    method AppendBlock(data: bytes)
      requires buffer != [] ==> offset <= |buffer[0]|
      requires buffer == [] ==> offset == 0
      modifies this`size, this`buffer, this`totalBytes, this`waiter, this`fed
      ensures buffer == old(buffer) + [data] && size == old(size) + |data| && fed == old(fed) + data
      ensures State() == old(State()).(
                blocks := old(State()).blocks + [data], total := old(totalBytes) + |data|, waiting := false)
    {
      ghost var blocks := State().blocks;
      size := size + |data|;
      buffer := buffer + [data];
      totalBytes := totalBytes + |data|;
      waiter := false;
      fed := fed + data;
      assert State().blocks == blocks + [data];
    }

    method FeedData(data: bytes)
      requires Valid() && !eof
      modifies this, protocol
      ensures Valid() && State() == StreamSpec.FeedData(old(State()), marks, data)
      ensures fed == old(fed) + data && ends == old(ends)
      ensures eof == old(eof) && splits == old(splits)
      ensures data != [] && splits.Some? ==> EndIsNew()
    {
      if data == [] {
        assert fed + data == fed;
        return;
      }
      ghost var goal := StreamSpec.FeedData(State(), marks, data);
      FeedDataConsistent(State(), marks, data);
      LastEndBound(State());
      AppendBlock(data);
      if size > marks.high && !protocol.readingPaused {
        protocol.PauseReading();
      }
      assert State() == goal;
    }

    /** `unread_data`: puts bytes back in front of the buffer. */
    method UnreadData(data: bytes)
      requires Valid()
      modifies this
      ensures Valid() && State() == StreamSpec.UnreadData(old(State()), data)
      ensures Unread(State()) == data + old(Unread(State()))
      ensures fed == old(fed) && ends == old(ends)
    {
      if data == [] {
        assert [] + Unread(State()) == Unread(State());
        return;
      }
      ghost var before := State();
      UnreadDataConsistent(before, data);
      if offset != 0 {
        buffer := buffer[0 := buffer[0][offset..]];
        offset := 0;
      }
      assert State().blocks == before.blocks;
      size := size + |data|;
      cursor := cursor - |data|;
      buffer := [data] + buffer;
      assert State().blocks == [data] + before.blocks;
      assert State() == StreamSpec.UnreadData(before, data);
    }

    /** Returns false where the source raises a RuntimeError. */
    method BeginHttpChunkReceiving() returns (ok: bool)
      requires Valid()
      modifies this
      ensures Valid() && ok == BeginChunk(old(State())).Some?
      ensures State() == if ok then BeginChunk(old(State())).value else old(State())
      ensures fed == old(fed) && ends == old(ends)
      ensures eof == old(eof) && (old(splits).Some? || totalBytes == 0 ==> ok && splits.Some?)
    {
      if splits.None? {
        if totalBytes != 0 {
          return false;
        }
        splits := Some([]);
      }
      return true;
    }

    /** Returns false where the source raises a RuntimeError. */
    method EndHttpChunkReceiving() returns (ok: bool)
      requires Valid()
      modifies this, protocol
      ensures Valid() && ok == EndChunk(old(State()), marks).Some?
      ensures State() == if ok then EndChunk(old(State()), marks).value else old(State())
      ensures fed == old(fed)
      ensures ends == if old(EndIsNew()) then old(ends) + [|fed|] else old(ends)
      ensures eof == old(eof) && splits.Some? == old(splits).Some?
    {
      if splits.None? {
        return false;
      }
      var pos := if splits.value != [] then splits.value[|splits.value| - 1] else 0;
      if totalBytes == pos {
        return true;
      }
      ghost var was := State();
      EndChunkConsistent(was, marks);
      splits := Some(splits.value + [totalBytes]);
      ends := ends + [totalBytes];
      if |splits.value| > marks.highChunks && !protocol.readingPaused {
        protocol.PauseReading();
      }
      waiter := false;
      assert State().blocks == was.blocks;
      assert State() == EndChunk(was, marks).value;
      return true;
    }

    method FeedEof()
      requires Valid()
      modifies this, protocol
      ensures Valid() && State() == StreamSpec.FeedEof(old(State()))
      ensures fed == old(fed) && ends == old(ends)
      ensures eof && splits == old(splits)
    {
      eof := true;
      waiter := false;
      if protocol.readingPaused {
        protocol.ResumeReading();
      }
    }

    method SetException()
      requires Valid()
      modifies this
      ensures Valid() && State() == StreamSpec.SetException(old(State()))
      ensures fed == old(fed) && ends == old(ends)
      ensures eof == old(eof) && splits == old(splits)
    {
      exception := true;
      waiter := false;
    }

    /** The buffer part of `_read_nowait_chunk`: the first block, or the first n bytes of it. */
    method CutFirstBlock(n: int) returns (data: bytes)
      requires buffer != [] && offset < |buffer[0]| && n >= -1
      modifies this`buffer, this`offset
      ensures if buffer == [] then offset == 0 else offset <= |buffer[0]|
      ensures data == ChunkData(old(State()), n)
      ensures State().blocks == TakeChunk(old(State()), marks, n).blocks
    {
      var first := buffer[0];
      if n != -1 && |first| - offset > n {
        data := first[offset..offset + n];
        offset := offset + n;
      } else if offset != 0 {
        buffer := buffer[1..];
        data := first[offset..];
        offset := 0;
      } else {
        data := first;
        buffer := buffer[1..];
      }
      assert buffer != [] && offset == 0 ==> buffer[0][0..] == buffer[0];
    }

    /** `_read_nowait_chunk(n)`. */
    method ReadNowaitChunk(n: int) returns (data: bytes)
      requires Valid() && buffer != [] && n >= -1
      modifies this, protocol
      ensures Valid() && State() == TakeChunk(old(State()), marks, n)
      ensures data == ChunkData(old(State()), n)
      ensures data + Unread(State()) == old(Unread(State()))
      ensures fed == old(fed) && ends == old(ends)
    {
      ghost var before := State();
      ghost var after := TakeChunk(before, marks, n);
      data := CutFirstBlock(n);
      size := size - |data|;
      cursor := cursor + |data|;
      DropStaleSplits();
      TakeChunkMoves(before, marks, n);
      assert size == Size(after);
      assert cursor == after.cursor;
      assert splits == after.splits;
      if protocol.readingPaused && size < marks.low && (splits.None? || |splits.value| < marks.lowChunks) {
        protocol.ResumeReading();
      }
      assert State().blocks == after.blocks;
      assert State() == after;
      TakeChunkConsistent(before, marks, n);
    }

    /** Chunk ends behind the cursor are dropped. */
    method DropStaleSplits()
      modifies this`splits
      ensures splits == DropSplits(old(splits), cursor)
    {
      if splits.Some? {
        var rest := splits.value;
        while rest != [] && rest[0] < cursor
          invariant DropBelow(rest, cursor) == DropBelow(splits.value, cursor)
        {
          rest := rest[1..];
        }
        splits := Some(rest);
      }
    }

    /** `_read_nowait(n)`: blocks are taken until n bytes are there or the buffer is empty. */
    method ReadNowait(n: int) returns (data: bytes)
      requires Valid() && n >= -1
      modifies this, protocol
      ensures Valid() && (State(), data) == StreamSpec.ReadNowait(old(State()), marks, n)
      ensures data == Prefix(old(Unread(State())), n) && data + Unread(State()) == old(Unread(State()))
      ensures fed == old(fed) && ends == old(ends)
    {
      ghost var before := State();
      ReadNowaitTakesPrefix(before, marks, n);
      data := [];
      var k := n;
      assert [] + StreamSpec.ReadNowait(before, marks, n).1 == StreamSpec.ReadNowait(before, marks, n).1;
      while buffer != []
        invariant Valid() && k >= -1 && fed == old(fed) && ends == old(ends)
        invariant StreamSpec.ReadNowait(State(), marks, k).0 == StreamSpec.ReadNowait(before, marks, n).0
        invariant data + StreamSpec.ReadNowait(State(), marks, k).1 == StreamSpec.ReadNowait(before, marks, n).1
        decreases |buffer|, if k == -1 then 0 else k + 1
      {
        ghost var mid, midData := State(), data;
        var chunk := ReadNowaitChunk(k);
        ReadNowaitUnfolds(mid, marks, k);
        data := data + chunk;
        if k != -1 {
          k := k - |chunk|;
          if k == 0 {
            return;
          }
        }
        Assoc(midData, chunk, StreamSpec.ReadNowait(State(), marks, k).1);
      }
      assert data + [] == data;
    }

    /** `_wait` up to its await: false where it raises a RuntimeError. */
    method StartWaiting() returns (o: ReadOutcome)
      requires Valid()
      modifies this
      ensures Valid() && (State(), o) == Wait(old(State()))
      ensures fed == old(fed) && ends == old(ends)
    {
      if !protocol.hasTransport {
        return Raised;
      }
      if waiter {
        return Raised;
      }
      waiter := true;
      return MustWait;
    }

    /** `read(n)` for n > 0, and `readany` for n = -1, up to the return or the next await. */
    method Read(n: int) returns (o: ReadOutcome)
      requires Valid() && n >= -1
      modifies this, protocol
      ensures Valid() && (State(), o) == ReadStep(old(State()), marks, n)
      ensures fed == old(fed) && ends == old(ends)
    {
      if exception {
        return Raised;
      }
      if n == 0 {
        return Got([], false);
      }
      if buffer == [] && !eof {
        o := StartWaiting();
        return;
      }
      var data := ReadNowait(n);
      return Got(data, false);
    }

    /** Takes the first pending chunk end, which is never behind the cursor. */
    method PopSplit() returns (pos: int)
      requires Valid() && splits.Some? && splits.value != []
      modifies this`splits
      ensures Valid() && pos == Pending(old(State()))[0] && pos >= cursor
      ensures State() == old(State()).(splits := Some(Pending(old(State()))[1..]))
    {
      ghost var before := State();
      pos := splits.value[0];
      splits := Some(splits.value[1..]);
      FirstEndTaken(before, State());
    }

    /** `readchunk` up to the return or the next await. The warning branch is dead code. */
    method ReadChunk() returns (o: ReadOutcome)
      requires Valid()
      modifies this, protocol
      ensures Valid() && (State(), o) == StreamSpec.ReadChunk(old(State()), marks)
      ensures fed == old(fed) && ends == old(ends)
    {
      if exception {
        return Raised;
      }
      if splits.Some? && splits.value != [] {
        var pos := PopSplit();
        if pos == cursor {
          return Got([], true);
        }
        if pos > cursor {
          var data := ReadNowait(pos - cursor);
          return Got(data, true);
        }
        assert false;
      }
      if buffer != [] {
        var data := ReadNowaitChunk(-1);
        return Got(data, false);
      }
      if eof {
        return Got([], false);
      }
      o := StartWaiting();
    }

    /** The body of the inner loop of `readuntil`: one block is searched. */
    method PumpBlock(sep: bytes, maxSize: int, held: bytes) returns (o: LineOutcome)
      requires Valid() && sep != [] && buffer != []
      modifies this, protocol
      ensures Valid() && fed == old(fed) && ends == old(ends)
      ensures old(State()).blocks != []
      ensures if o.Need? then
                && |State().blocks| < old(|State().blocks|)
                && Pump(old(State()), marks, sep, maxSize, held) == Pump(State(), marks, sep, maxSize, o.held)
              else
                (State(), o) == Pump(old(State()), marks, sep, maxSize, held)
    {
      ghost var before := State();
      ghost var i := Find(before.blocks[0], sep, 0);
      var ichar := Find(buffer[0], sep, offset) + 1;
      FindBehindOffset(buffer[0], offset, sep);
      var n := if ichar != 0 then ichar - offset + |sep| - 1 else -1;
      PumpUnfoldsOnce(before, marks, sep, maxSize, held, i, n);
      var data := ReadNowaitChunk(n);
      var chunk := held + data;
      if |chunk| > maxSize {
        return TooLong;
      }
      return if ichar != 0 then Line(chunk) else Need(chunk);
    }

    /** The inner loop of `readuntil`: from one await to the next. */
    method PumpLine(sep: bytes, maxSize: int, held: bytes) returns (o: LineOutcome)
      requires Valid() && sep != []
      modifies this, protocol
      ensures Valid() && (State(), o) == Pump(old(State()), marks, sep, maxSize, held)
      ensures fed == old(fed) && ends == old(ends)
    {
      o := Need(held);
      while buffer != []
        invariant Valid() && fed == old(fed) && ends == old(ends)
        invariant o.Need?
        invariant Pump(State(), marks, sep, maxSize, o.held) == Pump(old(State()), marks, sep, maxSize, held)
        decreases |State().blocks|
      {
        o := PumpBlock(sep, maxSize, o.held);
        if !o.Need? {
          return;
        }
      }
      if eof {
        o := Line(o.held);
      }
    }
  }
}
