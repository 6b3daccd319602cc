/** Theorems about whole runs of a body stream: any interleaving of a producer and its readers. */
module StreamRuns {
  import opened Common
  import opened Bytes
  import opened StreamSpec

  datatype Op =
    | Feed(data: bytes)
    | Begin
    | End
    | Eof
    | Fault                 // set_exception
    | PushBack(data: bytes) // unread_data
    | Read(n: int)          // read(n), or readany for a negative n
    | ReadNow(n: int)       // read_nowait
    | NextChunk             // readchunk
    | Until(sep: bytes, maxSize: int, held: bytes)
    | CancelWait            // the waiting reader is cancelled
    | Disconnect

  /** A call that raises leaves the stream as it was. */
  function Apply(s: Stream, m: Marks, op: Op): Stream
  {
    match op
    case Feed(data) => FeedData(s, m, data)
    case Begin => var r := BeginChunk(s); if r.Some? then r.value else s
    case End => var r := EndChunk(s, m); if r.Some? then r.value else s
    case Eof => FeedEof(s)
    case Fault => SetException(s)
    case PushBack(data) => UnreadData(s, data)
    case Read(n) => ReadStep(s, m, Max(n, -1)).0
    case ReadNow(n) => if s.broken || s.waiting then s else ReadNowait(s, m, Max(n, -1)).0
    case NextChunk => ReadChunk(s, m).0
    case Until(sep, maxSize, held) =>
      if s.broken || sep == [] then s
      else
        var (t, o) := Pump(s, m, sep, maxSize, held);
        if o.Need? then Wait(t).0 else t
    case CancelWait => s.(waiting := false)
    case Disconnect => s.(connected := false)
  }

  function Run(s: Stream, m: Marks, ops: seq<Op>): Stream
    decreases |ops|
  {
    if ops == [] then s else Run(Apply(s, m, ops[0]), m, ops[1..])
  }

  lemma FeedDataKeepsInv(s: Stream, m: Marks, data: bytes)
    requires Inv(s) && UsableMarks(m)
    ensures Inv(FeedData(s, m, data))
    ensures !s.eof ==> Unread(FeedData(s, m, data)) == Unread(s) + data
  {
    FeedDataConsistent(s, m, data);
    PendingBound(FeedData(s, m, data));
  }

  lemma FeedEofKeepsInv(s: Stream)
    requires Inv(s)
    ensures Inv(FeedEof(s))
  {
    assert Unread(FeedEof(s)) == Unread(s);
  }

  lemma EndChunkKeepsInv(s: Stream, m: Marks)
    requires Inv(s) && UsableMarks(m) && s.splits.Some?
    ensures Inv(EndChunk(s, m).value)
  {
    EndChunkConsistent(s, m);
    PendingBound(EndChunk(s, m).value);
  }

  lemma {:induction false} ReadChunkKeepsInv(s: Stream, m: Marks)
    requires Inv(s) && UsableMarks(m)
    ensures Inv(ReadChunk(s, m).0)
  {
    if s.broken {
    } else if Pending(s) != [] {
      var t := s.(splits := Some(Pending(s)[1..]));
      assert Pending(t) == Pending(s)[1..];
      assert Inv(t);
      ReadNowaitLive(t, m, Pending(s)[0] - s.cursor);
    } else if s.blocks != [] {
      TakeChunkLive(s, m, -1);
    }
  }

  /** The state a pump of the first block leaves, and whether it goes on with the next one. */
  lemma PumpUnfolds(s: Stream, m: Marks, sep: bytes, maxSize: int, held: bytes)
      returns (t: Stream, data: bytes, more: bool)
    requires sep != [] && s.blocks != []
    ensures exists n :: n >= -1 && t == TakeChunk(s, m, n)
    ensures |t.blocks| < |s.blocks| || !more
    ensures if more then Pump(s, m, sep, maxSize, held) == Pump(t, m, sep, maxSize, data)
            else Pump(s, m, sep, maxSize, held).0 == t
  {
    var i := Find(s.blocks[0], sep, 0);
    var n := if i >= 0 then i + |sep| else -1;
    t, data := TakeChunk(s, m, n), held + ChunkData(s, n);
    more := i < 0 && |data| <= maxSize;
  }

  lemma {:induction false} PumpKeepsInv(s: Stream, m: Marks, sep: bytes, maxSize: int, held: bytes)
    requires Inv(s) && UsableMarks(m) && sep != []
    ensures Inv(Pump(s, m, sep, maxSize, held).0)
    decreases |s.blocks|
  {
    if s.blocks != [] {
      var t, data, more := PumpUnfolds(s, m, sep, maxSize, held);
      assert Inv(t) by {
        var n :| n >= -1 && t == TakeChunk(s, m, n);
        TakeChunkLive(s, m, n);
      }
      if more {
        PumpKeepsInv(t, m, sep, maxSize, data);
      }
    }
  }

  /** A reader asks for more only once the buffer is empty and the end was not announced. */
  lemma {:induction false} PumpNeeds(s: Stream, m: Marks, sep: bytes, maxSize: int, held: bytes)
    requires sep != []
    ensures var (t, o) := Pump(s, m, sep, maxSize, held);
            t.eof == s.eof && t.connected == s.connected && (o.Need? ==> t.blocks == [] && !t.eof)
    decreases |s.blocks|
  {
    if s.blocks != [] {
      var i := Find(s.blocks[0], sep, 0);
      var n := if i >= 0 then i + |sep| else -1;
      var t, data := TakeChunk(s, m, n), held + ChunkData(s, n);
      if i < 0 && |data| <= maxSize {
        PumpNeeds(t, m, sep, maxSize, data);
        assert Pump(s, m, sep, maxSize, held) == Pump(t, m, sep, maxSize, data);
      }
    }
  }

  lemma UntilKeepsInv(s: Stream, m: Marks, op: Op)
    requires Inv(s) && UsableMarks(m) && op.Until?
    ensures Inv(Apply(s, m, op))
  {
    if op.sep != [] {
      PumpKeepsInv(s, m, op.sep, op.maxSize, op.held);
      PumpNeeds(s, m, op.sep, op.maxSize, op.held);
    }
  }

  lemma ReadKeepsInv(s: Stream, m: Marks, op: Op)
    requires Inv(s) && UsableMarks(m) && (op.Read? || op.ReadNow?)
    ensures Inv(Apply(s, m, op))
  {
    ReadNowaitLive(s, m, Max(op.n, -1));
  }

  lemma PushBackKeepsInv(s: Stream, m: Marks, data: bytes)
    requires Inv(s)
    ensures Inv(UnreadData(s, data))
  {
    UnreadDataConsistent(s, data);
  }

  lemma ApplyKeepsInv(s: Stream, m: Marks, op: Op)
    requires Inv(s) && UsableMarks(m)
    ensures Inv(Apply(s, m, op))
  {
    match op
    case Feed(data) => FeedDataKeepsInv(s, m, data);
    case Eof => FeedEofKeepsInv(s);
    case End => if s.splits.Some? { EndChunkKeepsInv(s, m); }
    case Read(_) => ReadKeepsInv(s, m, op);
    case ReadNow(_) => ReadKeepsInv(s, m, op);
    case NextChunk => ReadChunkKeepsInv(s, m);
    case Until(_, _, _) => UntilKeepsInv(s, m, op);
    case PushBack(data) => PushBackKeepsInv(s, m, data);
    case _ =>
  }

  /**
   * In every reachable state the counters add up, chunk ends never fall behind the cursor (so
   * readchunk never drops one), and reading is paused only while something is left to read.
   */
  lemma {:induction false} RunKeepsInv(s: Stream, m: Marks, ops: seq<Op>)
    requires Inv(s) && UsableMarks(m)
    ensures Inv(Run(s, m, ops))
    decreases |ops|
  {
    if ops != [] {
      ApplyKeepsInv(s, m, ops[0]);
      RunKeepsInv(Apply(s, m, ops[0]), m, ops[1..]);
    }
  }

  lemma {:induction false} PumpKeepsConsistent(s: Stream, m: Marks, sep: bytes, maxSize: int, held: bytes)
    requires Consistent(s) && sep != []
    ensures Consistent(Pump(s, m, sep, maxSize, held).0)
    decreases |s.blocks|
  {
    if s.blocks != [] {
      var t, data, more := PumpUnfolds(s, m, sep, maxSize, held);
      assert Consistent(t) by {
        var n :| n >= -1 && t == TakeChunk(s, m, n);
        TakeChunkConsistent(s, m, n);
      }
      if more {
        PumpKeepsConsistent(t, m, sep, maxSize, data);
      }
    }
  }

  lemma ApplyKeepsConsistent(s: Stream, m: Marks, op: Op)
    requires Consistent(s)
    ensures Consistent(Apply(s, m, op))
  {
    match op
    case Feed(data) => FeedDataConsistent(s, m, data);
    case Eof => assert Unread(FeedEof(s)) == Unread(s);
    case End => if s.splits.Some? { EndChunkConsistent(s, m); }
    case Read(n) => ReadNowaitConsistent(s, m, Max(n, -1));
    case ReadNow(n) => ReadNowaitConsistent(s, m, Max(n, -1));
    case NextChunk => ReadChunkConsistent(s, m);
    case Until(sep, maxSize, held) => if sep != [] { PumpKeepsConsistent(s, m, sep, maxSize, held); }
    case PushBack(data) => UnreadDataConsistent(s, data);
    case _ =>
  }

  /** Whatever the limit is, in every reachable state the counters add up and no chunk end is behind the cursor. */
  lemma {:induction false} RunKeepsConsistent(s: Stream, m: Marks, ops: seq<Op>)
    requires Consistent(s)
    ensures Consistent(Run(s, m, ops))
    decreases |ops|
  {
    if ops != [] {
      ApplyKeepsConsistent(s, m, ops[0]);
      RunKeepsConsistent(Apply(s, m, ops[0]), m, ops[1..]);
    }
  }

  /** The transport is paused and nothing is left whose reading could resume it. */
  predicate Starved(s: Stream) { s.connected && s.paused && (s.blocks == [] || s.waiting) }

  /** The state a stream with this limit is in after a schedule of calls. */
  function After(limit: int, ops: seq<Op>): Stream { Run(FRESH, MarksOf(limit), ops) }

  /** With a limit below one, a single fed and read byte leaves the transport paused for good. */
  lemma ZeroLimitStarves(limit: int)
    requires limit < 1
    ensures Starved(After(limit, [Feed([0]), Read(-1)]))
  {
    var m := MarksOf(limit);
    var a := FeedData(FRESH, m, [0]);
    assert a.blocks == [[0]];
    FlattenSnoc([], [0 as byte]);
    var b := TakeChunk(a, m, -1);
    assert ReadNowait(a, m, -1).0 == b;
    var ops := [Feed([0]), Read(-1)];
    assert ops[1..] == [Read(-1)] && ops[1..][1..] == [];
    assert Run(FRESH, m, ops) == Run(a, m, [Read(-1)]) == Run(b, m, []);
  }

  /** Back-pressure never deadlocks, under any schedule, exactly for the positive limits. */
  lemma NoDeadlock(limit: int)
    ensures (forall ops :: !Starved(After(limit, ops))) <==> limit >= 1
  {
    if limit >= 1 {
      forall ops
        ensures !Starved(After(limit, ops))
      {
        RunKeepsInv(FRESH, MarksOf(limit), ops);
      }
    } else {
      ZeroLimitStarves(limit);
    }
  }

  /** `unread_data` undoes a read: same unread bytes, same counters. */
  lemma UnreadUndoesRead(s: Stream, m: Marks, n: int)
    requires Consistent(s) && n >= -1
    ensures var (t, data) := ReadNowait(s, m, n);
            var u := UnreadData(t, data);
            Unread(u) == Unread(s) && u.cursor == s.cursor && u.total == s.total
  {
    var (t, data) := ReadNowait(s, m, n);
    ReadNowaitTakesPrefix(s, m, n);
    ReadNowaitCounts(s, m, n);
  }

  lemma {:induction false} ReadNowaitCounts(s: Stream, m: Marks, n: int)
    requires n >= -1
    ensures var (t, data) := ReadNowait(s, m, n);
            t.cursor == s.cursor + |data| && t.total == s.total && t.eof == s.eof &&
            t.broken == s.broken && t.skips == s.skips
    decreases |s.blocks|
  {
    if s.blocks != [] {
      var data, t := ChunkData(s, n), TakeChunk(s, m, n);
      if n == -1 || n - |data| != 0 {
        ReadNowaitCounts(t, m, if n == -1 then -1 else n - |data|);
      }
    }
  }
}
