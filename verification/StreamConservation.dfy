/** No byte of a body is lost, doubled or moved, whatever mix of reads takes it out of the stream. */
module StreamConservation {
  import opened Common
  import opened Bytes
  import opened StreamSpec
  import opened StreamRuns

  /** The bytes one pump takes out of the buffer, those it drops when a line is too long included. */
  function PumpTakes(s: Stream, m: Marks, sep: bytes, maxSize: int, held: bytes): bytes
    requires sep != []
    decreases |s.blocks|
  {
    if s.blocks == [] then []
    else
      var i := Find(s.blocks[0], sep, 0);
      var n := if i >= 0 then i + |sep| else -1;
      var chunk, t := ChunkData(s, n), TakeChunk(s, m, n);
      if |held + chunk| > maxSize || i >= 0 then chunk
      else chunk + PumpTakes(t, m, sep, maxSize, held + chunk)
  }

  lemma {:induction false} PumpMoves(s: Stream, m: Marks, sep: bytes, maxSize: int, held: bytes)
    requires sep != []
    ensures PumpTakes(s, m, sep, maxSize, held) + Unread(Pump(s, m, sep, maxSize, held).0) == Unread(s)
    ensures var o := Pump(s, m, sep, maxSize, held).1;
            && (o.Line? ==> o.line == held + PumpTakes(s, m, sep, maxSize, held))
            && (o.Need? ==> o.held == held + PumpTakes(s, m, sep, maxSize, held))
    decreases |s.blocks|
  {
    if s.blocks == [] {
      assert [] + Unread(s) == Unread(s) && held + [] == held;
    } else {
      var i := Find(s.blocks[0], sep, 0);
      var n := if i >= 0 then i + |sep| else -1;
      var chunk, t := ChunkData(s, n), TakeChunk(s, m, n);
      PumpUnfoldsOnce(s, m, sep, maxSize, held, i, n);
      TakeChunkMoves(s, m, n);
      if |held + chunk| <= maxSize && i < 0 {
        PumpMoves(t, m, sep, maxSize, held + chunk);
        var more := PumpTakes(t, m, sep, maxSize, held + chunk);
        Assoc(chunk, more, Unread(Pump(t, m, sep, maxSize, held + chunk).0));
        Assoc(held, chunk, more);
      }
    }
  }

  function Returned(o: ReadOutcome): bytes { if o.Got? then o.data else [] }

  lemma SameBlocks(s: Stream, t: Stream)
    requires t.blocks == s.blocks
    ensures [] + Unread(t) == Unread(s)
  {
  }

  lemma {:induction false} ReadChunkMoves(s: Stream, m: Marks)
    ensures Returned(ReadChunk(s, m).1) + Unread(ReadChunk(s, m).0) == Unread(s)
    decreases |Pending(s)|
  {
    SameBlocks(s, s);
    if s.broken {
    } else if Pending(s) != [] {
      var pos := Pending(s)[0];
      var t := s.(splits := Some(Pending(s)[1..]));
      SameBlocks(s, t);
      if pos > s.cursor {
        ReadNowaitTakesPrefix(t, m, pos - s.cursor);
      } else if pos < s.cursor {
        ReadChunkMoves(t.(skips := t.skips + 1), m);
      }
    } else if s.blocks != [] {
      TakeChunkMoves(s, m, -1);
    } else {
      SameBlocks(s, Wait(s).0);
    }
  }

  /** The bytes an operation takes out of the stream. */
  function Takes(s: Stream, m: Marks, op: Op): bytes
  {
    match op
    case Read(n) => Returned(ReadStep(s, m, Max(n, -1)).1)
    case ReadNow(n) => if s.broken || s.waiting then [] else ReadNowait(s, m, Max(n, -1)).1
    case NextChunk => Returned(ReadChunk(s, m).1)
    case Until(sep, maxSize, held) => if s.broken || sep == [] then [] else PumpTakes(s, m, sep, maxSize, held)
    case _ => []
  }

  /** The bytes an operation puts behind what is in the stream. */
  function Gives(s: Stream, op: Op): bytes
  {
    if op.Feed? && !s.eof then op.data else []
  }

  lemma ReadStepMoves(s: Stream, m: Marks, n: int)
    requires n >= -1
    ensures Returned(ReadStep(s, m, n).1) + Unread(ReadStep(s, m, n).0) == Unread(s)
  {
    SameBlocks(s, s);
    SameBlocks(s, Wait(s).0);
    ReadNowaitTakesPrefix(s, m, n);
  }

  lemma UntilMoves(s: Stream, m: Marks, op: Op)
    requires op.Until?
    ensures Takes(s, m, op) + Unread(Apply(s, m, op)) == Unread(s)
  {
    SameBlocks(s, s);
    if !s.broken && op.sep != [] {
      PumpMoves(s, m, op.sep, op.maxSize, op.held);
      var t := Pump(s, m, op.sep, op.maxSize, op.held).0;
      SameBlocks(t, Wait(t).0);
      assert Unread(Apply(s, m, op)) == Unread(t);
    }
  }

  lemma FeedMoves(s: Stream, m: Marks, data: bytes)
    ensures Unread(FeedData(s, m, data)) == Unread(s) + if s.eof then [] else data
  {
    FlattenSnoc(s.blocks, data);
    assert Unread(s) + [] == Unread(s);
  }

  lemma QuietMoves(s: Stream, m: Marks, op: Op)
    requires op.Begin? || op.End? || op.Eof? || op.Fault? || op.CancelWait? || op.Disconnect?
    ensures Unread(Apply(s, m, op)) == Unread(s)
  {
    assert Apply(s, m, op).blocks == s.blocks;
  }

  /** One operation: what it takes, then what is left, is what was there, then what it gives. */
  lemma ApplyMoves(s: Stream, m: Marks, op: Op)
    requires !op.PushBack?
    ensures Takes(s, m, op) + Unread(Apply(s, m, op)) == Unread(s) + Gives(s, op)
  {
    assert Unread(s) + [] == Unread(s);
    SameBlocks(s, s);
    SameBlocks(Apply(s, m, op), Apply(s, m, op));
    if op.Read? {
      ReadStepMoves(s, m, Max(op.n, -1));
    } else if op.ReadNow? {
      ReadNowaitTakesPrefix(s, m, Max(op.n, -1));
    } else if op.NextChunk? {
      ReadChunkMoves(s, m);
    } else if op.Until? {
      UntilMoves(s, m, op);
    } else if op.Feed? {
      FeedMoves(s, m, op.data);
    } else {
      QuietMoves(s, m, op);
    }
  }

  function AllTaken(s: Stream, m: Marks, ops: seq<Op>): bytes
    decreases |ops|
  {
    if ops == [] then [] else Takes(s, m, ops[0]) + AllTaken(Apply(s, m, ops[0]), m, ops[1..])
  }

  function AllGiven(s: Stream, m: Marks, ops: seq<Op>): bytes
    decreases |ops|
  {
    if ops == [] then [] else Gives(s, ops[0]) + AllGiven(Apply(s, m, ops[0]), m, ops[1..])
  }

  predicate NothingPushedBack(ops: seq<Op>)
  {
    forall i :: 0 <= i < |ops| ==> !ops[i].PushBack?
  }

  lemma FourWays(a: bytes, b: bytes, c: bytes, u: bytes, v: bytes, w: bytes, x: bytes)
    requires a + v == u + b && c + w == v + x
    ensures (a + c) + w == u + (b + x)
  {
    Assoc(a, c, w);
    Assoc(a, v, x);
    Assoc(u, b, x);
  }

  /**
   * Conservation: for every schedule of feeding and of reads of any kind, the bytes taken out, in
   * order, followed by the bytes still unread are the bytes that were there followed by the bytes fed.
   */
  lemma {:induction false} BytesAreConserved(s: Stream, m: Marks, ops: seq<Op>)
    requires NothingPushedBack(ops)
    ensures AllTaken(s, m, ops) + Unread(Run(s, m, ops)) == Unread(s) + AllGiven(s, m, ops)
    decreases |ops|
  {
    if ops == [] {
      assert [] + Unread(s) == Unread(s) + [];
    } else {
      assert !ops[0].PushBack? && NothingPushedBack(ops[1..]);
      var t := Apply(s, m, ops[0]);
      ApplyMoves(s, m, ops[0]);
      BytesAreConserved(t, m, ops[1..]);
      FourWays(Takes(s, m, ops[0]), Gives(s, ops[0]), AllTaken(t, m, ops[1..]), Unread(s), Unread(t),
               Unread(Run(t, m, ops[1..])), AllGiven(t, m, ops[1..]));
    }
  }
}
