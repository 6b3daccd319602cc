/** When a body stream pauses its transport, when it resumes it, and when a reader waits and is woken. */
module StreamPressure {
  import opened Common
  import opened Bytes
  import opened StreamSpec
  import opened StreamRuns

  /** The ends of HTTP chunks that may be pending before the transport is paused. */
  function ManyEnds(limit: int): int { Max(3, limit / 4) }

  /** With fewer pending ends than that, reading may resume it. */
  function FewEnds(limit: int): int { Max(2, ManyEnds(limit) / 2) }

  /** What an operation does to a stream with a limit. */
  function Done(s: Stream, limit: int, op: Op): Stream { Apply(s, MarksOf(limit), op) }

  // ----- pausing -----

  /**
   * With any limit: bytes that are fed pause a transport that is there if more than twice the limit
   * is unread then, and otherwise leave it as it was.
   */
  lemma FeedPauses(s: Stream, limit: int, data: bytes)
    requires !s.eof && s.connected && data != []
    ensures var t := Done(s, limit, Feed(data));
            && |Unread(t)| == |Unread(s)| + |data|
            && t.paused == (s.paused || |Unread(s)| + |data| > 2 * limit)
  {
    FlattenSnoc(s.blocks, data);
  }

  /** Without a transport nothing is paused, and behind the end nothing is fed. */
  lemma FeedIgnored(s: Stream, limit: int, data: bytes)
    ensures !s.connected ==> Done(s, limit, Feed(data)).paused == s.paused
    ensures s.eof || data == [] ==> Done(s, limit, Feed(data)) == s
  {
  }

  /** Bytes came since the last chunk end that is pending. */
  predicate NewBytes(s: Stream)
  {
    s.total != if Pending(s) == [] then 0 else Pending(s)[|Pending(s)| - 1]
  }

  /**
   * An HTTP chunk that ends with new bytes in it adds a pending end, and pauses a transport that is
   * there if there are more of them than a quarter of the limit, and than three, then.
   */
  lemma EndPauses(s: Stream, limit: int)
    requires s.connected && s.splits.Some? && NewBytes(s)
    ensures var t := Done(s, limit, End);
            && Pending(t) == Pending(s) + [s.total]
            && t.paused == (s.paused || (|Pending(s)| + 1 > 3 && |Pending(s)| + 1 > limit / 4))
  {
  }

  // ----- resuming -----

  /** Few enough bytes and ends are left for the transport to go on. */
  predicate Relieved(s: Stream, limit: int)
  {
    |Unread(s)| < limit && (s.splits.Some? ==> |Pending(s)| < FewEnds(limit))
  }

  lemma TakeResumes(s: Stream, limit: int, n: int)
    requires s.blocks != [] && n >= -1
    ensures var t := TakeChunk(s, MarksOf(limit), n);
            && t.paused == (s.paused && !(s.connected && Relieved(t, limit)))
            && t.connected == s.connected && t.splits.Some? == s.splits.Some?
  {
  }

  /** Reading on leaves no more bytes and no more ends. */
  lemma {:induction false} ReadLeavesLess(s: Stream, m: Marks, n: int)
    requires n >= -1
    ensures var t := ReadNowait(s, m, n).0;
            |Unread(t)| <= |Unread(s)| && |Pending(t)| <= |Pending(s)|
    ensures ReadNowait(s, m, n).0.splits.Some? == s.splits.Some? && ReadNowait(s, m, n).0.connected == s.connected
    decreases |s.blocks|
  {
    if s.blocks != [] {
      var data, t := ChunkData(s, n), TakeChunk(s, m, n);
      ReadNowaitUnfolds(s, m, n);
      TakeLeavesLess(s, m, n);
      var k := if n == -1 then -1 else n - |data|;
      if k != 0 {
        ReadLeavesLess(t, m, k);
      }
    }
  }

  lemma TakeLeavesLess(s: Stream, m: Marks, n: int)
    requires s.blocks != [] && n >= -1
    ensures var t := TakeChunk(s, m, n);
            && |Unread(t)| <= |Unread(s)| && |Pending(t)| <= |Pending(s)|
            && t.splits.Some? == s.splits.Some? && t.connected == s.connected
  {
    TakeChunkMoves(s, m, n);
    DropBelowIsSuffix(Pending(s), s.cursor + |ChunkData(s, n)|);
  }

  /** A read over any number of blocks resumes the transport exactly if it is relieved in the end. */
  lemma {:induction false} ReadNowaitResumes(s: Stream, limit: int, n: int)
    requires s.blocks != [] && n >= -1
    ensures var t := ReadNowait(s, MarksOf(limit), n).0;
            t.paused == (s.paused && !(s.connected && Relieved(t, limit)))
    decreases |s.blocks|
  {
    var m := MarksOf(limit);
    var data, t := ChunkData(s, n), TakeChunk(s, m, n);
    var k := if n == -1 then -1 else n - |data|;
    ReadNowaitUnfolds(s, m, n);
    TakeResumes(s, limit, n);
    if k != 0 && t.blocks != [] {
      ReadNowaitResumes(t, limit, k);
      ReadLeavesLess(t, m, k);
    }
  }

  /**
   * With any limit: a read that finds bytes resumes a paused transport that is there if and only if
   * it leaves fewer unread bytes than the limit and few chunk ends.
   */
  lemma ReadResumes(s: Stream, limit: int, n: int)
    requires s.blocks != [] && !s.broken && s.connected && n != 0
    ensures var t := Done(s, limit, Read(n)); t.paused == (s.paused && !Relieved(t, limit))
  {
    ReadNowaitResumes(s, limit, Max(n, -1));
    ReadLeavesLess(s, MarksOf(limit), Max(n, -1));
  }

  /** A chunk of bytes up to a pending end. */
  lemma ReadToEndResumes(s: Stream, limit: int, n: nat)
    requires Consistent(s) && s.blocks != [] && s.connected && n > 0
    ensures var t := ReadNowait(s, MarksOf(limit), n).0;
            t.paused == (s.paused && !Relieved(t, limit)) && t.cursor > s.cursor
  {
    assert s.blocks[0] != [];
    ReadNowaitResumes(s, limit, n);
    ReadLeavesLess(s, MarksOf(limit), n);
    ReadNowaitTakesPrefix(s, MarksOf(limit), n);
    ReadNowaitCounts(s, MarksOf(limit), n);
  }

  /** A chunk of bytes that `readchunk` hands out does so too; an end without bytes does not. */
  lemma NextChunkResumes(s: Stream, limit: int)
    requires Consistent(s) && s.blocks != [] && !s.broken && s.connected
    ensures var t := Done(s, limit, NextChunk);
            t.paused == (s.paused && (t.cursor == s.cursor || !Relieved(t, limit)))
  {
    if Pending(s) == [] {
      TakeResumes(s, limit, -1);
      assert s.blocks[0] != [];
    } else {
      var u := s.(splits := Some(Pending(s)[1..]));
      var n := Pending(s)[0] - s.cursor;
      FirstEndTaken(s, u);
      assert Done(s, limit, NextChunk) == if n == 0 then u else ReadNowait(u, MarksOf(limit), n).0;
      if n > 0 {
        ReadToEndResumes(u, limit, n);
      }
    }
  }

  /** The end of the stream resumes the transport. */
  lemma EofResumes(s: Stream, limit: int)
    requires s.connected
    ensures Done(s, limit, Eof).eof && !Done(s, limit, Eof).paused
  {
  }

  // ----- waiting -----

  /** What a reader can wait for. */
  predicate IsNews(s: Stream, op: Op)
  {
    || (op.Feed? && op.data != [] && !s.eof)
    || (op.End? && s.splits.Some? && NewBytes(s))
    || op.Eof? || op.Fault? || op.CancelWait?
  }

  /** A reader that waits is woken by everything new, and by nothing else. */
  lemma NewsWakes(s: Stream, limit: int, op: Op)
    requires Consistent(s) && s.waiting
    ensures Done(s, limit, op).waiting <==> !IsNews(s, op)
  {
    var m := MarksOf(limit);
    match op
    case Read(n) => ReadNowaitKeepsWaiting(s, m, Max(n, -1));
    case NextChunk => ReadChunkKeepsWaiting(s, m);
    case Until(sep, maxSize, held) => if sep != [] { PumpKeepsWaiting(s, m, sep, maxSize, held); }
    case _ =>
  }

  lemma {:induction false} ReadNowaitKeepsWaiting(s: Stream, m: Marks, n: int)
    requires n >= -1
    ensures ReadNowait(s, m, n).0.waiting == s.waiting
    decreases |s.blocks|
  {
    if s.blocks != [] {
      var data, t := ChunkData(s, n), TakeChunk(s, m, n);
      ReadNowaitUnfolds(s, m, n);
      var k := if n == -1 then -1 else n - |data|;
      if k != 0 {
        ReadNowaitKeepsWaiting(t, m, k);
      }
    }
  }

  lemma ReadChunkKeepsWaiting(s: Stream, m: Marks)
    requires Consistent(s) && s.waiting
    ensures ReadChunk(s, m).0.waiting
  {
    if !s.broken && Pending(s) != [] {
      ReadNowaitKeepsWaiting(s.(splits := Some(Pending(s)[1..])), m, Pending(s)[0] - s.cursor);
    }
  }

  lemma {:induction false} PumpKeepsWaiting(s: Stream, m: Marks, sep: bytes, maxSize: int, held: bytes)
    requires sep != []
    ensures Pump(s, m, sep, maxSize, held).0.waiting == s.waiting
    decreases |s.blocks|
  {
    if s.blocks != [] {
      var t, data, more := PumpUnfolds(s, m, sep, maxSize, held);
      assert t.waiting == s.waiting by {
        var n :| n >= -1 && t == TakeChunk(s, m, n);
      }
      if more {
        PumpKeepsWaiting(t, m, sep, maxSize, data);
      }
    }
  }

  /**
   * A read of some bytes raises if the stream is broken, or if it would have to wait for a lost
   * connection or beside another reader. It waits if nothing is there but more may come, and
   * otherwise returns some bytes, unless the end was reached.
   */
  lemma ReadWaits(s: Stream, m: Marks, n: int)
    requires Consistent(s) && n >= -1 && n != 0
    ensures var empty := Unread(s) == [] && !s.eof;
            match ReadStep(s, m, n).1
            case Raised => s.broken || (empty && (!s.connected || s.waiting))
            case MustWait => !s.broken && empty && s.connected && !s.waiting && ReadStep(s, m, n).0.waiting
            case Got(data, _) => !s.broken && !empty && (data == [] ==> s.eof && Unread(s) == [])
  {
    ReadNowaitTakesPrefix(s, m, n);
    if s.blocks != [] {
      assert s.blocks[0] != [];
    }
  }

  /** A read of no bytes returns none at once, and changes nothing. */
  lemma ReadNothing(s: Stream, m: Marks)
    ensures ReadStep(s, m, 0) == (s, if s.broken then Raised else Got([], false))
  {
  }

  /** `readchunk` likewise; it hands out no bytes only at the end of a chunk or of the stream. */
  lemma NextChunkWaits(s: Stream, m: Marks)
    requires Consistent(s)
    ensures var empty := Unread(s) == [] && Pending(s) == [] && !s.eof;
            match ReadChunk(s, m).1
            case Raised => s.broken || (empty && (!s.connected || s.waiting))
            case MustWait => !s.broken && empty && s.connected && !s.waiting && ReadChunk(s, m).0.waiting
            case Got(data, end) =>
              && !s.broken && !empty && (end <==> Pending(s) != [])
              && (data == [] && !end ==> s.eof && Unread(s) == [])
  {
    if s.blocks != [] {
      assert s.blocks[0] != [];
    }
    if !s.broken && Pending(s) != [] {
      FirstEndTaken(s, s.(splits := Some(Pending(s)[1..])));
    }
  }

  /** An exception breaks the stream for good: every read raises. */
  lemma FaultBreaks(s: Stream, limit: int, n: int)
    requires n >= -1
    ensures var t := Done(s, limit, Fault);
            ReadStep(t, MarksOf(limit), n).1 == Raised && ReadChunk(t, MarksOf(limit)).1 == Raised
  {
  }

  /** HTTP chunks are told apart from the first byte on, or not at all. */
  lemma SplittingStartsEarly(s: Stream, limit: int, op: Op)
    requires s.splits.None?
    ensures Done(s, limit, op).splits.Some? <==> op.Begin? && s.total == 0
    ensures EndChunk(s, MarksOf(limit)).None?
  {
    var m := MarksOf(limit);
    match op
    case Read(n) => ReadNowaitKeepsSplitting(s, m, Max(n, -1));
    case ReadNow(n) => ReadNowaitKeepsSplitting(s, m, Max(n, -1));
    case Until(sep, maxSize, held) => if sep != [] { PumpKeepsSplitting(s, m, sep, maxSize, held); }
    case _ =>
  }

  lemma ReadNowaitKeepsSplitting(s: Stream, m: Marks, n: int)
    requires n >= -1
    ensures ReadNowait(s, m, n).0.splits.Some? == s.splits.Some?
  {
    ReadLeavesLess(s, m, n);
  }

  lemma {:induction false} PumpKeepsSplitting(s: Stream, m: Marks, sep: bytes, maxSize: int, held: bytes)
    requires sep != []
    ensures Pump(s, m, sep, maxSize, held).0.splits.Some? == s.splits.Some?
    decreases |s.blocks|
  {
    if s.blocks != [] {
      var t, data, more := PumpUnfolds(s, m, sep, maxSize, held);
      assert t.splits.Some? == s.splits.Some? by {
        var n :| n >= -1 && t == TakeChunk(s, m, n);
      }
      if more {
        PumpKeepsSplitting(t, m, sep, maxSize, data);
      }
    }
  }

  /** Bytes that are pushed back come first again, and what was unread behind them; nobody is paused or woken. */
  lemma PushedBackFirst(s: Stream, limit: int, data: bytes)
    ensures var t := Done(s, limit, PushBack(data));
            && Unread(t) == data + Unread(s) && t.cursor == s.cursor - |data| && t.total == s.total
            && t.paused == s.paused && t.waiting == s.waiting && t.splits == s.splits && t.eof == s.eof
  {
    if data == [] {
      assert [] + Unread(s) == Unread(s);
    } else {
      assert ([data] + s.blocks)[1..] == s.blocks;
    }
  }

  /** Once the connection is lost what is there can still be read, but a reader that finds nothing fails. */
  lemma LostConnection(s: Stream, limit: int, n: int)
    requires !s.broken && (n > 0 || n == -1)
    ensures var t := Done(s, limit, Disconnect);
            && Unread(t) == Unread(s) && t.eof == s.eof
            && (s.blocks == [] && !s.eof ==> ReadStep(t, MarksOf(limit), n) == (t, Raised))
            && (s.blocks != [] || s.eof ==>
                 ReadStep(t, MarksOf(limit), n).1 == Got(Prefix(Unread(s), n), false))
  {
    ReadNowaitTakesPrefix(Done(s, limit, Disconnect), MarksOf(limit), n);
  }
}
