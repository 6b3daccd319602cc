/** HTTP chunk boundaries survive buffering: the producer's chunks are what `readchunk` cuts out. */
module StreamChunks {
  import opened Common
  import opened Bytes
  import opened StreamSpec
  import opened StreamRuns

  datatype Event =
    | OpenChunk
    | Put(data: bytes)
    | CloseChunk
    | Finish
    | TakeNext      // a call of readchunk

  /**
   * A stream with the chunks its producer completed, the chunk it is in, the chunks its reader
   * put together by cutting at the True flags, and what the reader got since the last flag.
   */
  datatype Journal = Journal(s: Stream, done: seq<bytes>, open: bool, cur: bytes, got: seq<bytes>, part: bytes)

  /** A journal of a stream into which nothing was put yet. */
  predicate Blank(j: Journal)
  {
    && j.s.blocks == [] && j.s.cursor == j.s.total == 0 && Pending(j.s) == [] && j.s.skips == 0
    && !j.s.paused && !j.s.waiting && !j.s.broken
    && j.done == [] && !j.open && j.cur == [] && j.got == [] && j.part == []
  }

  /** What a producer made: the chunks that are done, the one it is in, and whether it said that all is done. */
  datatype Made = Made(done: seq<bytes>, open: bool, cur: bytes, eof: bool)

  /** The producer sends non-empty pieces inside non-empty chunks, and nothing after the end. */
  predicate Allowed(p: Made, e: Event)
  {
    match e
    case OpenChunk => !p.open && !p.eof
    case Put(data) => p.open && data != []
    case CloseChunk => p.open && p.cur != []
    case Finish => !p.open
    case TakeNext => true
  }

  function Makes(p: Made, e: Event): Made
  {
    match e
    case OpenChunk => p.(open := true)
    case Put(data) => p.(cur := p.cur + data)
    case CloseChunk => Made(p.done + [p.cur], false, [], p.eof)
    case Finish => p.(eof := true)
    case TakeNext => p
  }

  function MadeIn(j: Journal): Made { Made(j.done, j.open, j.cur, j.s.eof) }

  predicate Legal(j: Journal, e: Event) { Allowed(MadeIn(j), e) }

  function Enter(j: Journal, m: Marks, e: Event): Journal
  {
    match e
    case OpenChunk =>
      var r := BeginChunk(j.s);
      if r.None? then j else j.(s := r.value, open := true)
    case Put(data) => j.(s := FeedData(j.s, m, data), cur := j.cur + data)
    case CloseChunk =>
      var r := EndChunk(j.s, m);
      if r.None? then j else j.(s := r.value, open := false, done := j.done + [j.cur], cur := [])
    case Finish => j.(s := FeedEof(j.s))
    case TakeNext =>
      var (t, o) := ReadChunk(j.s, m);
      match o
      case Got(data, true) => j.(s := t, got := j.got + [j.part + data], part := [])
      case Got(data, false) => j.(s := t, part := j.part + data)
      case _ => j.(s := t)
  }

  function Replay(j: Journal, m: Marks, events: seq<Event>): Journal
    decreases |events|
  {
    if events == [] then j else Replay(Enter(j, m, events[0]), m, events[1..])
  }

  predicate LegalRun(j: Journal, m: Marks, events: seq<Event>)
    decreases |events|
  {
    events == [] || (Legal(j, events[0]) && LegalRun(Enter(j, m, events[0]), m, events[1..]))
  }

  /** Where the k-th chunk ends in the body. */
  function EndOf(done: seq<bytes>, k: nat): nat
    requires k <= |done|
  {
    |Flatten(done[..k])|
  }

  /** The reader's chunks are the producer's first ones, and no byte was lost or moved. */
  predicate Agree(j: Journal)
  {
    && |j.got| <= |j.done| && j.got == j.done[..|j.got|]
    && Flatten(j.got) + j.part + Unread(j.s) == Flatten(j.done) + j.cur
  }

  /** The pending chunk ends are those of the chunks not yet cut out. */
  predicate EndsPending(j: Journal)
  {
    && |j.got| + |Pending(j.s)| == |j.done|
    && (forall i :: 0 <= i < |Pending(j.s)| ==> Pending(j.s)[i] == EndOf(j.done, |j.got| + i + 1))
    && j.s.cursor == |Flatten(j.got)| + |j.part|
    && (j.open || j.done != [] ==> j.s.splits.Some?)
    && (j.cur != [] ==> j.open)
    && (j.open ==> !j.s.eof)
    && !j.s.broken
  }

  predicate Sound(j: Journal) { Consistent(j.s) && Agree(j) && EndsPending(j) }

  /** What is read up to the end of a chunk completes exactly that chunk. */
  lemma CutOut(front: bytes, part: bytes, unread: bytes, chunk: bytes, rest: bytes, n: nat)
    requires front + part + unread == front + chunk + rest
    requires |part| + n == |chunk| && n <= |unread|
    ensures part + unread[..n] == chunk && unread[n..] == rest
  {
    var head, tail := unread[..n], unread[n..];
    assert unread == head + tail;
    assert (front + (part + head)) + tail == front + part + (head + tail);
    EqualHeads(front + (part + head), tail, front + chunk, rest);
    EqualHeads(front, part + head, front, chunk);
  }

  /** Reading up to the end of the chunk after the last one cut out completes exactly that chunk. */
  lemma CutIsChunk(j: Journal, n: nat)
    requires Sound(j) && Pending(j.s) != [] && n == Pending(j.s)[0] - j.s.cursor
    ensures n <= Size(j.s) && j.part + Unread(j.s)[..n] == j.done[|j.got|]
    ensures |j.got| < |j.done| && |Flatten(j.got)| + |j.done[|j.got|]| == Pending(j.s)[0]
  {
    var g := |j.got|;
    assert EndOf(j.done, g + 1) == |Flatten(j.got)| + |j.done[g]| by { FlattenUpTo(j.done, g); }
    var back := Flatten(j.done[g + 1..]);
    assert Flatten(j.done) == Flatten(j.got) + j.done[g] + back by { FlattenSplit(j.done, g); }
    var front, chunk := Flatten(j.got), j.done[g];
    assert front + chunk + back + j.cur == front + chunk + (back + j.cur);
    CutOut(front, j.part, Unread(j.s), chunk, back + j.cur, n);
  }

  lemma {:induction false} DropBelowKeeps(ends: seq<int>, cursor: int)
    requires ends != [] ==> ends[0] >= cursor
    ensures DropBelow(ends, cursor) == ends
  {
  }

  /** A read that stays before every pending chunk end drops none of them. */
  lemma {:induction false} ReadNowaitKeepsEnds(s: Stream, m: Marks, n: nat)
    requires Pending(s) != [] ==> Pending(s)[0] >= s.cursor + n
    ensures Pending(ReadNowait(s, m, n).0) == Pending(s)
    ensures ReadNowait(s, m, n).0.splits.Some? == s.splits.Some?
    decreases |s.blocks|
  {
    if s.blocks != [] {
      var data, t := ChunkData(s, n), TakeChunk(s, m, n);
      TakeKeepsEnds(s, m, n);
      if n - |data| != 0 {
        ReadNowaitKeepsEnds(t, m, n - |data|);
        assert ReadNowait(s, m, n).0 == ReadNowait(t, m, n - |data|).0;
      }
    }
  }

  lemma TakeKeepsEnds(s: Stream, m: Marks, n: nat)
    requires s.blocks != []
    requires Pending(s) != [] ==> Pending(s)[0] >= s.cursor + n
    ensures Pending(TakeChunk(s, m, n)) == Pending(s)
    ensures TakeChunk(s, m, n).splits.Some? == s.splits.Some?
    ensures TakeChunk(s, m, n).cursor == s.cursor + |ChunkData(s, n)| && |ChunkData(s, n)| <= n
  {
    DropBelowKeeps(Pending(s), s.cursor + |ChunkData(s, n)|);
  }

  /** What readchunk does when a chunk end is pending. */
  lemma ReadChunkAtEnd(s: Stream, m: Marks) returns (u: Stream, data: bytes)
    requires Consistent(s) && !s.broken && Pending(s) != []
    ensures ReadChunk(s, m) == (u, Got(data, true))
    ensures data == Prefix(Unread(s), Pending(s)[0] - s.cursor) && data + Unread(u) == Unread(s)
    ensures u.splits.Some? && Pending(u) == Pending(s)[1..]
    ensures u.cursor == s.cursor + |data| && u.eof == s.eof && u.broken == s.broken
  {
    var pos := Pending(s)[0];
    var t := s.(splits := Some(Pending(s)[1..]));
    if pos == s.cursor {
      u, data := t, [];
      assert [] + Unread(u) == Unread(s);
    } else {
      var n := pos - s.cursor;
      var r := ReadNowait(t, m, n);
      u, data := r.0, r.1;
      ReadNowaitTakesPrefix(t, m, n);
      ReadNowaitCounts(t, m, n);
      ReadNowaitKeepsEnds(t, m, n);
    }
  }

  lemma TakeEndEnters(j: Journal, m: Marks) returns (u: Stream, data: bytes)
    requires Sound(j) && Pending(j.s) != []
    ensures Enter(j, m, TakeNext) == j.(s := u, got := j.got + [j.part + data], part := [])
    ensures data == Prefix(Unread(j.s), Pending(j.s)[0] - j.s.cursor) && data + Unread(u) == Unread(j.s)
    ensures u.splits.Some? && Pending(u) == Pending(j.s)[1..]
    ensures u.cursor == j.s.cursor + |data| && u.eof == j.s.eof && !u.broken
    ensures Consistent(u)
  {
    ReadChunkConsistent(j.s, m);
    u, data := ReadChunkAtEnd(j.s, m);
  }

  /** A pending chunk end: readchunk completes the next chunk. */
  lemma TakeEnd(j: Journal, k: Journal, data: bytes)
    requires Agree(j) && EndsPending(j) && Pending(j.s) != [] && |j.got| < |j.done|
    requires j.part + data == j.done[|j.got|]
    requires k == j.(s := k.s, got := j.got + [j.part + data], part := [])
    requires data + Unread(k.s) == Unread(j.s) && !k.s.broken
    requires k.s.splits.Some? && Pending(k.s) == Pending(j.s)[1..]
    requires k.s.cursor == j.s.cursor + |data| && k.s.eof == j.s.eof
    ensures Agree(k) && EndsPending(k)
  {
    assert k.got == j.done[..|j.got| + 1];
    TakeEndAgrees(j, k.s, data);
    TakeEndPending(j, k, data);
  }

  lemma TakeNextAtEnd(j: Journal, m: Marks)
    requires Sound(j) && Pending(j.s) != []
    ensures Sound(Enter(j, m, TakeNext))
  {
    CutIsChunk(j, Pending(j.s)[0] - j.s.cursor);
    var u, data := TakeEndEnters(j, m);
    TakeEnd(j, Enter(j, m, TakeNext), data);
  }

  lemma TakeEndPending(j: Journal, k: Journal, data: bytes)
    requires EndsPending(j) && Pending(j.s) != [] && !k.s.broken
    requires k == j.(s := k.s, got := j.got + [j.part + data], part := [])
    requires k.s.splits.Some? && Pending(k.s) == Pending(j.s)[1..]
    requires k.s.cursor == |Flatten(k.got)| && k.s.eof == j.s.eof
    ensures EndsPending(k)
  {
    assert |k.got| == |j.got| + 1;
    forall i | 0 <= i < |Pending(k.s)|
      ensures Pending(k.s)[i] == EndOf(k.done, |k.got| + i + 1)
    {
      assert Pending(k.s)[i] == Pending(j.s)[i + 1];
    }
  }

  lemma TakeEndAgrees(j: Journal, u: Stream, data: bytes)
    requires Agree(j) && data + Unread(u) == Unread(j.s)
    ensures Flatten(j.got + [j.part + data]) + [] + Unread(u) == Flatten(j.done) + j.cur
    ensures |Flatten(j.got + [j.part + data])| == |Flatten(j.got)| + |j.part| + |data|
  {
    FlattenSnoc(j.got, j.part + data);
    assert Flatten(j.got) + (j.part + data) + [] + Unread(u) == Flatten(j.got) + j.part + (data + Unread(u));
  }

  lemma PutSound(j: Journal, m: Marks, data: bytes)
    requires Sound(j) && Legal(j, Put(data))
    ensures Sound(Enter(j, m, Put(data)))
  {
    FeedDataConsistent(j.s, m, data);
    var k := Enter(j, m, Put(data));
    Assoc(Flatten(j.got) + j.part, Unread(j.s), data);
    Assoc(Flatten(j.done), j.cur, data);
    assert Agree(k);
    assert Pending(k.s) == Pending(j.s);
  }

  /** No chunk end pending: readchunk hands out one block, and it lies in the current chunk. */
  lemma TakeBlock(j: Journal, m: Marks)
    requires Sound(j) && Pending(j.s) == [] && j.s.blocks != []
    ensures Sound(Enter(j, m, TakeNext))
  {
    var data, t := ChunkData(j.s, -1), TakeChunk(j.s, m, -1);
    TakeChunkConsistent(j.s, m, -1);
    TakeChunkMoves(j.s, m, -1);
    var k := Enter(j, m, TakeNext);
    assert k == j.(s := t, part := j.part + data);
    assert Flatten(j.got) + (j.part + data) + Unread(t) == Flatten(j.got) + j.part + (data + Unread(t));
  }

  /** Without splitting nothing came yet. */
  lemma NothingCame(j: Journal)
    requires Sound(j) && j.s.splits.None?
    ensures j.s.total == 0
  {
    assert j.done == [] && j.cur == [] && j.got == [];
    assert |Flatten(j.got)| + |j.part| + |Unread(j.s)| == |Flatten(j.got) + j.part + Unread(j.s)|;
  }

  lemma OpenSound(j: Journal, m: Marks)
    requires Sound(j) && Legal(j, OpenChunk)
    ensures Sound(Enter(j, m, OpenChunk))
  {
    if j.s.splits.None? {
      NothingCame(j);
      BeginSound(j, Enter(j, m, OpenChunk));
    }
  }

  /** Splitting begins with no ends pending, as before. */
  lemma BeginSound(j: Journal, k: Journal)
    requires Sound(j) && j.s.splits.None? && !j.s.eof && k == j.(s := j.s.(splits := Some([])), open := true)
    ensures Sound(k)
  {
    assert Unread(k.s) == Unread(j.s) && Pending(k.s) == Pending(j.s) == [];
  }

  lemma EnterSound(j: Journal, m: Marks, e: Event)
    requires Sound(j) && Legal(j, e)
    ensures Sound(Enter(j, m, e))
  {
    match e
    case OpenChunk => OpenSound(j, m);
    case Put(data) => PutSound(j, m, data);
    case CloseChunk => CloseSound(j, m);
    case Finish => FinishSound(j, m);
    case TakeNext => TakeNextSound(j, m);
  }

  lemma FinishSound(j: Journal, m: Marks)
    requires Sound(j) && Legal(j, Finish)
    ensures Sound(Enter(j, m, Finish))
  {
    var t := FeedEof(j.s);
    assert Unread(t) == Unread(j.s) && Pending(t) == Pending(j.s);
    assert Enter(j, m, Finish) == j.(s := t);
  }

  lemma TakeNextSound(j: Journal, m: Marks)
    requires Sound(j)
    ensures Sound(Enter(j, m, TakeNext))
  {
    if Pending(j.s) != [] {
      TakeNextAtEnd(j, m);
    } else if j.s.blocks != [] {
      TakeBlock(j, m);
    } else if j.s.eof {
      assert j.part + [] == j.part;
      assert Enter(j, m, TakeNext) == j;
    } else {
      assert Enter(j, m, TakeNext) == j.(s := Wait(j.s).0);
      assert Unread(Wait(j.s).0) == Unread(j.s);
    }
  }

  /** The bytes fed are the bytes of all chunks so far. */
  lemma TotalIsAll(j: Journal)
    requires Sound(j)
    ensures j.s.total == |Flatten(j.done)| + |j.cur|
  {
    assert |Flatten(j.got) + j.part + Unread(j.s)| == |Flatten(j.done) + j.cur|;
  }

  /** The last pending end is where the chunks that are done end. */
  lemma LastPending(j: Journal)
    requires Sound(j) && Pending(j.s) != []
    ensures Pending(j.s)[|Pending(j.s)| - 1] == |Flatten(j.done)|
  {
    assert j.done[..|j.done|] == j.done;
  }

  lemma CloseEnters(j: Journal, m: Marks) returns (t: Stream)
    requires Sound(j) && Legal(j, CloseChunk)
    ensures Enter(j, m, CloseChunk) == j.(s := t, open := false, done := j.done + [j.cur], cur := [])
    ensures Pending(t) == Pending(j.s) + [j.s.total] && Unread(t) == Unread(j.s)
    ensures t.cursor == j.s.cursor && t.splits.Some? && !t.broken
  {
    TotalIsAll(j);
    if Pending(j.s) != [] {
      LastPending(j);
    }
    t := EndChunk(j.s, m).value;
  }

  lemma CloseSound(j: Journal, m: Marks)
    requires Sound(j) && Legal(j, CloseChunk)
    ensures Sound(Enter(j, m, CloseChunk))
  {
    var t := CloseEnters(j, m);
    TotalIsAll(j);
    EndChunkConsistent(j.s, m);
    CloseAgrees(j, Enter(j, m, CloseChunk));
    ClosePending(j, Enter(j, m, CloseChunk));
  }

  lemma CloseAgrees(j: Journal, k: Journal)
    requires Agree(j) && Unread(k.s) == Unread(j.s)
    requires k == j.(s := k.s, open := false, done := j.done + [j.cur], cur := [])
    ensures Agree(k)
  {
    FlattenSnoc(j.done, j.cur);
    assert k.done[..|j.got|] == j.done[..|j.got|];
    assert Flatten(k.done) + [] == Flatten(k.done);
  }

  lemma ClosePending(j: Journal, k: Journal)
    requires EndsPending(j) && j.s.total == |Flatten(j.done)| + |j.cur|
    requires k == j.(s := k.s, open := false, done := j.done + [j.cur], cur := [])
    requires Pending(k.s) == Pending(j.s) + [j.s.total] && k.s.cursor == j.s.cursor && k.s.splits.Some? && !k.s.broken
    ensures EndsPending(k)
  {
    OneMoreEnd(j.done, j.cur);
    var n := |Pending(j.s)|;
    forall i | 0 <= i < n + 1
      ensures Pending(k.s)[i] == EndOf(k.done, |k.got| + i + 1)
    {
      assert i < n ==> Pending(k.s)[i] == Pending(j.s)[i];
    }
  }

  /** The ends of the chunks so far stay, and the new one ends behind everything. */
  lemma OneMoreEnd(done: seq<bytes>, cur: bytes)
    ensures forall i :: 0 <= i <= |done| ==> EndOf(done + [cur], i) == EndOf(done, i)
    ensures EndOf(done + [cur], |done| + 1) == |Flatten(done)| + |cur|
  {
    FlattenSnoc(done, cur);
    var all := done + [cur];
    forall i | 0 <= i <= |done|
      ensures EndOf(all, i) == EndOf(done, i)
    {
      assert all[..i] == done[..i];
    }
    assert all[..|all|] == all;
  }

  lemma {:induction false} ReplaySound(j: Journal, m: Marks, events: seq<Event>)
    requires Sound(j) && LegalRun(j, m, events)
    ensures Sound(Replay(j, m, events))
    decreases |events|
  {
    if events != [] {
      EnterSound(j, m, events[0]);
      ReplaySound(Enter(j, m, events[0]), m, events[1..]);
    }
  }

  lemma BlankSound(j: Journal)
    requires Blank(j)
    ensures Sound(j)
  {
    assert Unread(j.s) == [];
  }

  /**
   * For every limit and every interleaving of a producer with calls of readchunk,
   * cutting what readchunk returned at the True flags gives the producer's chunks, in order; what
   * came since the last flag belongs to the next chunk alone; no byte is lost; and once nothing
   * is pending or buffered every completed chunk was cut out.
   */
  lemma ChunkBoundariesSurvive(limit: int, start: Journal, events: seq<Event>)
    requires Blank(start) && LegalRun(start, MarksOf(limit), events)
    ensures var j := Replay(start, MarksOf(limit), events);
            && j.s.skips == 0
            && j.got <= j.done
            && j.part <= (if |j.got| < |j.done| then j.done[|j.got|] else j.cur)
            && Flatten(j.got) + j.part + Unread(j.s) == Flatten(j.done) + j.cur
            && (Pending(j.s) == [] && j.s.blocks == [] ==> j.got == j.done && j.part == j.cur)
  {
    BlankSound(start);
    ReplaySound(start, MarksOf(limit), events);
    SoundMeans(Replay(start, MarksOf(limit), events));
  }

  lemma SoundMeans(j: Journal)
    requires Sound(j)
    ensures j.got <= j.done
    ensures j.part <= (if |j.got| < |j.done| then j.done[|j.got|] else j.cur)
    ensures Pending(j.s) == [] && j.s.blocks == [] ==> j.got == j.done && j.part == j.cur
  {
    if |j.got| < |j.done| {
      CutIsChunk(j, Pending(j.s)[0] - j.s.cursor);
    } else {
      CaughtUp(j);
    }
  }

  lemma CaughtUp(j: Journal)
    requires Agree(j) && |j.got| == |j.done|
    ensures j.got == j.done && j.part <= j.cur
    ensures j.s.blocks == [] ==> j.part == j.cur
  {
    assert j.done[..|j.done|] == j.done;
    assert Flatten(j.got) + (j.part + Unread(j.s)) == Flatten(j.done) + j.cur;
    EqualHeads(Flatten(j.got), j.part + Unread(j.s), Flatten(j.done), j.cur);
  }
}
