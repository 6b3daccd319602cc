/** The chunked body from the writer through the parser and the stream to the reader of its chunks. */
module ChunkPipeline {
  import opened Common
  import opened Bytes
  import opened PayloadSpec
  import opened Fragmentation
  import opened WriterSpec
  import opened BodyRoundTrip
  import opened StreamSpec
  import StreamRuns
  import opened StreamChunks

  // ----- what the parser calls -----

  /** The calls a scan makes on the stream of the body. */
  function Calls(lim: Limits, st: Parser, sink: Sink, x: bytes): seq<Event>
    requires Ok(st) && st.tail == []
    decreases |x|
  {
    if x == [] then []
    else
      var turn := TurnOf(lim, st, sink, x);
      match turn
      case GoesOn(t, k, rest) => TurnCalls(st, t, x) + Calls(lim, t, k, rest)
      case Stops =>
        if st.phase == ChunkBody then [Put(x)]
        else if Scan(lim, st, sink, x).Done? then [Finish]
        else []
  }

  /** The calls of one turn. */
  function TurnCalls(st: Parser, t: Parser, x: bytes): seq<Event>
  {
    if st.phase == SizeLine && t.phase == ChunkBody then [OpenChunk]
    else if st.phase == ChunkBody && st.left <= |x| then [Put(x[..st.left]), CloseChunk]
    else []
  }

  function FeedCalls(lim: Limits, st: Parser, sink: Sink, chunk: bytes): seq<Event>
    requires Ok(st)
  {
    if st.tail == [] then Calls(lim, st, sink, chunk)
    else if TailTooLong(lim, st) then []
    else Calls(lim, st.(tail := []), sink, st.tail + chunk)
  }

  /** The calls for one fragment after the other. */
  function AllCalls(lim: Limits, st: Parser, sink: Sink, frags: seq<bytes>): seq<Event>
    requires Ok(st)
    decreases |frags|
  {
    if frags == [] then []
    else
      FeedKeepsOk(lim, st, sink, frags[0]);
      var o := Feed(lim, st, sink, frags[0]);
      FeedCalls(lim, st, sink, frags[0]) + if o.More? then AllCalls(lim, o.st, o.sink, frags[1..]) else []
  }

  // ----- what the calls make -----

  function MakesAll(p: Made, events: seq<Event>): Made
    decreases |events|
  {
    if events == [] then p else MakesAll(Makes(p, events[0]), events[1..])
  }

  predicate AllAllowed(p: Made, events: seq<Event>)
    decreases |events|
  {
    events == [] || (Allowed(p, events[0]) && AllAllowed(Makes(p, events[0]), events[1..]))
  }

  lemma {:induction false} MakesMore(p: Made, a: seq<Event>, b: seq<Event>)
    ensures MakesAll(p, a + b) == MakesAll(MakesAll(p, a), b)
    ensures AllAllowed(p, a + b) <==> AllAllowed(p, a) && AllAllowed(MakesAll(p, a), b)
    decreases |a|
  {
    if a == [] {
      assert a + b == b;
    } else {
      assert (a + b)[0] == a[0] && (a + b)[1..] == a[1..] + b;
      MakesMore(Makes(p, a[0]), a[1..], b);
    }
  }

  // ----- the parser makes the chunks it delivers -----

  /** What was made is what was delivered. */
  ghost predicate Mirrors(p: Made, sink: Sink)
  {
    && sink.data == Flatten(p.done) + p.cur && sink.eof == p.eof
    && |sink.ends| == |p.done| && forall k :: 0 <= k < |p.done| ==> sink.ends[k] == EndOf(p.done, k + 1)
  }

  /** The producer is in a chunk exactly while the parser is. */
  predicate InStep(p: Made, st: Parser)
  {
    p.open == (st.phase == ChunkBody) && !p.eof && (!p.open ==> p.cur == [])
  }

  lemma PutMirrors(p: Made, sink: Sink, data: bytes)
    requires Mirrors(p, sink)
    ensures Mirrors(Makes(p, Put(data)), sink.Feed(data))
  {
    Assoc(Flatten(p.done), p.cur, data);
  }

  lemma CloseMirrors(p: Made, sink: Sink)
    requires Mirrors(p, sink)
    ensures Mirrors(Makes(p, CloseChunk), sink.End())
  {
    FlattenSnoc(p.done, p.cur);
    OneMoreEnd(p.done, p.cur);
    assert Flatten(p.done + [p.cur]) + [] == Flatten(p.done + [p.cur]);
  }

  /** The bytes of a chunk up to its end. */
  lemma LastPieceMirrors(p: Made, sink: Sink, data: bytes)
    requires Mirrors(p, sink) && p.open && data != []
    ensures var events := [Put(data), CloseChunk];
            && AllAllowed(p, events)
            && MakesAll(p, events) == Makes(Makes(p, Put(data)), CloseChunk)
            && Mirrors(MakesAll(p, events), sink.Feed(data).End())
  {
    PutMirrors(p, sink, data);
    CloseMirrors(Makes(p, Put(data)), sink.Feed(data));
    assert [Put(data), CloseChunk][1..] == [CloseChunk] && [CloseChunk][1..] == [];
  }

  lemma OneEvent(p: Made, e: Event)
    ensures MakesAll(p, [e]) == Makes(p, e) && (AllAllowed(p, [e]) <==> Allowed(p, e))
  {
    assert [e][1..] == [];
  }

  lemma TurnMirrors(lim: Limits, st: Parser, sink: Sink, x: bytes, p: Made)
    requires Ok(st) && st.tail == [] && x != [] && TurnOf(lim, st, sink, x).GoesOn?
    requires Mirrors(p, sink) && InStep(p, st)
    ensures var t := TurnOf(lim, st, sink, x);
            var events := TurnCalls(st, t.st, x);
            AllAllowed(p, events) && Mirrors(MakesAll(p, events), t.sink) && InStep(MakesAll(p, events), t.st)
  {
    match st.phase
    case SizeLine => OneEvent(p, OpenChunk);
    case ChunkBody => LastPieceMirrors(p, sink, x[..st.left]);
    case ChunkEnd =>
    case Trailers =>
  }

  /** The outcome of a scan and what its calls made agree. */
  ghost predicate Agreed(o: Outcome, p: Made)
  {
    Mirrors(p, o.sink) && (o.More? ==> InStep(p, o.st)) && (o.Done? ==> !p.open && p.cur == [] && p.eof)
  }

  lemma StopMirrors(lim: Limits, st: Parser, sink: Sink, x: bytes, p: Made)
    requires Ok(st) && st.tail == [] && x != [] && TurnOf(lim, st, sink, x).Stops?
    requires Mirrors(p, sink) && InStep(p, st)
    ensures AllAllowed(p, Calls(lim, st, sink, x))
    ensures Agreed(Scan(lim, st, sink, x), MakesAll(p, Calls(lim, st, sink, x)))
  {
    if st.phase == ChunkBody {
      OneEvent(p, Put(x));
      PutMirrors(p, sink, x);
    } else if Scan(lim, st, sink, x).Done? {
      OneEvent(p, Finish);
    }
  }

  lemma {:induction false} ScanMirrors(lim: Limits, st: Parser, sink: Sink, x: bytes, p: Made)
    requires Ok(st) && st.tail == [] && Mirrors(p, sink) && InStep(p, st)
    ensures AllAllowed(p, Calls(lim, st, sink, x))
    ensures Agreed(Scan(lim, st, sink, x), MakesAll(p, Calls(lim, st, sink, x)))
    decreases |x|
  {
    if x != [] {
      var t := TurnOf(lim, st, sink, x);
      if t.GoesOn? {
        var events := TurnCalls(st, t.st, x);
        ScanTurns(lim, st, sink, x);
        TurnMirrors(lim, st, sink, x, p);
        ScanMirrors(lim, t.st, t.sink, t.rest, MakesAll(p, events));
        MakesMore(p, events, Calls(lim, t.st, t.sink, t.rest));
      } else {
        StopMirrors(lim, st, sink, x, p);
      }
    }
  }

  lemma FeedMirrors(lim: Limits, st: Parser, sink: Sink, x: bytes, p: Made)
    requires Ok(st) && Mirrors(p, sink) && InStep(p, st)
    ensures AllAllowed(p, FeedCalls(lim, st, sink, x))
    ensures Agreed(Feed(lim, st, sink, x), MakesAll(p, FeedCalls(lim, st, sink, x)))
  {
    if st.tail == [] {
      ScanMirrors(lim, st, sink, x, p);
    } else if !TailTooLong(lim, st) {
      ScanMirrors(lim, st.(tail := []), sink, st.tail + x, p);
    }
  }

  /** Over any fragments the calls make what the parser delivers. */
  lemma {:induction false} AllMirror(lim: Limits, st: Parser, sink: Sink, frags: seq<bytes>, p: Made)
    requires Ok(st) && Mirrors(p, sink) && InStep(p, st)
    ensures AllAllowed(p, AllCalls(lim, st, sink, frags))
    ensures Agreed(FeedAll(lim, st, sink, frags), MakesAll(p, AllCalls(lim, st, sink, frags)))
    decreases |frags|
  {
    if frags != [] {
      FeedKeepsOk(lim, st, sink, frags[0]);
      FeedMirrors(lim, st, sink, frags[0], p);
      var o, events := Feed(lim, st, sink, frags[0]), FeedCalls(lim, st, sink, frags[0]);
      if o.More? {
        AllMirror(lim, o.st, o.sink, frags[1..], MakesAll(p, events));
        MakesMore(p, events, AllCalls(lim, o.st, o.sink, frags[1..]));
      } else {
        assert events + [] == events;
      }
    }
  }

  // ----- which chunks these are -----

  function NonEmptyOf(payloads: seq<bytes>): seq<bytes>
  {
    if payloads == [] then []
    else (if payloads[0] == [] then [] else [payloads[0]]) + NonEmptyOf(payloads[1..])
  }

  lemma {:induction false} TakeAllMirrors(sink: Sink, payloads: seq<bytes>, done: seq<bytes>)
    requires Mirrors(Made(done, false, [], sink.eof), sink)
    ensures Mirrors(Made(done + NonEmptyOf(payloads), false, [], sink.eof), TakeAll(sink, payloads))
    decreases |payloads|
  {
    if payloads == [] {
      assert done + [] == done;
    } else {
      var c := payloads[0];
      if c != [] {
        var p := Made(done, true, [], sink.eof);
        LastPieceMirrors(p, sink.Begin(), c);
        assert [] + c == c;
        TakeAllMirrors(Take(sink, c), payloads[1..], done + [c]);
        Assoc(done, [c], NonEmptyOf(payloads[1..]));
      } else {
        TakeAllMirrors(sink, payloads[1..], done);
        assert [] + NonEmptyOf(payloads[1..]) == NonEmptyOf(payloads[1..]);
      }
    }
  }

  /** A chunk is what lies between two chunk ends. */
  lemma ChunkBetween(done: seq<bytes>, k: nat)
    requires k < |done|
    ensures EndOf(done, k) <= EndOf(done, k + 1) <= |Flatten(done)|
    ensures done[k] == Flatten(done)[EndOf(done, k)..EndOf(done, k + 1)]
  {
    FlattenUpTo(done, k);
    FlattenSplit(done, k);
  }

  /** Bytes and ends leave no choice. */
  lemma SameChunks(a: seq<bytes>, b: seq<bytes>, sink: Sink)
    requires Mirrors(Made(a, false, [], sink.eof), sink) && Mirrors(Made(b, false, [], sink.eof), sink)
    ensures a == b
  {
    assert Flatten(a) + [] == Flatten(a) && Flatten(b) + [] == Flatten(b);
    forall k | 0 <= k < |a|
      ensures a[k] == b[k]
    {
      ChunkBetween(a, k);
      ChunkBetween(b, k);
      SameEnds(a, b, sink, k);
    }
  }

  lemma SameEnds(a: seq<bytes>, b: seq<bytes>, sink: Sink, k: nat)
    requires Mirrors(Made(a, false, [], sink.eof), sink) && Mirrors(Made(b, false, [], sink.eof), sink) && k < |a|
    ensures EndOf(a, k) == EndOf(b, k) && EndOf(a, k + 1) == EndOf(b, k + 1)
  {
    assert sink.ends[k] == EndOf(a, k + 1) == EndOf(b, k + 1);
    if k > 0 {
      assert sink.ends[k - 1] == EndOf(a, k - 1 + 1) == EndOf(b, k - 1 + 1);
    }
  }

  // ----- with calls of readchunk in between -----

  function Producer(events: seq<Event>): seq<Event>
  {
    if events == [] then []
    else (if events[0].TakeNext? then [] else [events[0]]) + Producer(events[1..])
  }

  lemma EnterMakes(j: Journal, m: Marks, e: Event)
    requires Sound(j) && Legal(j, e)
    ensures MadeIn(Enter(j, m, e)) == Makes(MadeIn(j), e)
  {
    match e
    case OpenChunk => if j.s.splits.None? { NothingCame(j); }
    case CloseChunk => var t := CloseEnters(j, m);
    case TakeNext => ReadChunkKeepsEof(j.s, m);
    case _ =>
  }

  lemma ReadChunkKeepsEof(s: Stream, m: Marks)
    requires Consistent(s)
    ensures ReadChunk(s, m).0.eof == s.eof
  {
    if !s.broken && Pending(s) != [] {
      var t := s.(splits := Some(Pending(s)[1..]));
      FirstEndTaken(s, t);
      var n := Pending(s)[0] - s.cursor;
      StreamRuns.ReadNowaitCounts(t, m, n);
      assert ReadChunk(s, m).0 == if n == 0 then t else ReadNowait(t, m, n).0;
    }
  }

  /** Calls of readchunk in between change nothing about what is made. */
  lemma {:induction false} ReplayMakes(j: Journal, m: Marks, events: seq<Event>)
    requires Sound(j) && AllAllowed(MadeIn(j), Producer(events))
    ensures LegalRun(j, m, events) && Sound(Replay(j, m, events))
    ensures MadeIn(Replay(j, m, events)) == MakesAll(MadeIn(j), Producer(events))
    decreases |events|
  {
    if events != [] {
      var e := events[0];
      ProducerStep(MadeIn(j), events);
      EnterSound(j, m, e);
      EnterMakes(j, m, e);
      ReplayMakes(Enter(j, m, e), m, events[1..]);
    }
  }

  lemma ProducerStep(p: Made, events: seq<Event>)
    requires events != [] && AllAllowed(p, Producer(events))
    ensures Allowed(p, events[0]) && AllAllowed(Makes(p, events[0]), Producer(events[1..]))
    ensures MakesAll(p, Producer(events)) == MakesAll(Makes(p, events[0]), Producer(events[1..]))
  {
    if events[0].TakeNext? {
      assert [] + Producer(events[1..]) == Producer(events[1..]);
    } else {
      assert Producer(events)[1..] == Producer(events[1..]);
    }
  }

  /** What is done stays done. */
  lemma {:induction false} DoneGrows(p: Made, events: seq<Event>)
    ensures p.done <= MakesAll(p, events).done
    decreases |events|
  {
    if events != [] {
      DoneGrows(Makes(p, events[0]), events[1..]);
    }
  }

  // ----- writer, parser, stream and reader together -----

  predicate NothingMade(p: Made) { p.done == [] && !p.open && p.cur == [] && !p.eof }

  /** The calls for a written body make exactly its non-empty payloads, and say that all is done. */
  lemma BodyIsMade(
      w: Writer, payloads: seq<bytes>, e: Ending, lim: Limits, st: Parser, sink: Sink, extra: bytes, frags: seq<bytes>,
      p: Made, all: seq<bytes>)
    requires Chunking(w) && Roomy(lim, payloads + LastPayload(e)) && lim.maxTrailers >= 1 && NonEmpty(frags)
    requires OnWire(w) + Flatten(frags) == WriterSpec.Finish(WriteAll(w, payloads), e).sent + extra
    requires st == START && sink == EMPTY_SINK && all == payloads + LastPayload(e) && NothingMade(p)
    ensures var calls := AllCalls(lim, st, sink, frags);
            AllAllowed(p, calls) && MakesAll(p, calls) == Made(NonEmptyOf(all), false, [], true)
  {
    var made := MakesAll(p, AllCalls(lim, st, sink, frags));
    ChunkedRoundTrip(w, payloads, e, lim, st, sink, extra, frags);
    AllMirror(lim, st, sink, frags, p);
    var filled := TakeAll(sink, all).Eof();
    assert Mirrors(Made(made.done, false, [], true), filled);
    TakeAllMirrors(sink, all, []);
    assert [] + NonEmptyOf(all) == NonEmptyOf(all);
    assert Mirrors(Made(NonEmptyOf(all), false, [], true), filled);
    SameChunks(made.done, NonEmptyOf(all), filled);
  }

  /** What a reader has cut out while the calls that make these chunks are under way. */
  ghost predicate Arrives(j: Journal, chunks: seq<bytes>, through: bool)
  {
    && j.got <= chunks
    && (through ==> j.s.eof && (j.s.blocks == [] && Pending(j.s) == [] ==> j.got == chunks && j.part == []))
  }

  /** Some of the calls are made. */
  lemma PartIsAllowed(p: Made, calls: seq<Event>, front: seq<Event>)
    requires front <= calls && AllAllowed(p, calls)
    ensures AllAllowed(p, front) && MakesAll(p, front).done <= MakesAll(p, calls).done
  {
    var back := calls[|front|..];
    assert calls == front + back;
    MakesMore(p, front, back);
    DoneGrows(MakesAll(p, front), back);
  }

  lemma CallsArrive(
      start: Journal, m: Marks, calls: seq<Event>, front: seq<Event>, chunks: seq<bytes>, events: seq<Event>)
    requires Sound(start) && AllAllowed(MadeIn(start), calls)
    requires MakesAll(MadeIn(start), calls) == Made(chunks, false, [], true)
    requires front == Producer(events) && front <= calls
    ensures LegalRun(start, m, events) && Arrives(Replay(start, m, events), chunks, front == calls)
  {
    PartIsAllowed(MadeIn(start), calls, front);
    ReplayMakes(start, m, events);
    SoundArrives(Replay(start, m, events), MakesAll(MadeIn(start), front), chunks, front == calls);
  }

  lemma SoundArrives(j: Journal, p: Made, chunks: seq<bytes>, through: bool)
    requires Sound(j) && MadeIn(j) == p && p.done <= chunks && (through ==> p == Made(chunks, false, [], true))
    ensures Arrives(j, chunks, through)
  {
    SoundMeans(j);
    PrefixTwice(j.got, j.done, chunks);
  }

  lemma PrefixTwice<T>(a: seq<T>, b: seq<T>, c: seq<T>)
    requires a <= b <= c
    ensures a <= c
  {
  }

  /**
   * A body that was written in chunks is fed to the parser in any fragments, and in between, at any
   * moment, `readchunk` is called on the stream the parser fills. Cutting what that returns at the
   * True flags gives the non-empty payloads, in order: the first ones of them at every moment, and
   * all of them once the parser is through and nothing is left in the stream. The stream may be any
   * into which nothing was put yet, as a blank one.
   */
  lemma PayloadsArrive(
      w: Writer, payloads: seq<bytes>, e: Ending, lim: Limits, st: Parser, sink: Sink, extra: bytes, frags: seq<bytes>,
      m: Marks, start: Journal, all: seq<bytes>, calls: seq<Event>, events: seq<Event>)
    requires Chunking(w) && Roomy(lim, payloads + LastPayload(e)) && lim.maxTrailers >= 1 && NonEmpty(frags)
    requires OnWire(w) + Flatten(frags) == WriterSpec.Finish(WriteAll(w, payloads), e).sent + extra
    requires st == START && sink == EMPTY_SINK
    requires Sound(start) && NothingMade(MadeIn(start))
    requires all == payloads + LastPayload(e) && calls == AllCalls(lim, st, sink, frags) && Producer(events) <= calls
    ensures LegalRun(start, m, events)
    ensures Arrives(Replay(start, m, events), NonEmptyOf(all), Producer(events) == calls)
  {
    BodyIsMade(w, payloads, e, lim, st, sink, extra, frags, MadeIn(start), all);
    CallsArrive(start, m, calls, Producer(events), NonEmptyOf(all), events);
  }
}
