# Verification of the HTTP client stack

A Dafny model of the parts of aiohttp and aiohappyeyeballs, vendored under `backend/.deps`, in
which the hard state lives, with proofs of what they promise. It is checked by

    dafny verify dfyconfig.toml

## What is modelled

- **Bodies on the wire.** `StreamWriter` frames a body, in chunks or by length; `HttpPayloadParser`
  takes it apart again from whatever fragments the transport delivers; `StreamReader` buffers it,
  remembers where chunks ended and pauses the transport. `WriterSpec`, `PayloadSpec` and
  `StreamSpec` are the specifications, as functions on states; `HttpWriter`, `PayloadParser` and
  `StreamReader` are the classes, updated in place and proved against them. `Fragmentation`,
  `ChunkGrammar`, `BodyRoundTrip`, `StreamRuns`, `StreamPressure`, `StreamConservation`,
  `StreamReads` and `StreamChunks` hold the theorems, `ChunkPipeline` the one over all four of them.
- **Heads.** `Headers` is the strict field parser, `HeadFraming` the cutting of a head into lines,
  `HeadRoundTrip` the way from the serialiser through any fragmentation back to the fields
  (RFC 9112, sections 2.2 and 5). `WireBytes` states the bytes and characters that writers and
  parsers share.
- **Connections on the wire.** `MessageLoop` is the loop of `HttpParser.feed_data` over heads,
  bodies and following messages, `MessageReader` the class, `MessageFragments` what cutting the
  bytes into calls changes, `MessageDelivery` the messages that come out.
- **Multipart bodies.** `Multipart` is the search for the boundary in a sliding window with
  push-back (RFC 2046, section 5.1.1), over a content whose reads may be as short as they like;
  `Base64` the streaming encoder with its carry (RFC 4648, section 4).
- **Cookies.** `CookieSpec` is the jar as one flat table, `CookieMatch` and `CookieFilter` the
  indexed lookup and the linear scan it stands for (RFC 6265, sections 5.1.3, 5.1.4 and 5.4),
  `CookieJar` the class with two levels of dictionaries, the lazy expiry heap and the morsel cache;
  `CookieHistory` says what a jar remembers in terms of all that was done to it.
- **Connections.** `PoolSpec` is the connector's bookkeeping between two awaits, `PoolRuns` all
  interleavings of the calls that use it, `PoolKeeps`, `PoolSafety`, `PoolProgress`, `PoolSlots`
  and `PoolTraces` what holds over all runs and for which limits (`PoolScenes` builds the runs in
  which it fails), `PoolReuse` and `PoolSteps` what a call gets, `Connector` the class. `DnsSpec`
  and `DnsCache` are the DNS cache, `ConnectLoop` the retry loop over addresses.
- **Happy eyeballs.** `Interleave` and `InterleaveOrder` order the addresses; `Staggered` is the
  race as a step system in which every await may be followed by any enabled step, `StaggeredEnds`
  its termination, `StaggeredDelay` what starts the next attempt, `StaggeredRuns` how a race can end
  (RFC 8305, sections 4 and 5).

## What the proofs found

Each of these is a theorem, with the exact condition where there is one:

- The limits on what is held over make fragmentation matter for long lines of a body, and nothing
  else does (`FragmentationIndependence`, `LongLineRefused`); in a head the limit for first lines,
  which holds again at the start of every call, does so too (`HeadFragmentation`,
  `LongestLineRefused`).
- A message behind one that asked to close the connection is refused within one call and accepted in
  the next; the first line of a second message in one call has the limit of field lines
  (`SecondMessage`). Of what one call accepts, long lines alone depend on fragmentation
  (`ConnFragmentation`).
- `write_eof` ignores the length that `write` keeps (`LengthIsKept`).
- A stream limit below one leaves the transport paused for good (`NoDeadlock`).
- A separator of more than one byte is missed when it straddles two blocks (`SeparatorsThatWork`).
- An empty field list is serialised with one CRLF too many (`HeadComesBack`, `Surplus`).
- Cookie paths with two trailing slashes are looked up for paths they do not match
  (`PathLookupIsMatch`); hosts with a trailing dot look up the shared cookies (`DomainLookupIsMatch`).
- A cookie set again without expiry keeps the old one (`OldExpiryStays`, `OldExpiryBites`). A date
  at the epoch is no expiry at all, and beside a Max-Age that is not a number no date is looked at
  (`PastDateDeletes`, `PastDateKept`).
- Deleting a cookie takes the host-only mark of the cookies of that domain and name under other
  paths along (`OwnHostHistory`, `MarkGoesWithAnotherPath`).
- An interleave count below one never shortens the address list (`PopShortens`).
- A call that is cancelled between being woken and running takes its wake-up with it, and under any
  limit that can leave another waiting for ever (`WakeUpsSurvive`).
- If a host can run out of slots before the pool does, two releases can wake two calls for one slot
  while a third call's free slot is overlooked; otherwise that cannot happen (`SlotsAreServed`).

## Model

Line numbers refer to the files of the repository. For methods of classes "the specification" is
the function of the same name in the module that ends in `Spec`, whose properties the other rows
state.

| member | source | states |
|---|---|---|
| `Bytes.HexRoundTrip` | backend/.deps/aiohttp/http_parser.py:909-915 | reading back the hexadecimal size that `f"{n:x}"` prints gives n, for every n |
| `Headers.ParsedIsWellFormed` | backend/.deps/aiohttp/http_parser.py:170-246 | every field list the strict parser accepts has token names, values without edge blanks or forbidden controls, and no repeated singleton |
| `Headers.FieldsRoundTrip` | backend/.deps/aiohttp/http_parser.py:170-246 | parsing the lines written for a field list gives that list back if and only if the list is well formed |
| `Headers.ParseHeaders` | backend/.deps/aiohttp/http_parser.py:170-246 | the index loop of `parse_headers` (strict) computes the left-to-right parse of the lines, with its error at the first bad line |
| `WireBytes.AcceptedFieldLine` | backend/.deps/aiohttp/http_parser.py:183-233 | a line is accepted only as a token, a colon, blanks, the value without edge blanks, and blanks; any other is an invalid header |
| `WireBytes.FieldLineAccepted` | backend/.deps/aiohttp/http_parser.py:183-233 | and every such line is accepted as that field, whatever blanks stand around the value |
| `WireBytes.FieldRefused` | backend/.deps/aiohttp/http_parser.py:235-242 | a field is added if and only if its value holds no control byte but TAB and it repeats no name that may be given once; which error it is otherwise |
| `WireBytes.NamedOnce` | backend/.deps/aiohttp/http_parser.py:97-110 | each of the ten names of the list, repeated in whatever case, is refused |
| `WireBytes.TokenCharacters` | backend/.deps/aiohttp/http_parser.py:80-83 | a name is made of letters, digits and fifteen marks, character by character |
| `WireBytes.ValueCharacters` | backend/.deps/aiohttp/http_parser.py:84-88 | which bytes a value must not hold, and which are blanks |
| `WireBytes.LowerCases` | backend/.deps/aiohttp/http_parser.py:241 | names are compared without regard to the case of their letters |
| `WireBytes.HexCharacters` | backend/.deps/aiohttp/http_parser.py:90 | which bytes are hexadecimal digits |
| `WireBytes.HexValues` | backend/.deps/aiohttp/http_parser.py:909-915 | hexadecimal digits of either case have their values, most significant first |
| `WireBytes.HexDigitsOf` | backend/.deps/aiohttp/http_writer.py:145 | sizes are printed without leading zeros; `WireBytes.DigitShown` gives the characters, in lower case |
| `StreamSpec.TakeChunkMoves` | backend/.deps/aiohttp/streams.py:536-553 | what `_read_nowait_chunk` hands out and what is left are the unread bytes, cut in two |
| `StreamSpec.TakeChunkConsistent` | backend/.deps/aiohttp/streams.py:536-569 | taking a block keeps the counters adding up and every pending chunk end between cursor and total |
| `StreamSpec.EndChunkConsistent` | backend/.deps/aiohttp/streams.py:316-353 | ending a chunk keeps the pending ends strictly increasing and within the bytes fed |
| `StreamSpec.ReadNowaitTakesPrefix` | backend/.deps/aiohttp/streams.py:571-584 | `_read_nowait(n)` returns exactly the first n unread bytes (all for -1, or if there are fewer) |
| `StreamSpec.PendingBound` | backend/.deps/aiohttp/streams.py:340-347 | there is at most one pending chunk end more than unread bytes, which is why the chunk marks cannot outlive the bytes |
| `StreamRuns.ApplyKeepsInv` | backend/.deps/aiohttp/streams.py:269-584 | every operation of producer or readers keeps cursor + size == total, non-empty blocks, ordered chunk ends, and "paused only while something is unread" |
| `StreamRuns.RunKeepsInv` | backend/.deps/aiohttp/streams.py:269-584 | the same in every state reached by any sequence of operations, so the branch that skips a chunk end is never taken |
| `StreamRuns.NoDeadlock` | backend/.deps/aiohttp/streams.py:147-156 | over all schedules a connected transport is never left paused with nothing to read or with a reader waiting, if and only if the limit is at least 1 |
| `StreamRuns.ZeroLimitStarves` | backend/.deps/aiohttp/streams.py:560-568 | with a limit below 1 one fed and read byte leaves the transport paused for good |
| `StreamRuns.UnreadUndoesRead` | backend/.deps/aiohttp/streams.py:269-286 | `unread_data` of what a read returned restores the unread bytes, the cursor and the total |
| `StreamConservation.BytesAreConserved` | backend/.deps/aiohttp/streams.py:289-584 | for every schedule of feeding and of reads of any kind: bytes taken in order, then bytes unread, equal bytes there before, then bytes fed |
| `StreamConservation.PumpMoves` | backend/.deps/aiohttp/streams.py:394-411 | a pass of `readuntil` over the buffered blocks takes a prefix of the unread bytes, and its line is what was held followed by that prefix |
| `StreamConservation.ReadChunkMoves` | backend/.deps/aiohttp/streams.py:472-504 | `readchunk` returns a prefix of the unread bytes and leaves the others, in every state |
| `StreamRuns.RunKeepsConsistent` | backend/.deps/aiohttp/streams.py:269-584 | whatever the limit is, zero and negative ones included, every run keeps cursor + size == total and the chunk ends in order |
| `StreamPressure.FeedPauses` | backend/.deps/aiohttp/streams.py:147-156 | for every limit, bytes that are fed pause a connected transport if and only if more than twice the limit is unread then |
| `StreamPressure.FeedIgnored` | backend/.deps/aiohttp/streams.py:289-297 | without a transport nothing is paused, and behind the end or without bytes nothing is fed |
| `StreamPressure.EndPauses` | backend/.deps/aiohttp/streams.py:316-353 | ending a chunk pauses it if and only if the chunk is not empty and more than max(3, limit / 4) ends are pending then |
| `StreamPressure.ReadResumes` | backend/.deps/aiohttp/streams.py:560-568 | a read that takes something resumes it if and only if fewer than limit bytes and, with chunks, fewer than half of that many ends (at least two) are left |
| `StreamPressure.NextChunkResumes` | backend/.deps/aiohttp/streams.py:472-504 | the same of `readchunk`, in each of its cases |
| `StreamPressure.EofResumes` | backend/.deps/aiohttp/streams.py:220-242 | the end of the stream resumes it |
| `StreamPressure.NewsWakes` | backend/.deps/aiohttp/streams.py:220-374 | a waiting reader is woken by bytes, by the end of a chunk with bytes, by the end, by an exception and by its cancellation, and by nothing else |
| `StreamPressure.ReadWaits` | backend/.deps/aiohttp/streams.py:355-374 | which reader waits, which is refused, and which returns at once |
| `StreamPressure.ReadNothing` | backend/.deps/aiohttp/streams.py:418-446 | `read(0)` returns nothing at once, or raises what was set, and changes nothing |
| `StreamPressure.NextChunkWaits` | backend/.deps/aiohttp/streams.py:472-504 | `readchunk` waits or is refused exactly if there is no chunk end, no byte and no end, flags exactly the ends of chunks, and returns nothing unflagged only at the end |
| `StreamPressure.FaultBreaks` | backend/.deps/aiohttp/streams.py:193-210 | behind an exception every reader raises it |
| `StreamPressure.SplittingStartsEarly` | backend/.deps/aiohttp/streams.py:308-314 | chunk splitting can be started exactly as long as nothing was fed, and stays on |
| `StreamPressure.PushedBackFirst` | backend/.deps/aiohttp/streams.py:269-286 | bytes that are pushed back come first again, and nobody is paused or woken |
| `StreamPressure.LostConnection` | backend/.deps/aiohttp/streams.py:355-374 | with the connection lost what is there can be read, and a reader that finds nothing fails |
| `StreamReads.ReadUntilReadsLine` | backend/.deps/aiohttp/streams.py:379-416 | for a one-byte separator `readuntil` returns the shortest prefix of everything unread and still to come that ends in it, all of it at the end, and raises for size exactly when that is too long, whatever the block borders |
| `StreamReads.SeparatorsThatWork` | backend/.deps/aiohttp/streams.py:394-409 | searching block by block is searching the stream for all contents if and only if the separator has one byte |
| `StreamReads.SplitSeparatorIsMissed` | backend/.deps/aiohttp/streams.py:396-401 | a concrete stream in which a longer separator straddles two blocks and the line runs past it |
| `StreamReads.ReadExactlyReadsExactly` | backend/.deps/aiohttp/streams.py:506-519 | `readexactly(n)` returns exactly the next n bytes however they arrive, or reports all it got at the end |
| `StreamChunks.ChunkBoundariesSurvive` | backend/.deps/aiohttp/streams.py:308-353 | for every limit and every interleaving of begin/feed/end with `readchunk`: cutting its data at the True flags gives the HTTP chunks in order, nothing is lost, nothing skipped |
| `StreamChunks.TakeNextSound` | backend/.deps/aiohttp/streams.py:472-504 | one call of `readchunk`, in each of its cases, keeps the cut-out chunks a prefix of those sent |
| `StreamReaders.BaseProtocol.PauseReading` | backend/.deps/aiohttp/base_protocol.py:50-56 | the flag is set exactly if a transport is there, and stays if it was set |
| `StreamReaders.BaseProtocol.ResumeReading` | backend/.deps/aiohttp/base_protocol.py:58-64 | the flag is cleared exactly if a transport is there |
| `StreamReaders.StreamReader.constructor` | backend/.deps/aiohttp/streams.py:139-170 | a new stream is empty and consistent |
| `StreamReaders.StreamReader.FeedData` | backend/.deps/aiohttp/streams.py:289-306 | the deque, offset and counters after `feed_data` are the new abstract stream; the history grows by the data |
| `StreamReaders.StreamReader.UnreadData` | backend/.deps/aiohttp/streams.py:269-286 | the data stands in front of the unread bytes, the consumed part of the first block being dropped |
| `StreamReaders.StreamReader.BeginHttpChunkReceiving` | backend/.deps/aiohttp/streams.py:308-314 | chunk splitting starts, or the RuntimeError if bytes came before |
| `StreamReaders.StreamReader.EndHttpChunkReceiving` | backend/.deps/aiohttp/streams.py:316-353 | a chunk end is recorded if bytes came since the last pending one; the RuntimeError without a begin |
| `StreamReaders.StreamReader.FeedEof` | backend/.deps/aiohttp/streams.py:220-242 | the end is announced, the waiter woken, the transport resumed |
| `StreamReaders.StreamReader.CutFirstBlock` | backend/.deps/aiohttp/streams.py:536-549 | the three cases of the deque and its offset agree with cutting the unread part of the first block |
| `StreamReaders.StreamReader.DropStaleSplits` | backend/.deps/aiohttp/streams.py:555-558 | exactly the chunk ends behind the cursor are dropped |
| `StreamReaders.StreamReader.ReadNowaitChunk` | backend/.deps/aiohttp/streams.py:536-569 | state and data are those of the abstract step, and data + rest is what was unread |
| `StreamReaders.StreamReader.ReadNowait` | backend/.deps/aiohttp/streams.py:571-584 | the loop returns the first n unread bytes and leaves the rest |
| `StreamReaders.StreamReader.StartWaiting` | backend/.deps/aiohttp/streams.py:355-374 | a lost connection or a second waiter raises, otherwise the reader waits |
| `StreamReaders.StreamReader.Read` | backend/.deps/aiohttp/streams.py:418-470 | `read(n)`/`readany` up to its return or await is the abstract step |
| `StreamReaders.StreamReader.ReadChunk` | backend/.deps/aiohttp/streams.py:472-504 | `readchunk` up to its return or await is the abstract step; the warning branch is proved dead |
| `StreamReaders.StreamReader.PumpLine` | backend/.deps/aiohttp/streams.py:394-414 | the inner loop of `readuntil`, on the deque with its offset, is the abstract search |
| `Fragmentation.ScanSplit` | backend/.deps/aiohttp/http_parser.py:873-993 | the scan of a settles the scan of a + b: it stops, or goes on with the held tail and b |
| `Fragmentation.FeedTwice` | backend/.deps/aiohttp/http_parser.py:873-993 | for all inputs: feeding a then b is feeding a + b, except that a held tail over its limit is refused |
| `Fragmentation.FragmentationIndependence` | backend/.deps/aiohttp/http_parser.py:873-993 | for every input, refused ones included (extensions and trailers too): all fragmentations agree in state, bytes, chunk ends, end, leftover and error if and only if each complete line is below its limit and all but the last byte of an incomplete one within it; where a trailer line is too long anyway, the size lines of the chunks are enough |
| `Fragmentation.LongLineRefused` | backend/.deps/aiohttp/http_parser.py:875-882 | a concrete case: a start of a size line that is fine in one call is refused when all of it but the last byte came in the call before |
| `PayloadParsers.HttpPayloadParser.constructor` | backend/.deps/aiohttp/http_parser.py:784-838 | the mode and the immediate end of empty bodies |
| `PayloadParsers.HttpPayloadParser.FeedEof` | backend/.deps/aiohttp/http_parser.py:840-850 | which modes end, and which raise which error |
| `PayloadParsers.HttpPayloadParser.OnSizeLine` | backend/.deps/aiohttp/http_parser.py:889-928 | what is left to scan behind the size line has the outcome of the whole |
| `PayloadParsers.HttpPayloadParser.OnChunkBody` | backend/.deps/aiohttp/http_parser.py:930-944 | likewise for chunk bytes, which go into the real stream object |
| `PayloadParsers.HttpPayloadParser.OnChunkEnd` | backend/.deps/aiohttp/http_parser.py:946-961 | likewise for the line end behind a chunk |
| `PayloadParsers.HttpPayloadParser.OnTrailers` | backend/.deps/aiohttp/http_parser.py:963-993 | likewise for trailer lines, up to the end of the body |
| `PayloadParsers.HttpPayloadParser.FeedChunked` | backend/.deps/aiohttp/http_parser.py:873-993 | the loop over the parser fields, filling the real stream, has the outcome of the specification: result, state, delivered bytes, chunk ends, end |
| `PayloadParsers.HttpPayloadParser.FeedByLength` | backend/.deps/aiohttp/http_parser.py:856-870 | the same for bodies of known length |
| `PayloadParsers.HttpPayloadParser.FeedData` | backend/.deps/aiohttp/http_parser.py:852-999 | the same for all four modes |
| `ChunkGrammar.SizeLines` | backend/.deps/aiohttp/http_parser.py:889-915 | a line is a size if and only if it is hexadecimal digits, with or without an extension behind a semicolon that holds no LF, and then it is their value |
| `ChunkGrammar.AcceptedIsChunked` | backend/.deps/aiohttp/http_parser.py:873-993 | every body that is accepted is a sequence of sized chunks, a last chunk, trailers within the limits and an empty line; delivered are the bytes of the chunks, one end for each, and the rest comes back |
| `ChunkGrammar.ChunkEndRefused` | backend/.deps/aiohttp/http_parser.py:946-961 | behind the bytes of a chunk only a line end will do; half of one is held |
| `WriterSpec.ChunkedRun` | backend/.deps/aiohttp/http_writer.py:155-339 | whatever the writes and the ending, a chunked message on the wire is the head, one frame for each non-empty payload, and the last chunk |
| `WriterSpec.LimitedRun` | backend/.deps/aiohttp/http_writer.py:182-190 | across writes with a length L exactly the first L bytes of their concatenation go out; a payload of `write_eof` goes out whole |
| `WriterSpec.LengthIsKept` | backend/.deps/aiohttp/http_writer.py:322-339 | a body keeps within its length if and only if `write_eof` gets nothing or everything together fits |
| `WriterSpec.PlainRun` | backend/.deps/aiohttp/http_writer.py:155-339 | without chunks and without a length head and payloads go out as they are |
| `WriterSpec.HeadersEarly` | backend/.deps/aiohttp/http_writer.py:221-234 | `send_headers` puts a held head on the wire, once, and the whole message is the same as without it, in each of the three modes |
| `WriterSpec.FinishOnce` | backend/.deps/aiohttp/http_writer.py:236-339 | whatever ends a message again sends nothing |
| `WriterSpec.HeadlessEnd` | backend/.deps/aiohttp/http_writer.py:251-339 | a chunked writer without a head ends with a last chunk by `write_eof` and with nothing by `set_eof` |
| `WireBytes.ChunkOnWire` | backend/.deps/aiohttp/http_writer.py:134-153 | a chunk is its size in hexadecimal, CRLF, its bytes, CRLF |
| `WireBytes.LastChunkOnWire` | backend/.deps/aiohttp/http_writer.py:251 | the last chunk is a zero and two line ends |
| `HttpWriter.StreamWriter.HoldHeaders` | backend/.deps/aiohttp/http_writer.py:216-219 | the serialised head is held back, nothing leaves yet |
| `HttpWriter.StreamWriter.WriteLines` | backend/.deps/aiohttp/http_writer.py:98-110 | the chunks go to the transport in order, both size counters grow by their sum, or a closing transport raises |
| `HttpWriter.StreamWriter.SendHeadersWithPayload` | backend/.deps/aiohttp/http_writer.py:119-153 | held headers and payload leave in one write, framed if chunked |
| `HttpWriter.StreamWriter.Write` | backend/.deps/aiohttp/http_writer.py:155-208 | the fields and the transport after `write` are those of the specification, also when draining |
| `HttpWriter.StreamWriter.SendHeaders` | backend/.deps/aiohttp/http_writer.py:221-234 | held headers leave once |
| `HttpWriter.StreamWriter.SetEof` | backend/.deps/aiohttp/http_writer.py:236-261 | held headers and the last chunk leave as one message; a second call does nothing |
| `HttpWriter.StreamWriter.WriteEof` | backend/.deps/aiohttp/http_writer.py:263-339 | the last payload, held headers and last chunk leave in every combination; a second call does nothing |
| `BodyRoundTrip.ChunkedRoundTrip` | backend/.deps/aiohttp/http_parser.py:873-993 | for every run of writes (empty ones included), either ending and every fragmentation of body and following bytes: the strict parser delivers exactly the payloads, one chunk each, ends, and returns what followed untouched |
| `BodyRoundTrip.EndComesLast` | backend/.deps/aiohttp/http_parser.py:963-993 | a prefix of a written body ends the body if and only if it is all of it, and none is refused |
| `BodyRoundTrip.LengthBody` | backend/.deps/aiohttp/http_parser.py:856-870 | over any fragmentation the length parser delivers exactly L bytes, ends once, and returns the rest in order |
| `ChunkPipeline.AllMirror` | backend/.deps/aiohttp/http_parser.py:889-993 | over any fragments the calls the parser makes on its stream are in order and make exactly the chunks it delivers |
| `ChunkPipeline.PayloadsArrive` | backend/.deps/aiohttp/streams.py:472-504 | writer, parser, stream and reader together: for every fragmentation of a written body and every interleaving of the calls of the parser with `readchunk`, cutting at the True flags gives the non-empty payloads, the first ones at every moment and all of them in the end |
| `BodyRoundTrip.LengthRoundTrip` | backend/.deps/aiohttp/http_writer.py:182-208 | writer against parser with the same L: the first L bytes arrive and the following bytes come back |
| `HeadFraming.HeadReader.FeedData` | backend/.deps/aiohttp/http_parser.py:333-379 | tail, lines and limits while a head is read: the outcome is the scan of tail + data |
| `HeadFraming.HeadReader.CutLines` | backend/.deps/aiohttp/http_parser.py:342-379 | the position loop cuts the lines of the recursive scan, with its errors |
| `HeadFraming.HeadTurn` | backend/.deps/aiohttp/http_parser.py:347-374 | one turn of that loop in terms of a position in the data |
| `HeadRoundTrip.HeadSplit` | backend/.deps/aiohttp/http_parser.py:333-379 | with moderate lines (shorter than a first line may be, field lines no longer than a field may be) scanning a then b is scanning a + b, although the limit for the next line changes between calls |
| `HeadRoundTrip.HeadFragmentation` | backend/.deps/aiohttp/http_parser.py:333-379 | for every input: all fragmentations yield the lines and rest, the held state or the error of the whole if and only if all lines are moderate, or one is too long under either limit |
| `HeadRoundTrip.LongestLineRefused` | backend/.deps/aiohttp/http_parser.py:358-365 | a concrete case: a first line as long as it may be is read whole and refused when cut in front of its LF |
| `HeadRoundTrip.HeadComesBack` | backend/.deps/aiohttp/http_writer.py:362-367 | a serialised first line and well-formed field list within the limits, cut anywhere, is read and parsed to the same line and the same fields in order; what follows comes back untouched, but for one CRLF too many after an empty list |
| `HeadRoundTrip.AcceptedHead` | backend/.deps/aiohttp/http_parser.py:342-379 | every head that is accepted is blank lines, lines within the limits, each ended by CRLF, and an empty line; the rest comes back |
| `WireBytes.HeadOnWire` | backend/.deps/aiohttp/http_writer.py:363-367 | a field is its name, a colon, a blank and its value, a head lines with line ends and an empty line, byte by byte |
| `WireBytes.SafeBytes` | backend/.deps/aiohttp/http_writer.py:354-360 | safe is what holds no CR, no LF and no zero byte |
| `WireBytes.UnsafeRefused` | backend/.deps/aiohttp/http_writer.py:354-367 | a head is refused if and only if its first line, a name or a value holds CR, LF or a zero byte |
| `MessageFragments.HeadIsScanned` | backend/.deps/aiohttp/http_parser.py:342-394 | the part of the loop over a connection that reads a head is the scan of a head on its own |
| `MessageFragments.VarsAreMoot` | backend/.deps/aiohttp/http_parser.py:333-365 | where lines fit, neither the limit a call has come to nor its memory of a `Connection: close` changes what the rest of an accepted input leads to |
| `MessageFragments.LoopSplit` | backend/.deps/aiohttp/http_parser.py:333-538 | one call with a + b, and a call with b after one with a, lead to the same connection |
| `MessageFragments.ConnFragmentation` | backend/.deps/aiohttp/http_parser.py:321-538 | heads, bodies, following heads and changed protocols together: for every input that one call accepts, all ways to cut it into calls give the same messages, bodies, state and handed-on bytes if and only if each head line is shorter than a first line may be and the lines of chunked bodies are short |
| `MessageFragments.SecondMessage` | backend/.deps/aiohttp/http_parser.py:342-367 | two messages in two calls are accepted; in one call the second is refused if the first asked to close the connection, or if its first line is longer than a field line may be |
| `MessageDelivery.ChunkedMessage` | backend/.deps/aiohttp/http_parser.py:342-530 | from an idle connection, a head within the limits that announces chunks, and a written body: the one new message holds the head and exactly the payloads, one end for each non-empty one, and the loop goes on with what follows |
| `MessageDelivery.ChunkedMessageArrives` | backend/.deps/aiohttp/http_parser.py:321-530 | the same over any cuts of head and body into calls |
| `MessageDelivery.SizedMessage` | backend/.deps/aiohttp/http_parser.py:342-530 | with a length n the message holds exactly the next n bytes, and the loop goes on behind them |
| `MessageDelivery.SizedMessageArrives` | backend/.deps/aiohttp/http_parser.py:321-530 | the same over any cuts into calls |
| `MessageDelivery.SizedStart` | backend/.deps/aiohttp/http_parser.py:342-530 | with fewer than n bytes there the body holds those and no message has ended |
| `MessageDelivery.BodilessMessage` | backend/.deps/aiohttp/http_parser.py:342-488 | without a body, or with length zero, the message is empty and ended, and the loop goes on behind the head |
| `MessageDelivery.EndlessMessage` | backend/.deps/aiohttp/http_parser.py:460-483 | a body up to the end of the connection gets all that follows, and its message does not end |
| `MessageDelivery.UpgradedMessage` | backend/.deps/aiohttp/http_parser.py:400-402 | behind a change of protocol everything is handed on |
| `MessageDelivery.BodyFailure` | backend/.deps/aiohttp/http_parser.py:505-529 | an error in a chunked body raises if it is about a header or the transfer encoding; any other ends the message with it and drops the rest of the call |
| `MessageDelivery.HeldTooLongFails` | backend/.deps/aiohttp/http_parser.py:875-885 | an incomplete line of a body that is held over its limit ends the message with LineTooLong at the next bytes |
| `MessageDelivery.HeadAndTrailers` | backend/.deps/aiohttp/http_parser.py:368-375 | head lines and trailer lines of a message that ends well are together within the limit on header lines |
| `MessageDelivery.NoBytes` | backend/.deps/aiohttp/http_parser.py:333-342 | a call without bytes changes nothing |
| `MessageReader.HttpParser.constructor` | backend/.deps/aiohttp/http_parser.py:288-297 | a new parser expects a head and holds nothing |
| `MessageReader.HttpParser.KeepLine` | backend/.deps/aiohttp/http_parser.py:353-410 | a line of a head is checked, kept, and the empty one begins the body the head announces |
| `MessageReader.HttpParser.ReadLine` | backend/.deps/aiohttp/http_parser.py:347-493 | one turn in a head in terms of a position in the data, with what is held over |
| `MessageReader.HttpParser.FeedBody` | backend/.deps/aiohttp/http_parser.py:500-529 | the body gets all there is; most of its errors end the body alone and drop the rest of the call |
| `MessageReader.HttpParser.ReadAll` | backend/.deps/aiohttp/http_parser.py:342-531 | the loop over positions, heads and bodies computes the specified outcome |
| `MessageReader.HttpParser.FeedData` | backend/.deps/aiohttp/http_parser.py:321-538 | the same with what was held over before |
| `Base64.DecodeEncode` | backend/.deps/aiohttp/multipart.py:1192-1207 | decoding inverts encoding for every byte string, padding included |
| `Base64.EncodeAppend` | backend/.deps/aiohttp/multipart.py:1200-1207 | encoding is additive at multiples of three bytes |
| `Base64.WriteKeeps` | backend/.deps/aiohttp/multipart.py:1192-1209 | after each write the output is the encoding of all whole groups so far and the carry is under three bytes |
| `Base64.StreamingIsOneShot` | backend/.deps/aiohttp/multipart.py:1181-1209 | any writes and one `write_eof` emit the encoding of the concatenated input |
| `WireBytes.Base64Alphabet` | backend/.deps/aiohttp/multipart.py:1200-1207 | the digits are A to Z, a to z, 0 to 9, plus and slash, in that order |
| `WireBytes.Base64Pads` | backend/.deps/aiohttp/multipart.py:1181-1190 | an encoding ends in none, one or two equals signs, as the length of its input says |
| `WireBytes.DelimiterOnWire` | backend/.deps/aiohttp/multipart.py:417 | the delimiter of parts is CRLF and the boundary |
| `Base64.MultipartPayloadWriter.Write` | backend/.deps/aiohttp/multipart.py:1192-1209 | the encoding buffer updated in place holds the carry of the specification |
| `Base64.MultipartPayloadWriter.WriteEof` | backend/.deps/aiohttp/multipart.py:1181-1190 | the carry is flushed |
| `Multipart.FindInWindow` | backend/.deps/aiohttp/multipart.py:416-421 | looking for the delimiter in the two-chunk window from the search start is looking for it in the whole content |
| `Multipart.BodyPartReader.FillChunk` | backend/.deps/aiohttp/multipart.py:401-410 | reads until the delimiter could be recognised or the end was seen; raises only at the third sight of the end |
| `Multipart.BodyPartReader.PushBack` | backend/.deps/aiohttp/multipart.py:422-433 | a delimiter in the window: what is in front is kept, the delimiter and all behind it is pushed back |
| `Multipart.BodyPartReader.HandOut` | backend/.deps/aiohttp/multipart.py:431-433 | no delimiter: the held chunk is given out, and none of the delimiter with it |
| `Multipart.BodyPartReader.ReadChunkFromStream` | backend/.deps/aiohttp/multipart.py:390-433 | one step for any short reads keeps: given + held + content is the part, and the delimiter is not passed |
| `Multipart.BodyPartReader.ReadChunk` | backend/.deps/aiohttp/multipart.py:336-378 | at the delimiter the CRLF in front of the boundary is consumed and nothing more |
| `Multipart.BodyPartReader.ReadOn` | backend/.deps/aiohttp/multipart.py:317-334 | repeated `read_chunk` calls, of any sizes large enough for the delimiter, succeed together if and only if the delimiter is there, and return all of the body up to the first one |
| `Multipart.BodyPartReader.Read` | backend/.deps/aiohttp/multipart.py:317-334 | for every pattern of arrivals `read` succeeds if and only if the delimiter is there, returns all that was not returned yet of the body up to the first one, leaves the content at the boundary, and otherwise raises "Reading after EOF" |
| `Interleave.InterleavedIsStable` | backend/.deps/aiohappyeyeballs/impl.py:228-247 | every family keeps exactly its addresses, in order |
| `Interleave.InterleavedIsPermutation` | backend/.deps/aiohappyeyeballs/impl.py:228-247 | the result is a permutation of the input |
| `Interleave.InterleavedOpening` | backend/.deps/aiohappyeyeballs/impl.py:238-246 | it opens with min(count, available) addresses of the first family, at least one |
| `Interleave.InterleavedIsFair` | backend/.deps/aiohappyeyeballs/impl.py:242-246 | behind the lead the families take turns: nobody is served a round before another family |
| `InterleaveOrder.EqualRanksInOrder` | backend/.deps/aiohappyeyeballs/impl.py:232-246 | of two addresses that are both the k-th of their families the one whose family came first in the input comes first |
| `Interleave.GroupByFamily` | backend/.deps/aiohappyeyeballs/impl.py:232-236 | the grouping loop makes one list for each family, in order of first appearance |
| `Interleave.InterleaveAddrInfos` | backend/.deps/aiohappyeyeballs/impl.py:228-247 | the grouping loop, slice deletion and rounds compute a stable permutation, or the IndexError for an empty list with a count above one |
| `ConnectLoop.KeptSelects` | backend/.deps/aiohappyeyeballs/utils.py:34-53 | `pop_addr_infos_interleave` drops exactly the first n addresses of every family and keeps the others in order |
| `ConnectLoop.PopShortens` | backend/.deps/aiohappyeyeballs/utils.py:43-53 | a pass shortens the list if and only if it is not empty and the count is at least one |
| `ConnectLoop.PoppedTimesSelects` | backend/.deps/aiohappyeyeballs/utils.py:43-53 | after k passes exactly the first k * n addresses of every family are gone |
| `ConnectLoop.NoCountDropsOne` | backend/.deps/aiohappyeyeballs/utils.py:43-53 | without a count a pass drops the first address of every family |
| `ConnectLoop.RemovedArePeers` | backend/.deps/aiohappyeyeballs/utils.py:63-82 | the addresses written like the peer go or, if there are none, those that mean the same; all others stay in order, and the ValueError comes exactly if there are none of either |
| `ConnectLoop.FailureDrops` | backend/.deps/aiohttp/connector.py:1601-1623 | what a failed attempt and a wrong fingerprint each leave of the list |
| `ConnectLoop.EndsFacts` | backend/.deps/aiohttp/connector.py:1584-1623 | what the end of the loop says about all its attempts and, if all of them failed to connect, about the list |
| `ConnectLoop.AddrList.PopInterleave` | backend/.deps/aiohappyeyeballs/utils.py:34-53 | the counting loop overwrites the list in place with that |
| `ConnectLoop.AddrList.Remove` | backend/.deps/aiohappyeyeballs/utils.py:63-82 | a success shortens the list; the ValueError leaves it alone |
| `ConnectLoop.CreateDirectConnection` | backend/.deps/aiohttp/connector.py:1582-1623 | whatever the attempts come to: with a count of None or at least one the loop is over within as many attempts as addresses, with the first success or the last error, each attempt getting what the ones before left; with any other count failed attempts leave the list alone, for ever |
| `Staggered.StepKeeps` | backend/.deps/aiohappyeyeballs/_staggered.py:101-197 | every step of race, attempts, timer, cancellation and clean-up keeps the bookkeeping of tasks, exceptions, start signals and sockets |
| `Staggered.RaceIsSafe` | backend/.deps/aiohappyeyeballs/_staggered.py:101-197 | on every schedule: one exceptions entry for each started attempt, None for the winner; without a winner all were started and all entries set; in the end every socket but the winner's is closed |
| `Staggered.StartsInOrder` | backend/.deps/aiohappyeyeballs/_staggered.py:139-168 | a further attempt starts only when its predecessor failed or its timer fired |
| `Staggered.FailsSockets` | backend/.deps/aiohappyeyeballs/impl.py:212-223 | a failed attempt closes its socket and takes it off the registry |
| `Staggered.CloseRestKeeps` | backend/.deps/aiohappyeyeballs/impl.py:104-117 | the caller closes every registered socket but the winner's |
| `StaggeredEnds.StepDecreases` | backend/.deps/aiohappyeyeballs/_staggered.py:139-197 | every step makes progress in one measure |
| `StaggeredEnds.NeverStuck` | backend/.deps/aiohappyeyeballs/_staggered.py:139-197 | until it is finished the race can move, or an attempt it waits for can end |
| `StaggeredEnds.RaceEnds` | backend/.deps/aiohappyeyeballs/_staggered.py:101-197 | every schedule has at most 80n + 40 steps, and one that cannot be extended has finished with all that is promised |
| `StaggeredDelay.DelayStartsNext` | backend/.deps/aiohappyeyeballs/_staggered.py:139-168 | in every reachable state with a delay in which the race waits and attempts are left, the timer can fire or the next attempt can be started; behind the timer exactly one more is started |
| `StaggeredDelay.ResolvedStaysOn` | backend/.deps/aiohappyeyeballs/_staggered.py:149-163 | from then on the next attempt can be started, whatever the earlier ones do, until it is, or the race is won or cancelled |
| `StaggeredDelay.FailureStartsNext` | backend/.deps/aiohappyeyeballs/_staggered.py:116-128 | when the last attempt fails the next one can be started at once, with or without a delay |
| `StaggeredDelay.SuccessWins` | backend/.deps/aiohappyeyeballs/_staggered.py:166-168 | an attempt that succeeded while the race waits can end it, as its winner |
| `StaggeredDelay.OneByOne` | backend/.deps/aiohappyeyeballs/_staggered.py:146-148 | without a delay each attempt is started only after all before it failed |
| `StaggeredRuns.EachCanWin` | backend/.deps/aiohappyeyeballs/_staggered.py:139-168 | whichever attempts fail before and, with a delay, whichever hang: the next one can still win, and exactly those that hang are left to be cancelled |
| `StaggeredRuns.AllCanFail` | backend/.deps/aiohappyeyeballs/_staggered.py:150-154 | when all fail the race returns without a winner |
| `StaggeredRuns.RaceHalts` | backend/.deps/aiohappyeyeballs/_staggered.py:174-190 | a race of two that is cancelled stops its timer, and cancels an attempt that connects, which closes its socket |
| `StaggeredRuns.CancelledRace` | backend/.deps/aiohappyeyeballs/_staggered.py:185-195 | then a task that was not started is cancelled and awaited, or its await is cut short |
| `StaggeredRuns.CancelledRaceCloses` | backend/.deps/aiohappyeyeballs/impl.py:104-117 | and when the caller is through no socket is open |
| `DnsSpec.AddKeepsValid` | backend/.deps/aiohttp/connector.py:870-881 | adding keeps the size bound, unique keys, and one time stamp for each key with a ttl |
| `DnsSpec.TableIsValid` | backend/.deps/aiohttp/connector.py:858-903 | the same in every reachable state |
| `DnsSpec.EvictsLeastRecentlyUsed` | backend/.deps/aiohttp/connector.py:870-881 | a key that an add pushes out was added or looked up before all that stay |
| `DnsSpec.TakenIsRotated` | backend/.deps/aiohttp/connector.py:891-897 | n items from an iterator that is moved by n + 1 at every lookup are the list rotated by the number of lookups |
| `DnsSpec.LookupsRotate` | backend/.deps/aiohttp/connector.py:891-897 | in every reachable state the (k+1)-th lookup since an add answers the list rotated by k |
| `DnsSpec.AnswersRotate` | backend/.deps/aiohttp/connector.py:891-897 | in a run in which a key stays and is not added again, its lookups answer one rotation of its list after the other, whatever is done to other keys in between |
| `DnsSpec.EachAddressFirstOnce` | backend/.deps/aiohttp/connector.py:891-897 | in every such run, in any n consecutive answers each of the n addresses comes first as often as it is in the list |
| `DnsSpec.AddPushesOut` | backend/.deps/aiohttp/connector.py:870-881 | an add stores its key unless nothing may be stored; it pushes out another key only if its own is new and the table full, and then one |
| `DnsSpec.EntryAge` | backend/.deps/aiohttp/connector.py:877-903 | in every run, the time stamp of an entry is the time of its last add, so `expired` compares with that |
| `DnsSpec.LookupErrors` | backend/.deps/aiohttp/connector.py:891-897 | an unknown key is a KeyError, an empty list a StopIteration, and neither changes the table |
| `DnsSpec.RemovedIsGone` | backend/.deps/aiohttp/connector.py:883-889 | what is removed is gone with its time stamp, the others stay in order; clearing leaves nothing |
| `DnsCache.DnsCacheTable.Add` | backend/.deps/aiohttp/connector.py:870-881 | the ordered dictionaries updated in place are the specified table |
| `DnsCache.DnsCacheTable.RemoveKey` | backend/.deps/aiohttp/connector.py:883-885 | an unknown key changes nothing |
| `DnsCache.DnsCacheTable.NextAddrs` | backend/.deps/aiohttp/connector.py:891-897 | the loop over the cycle iterator, its position and the order; KeyError and StopIteration |
| `DnsCache.DnsCacheTable.Expired` | backend/.deps/aiohttp/connector.py:899-903 | never without a ttl, otherwise after stamp + ttl; the KeyError of an unknown key |
| `CookieMatch.PathsAreCuts` | backend/.deps/aiohttp/cookiejar.py:360 | the accumulated path prefixes are exactly the cuts of the path at a slash or its end |
| `CookieMatch.DomainsAreCuts` | backend/.deps/aiohttp/cookiejar.py:354-357 | the accumulated domain suffixes are exactly the cuts of the host behind a dot or at its beginning |
| `CookieMatch.DomainLookup` | backend/.deps/aiohttp/cookiejar.py:354-357 | for a host without trailing dot a suffix is looked up exactly for the domains that match |
| `CookieMatch.PathLookupIsMatch` | backend/.deps/aiohttp/cookiejar.py:359-377 | over all request paths, lookup by prefix is path-matching if and only if the cookie path has at most one trailing slash |
| `CookieMatch.TwoSlashesMismatch` | backend/.deps/aiohttp/cookiejar.py:375-377 | a concrete request path that a cookie path with two trailing slashes is looked up for although it does not match |
| `CookieFilter.DomainLookupIsMatch` | backend/.deps/aiohttp/cookiejar.py:354-357 | lookup by suffix is domain-matching for all domains if and only if the host has no trailing dot |
| `CookieFilter.ProductOrdered` | backend/.deps/aiohttp/cookiejar.py:361-362 | the pairs are visited from shorter to longer domains and, within a domain, from shorter to longer paths |
| `CookieFilter.FoundIsEligible` | backend/.deps/aiohttp/cookiejar.py:366-380 | a cookie is found under one of the visited pairs and passes the filters if and only if it matches domain, path, host-only and secure rules |
| `CookieFilter.FilterIsLinearScan` | backend/.deps/aiohttp/cookiejar.py:306-392 | under every name the request gets the eligible cookie with the longest domain and then the longest path, as a linear scan over all cookies would choose, or the shared cookie if none is eligible |
| `CookieFilter.AddressGetsShared` | backend/.deps/aiohttp/cookiejar.py:344-352 | a request to an address gets the shared cookies alone, unless that is allowed |
| `CookieSpec.UpdateOneKeeps` | backend/.deps/aiohttp/cookiejar.py:243-302 | a stored cookie agrees with its key, and only stored cookies have a recorded expiry |
| `CookieSpec.UpdateLeavesNothingDue` | backend/.deps/aiohttp/cookiejar.py:232-304 | after an update no recorded expiry has passed |
| `CookieSpec.StoredAs` | backend/.deps/aiohttp/cookiejar.py:243-302 | a response stores a cookie if and only if its host belongs to the domain of the cookie, under its domain, its path or the default path and its name, with its value and flags; it is host-only if it names no usable domain |
| `CookieSpec.DefaultPathIsDirectory` | backend/.deps/aiohttp/cookiejar.py:270-281 | the default path is the response path up to its last slash, or a slash |
| `CookieSpec.AddressSetsNothing` | backend/.deps/aiohttp/cookiejar.py:232-238 | a response from an address sets nothing, unless that is allowed |
| `CookieHistory.UpdateIsSteps` | backend/.deps/aiohttp/cookiejar.py:232-304 | an update is one setting for each cookie and a sweep, so every sequence of calls is a run of steps |
| `CookieHistory.CookieLifetime` | backend/.deps/aiohttp/cookiejar.py:283-304 | a cookie that is newly stored lives for its Max-Age, capped, or up to its date, or for ever, and is swept exactly then |
| `CookieHistory.ClearsChosen` | backend/.deps/aiohttp/cookiejar.py:135-156 | clearing takes the chosen cookies with their expiry and no other |
| `CookieHistory.AddressForms` | backend/.deps/aiohttp/helpers.py:477-487 | a host passes for an address if and only if it holds a colon, or digits and nothing else but dots |
| `CookieHistory.RecordedIsNamedLast` | backend/.deps/aiohttp/cookiejar.py:224-230 | in every jar that can be reached the recorded expiry of a cookie is the one that the last setting to name one named, the cookie being stored ever since |
| `CookieHistory.SweptWhenNamed` | backend/.deps/aiohttp/cookiejar.py:199-222 | so a stored cookie is swept at a time if and only if that expiry has passed |
| `CookieHistory.PastDateDeletes` | backend/.deps/aiohttp/cookiejar.py:283-304 | in an update of any jar that can be reached, with any list, what becomes of a cookie with a past date: seconds beside it decide instead; otherwise it is deleted if and only if the date is not the epoch and no unusable Max-Age stands beside it, or an expiry named for the cookie before has passed |
| `CookieHistory.PastDateKept` | backend/.deps/aiohttp/cookiejar.py:283-295 | concrete cases: an epoch date, and a past date beside an unusable Max-Age, leave a new cookie stored |
| `CookieHistory.OldExpiryBites` | backend/.deps/aiohttp/cookiejar.py:283-302 | a concrete case: a cookie set for ten seconds and again without an expiry is gone after ten seconds |
| `CookieHistory.OldExpiryStays` | backend/.deps/aiohttp/cookiejar.py:283-304 | a cookie set without any expiry is never swept if and only if no setting named an expiry since it was last absent |
| `CookieHistory.FlagIsBareSince` | backend/.deps/aiohttp/cookiejar.py:217-256 | in every jar that can be reached a domain and name are marked host-only if and only if a cookie was set so without a domain and none of that domain and name, of whatever path, was deleted since |
| `CookieHistory.OwnHostHistory` | backend/.deps/aiohttp/cookiejar.py:366-373 | exactly then, or if its host has a colon, a stored cookie is sent to its own host alone |
| `CookieHistory.MarkGoesWithAnotherPath` | backend/.deps/aiohttp/cookiejar.py:217-219 | a concrete run: a cookie of another path expires, and a host-only cookie that nobody touched is sent to subdomains |
| `CookieJars.CookieJar.ExpireCookie` | backend/.deps/aiohttp/cookiejar.py:224-230 | the expiry is recorded with an entry in the heap, and the heap is left alone if it was recorded already |
| `CookieJars.CookieJar.DeleteCookies` | backend/.deps/aiohttp/cookiejar.py:217-222 | cookies, cached morsels, host-only flags and recorded expiries lose exactly the listed keys |
| `CookieJars.CookieJar.TakeDue` | backend/.deps/aiohttp/cookiejar.py:199-212 | popping the heap collects exactly the keys whose recorded expiry has passed, whatever stale or duplicate entries it holds |
| `CookieJars.CookieJar.DoExpiration` | backend/.deps/aiohttp/cookiejar.py:174-215 | with or without compaction the lazy heap deletes what a sweep over all recorded expiries would |
| `CookieJars.CookieJar.Clear` | backend/.deps/aiohttp/cookiejar.py:135-156 | without a predicate everything goes, with one exactly the expired and the chosen cookies |
| `CookieJars.ClearLeaves` | backend/.deps/aiohttp/cookiejar.py:135-156 | with a predicate exactly the cookies stay that it does not choose and whose expiry has not passed |
| `CookieJars.CookieJar.TakeDomain` | backend/.deps/aiohttp/cookiejar.py:249-265 | domain, trailing and leading dots, and the host-only flag |
| `CookieJars.CookieJar.Store` | backend/.deps/aiohttp/cookiejar.py:297-302 | an unchanged cookie keeps its cached morsel, a changed one drops it |
| `CookieJars.CookieJar.UpdateOne` | backend/.deps/aiohttp/cookiejar.py:243-302 | nested dictionaries, heap and cache after one cookie are the specified flat jar, the cache coherent |
| `CookieJars.CookieJar.UpdateCookies` | backend/.deps/aiohttp/cookiejar.py:232-304 | the same for a whole update, refusal for IP hosts included |
| `CookieJars.CookieJar.CachedMorsel` | backend/.deps/aiohttp/cookiejar.py:382-390 | a cached or freshly built morsel is the one built from the stored cookie |
| `CookieJars.CookieJar.FilterCookies` | backend/.deps/aiohttp/cookiejar.py:306-392 | with the cache, under every name what filtering without a cache sends, after a sweep at the same time |
| `PoolRuns.SwapKeepsCounts` | backend/.deps/aiohttp/connector.py:689-694 | replacing a placeholder by its connection changes no count, in total or for any host |
| `PoolKeeps.GetIdle` | backend/.deps/aiohttp/connector.py:739-779 | reuse takes a connection that was idle for this host, keeps the other queues and leaves no empty one |
| `PoolKeeps.CleanupOk` | backend/.deps/aiohttp/connector.py:447-463 | a clean-up leaves no empty queue and moves nothing |
| `PoolKeeps.WakeFirstPops` | backend/.deps/aiohttp/connector.py:781-805 | releasing a waiter takes off the queues only cancelled waiters and the one released |
| `PoolKeeps.WakeFirstWakes` | backend/.deps/aiohttp/connector.py:781-805 | in whatever order hosts are visited, a live waiter of a host with a free slot makes sure someone is released |
| `PoolKeeps.WakeFirstPicks` | backend/.deps/aiohttp/connector.py:781-805 | the waiter released is the first one not cancelled of its queue, and its host has a free slot |
| `PoolReuse.GetTakes` | backend/.deps/aiohttp/connector.py:739-779 | `_get` takes the first idle connection of the host that is still connected and not idle for longer than the keepalive time, with those in front of it; if there is none the queue goes |
| `PoolReuse.ConnectReuses` | backend/.deps/aiohttp/connector.py:643-663 | `connect` reuses if and only if there is such a connection, else begins one if and only if neither limit is reached, else waits behind the others |
| `PoolReuse.ResumeReuses` | backend/.deps/aiohttp/connector.py:697-737 | a woken call waits again, in front, if and only if there is no room; otherwise it reuses under the same condition or begins |
| `PoolReuse.CleanupKeeps` | backend/.deps/aiohttp/connector.py:435-465 | a clean-up keeps, in order, exactly the idle connections that could be reused then |
| `PoolReuse.ReleaseKeepsIdle` | backend/.deps/aiohttp/connector.py:820-850 | a released connection is kept idle behind the others of its host, unless it is to be closed |
| `PoolReuse.ReleasedIsReused` | backend/.deps/aiohttp/connector.py:739-850 | the next call for the host reuses it if and only if neither side closed it and the call comes in time |
| `PoolReuse.FrontFirst` | backend/.deps/aiohttp/connector.py:781-805 | of two calls waiting for one host the one behind is not woken before the one in front, unless that was cancelled |
| `PoolSteps.CallGoesOn` | backend/.deps/aiohttp/connector.py:643-694 | a new call is never refused: where it stands then, in terms of what is idle and of the limits |
| `PoolSteps.WokenGoesOn` | backend/.deps/aiohttp/connector.py:697-737 | the same of a call that was woken |
| `PoolSteps.CancelGoesOn` | backend/.deps/aiohttp/connector.py:718-733 | a waiting call can be cancelled; it takes itself off its queue, and an empty queue goes |
| `PoolSteps.CancelWokenGoesOn` | backend/.deps/aiohttp/connector.py:718-733 | so does a woken call that is cancelled |
| `PoolSteps.CreatedGoesOn` | backend/.deps/aiohttp/connector.py:684-694 | a connection that was made takes the place of its placeholder and is in use |
| `PoolSteps.ReleaseGoesOn` | backend/.deps/aiohttp/connector.py:807-850 | a connection in use can be released; at most one waiting call is woken |
| `PoolSteps.FailureGoesOn` | backend/.deps/aiohttp/connector.py:664-694 | an attempt that fails frees its place; at most one waiting call is woken |
| `PoolSteps.CleanupGoesOn` | backend/.deps/aiohttp/connector.py:435-465 | a clean-up may come at any time and changes nothing but the idle queues |
| `PoolSafety.StepKeeps` | backend/.deps/aiohttp/connector.py:638-850 | every stretch between two awaits keeps the books of idle, acquired, per-host and waiting |
| `PoolSafety.PoolIsConsistent` | backend/.deps/aiohttp/connector.py:638-850 | in every state of every run: idle and acquired disjoint, no connection idle twice, no empty idle queue, per-host sets partition the acquired set |
| `PoolSafety.BeginsWithinLimits` | backend/.deps/aiohttp/connector.py:650-663 | a step after which a call makes a new connection respects both non-zero limits |
| `PoolProgress.NoStarvation` | backend/.deps/aiohttp/connector.py:697-737 | on all runs without a woken call being cancelled, a waiting call can count on something in use or a woken call, if and only if no limit is negative |
| `PoolTraces.WakeUpsSurvive` | backend/.deps/aiohttp/connector.py:697-737 | on all runs, cancellations of woken calls included, the same holds if and only if there is no limit at all |
| `PoolTraces.StrandedRun` | backend/.deps/aiohttp/connector.py:697-737 | a call that waits when nothing is in use and no one was woken stays so, whatever happens, until a new call is made or it is cancelled itself |
| `PoolTraces.WakeUpLost` | backend/.deps/aiohttp/connector.py:718-733 | under any limit some run, with cancellations of woken calls, leaves a call waiting for ever in that sense |
| `PoolSlots.NoSlotOverlooked` | backend/.deps/aiohttp/connector.py:781-805 | where no host can run out of slots before the pool does, while anyone waits at least as many calls are woken as there are slots free |
| `PoolTraces.FreeSlotOverlooked` | backend/.deps/aiohttp/connector.py:793-805 | for every other pair of a positive limit per host and a total some run without lost wake-ups ends with a call that waits beside a free slot of its host while no one is woken |
| `PoolTraces.SlotsAreServed` | backend/.deps/aiohttp/connector.py:781-805 | on all runs without a woken call being cancelled, a call whose host has a free slot never waits while no one is woken, if and only if the limit per host is not positive, the total is negative, or 0 < limit <= limit per host |
| `PoolSpec.AvailableIsRoom` | backend/.deps/aiohttp/connector.py:587-610 | the answer is positive exactly if one more connection exceeds neither limit; under a total limit it is then the greatest number of connections to the host that both limits allow, otherwise one |
| `Connectors.BaseConnector.AvailableConnections` | backend/.deps/aiohttp/connector.py:587-610 | the same of the number that the method returns |
| `Connectors.BaseConnector.Get` | backend/.deps/aiohttp/connector.py:739-779 | the popping loop reuses the first usable connection and closes exactly those in front of it |
| `Connectors.BaseConnector.ReleaseWaiter` | backend/.deps/aiohttp/connector.py:781-805 | the nested loops release the waiter of the specification |
| `Connectors.BaseConnector.ReleaseAcquired` | backend/.deps/aiohttp/connector.py:807-818 | both sets shrink and an empty host set goes |
| `Connectors.BaseConnector.Release` | backend/.deps/aiohttp/connector.py:820-850 | the connection is closed or queued as idle, after a waiter was released |
| `Connectors.BaseConnector.Connect` | backend/.deps/aiohttp/connector.py:643-663 | up to its first await: reuse, wait or begin |
| `Connectors.BaseConnector.Resume` | backend/.deps/aiohttp/connector.py:651-737 | from one await to the next: leave the queue, then reuse, wait in front, or begin |
| `Connectors.BaseConnector.Swap` | backend/.deps/aiohttp/connector.py:689-694 | the placeholder gives way to the connection in both sets |
| `Connectors.BaseConnector.Cleanup` | backend/.deps/aiohttp/connector.py:435-465 | exactly the connections still usable are kept, in order |

## Left out

- The C parser that may replace the Python one, and lax parsing (bare LF, stray CR, obsolete folding).
- Compression of bodies in either direction, TLS, proxies, real sockets.
- The event loop: an await is a point where any enabled step may follow; timers and the clock are parameters, and one call reads the clock once.
- MessageLoop.Loop: what a complete head says about its body, the upgrade and the end of the connection is a parameter (first line, `parse_headers` and the checks of its result); a call that raises gives the error alone; the exception handed to a failed body.
- HeadFraming.HeadReader: one head; MessageReader.HttpParser has the hand-over to bodies, whose parsers are values there and objects in PayloadParsers.
- MessageFragments.ConnFragmentation: inputs that one call accepts with all bodies ending well; in a call that raises the messages before are lost with it.
- ChunkPipeline.PayloadsArrive: the calls on the stream are those of the specification's scan; that the class makes them in this order shows in the stream it fills.
- CookieHistory.OwnHostHistory: deletions by `clear` with a predicate are those of any set of stored cookies; a jar that was loaded from a file, which brings no host-only marks.
- HeadRoundTrip.HeadComesBack: field names and values are bytes; encoding to and from text is not modelled.
- PayloadParsers.HttpPayloadParser: after an error the parser is not fed again, as in the source; the text of errors and the exception object handed to the stream are not modelled.
- StreamReaders.StreamReader: the warning counter for reads after the end, the callbacks at the end, and `total_compressed_bytes`.
- StreamReads.ReadUntilReadsLine: `max_size or high_water` is a parameter.
- HttpWriter.StreamWriter: the hooks for sent chunks and headers; memory views are bytes.
- BodyRoundTrip.ChunkedRoundTrip: the parser allows at least one trailer line (with none it refuses the empty line that ends every body) and lines at least as long as the size lines.
- Multipart.BodyPartReader: parts with a Content-Length or a transfer encoding, decoding, nested parts; the boundary is at most two bytes shorter than the chunk size, as the source asserts.
- CookieJars.CookieJar: the heap is a list from which a least entry is taken (the order of equal times is free); `build` stands for `_build_morsel`; the order of names in a filtered result; strings of cookies, dates and URLs arrive parsed; saving and loading. Cookies are values: that the source changes the caller's Morsel in place, and that a deleted domain key is missing rather than empty, is not modelled.
- CookieFilter.FilterIsLinearScan: hosts without trailing dot and cookie paths with at most one trailing slash, the exact conditions being proved beside it; an IP host with the unsafe flag.
- ConnectLoop.CreateDirectConnection: the number of turns that are observed and what an attempt comes to are parameters.
- Staggered.RaceIsSafe: exceptions that are neither OSError nor cancellation (SystemExit, KeyboardInterrupt) and the choice of the exception raised when all attempts fail.
- PoolRuns: an open connector without tracing; closing it, `_cleanup_closed`, and proxies; each Connection is released once. The number in use may exceed the limits by reuse, as in the source.
- The redirect loop, digest authentication, content disposition, WebSockets, the server side.
- The application's own files: configuration, interface strings and one short decision function.
