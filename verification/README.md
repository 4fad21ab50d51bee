# Verified model of the web stack's protocol core

This project models the parts of a C web framework where mistakes are hardest to see,
and proves what they are for, on all inputs and over whole runs:

- **HTTP/2** (`H2Frames`, `H2Log`, `H2Conn`, `H2Safety`, `H2Receive`, `H2Delivery`,
  `H2Moves`, `H2Answers`, `H2Heads`, `H2Credit`, `H2Updates`, `H2Silence`, `H2Later`,
  `H2Blocks`, `H2Wire`, `H2Server`). One
  step is a frame followed by dispatch, pump and sweep. A history log records frames in
  both directions and handler calls; an observer recomputes both levels of send windows
  and every stream's progress from the log alone, and the theorems say that the server
  agrees with the observer on every run, that each response is the reply its request calls
  for and its head is read by the client as it was meant, and when the server keeps to its
  resets, its grants and its HPACK table. `H2Wire`
  goes from octets, cut into reads anyhow, to runs over frames, and `H2Server` is the
  object with its buffer and fields updated in place; each of its methods refines a
  function of the value model.
- **HPACK** (`HpackInteger`, `HpackHuffman`, `HpackTable`, `HpackBlock`, `HpackContext`,
  `HpackResponse`, `HpackStatic`). Of all that sections 4 and 6 of RFC 7541 let an encoder
  send, the decoder reads every list as it was meant for as long as no update raises the
  table budget, no string is over the limit of the source, and no entry is named by the
  insertion that evicts it. If besides every entry fits the budget, or finds the table
  empty, both tables stay equal, and that condition is exact.
- **Thread pool** (`PoolMachine`, `PoolSafety`, `PoolProgress`, `ThreadPool`). Atomic
  steps between lock and unlock, arbitrary interleaving, spurious wake-ups.
- **Storage** (`StrMap`, `Db`, `Session`, `SessionCalls`, `SessionStore`). Each layer
  refines a plain map over the one below it; over any run of calls a live session can be
  recovered from the file exactly if its data holds no newline, unless a write has failed.
- **Codecs** (`Json`, `JsonRoundTrip`, `JsonCursor`, `Chunked`) that undo each other.
- **Bounded arithmetic** (`RateLimit`, `Ranges`, `Sha256`).
- `Bytes`, `Digits` and `Views` hold octet strings, number printing and string views.

Code that updates state is modelled by classes and loops, and each method is proved
against a function whose properties are then proved as lemmas. Files are modelled as
atomic replacement; clocks, random tokens, hash functions, the choice a signal makes, the
HPACK code table and the compression function are parameters, so the theorems hold for
all of them.

## Where the code departs from its comments or its standard

The model follows the code. Where that breaks a property, the property is stated, an
input that breaks it is given, and the exact condition under which it holds is proved:

- A tenth continuation octet of an HPACK integer is multiplied by a wrapped weight
  (`HpackInteger.TenthOctetIsLost`; exactly when: `HpackInteger.TailExactness`).
- An HPACK entry larger than the table is ignored instead of emptying it, and a zero
  budget skips that check (`HpackTable.OversizedEntryIsIgnored`; exactly when:
  `HpackTable.InsertMatches`, `HpackTable.InsertStaysSound`).
- An HPACK insertion copies its name after the eviction, so a name reference to the entry
  it evicts is read from freed memory, although section 4.4 of RFC 7541 allows it
  (`HpackBlock.FreedNameIsMisread`; exactly when: `HpackBlock.LockStepIffFollowed`).
- A size update that takes the table budget up again, within the limit of 4096, ends the
  connection, although section 4.2 of RFC 7541 allows it: the only limit kept is the last
  one (`HpackBlock.RaiseIsRefused`; exactly when: `HpackBlock.LockStepIffFollowed`).
- A header block over the cap, or above the client's own GOAWAY, is not decoded, and the
  HPACK table falls behind the client's: a run that ends the connection over it is
  `H2Blocks.SkippedBlockIsMissed` (exactly when: `H2Blocks.EveryBlockIffNoneSkipped`).
- After RST_STREAM for a stream the server may go on to answer it: it keeps no record of
  the reset for a zero window increment, for PRIORITY of the wrong size, and for a header
  block that is over the cap, above the client's GOAWAY or malformed
  (`H2Silence.ZeroIncrementThenAnswered`; per frame exactly when:
  `H2Silence.RetiredIffNoneLoose`, and with it `H2Silence.SilentAfterReset`; whether a
  client can make it answer, exactly when: `H2Later.BroughtIffAnswerable`).
- Receive windows are debited, updates for them are sent, and they are never credited, so
  a client that keeps to its windows is refused (`H2Credit.GrantedThenRefused`; exactly
  when: `H2Credit.RefusedForFlow`).
- Every empty DATA frame is answered with window updates of nothing, which section 6.9 of
  RFC 7540 makes an error at the client (`H2Updates.EmptyEndDrawsZero`; exactly when:
  `H2Updates.ZeroUpdateIffEmpty`).
- A DATA frame whose payload is all padding ends the connection, although section 6.1
  allows it (`H2Updates.BarePaddingEndsIt`; exactly when: `H2Updates.PaddingTolerated`).
- Trailers end the connection, although section 8.1 allows them
  (`H2Updates.TrailersEndIt`; exactly when: `H2Updates.BlockRefused`).
- A connection preface is taken for a frame header, which ends the connection, if some
  read leaves between 9 and 23 of its octets in the buffer; it is stepped over otherwise
  (exactly when: `H2Wire.PrefaceThenFrames`; on one buffer: `H2Wire.PrefaceInPieces`).
- The function that sends a header block announces an empty one with two HEADERS frames
  (`H2Silence.AnnouncedOnce`). Nothing reaches that branch: its one caller has always
  written a status first.
- A body that a producer ends as the window closes waits for a window to be ended
  (`H2Answers.ShutOnTheLastOctet`; exactly when: `H2Answers.EndedWhenWhole`).
- A thread pool wait is woken by a signal, not a broadcast, so a second waiter can sleep
  on an idle pool (`PoolProgress.TwoWaitersStrand`; exactly when:
  `PoolProgress.OneWaiterOnly`).
- Destroying a session is meant to keep it from coming back. One that nobody has opened
  yet is not touched at all (exactly when: `SessionCalls.DestroyThenOpen`), and the file
  keeps the record of any other until it is next written (exactly when:
  `SessionCalls.DestroyedUntilRestart`; on the store: `SessionStore.SessionStore.DestroyThenRestart`).
- A newline in a session key or value changes what its record reads back as (exactly when:
  `Session.RecordRoundTrip`; after a crash: `SessionCalls.RecoveredIffPlain`).

## Model

| member | source | states |
|---|---|---|
| `HpackInteger.Read` | src/http/hpack.c:64-99 | The cursor loop with its 64-bit multiplier agrees, on every input, with the recursive reading of the octets: same verdict, same value, same position. |
| `HpackInteger.ReadTail` | src/http/hpack.c:78-97 | The continuation loop alone, wrap-around of the multiplier included. |
| `HpackInteger.Write` | src/http/hpack.c:461-483 | The grouping loop emits the octets of section 5.1 of RFC 7541. |
| `HpackInteger.RoundTrip` | src/http/hpack.c:64-99 | Every 32-bit value under every prefix and pattern is read back, and exactly its own octets are consumed. |
| `HpackInteger.TailExactness` | src/http/hpack.c:78-97 | An accepted continuation has the value the standard gives it if and only if it has no tenth octet, or one whose group is 0 or 1. |
| `HpackInteger.TenthOctetIsLost` | src/http/hpack.c:78-97 | The concrete input on which the decoder and the standard part: a tenth octet of weight 2^64 is read as nothing. |
| `HpackHuffman.BuildSub` | src/http/hpack.c:30-50 | The trie built from a prefix-free table has the prefixes of codes as its nodes and each symbol exactly at the end of its code. |
| `HpackHuffman.WalkComplete` | src/http/hpack.c:129-190 | From any point inside a code, the bit walk accepts what prefix-code decoding accepts, with the same result. |
| `HpackHuffman.WalkSound` | src/http/hpack.c:129-190 | Whatever the bit walk accepts is a sequence of whole codes followed by at most seven ones. |
| `HpackHuffman.DecodeIffEncoded` | src/http/hpack.c:103-190 | A coded string decodes to a text if and only if it is the one coding of that text: codes in order, padded with ones to the octet boundary. |
| `HpackHuffman.Inflate` | src/http/hpack.c:129-190 | The loops over octets and bits compute the trie walk. |
| `HpackTable.TrimIsLongest` | src/http/hpack.c:248-290 | What section 4 eviction keeps is the longest run of newest entries that fits. |
| `HpackTable.EvictIsTrim` | src/http/hpack.c:248-290 | Eviction by a running byte count keeps exactly what section 4 keeps, and the count stays the sum of the entry sizes. |
| `HpackTable.InsertMatches` | src/http/hpack.c:248-277 | Insertion is sure to keep the table equal to that of a section 4.4 peer if and only if the entry fits, or there was nothing to empty and the budget is not zero, and its eviction does not free the name it is about to copy. |
| `HpackTable.InsertStaysSound` | src/http/hpack.c:248-277 | Insertion keeps the byte count exact and within the budget if and only if the budget is not zero. |
| `HpackTable.InsertStaysAhead` | src/http/hpack.c:248-277 | Whatever the size of the entry, an insertion that does not free its own name leaves the table of a section 4.4 peer a prefix of the decoder's, so every index the peer may use still means what it means to the peer. |
| `HpackTable.ShrinkMatches` | src/http/hpack.c:279-290 | A size update within the budget keeps both tables equal. |
| `HpackTable.OversizedEntryIsIgnored` | src/http/hpack.c:248-277 | The two departures from section 4.4 on concrete tables: an oversized entry is dropped instead of emptying the table, and a zero budget accepts an entry. |
| `HpackTable.NameFreedByItsOwnInsertion` | src/http/hpack.c:248-277 | A concrete insertion whose eviction frees its own name: the new entry keeps its value and loses its name. |
| `HpackBlock.ReadWriteString` | src/http/hpack.c:103-190 | A string literal, plain or Huffman coded, is read back exactly when it is within the 64 KiB limit. |
| `HpackBlock.StepInLockStep` | src/http/hpack.c:326-453 | One representation that sections 4 and 6 allow, of any kind and size, is refused exactly if it raises the budget or holds a string over the limit; otherwise it is decoded to what it means in the sender's table, and the rest of the block goes on from the table the insertion really leaves, a freed name included. |
| `HpackBlock.TablesMoveAlike` | src/http/hpack.c:254-277 | Over one allowed representation the tables stay equal if its entry is evicted for alike and not named by the insertion that evicts it, and, where freed memory never reads as what it was, only then. |
| `HpackBlock.BlockAsMeant` | src/http/hpack.c:326-453 | A block of representations that are read as meant, with entries of any size, is decoded to exactly the encoded list. |
| `HpackBlock.BlockInLockStep` | src/http/hpack.c:326-453 | If besides its entries are evicted for alike, both tables end up equal. |
| `HpackBlock.AllAsMeant` | src/http/hpack.c:193-453 | Over any sequence of blocks that section 4 allows on one connection, none of which raises the budget, exceeds the string limit, or names the entry that its own insertion evicts, every list comes out as encoded, whatever the sizes of the entries. |
| `HpackBlock.LockStep` | src/http/hpack.c:193-453 | If besides every entry is evicted for alike, the tables stay equal over the whole connection, and the byte count stays exact and within the budget. |
| `HpackBlock.LockStepIffFollowed` | src/http/hpack.c:193-453 | Over everything that section 4 allows, budgets raised, entries and strings of any size and freed names included, the tables agree after every representation if each meets those conditions and its entry is evicted for alike, and, where freed memory never reads as what it was, only then. |
| `HpackBlock.FreedNameIsMisread` | src/http/hpack.c:401-417 | Two conforming blocks on which the code departs: the second comes out under whatever the freed name reads as. |
| `HpackBlock.RaiseIsRefused` | src/http/hpack.c:340-352 | A conforming block on which the code departs: the table is emptied and taken at its whole size again, and the connection ends. |
| `HpackContext.Hpack.EvictFor` | src/http/hpack.c:254-261 | The in-place eviction loop drops what the value model drops. |
| `HpackContext.Hpack.DynInsert` | src/http/hpack.c:248-277 | The whole new table after an insertion by view: the eviction comes first, so the name of an evicted entry is copied from freed memory. |
| `HpackContext.Hpack.ShrinkTo` | src/http/hpack.c:279-290 | The whole new table after a size update. |
| `HpackContext.Hpack.Find` | src/http/hpack.c:193-210 | The combined index space: static entries, then the dynamic ones newest first, and nothing else. |
| `HpackContext.Hpack.TakeString` | src/http/hpack.c:103-190 | The cursor version of the string reader, tied to the reader that LockStep speaks of. |
| `HpackContext.Hpack.TakeLiteral` | src/http/hpack.c:380-453 | Both halves of a literal, and which entry its name points into. |
| `HpackContext.Hpack.DecodeBlock` | src/http/hpack.c:326-453 | The loop over a block accepts exactly what the decoding function of LockStep accepts, with its fields and its final table. |
| `HpackResponse.FindStatic` | src/http/hpack.c:493-501 | The first static row with the name, or the proof that there is none. |
| `HpackResponse.EncodeStatus` | src/http/hpack.c:503-526 | Emits the one-octet index for the seven statuses that have one and a literal otherwise; the octets are those ResponseRoundTrip decodes. |
| `HpackResponse.EncodeField` | src/http/hpack.c:528-544 | Emits a literal without indexing, its name by static index when there is one; the octets are those ResponseRoundTrip decodes. |
| `HpackResponse.ResponseRoundTrip` | src/http/hpack.c:503-544 | Whatever the decoder's table holds, an encoded head is accepted if and only if its strings are within the limit, and then yields the status and the fields in order and leaves the table as it was. |
| `HpackStatic.StatusRowsHold` | src/http/hpack_static_tab.h:8-70 | The status shortcut of the encoder names the right rows of the literal static table. |
| `H2Frames.PeekWire` | src/http/h2.c:397-418 | A sent frame is read back whole, leaving exactly what follows it. |
| `H2Frames.PeekPartial` | src/http/h2.c:397-418 | A frame cut short anywhere is waited for, never misread. |
| `H2Frames.SplitBlock` | src/http/h2.c:1337-1371 | The splitting loop emits the HEADERS and CONTINUATION frames of a block, the second HEADERS frame of an empty block included. |
| `H2Frames.FragmentsSendable` | src/http/h2.c:1337-1371 | Every frame of a split block is within the frame size and carries the stream's id. |
| `H2Frames.Reassemble` | src/http/h2.c:1375-1460 | A non-empty block fed back frame by frame reaches the finisher octet for octet with its END_STREAM flag; a block over the 256 KiB cap is given up, never cut short. |
| `H2Log.ControlsKeep` | src/http/h2.c:255-321 | Control frames change no window account and no stream's account. |
| `H2Conn.NextDataAdvances` | src/http/h2.c:437-520 | The next piece is the front of what is left of the body, fits the room and 16384, and is marked last only when nothing remains; only a missing window blocks. Producers hand out no more than they are asked for. |
| `H2Receive.ApplyMoves` | src/http/h2.c:323-376 | All parameters of a SETTINGS payload together move every open window by exactly the change of the initial window, as section 6.9.2 of RFC 7540 asks. |
| `H2Receive.ProcessSafe` | src/http/h2.c:1509-1557 | Handling any frame neither sends nor spoils any part of a response, even when it ends the connection. |
| `H2Receive.ProcessLive` | src/http/h2.c:1509-1557 | A frame that is not a connection error keeps every stream's window, request body and progress equal to what the log says, ids distinct, odd and at most the last one, and at most 100 entries. |
| `H2Delivery.DispatchKeeps` | src/http/h2.c:619-666 | Dispatch, gzip branch included, keeps the invariant, a handler running once, after the peer ended its stream, on the body the peer sent, and leaves no complete request unanswered. |
| `H2Delivery.SendHeadKeeps` | src/http/h2.c:976-1064 | Sending a head keeps the invariant and puts the whole head before any data. |
| `H2Delivery.SendDataKeeps` | src/http/h2.c:420-433 | Sending a piece keeps the invariant and takes its length from both windows. |
| `H2Delivery.DataLoopKeeps` | src/http/h2.c:1065-1086 | The sending loop keeps the invariant and stops only when the response is over or a window is shut. |
| `H2Delivery.PumpKeeps` | src/http/h2.c:966-1088 | After the pump every response is over, or its head is out and its body waits for a window: an opened window is never answered with idleness. |
| `H2Delivery.SweepExact` | src/http/h2.c:1090-1112 | The swap-remove sweep drops exactly the entries that are reset or ended on both sides. |
| `H2Delivery.StepKeeps` | src/http/h2.c:1764-1812 | One turn of the serving loop keeps the invariant, and the last stream id never falls. |
| `H2Delivery.EveryRun` | src/http/h2.c:1698-1824 | For every sequence of frames a client may send: the log is lawful and every response delivered in order, after a connection error too; without one the server's books are the observer's, no finished entry is left, no complete request waits for its response, and no response waits but for a window. |
| `H2Delivery.WindowsConserved` | src/http/h2.c:323-520 | In every error-free reachable state the connection's send window is 65535 plus its increments less every DATA octet sent, and each open stream's is the client's current initial window plus its increments less its own DATA octets. |
| `H2Delivery.NoOverrun` | src/http/h2.c:420-520 | On every run no DATA frame was larger than 16384 and no non-empty one larger than either window as it stood at that moment. |
| `H2Delivery.HandledOnce` | src/http/h2.c:592-666 | On every run a handler runs at most once for a stream, only after the peer ended it, on the unpadded octets received, within the body limit. |
| `H2Answers.ResponseDelivered` | src/http/h2.c:592-1088 | On every run a stream's response frames are its whole head and then a prefix of the body of the reply that its own request calls for, all of it once END_STREAM is sent, where the request is what the client had sent, and ended, when the server turned to it, and its head is what its header block was turned into; the handler ran exactly if the reply is the handler's and not an error page. |
| `H2Answers.EndedWhenWhole` | src/http/h2.c:437-520 | Between frames a response whose body is all out is unended if and only if its body comes from a producer that has not been asked once more, and then a window is shut. |
| `H2Answers.ShutOnTheLastOctet` | src/http/h2.c:477-495 | The exception on a run: the client's window is the size of the body, the whole body goes out, and END_STREAM waits for a window. |
| `H2Heads.EveryHeadUnderstood` | src/http/h2.c:1337-1371 | On every run, whatever becomes of it, a client that follows sections 6.2 and 6.10 of RFC 7540 never sees a header block interrupted or cut short, and the blocks it puts together are the planned heads, one for each stream whose head was sent. |
| `H2Heads.ClientReadsHeads` | src/http/h2.c:976-1064 | On every run, if the heads were made by the response encoder within the string limit, the client's one decoder reads from all of them the status and the fields of each response, in the order they were sent, and its table never moves. |
| `H2Silence.RetiredUnlessLoose` | src/http/h2.c:1127-1507 | A frame that draws RST_STREAM draws it for its own stream, and leaves the server able to answer that stream if and only if the reset is one of the five kinds it keeps no record of and the stream could be answered before. |
| `H2Silence.RetiredIffNoneLoose` | src/http/h2.c:1698-1824 | Over any run every reset retires its stream if and only if no frame received is loose at its moment: an unrecorded reset of a stream that is open or may still be opened. |
| `H2Silence.SilentAfterReset` | src/http/h2.c:1698-1824 | Over any run without such a frame no HEADERS, CONTINUATION or DATA frame ever follows RST_STREAM on its stream. |
| `H2Silence.OpenedLater` | src/http/h2.c:1462-1507 | A stream that was reset before it was opened is answered as soon as the client opens it with a block that makes a request. |
| `H2Later.NeverAnswered` | src/http/h2.c:1698-1824 | Whatever the client sends, no response frame ever follows on a stream whose entry was reset, or whose declared length is overrun or beyond the windows. |
| `H2Later.BroughtIffAnswerable` | src/http/h2.c:1698-1824 | On any run, between two header blocks and for a stream that is not still to be opened: some continuation brings response frames on it if and only if its entry was not reset and waits for a window, or its request can still be ended as it was declared. |
| `H2Later.SilenceBroken` | src/http/h2.c:1303-1334 | A reset stream of that kind breaks its silence on a continuation. |
| `H2Silence.ZeroIncrementThenAnswered` | src/http/h2.c:1303-1310 | Four frames on the wire that end in a response after RST_STREAM. |
| `H2Silence.AnnouncedOnce` | src/http/h2.c:1337-1371 | A head is one HEADERS frame and then CONTINUATION frames only, if and only if its block is not empty. |
| `H2Credit.RefusedForFlow` | src/http/h2.c:1148-1184 | On every run the client's window, by the updates it was sent, stays 65535, and a well-formed DATA frame is refused for flow control if and only if all DATA of the connection comes to more than 65535 octets; a stream's own window never refuses one. |
| `H2Credit.GrantedThenRefused` | src/http/h2.c:1148-1163 | A body of 65535 octets on the wire, each granted again, and one octet more, which ends the connection. |
| `H2Updates.UpdatesDrawn` | src/http/h2.c:1148-1189 | Every window update a frame draws is of its payload's size, and it draws one if and only if it is a DATA frame that was let in. |
| `H2Updates.ZeroUpdateIffEmpty` | src/http/h2.c:1148-1189 | On every run, whatever becomes of it, the server has sent a window update of nothing if and only if it let an empty DATA frame in. |
| `H2Updates.EmptyEndDrawsZero` | src/http/h2.c:1154-1161 | A request whose body ends in an empty DATA frame draws one. |
| `H2Updates.PaddingTolerated` | src/http/h2.c:1134-1147 | On every run a DATA frame within the windows of an open stream leaves the connection in order if and only if its padding is lawful and not all there is. |
| `H2Updates.BarePaddingEndsIt` | src/http/h2.c:1136-1147 | A lawful frame of padding only ends the connection, whatever follows. |
| `H2Updates.BlockRefused` | src/http/h2.c:1462-1480 | On every run a completed header block with an odd id that is not above the client's GOAWAY ends the connection with a protocol error if and only if its stream was opened before. |
| `H2Updates.TrailersEndIt` | src/http/h2.c:1473-1476 | A request that ends in a trailing block ends the connection, and is never served. |
| `H2Wire.AnyReads` | src/http/h2.c:1764-1812 | However the octets of the frames a client sends, with or without a preface in front, are cut into reads, the connection ends up as the run over those frames, or over the first of them if the client was leaving and no stream was left, unless a read cuts the preface. |
| `H2Wire.PrefaceThenFrames` | src/http/h2.c:1764-1775 | A preface with frames behind it, cut anyhow: if some read leaves between 9 and 23 of its octets the connection ends with a frame size error, and otherwise it is the run over the frames. |
| `H2Wire.PrefaceInPieces` | src/http/h2.c:1764-1775 | One turn of the loop on a buffer that holds part of the preface: fewer than nine octets are waited for, and nine or more are taken for a frame that is too large. |
| `H2Blocks.EveryBlockIffNoneSkipped` | src/http/h2.c:1375-1507 | On every error-free run the HPACK decoder has had exactly the header blocks the client sent, in order, if and only if none was over the cap or above the client's GOAWAY. |
| `H2Blocks.BuiltAsMeant` | src/http/h2.c:675-700 | On such a run every request that was answered was built from the header list its client meant, whatever blocks came before. |
| `H2Blocks.SkippedBlockIsMissed` | src/http/h2.c:1375-1473 | A run on the wire: GOAWAY, a request above it, and a request that refers to the entry the other's block added. The client means the same header twice; the decoder never had the first, and the connection ends with a compression error. |
| `H2Delivery.BlockNotInterrupted` | src/http/h2.c:1517-1522 | On every run, inside a header block any frame but its own CONTINUATION is a connection error, and whatever comes later nothing more is processed or sent. |
| `H2Delivery.BlockHeld` | src/http/h2.c:1375-1460 | The block being collected survives dispatch, pump and sweep, so reassembly over a run is reassembly of its header frames. |
| `H2Server.NextPiece` | src/http/h2.c:437-520 | The chunk-skipping loop and the three body sources, written out, compute the next piece that NextDataAdvances speaks of. |
| `H2Server.Server.ShiftWindows` | src/http/h2.c:347-362 | The loop over open streams moves the windows up to the first that overflows. |
| `H2Server.Server.ApplySettings` | src/http/h2.c:323-376 | The whole new connection state after a SETTINGS payload. |
| `H2Server.Server.HandleSettings` | src/http/h2.c:1249-1266 | The whole new connection state after a SETTINGS frame. |
| `H2Server.Server.HandleWindow` | src/http/h2.c:1297-1335 | The whole new connection state after a WINDOW_UPDATE frame, the zero increment that draws RST_STREAM without a reset included. |
| `H2Server.Server.HandleData` | src/http/h2.c:1127-1212 | The whole new connection state after a DATA frame, in every branch. |
| `H2Server.Server.StartBlock` | src/http/h2.c:1409-1460 | The whole new connection state after a HEADERS frame, the block state that a refused one leaves included. |
| `H2Server.Server.ContinueBlock` | src/http/h2.c:1375-1407 | The whole new connection state after a CONTINUATION frame. |
| `H2Server.Server.OpenStream` | src/http/h2.c:1462-1507 | The whole new connection state after a finished header block: a new entry, a refusal or an error. |
| `H2Server.Server.HandleOther` | src/http/h2.c:1214-1295 | The whole new connection state after PRIORITY, RST_STREAM, PING, GOAWAY and unknown frames. |
| `H2Server.Server.ProcessFrame` | src/http/h2.c:1509-1557 | The frame switch on the object refines the one EveryRun speaks of. |
| `H2Server.Server.DispatchReady` | src/http/h2.c:619-666 | The dispatch loop on the object, gzip branch included, refines the model, keeps the invariant and leaves no complete request unanswered. |
| `H2Server.Server.PumpData` | src/http/h2.c:1065-1086 | The sending loop of one stream refines the model and ends. |
| `H2Server.Server.PumpAll` | src/http/h2.c:966-1088 | The pump on the object refines the model, keeps the invariant, and leaves every response over or waiting for a window. |
| `H2Server.Server.FreeStream` | src/http/h2.c:1090-1101 | The table after a swap-remove. |
| `H2Server.Server.SweepAll` | src/http/h2.c:1103-1112 | The sweep loop on the object refines the model and leaves an idle table: nothing finished, nothing to dispatch, nothing to send. |
| `H2Server.Server.Serve` | src/http/h2.c:1698-1824 | The two loops over the read buffer, the preface check and the exit after a client's GOAWAY included, compute the function that AnyReads speaks of, whatever the buffer starts with. |
| `H2Server.Server.ServeFrames` | src/http/h2.c:1698-1812 | The object that starts with some octets in its buffer and is fed the rest of what a client sends, a preface included and cut anyhow, ends up as the run over those frames that the theorems above are about, unless a read cuts the preface. |
| `H2Server.Server.Farewell` | src/http/h2.c:1814-1816 | The GOAWAY on the way out carries the last stream and the reason, and touches no response. |
| `PoolSafety.StepInv` | src/utils/thread_pool.c:10-152 | Every critical section, by any thread, with spurious wake-ups, keeps the counters right, every started job with one worker or finished, and no wake-up lost. |
| `PoolSafety.EveryRun` | src/utils/thread_pool.c:10-152 | On every interleaving jobs start once each and in the order they were accepted, and each is queued, running or finished. |
| `PoolSafety.SomeoneAwake` | src/utils/thread_pool.c:10-42 | A queue that is not empty always has a worker that is awake or busy and will look at it. |
| `PoolSafety.WaitMeansDone` | src/utils/thread_pool.c:118-125 | When a wait returns, every job accepted so far has run to completion. |
| `PoolProgress.StoppedStep` | src/utils/thread_pool.c:127-152 | A stopped pool takes no job, and every step of a worker strictly decreases the work left. |
| `PoolProgress.StoppedRun` | src/utils/thread_pool.c:127-152 | After stop no run has more worker steps than the measure allows. |
| `PoolProgress.StoppedProgress` | src/utils/thread_pool.c:127-152 | After stop some worker can move until all are gone, and then the queue is empty and everything accepted has run. |
| `PoolProgress.QuietRun` | src/utils/thread_pool.c:10-42 | Without new jobs a running pool has no more worker steps than the work left and the spurious wake-ups allow. |
| `PoolProgress.RestedMeansReleased` | src/utils/thread_pool.c:118-125 | When no worker has a step left everything accepted has run, and the one waiting thread is let go by its next test. |
| `PoolProgress.TwoWaitersStrand` | src/utils/thread_pool.c:35-40 | With two waiting threads one job can leave one of them asleep on an idle pool: the signal wakes only one. |
| `PoolProgress.OneWaiterOnly` | src/utils/thread_pool.c:118-125 | No run leaves a waiter asleep on an idle pool if and only if at most one thread waits. |
| `ThreadPool.ThreadPool.WorkerEnters` | src/utils/thread_pool.c:10-31 | The locked part of the worker loop before a job refines its step. |
| `ThreadPool.ThreadPool.WorkerFinishes` | src/utils/thread_pool.c:32-41 | The locked part of the worker loop after a job refines its step. |
| `ThreadPool.ThreadPool.AddJob` | src/utils/thread_pool.c:88-116 | Submission refines its step; a stopped pool refuses. |
| `ThreadPool.ThreadPool.WaitTest` | src/utils/thread_pool.c:118-125 | The wait test refines its step; letting the caller go means all jobs are finished. |
| `ThreadPool.ThreadPool.Shutdown` | src/utils/thread_pool.c:127-152 | The stop half of freeing refines its step. |
| `StrMap.GapMeansAbsent` | src/utils/strmap.c:46-62 | A probe that passed only other keys and met a gap has proved that the key is absent. |
| `StrMap.InsertKeeps` | src/utils/strmap.c:92-115 | Filling the gap at the end of a full path keeps every probe path full. |
| `StrMap.ClearedClusterKeepsPaths` | src/utils/strmap.c:117-159 | Once the whole run of entries behind a deleted one is gone, no remaining probe path crossed it. |
| `StrMap.CountIsSize` | src/utils/strmap.c:92-159 | The entry counter is the size of the map. |
| `StrMap.StrMap.Get` | src/utils/strmap.c:46-62 | Lookup agrees with the map, for any hash function. |
| `StrMap.StrMap.Grow` | src/utils/strmap.c:69-90 | Growing doubles the table and keeps the map. |
| `StrMap.StrMap.Set` | src/utils/strmap.c:92-115 | Setting updates the map at one key, and grows only at half load. |
| `StrMap.StrMap.PullCluster` | src/utils/strmap.c:131-152 | The clearing loop takes out the entry and keeps the run behind it aside, losing nothing. |
| `StrMap.StrMap.Reinsert` | src/utils/strmap.c:153-158 | Re-insertion restores what was kept aside without growing the table. |
| `StrMap.StrMap.Delete` | src/utils/strmap.c:117-159 | Deleting removes exactly one key from the map, in the same array of slots. |
| `Db.ParseIffImage` | src/db/db.c:86-150 | Opening accepts a file as a list of entries if and only if the file is the image of that list and every length fits 32 bits: nothing truncated, padded or altered passes. |
| `Db.ReopenIffShort` | src/db/db.c:86-150 | A synced store opens as itself if and only if every length fits its 32-bit field; the empty store is no file. |
| `Db.PutHolds` | src/db/db.c:179-209 | Replacing or appending an entry is a map update with keys still distinct. |
| `Db.RemoveHolds` | src/db/db.c:211-227 | The swap-remove takes exactly one key out of the map. |
| `Db.TotalUpdate` | src/db/db.c:179-209 | The byte total after an entry is replaced, never below zero on the way. |
| `Db.Store.Load` | src/db/db.c:102-145 | The parse loop returns exactly what parsing returns, with the right byte total. |
| `Db.Store.Get` | src/db/db.c:170-177 | Lookup agrees with the map. |
| `Db.Store.Insert` | src/db/db.c:179-209 | A put updates the map at one key; the file and what it holds do not move. |
| `Db.Store.Delete` | src/db/db.c:211-227 | A delete removes one key from the map, says whether it was there, and does not touch the file. |
| `Db.Store.BuildImage` | src/db/db.c:239-250 | The loop lays out the version octet and every entry in order. |
| `Db.Store.Sync` | src/db/db.c:229-278 | After a sync the file holds the map in memory, unless the write failed, and then nothing changed; the byte accounting is never what fails. |
| `Session.RecordRoundTrip` | src/http/session.c:340-390 | A session's record reads back as its expiry and its map if and only if no key and no value holds a newline or a NUL. |
| `Session.KeyInjective` | src/http/session.c:335-338 | Different full-length tokens never share a record. |
| `Session.LiveCut` | src/http/session.c:150-165 | The swap-remove on the parallel arrays removes exactly one session. |
| `Session.PutBacked` | src/http/session.c:340-366 | Writing a session through keeps every session backed by its record: the record decodes to it exactly if its data holds no newline. |
| `Session.DropBacked` | src/http/session.c:150-165 | Dropping a session and its record leaves the others backed by theirs. |
| `Session.AdoptBacked` | src/http/session.c:398-432 | The session read from a record without a NUL, as the store writes them, is backed by it. |
| `SessionCalls.CallKeeps` | src/http/session.c:184-432 | Every call, whether its write of the file succeeds or not, keeps every live session backed by its record. |
| `SessionCalls.EveryRunKept` | src/http/session.c:184-432 | Over any run of calls every live session stays backed, and the file has the current record of every token but those whose write has failed since the last that did not. |
| `SessionCalls.RecoveredIffPlain` | src/http/session.c:184-432 | After any run of calls, a process that finds the file gets back a live session that is not so owed exactly as it was if and only if none of its keys and values holds a newline. |
| `SessionCalls.StaysGone` | src/http/session.c:147-165 | No call but one that makes it again brings a destroyed session back, and the file loses its record with the first write that succeeds. |
| `SessionCalls.DestroyedUntilRestart` | src/http/session.c:147-165 | A cached session is destroyed and any calls follow that do not make it again: it cannot be opened, and the next process finds it if and only if the file held its record and was not written since. |
| `SessionCalls.DestroyThenOpen` | src/http/session.c:268-276 | A destroyed token opens a session again if and only if it was on record, unexpired, and not cached. |
| `SessionStore.SessionStore.SecretEq` | src/http/session.c:111-121 | The comparison without early exit is equality of full-length tokens. |
| `SessionStore.SessionStore.FindToken` | src/http/session.c:124-132 | The scan finds exactly the live sessions. |
| `SessionStore.SessionStore.Mirror` | src/http/session.c:340-366 | The record follows a changed session, and the file follows the records or stays as it was when the write fails, which goes unnoticed; no other key of the database moves. |
| `SessionStore.SessionStore.Create` | src/http/session.c:184-205 | A new empty session with its expiry and its record, as the runs of SessionCalls have it. |
| `SessionStore.SessionStore.Set` | src/http/session.c:211-228 | One value of one session changes, newlines allowed, and with it its record, as the runs of SessionCalls have it. |
| `SessionStore.SessionStore.Value` | src/http/session.c:230-239 | A value is read from the session's map. |
| `SessionStore.SessionStore.Del` | src/http/session.c:244-266 | One key of one session goes, and its record follows, as the runs of SessionCalls have it; a missing key writes nothing. |
| `SessionStore.SessionStore.RemoveAt` | src/http/session.c:150-165 | The slot and the record in memory go; the file does not move. |
| `SessionStore.SessionStore.Destroy` | src/http/session.c:268-276 | A cached session goes with its record in memory; one that is not cached keeps its record, and the file does not move. |
| `SessionStore.SessionStore.DestroyThenRestart` | src/http/session.c:268-276 | After a crash right behind it the next process finds the session if and only if the file held its record. |
| `SessionStore.SessionStore.Reap` | src/http/session.c:278-291 | Exactly the unexpired sessions remain, and exactly the records of the others go from the database in memory. |
| `SessionStore.SessionStore.Resolve` | src/http/session.c:398-421 | A token finds its cached session or the one its record describes, which joins the cache. |
| `SessionStore.SessionStore.Open` | src/http/session.c:398-432 | An unexpired session is returned and cached; an expired one is dropped with its record; an unknown token changes nothing. |
| `SessionStore.SessionStore.Recover` | src/http/session.c:184-266 | A process that opens the file left at any moment finds every live session whose record is there, exactly as it was if and only if its data holds no newline. |
| `JsonRoundTrip.StringRoundTrip` | src/utils/json.c:624-663 | Every NUL-free string is read back from its escaped form. |
| `JsonRoundTrip.NumberRoundTrip` | src/utils/json.c:198-251 | Every lexeme of fewer than 64 octets that the scanner accepts is read back as itself. |
| `JsonRoundTrip.RoundTrip` | src/utils/json.c:368-428 | Every tree within the limits is read back whole from its rendering at any nesting and any indent, leaving exactly what follows it. |
| `JsonRoundTrip.ParsedFits` | src/utils/json.c:368-428 | Whatever the parser returns has distinct keys, NUL-free strings, short lexemes and bounded nesting. |
| `JsonRoundTrip.ParseSerialized` | src/utils/json.c:430-451 | The compact or indented rendering of a tree parses to that tree with nothing left over if and only if the tree respects those limits. |
| `JsonCursor.Parser.StringRaw` | src/utils/json.c:96-179 | The string loop over the cursor agrees with the function that StringRoundTrip speaks of. |
| `JsonCursor.Parser.EscapeSequence` | src/utils/json.c:108-171 | The switch over escapes appends what the reading function says, the two halves of a surrogate pair joined. |
| `JsonCursor.Parser.FourHex` | src/utils/json.c:56-74 | The loop over four hexadecimal digits. |
| `JsonCursor.Parser.LowHalf` | src/utils/json.c:141-159 | A high surrogate is followed by a low one, or the string is refused. |
| `JsonCursor.Parser.NumberValue` | src/utils/json.c:198-251 | The digit, fraction and exponent loops and the length check agree, on every input, with the function that NumberRoundTrip speaks of. |
| `JsonCursor.Parser.ParseAny` | src/utils/json.c:368-428 | The value parser agrees with the parsing function on every input and depth. |
| `JsonCursor.Parser.Items` | src/utils/json.c:257-295 | The array loop agrees with the parsing function. |
| `JsonCursor.Parser.Members` | src/utils/json.c:297-366 | The object loop agrees with the parsing function, repeated keys included. |
| `JsonCursor.Parser.Document` | src/utils/json.c:430-451 | The whole parse agrees with the function that ParseSerialized speaks of. |
| `JsonCursor.SetMember` | src/utils/json.c:604-620 | Setting a key keeps its place, or adds it at the end. |
| `JsonCursor.Writer.WriteString` | src/utils/json.c:624-663 | The escaping loop appends the escaped string. |
| `JsonCursor.Writer.Write` | src/utils/json.c:673-728 | The serializer appends the rendering that ParseSerialized speaks of. |
| `Chunked.RunSplit` | src/http/http_client.c:218-324 | Input that arrives in two parts is decoded as if it had arrived at once. |
| `Chunked.AnySplit` | src/http/http_client.c:218-324 | Any split of a stream gives the verdict, the body and the octets left over of the whole. |
| `Chunked.RunPayload` | src/http/http_client.c:269-287 | A stretch of payload is taken or refused as a whole, by the body cap alone. |
| `Chunked.RunChunks` | src/http/http_client.c:218-324 | A series of chunks appends its contents, until the cap. |
| `Chunked.DecodeEncoding` | src/http/server.c:178-217 | What the server streams the client decodes to the concatenated chunks, stopping exactly at the end, if the total is within 32 MiB; otherwise it is refused. |
| `Chunked.SendQueued` | src/http/server.c:184-196 | The loop over queued chunks frames each non-empty one and counts the octets. |
| `Chunked.SendProduced` | src/http/server.c:197-214 | The loop over the producer frames its pieces up to the first that is empty or too large. |
| `Chunked.SendStream` | src/http/server.c:178-217 | The wire octets are the encoding DecodeEncoding speaks of, and the count is the body's length. |
| `Chunked.ChunkReader.FeedSizeLine` | src/http/http_client.c:223-268 | The size-line branch leaves the verdict of the input as it was. |
| `Chunked.ChunkReader.FeedPayload` | src/http/http_client.c:269-287 | The bulk-copying payload branch leaves the verdict of the input as it was. |
| `Chunked.ChunkReader.FeedTerminator` | src/http/http_client.c:288-300 | The line-end branch leaves the verdict of the input as it was. |
| `Chunked.ChunkReader.FeedTrailers` | src/http/http_client.c:301-320 | The trailer branch leaves the verdict of the input as it was. |
| `Chunked.ChunkReader.Feed` | src/http/http_client.c:218-324 | The resumable decoder returns the verdict of the octet-by-octet machine, with its state, its body and its position. |
| `RateLimit.ChargeFits` | src/http/rate_limit.c:107-127 | A bucket never holds less than nothing or more than the burst. |
| `RateLimit.Ledger` | src/http/rate_limit.c:107-127 | What was allowed and what is left never exceed a full bucket and what the forward movement of the clock earned, clocks that step back included. |
| `RateLimit.SpacedNeverRefused` | src/http/rate_limit.c:107-127 | With a burst of at least one, a caller that always waits for a token's worth of time is never refused. |
| `RateLimit.BurstServed` | src/http/rate_limit.c:78-105 | At one instant a new bucket allows exactly as many calls as its burst holds whole tokens. |
| `RateLimit.KeysAreIndependent` | src/http/rate_limit.c:78-105 | In any run what a key is granted is what it would be granted alone. |
| `RateLimit.WindowBound` | src/http/rate_limit.c:107-127 | In any window of t milliseconds of any run, whatever other callers do, a key is allowed at most burst + rate * t / 1000 calls. |
| `RateLimit.Limiter.BucketFor` | src/http/rate_limit.c:78-105 | The key's bucket is found, or a full one is made for it; no other bucket moves. |
| `RateLimit.Limiter.Clear` | src/http/rate_limit.c:32-38 | Every key starts over. |
| `RateLimit.Limiter.Allow` | src/http/rate_limit.c:107-127 | The verdict and the whole new table are those of the runs the bounds are about. |
| `Views.TrimAround` | src/utils/sv.c:12-77 | Cutting trimmed text at its first delimiter and trimming the parts is the same as cutting the text itself. |
| `Ranges.WindowMeaning` | src/http/static.c:115-124 | "N-M" is the octets from N to M that the file has, white space ignored; none exactly when it is unsatisfiable. |
| `Ranges.FromMeaning` | src/http/static.c:93-102 | "N-" is every octet from N on. |
| `Ranges.SuffixMeaning` | src/http/static.c:104-113 | "-N" is the last N octets. |
| `Ranges.SeparatedIsCanonical` | src/http/static.c:164-178 | One set of octets has one separated list, so the result does not depend on how an unstable sort orders equal bases. |
| `Ranges.Coalesce` | src/http/static.c:164-178 | The merge loop gives ascending windows inside the file, at least one octet apart, that cover exactly the windows taken in; all are taken in unless the output filled up. |
| `Ranges.Collect` | src/http/static.c:151-160 | The collecting loop keeps the first 64 satisfiable specs, in order. |
| `Ranges.ParseRanges` | src/http/static.c:139-179 | The whole file when the unit is not bytes, unsatisfiable exactly when no spec is satisfiable, and otherwise the union of the first 64 satisfiable specs as separated ascending windows. |
| `Sha256.PaddingIsFips` | src/security/hmac.c:124-140 | The padding is the one of section 5.1.1 of FIPS 180-4: the least gap that reaches 448 modulo 512, and the length itself under 2^64 bits. |
| `Sha256.Context.Update` | src/security/hmac.c:105-122 | However a message is split into updates, the context ends up with all of it. |
| `Sha256.Context.PadOut` | src/security/hmac.c:124-136 | The marker and the zeros, with a block of their own when the length no longer fits. |
| `Sha256.Context.Final` | src/security/hmac.c:124-147 | The digest is the fold of the compression function over the padded message, the counter's wrap at 2^64 included. |
| `Sha256.HmacSha256` | src/security/hmac.c:161-190 | The code is section 2 of RFC 2104 for every key length and every message. |
| `Sha256.KeyForms` | src/security/hmac.c:161-172 | Trailing zeros in a short key, and hashing a long one beforehand, change nothing. |
| `Digits.ReadInt` | src/utils/sv.c:79-103 | The overflow-guarded loop agrees with the recursive reading. |
| `Digits.SignedRoundTrip` | src/utils/sv.c:79-103 | Every printed 64-bit number but the least one reads back. |

## Left out

- HpackBlock.LockStepIffFollowed: what a freed name reads as is one unknown function of the name, so two reads of the same freed name agree; indexes and string lengths are below 2^32.
- HpackContext.Hpack.DecodeBlock: after a refused block nothing is said about the table, because the connection is torn down.
- HpackHuffman.DecodeIffEncoded: holds for any prefix-free table of 257 codes whose end code is all ones and longer than seven bits; the literal code table is not checked against that. The trie is a value, not linked nodes.
- HpackStatic.StatusRowsHold: only the rows the encoder's shortcut names are proved right against the encoder.
- H2Conn.NextDataAdvances: a producer that returns more than it is asked for breaks what include/response.h:13-16 asks of it, and is not modelled.
- H2Delivery.DispatchKeeps: the gzip decoder itself is a parameter with three outcomes; which requests are coded is part of it.
- H2Heads.ClientReadsHeads: that the handler's heads come from the response encoder is a hypothesis; which fields a response has is not modelled.
- H2Later.BroughtIffAnswerable: for a stream still to be opened only OpenedLater is proved, because which blocks make a request is a parameter; inside a header block nothing is said.
- H2Blocks.BuiltAsMeant: how a request is made out of a header list, cookie merging included, is a parameter.
- H2Server.Server.OpenStream: decoding and request construction are the parameter that BuiltAsMeant ties to the HPACK decoder.
- H2Server.Server.DispatchReady: the gzip decoder is a parameter.
- H2Server.Server.Serve: each read brings some octets, or the connection ends; the capacity of the buffer is not modelled.
- H2Server.Server.SendFrame: the write to the socket always succeeds.
- HTTP/2 upgrade requests, TLS, timeouts, access logs and statistics.
- PoolSafety.EveryRun: linked queue nodes are a sequence, and a job is a number.
- StrMap.StrMap.Set: keys and values are NUL-free, as C strings are; a view with a NUL would be stored in full but found again only up to the NUL.
- Db.Store.Sync: one rename either succeeds or leaves the file; partial writes to the temporary file are not modelled.
- Session.AdoptBacked: session records in the database are as the store writes them, without NUL octets.
- SessionStore.SessionStore.Set: a handle is named by its token, and the order of a map's slots is an argument.
- SessionStore.SessionStore.constructor: the database holds session records under full-length tokens only; other keys are free.
- SessionStore.SessionStore.Create: tokens are fresh and 40 octets, as the random source gives them; a store without a database, and sessions detached from a store, are not modelled.
- Session cookies, and the final dump of all sessions, which writes what is already there.
- JsonRoundTrip.ParseSerialized: numbers are lexemes; conversion to and from doubles is not modelled, nor are error texts and positions.
- Chunked.ChunkReader.Feed: after malformed input the position is not described.
- The server's own in-place chunk decoder, whose framing is overwritten before it can ask for more input.
- RateLimit.WindowBound: arithmetic is over reals, not doubles, and the clock does not step back inside the window; Ledger has no such condition.
- Ranges.ParseRanges: the output holds at least 64 windows, as its one caller provides; Coalesce says what a smaller one covers. The sort is some sort by base.
- Sha256.Context.Final: the compression function is a parameter; rounds and constants are not modelled, and the context is fed again only after a new start.
- Retry hints and status headers of the rate limiter, conditional requests and multipart bodies of the file server, hexadecimal digests.
- Memory ownership, reallocation and out-of-memory paths, but for the freed name of an HPACK insertion.
- Routing, templates, CORS, cookies, CSRF, MIME and the command line tools: they would add easy members only.
