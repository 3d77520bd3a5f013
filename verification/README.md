# itch-rs: market-data transport and order books

A Dafny model of the parts of itch-rs that carry NASDAQ TotalView-ITCH 5.0 messages and build
order books from them, with proofs over whole runs and whole streams.

- **MoldUDP64**: a publisher packs messages into numbered datagrams, the network loses, repeats
  and reorders them, a receiver reorders and reports gaps, and a recovery client fetches what is
  missing from a bounded cache. `MoldSystem.EndToEndSafety` is the safety of all of it together
  and `MoldMessages.MessagesArrive` restates it in terms of messages. `MoldGap` and `MoldStall`
  say what closes a gap and what moves a waiting receiver on.
- **SoupBinTCP**: the server hands a subscriber over from stored replay to live broadcast while
  an ingest task keeps storing and broadcasting (`SoupServer`), and a client resumes over any
  number of disconnects (`SoupResume`). `SoupLive` says who is dropped and who catches up.
  `SoupConnection.WireToMessages` runs from the bytes of
  the server's packets to the client's messages.
- **Order books**: the price-level book, the per-order book with its queues, the refinement
  between the two, and the manager that routes a multi-symbol stream (`L2Book`, `L3Book`,
  `BookRefinement`, `BookManager`). `BookHistory` tells the same story one order at a time, and
  `ItchBook` connects it to the bytes of the messages.
- **Codecs and framing**: the message code, the Mold packet, length-prefixed framing with
  resynchronisation, Soup packets, replay of captures.

State that the source updates in place is a class whose methods are proved equal to a function of
the old state; the laws are lemmas about those functions. Protocols between tasks are step
relations in which each await point is a step boundary. Integers are unbounded with the u64 operations of the
source written out: `AddU64` wraps, as a release build does, and `SatAddU64` saturates.

Where the code does not do what its comments say, the model follows the code, and the exact
condition is proved:

- A packet that directly delivers a number already buffered leaves a stale entry behind
  (`HeadOfLine` gives the condition, `WideFillerSticks` a run). Nothing is flushed while the entry
  is there. It stays until an overflow evicts it (`StaleUntilEvicted`), and for good under the
  `Error` policy (`StaleForever`).
- After the recovery client gives up on a gap, the receiver does not move on
  (crates/itch-mold/src/gap_recovery.rs:325-333): it stays at the gap if and only if no later step
  hands it the missing number (`GivingUpStays`).
- An error item may follow end-of-session (`LateError` is a run). Nothing follows, on any run, if
  and only if no recovery is under way (`SilentIffIdle`). An event never follows
  (`EndToEndSafety`).
- With nothing stale in the buffer, one answer closes a gap if and only if every number of the gap
  beyond the answer is already buffered; with a stale entry, if and only if it carries the whole
  gap (`ClosedIffCovered`, `StaleKeepsOpen`). An answer has at most 65536 frames, so a wider gap
  closes only with the help of the buffer (`ClosedIffCarried`, `WideGapCloses`).
- A receiver without a configured session locks on to the first packet it sees, whoever sent it.
  With packets of other sessions around, every run is safe if and only if the session is configured
  (`SafeIffPinned`).
- A `start_sequence` more than one above the last stored number makes the server announce one
  number and send another (`SeamlessIffNoJump`).
- A subscriber that resumes at an evicted number is handed to the live feed with a hole
  (`EvictedResume`, for the server and for the client). Going live is safe if and only if the number
  is stored, or not stored yet, or still in the queue, or the subscriber has lagged and will be
  dropped (`SafeToReadIff`).
- An execution refused as out of turn has already set the order's shares to zero, so the two
  books part on that step and on no other (`StepRelated`).
- Adding an order under a live reference leaves the old size in its level (`AddedExact`,
  `ReusedReference`) and the old entry in its queue (`InsertedValidIff`).
- A length-prefixed replay that meets an oversized length does not skip the body: it reads on right
  behind the length (`OversizedGlimpse`).
- Recovered frames that come back before any packet lock a receiver without a session on to ten
  spaces (`EarlyFramesLockBlank`).
- A timestamp of 2^48 or more does not survive encoding (`Itch.DecodeEncode`).

## Model

| member | source | states |
|---|---|---|
| MoldSystem.EndToEndSafety | crates/itch-mold/src/receiver.rs:225-378 | For every source, packing and schedule of loss, duplication, reordering and cached retransmission, with packets of other sessions at any time once the receiver knows its own, the surfaced messages are a contiguous piece of the published stream from the locked number, each once, in order, with the right body; after end-of-session, which names the true end, no event follows |
| MoldSystem.SafeIffPinned | crates/itch-mold/src/receiver.rs:225-240 | With packets of other sessions from the very start, all runs are safe if and only if the receiver was configured with its session |
| MoldSystem.TakeKeepsSession | crates/itch-mold/src/receiver.rs:225-240 | A receiver that knows its session keeps it, whatever packets arrive |
| MoldMessages.MessagesArrive | crates/itch-mold/src/receiver.rs:309-333 | The same with the real message code: what is surfaced under a number is the very message published under it |
| MoldMessages.EncodedIsGood | crates/itch-mold/src/codec.rs:159-170 | Every encodable message is a block the publisher accepts and the receiver decodes to that message |
| MoldMessages.PacketsSurviveTheWire | crates/itch-mold/src/codec.rs:268-375 | On every run each packet the publisher sent decodes from its bytes to itself, so ingesting the packet is ingesting its datagram |
| MoldReceiver.ReceiverState.Ingest | crates/itch-mold/src/receiver.rs:225-306 | The receiver's packet step as a function of its state: session lock and mismatch, first-packet lock, heartbeat, end-of-session, stale, gap and in-order packets |
| MoldReceiver.ReceiverState.StashPending | crates/itch-mold/src/receiver.rs:335-367 | Buffering with duplicates ignored and both overflow policies |
| MoldReceiver.ReceiverState.FlushPending | crates/itch-mold/src/receiver.rs:369-378 | The loop delivers buffered blocks while the smallest number is the expected one |
| MoldReceiver.MoldStream.IngestRetransmit | crates/itch-mold/src/receiver.rs:507-530 | Recovered frames enter one packet each, under the current session or the blank one |
| MoldReceiver.MoldStream.PollOutbox | crates/itch-mold/src/receiver.rs:602-614 | Items leave in order and nothing leaves after end-of-session |
| MoldReceiverLaws.HeadOfLine | crates/itch-mold/src/receiver.rs:283-305 | After a packet everything buffered is strictly above the expected number if and only if the packet did not directly deliver a buffered number |
| MoldReceiverLaws.SingleBlockNeverStale | crates/itch-mold/src/receiver.rs:507-530 | One-block packets, which is all that retransmission uses, always qualify |
| MoldReceiverLaws.NeverStuck | crates/itch-mold/src/receiver.rs:283-305 | Over every run without such an overlap the head of the line is never stuck |
| MoldReceiverLaws.FlushExit | crates/itch-mold/src/receiver.rs:369-378 | A flush ends only with an empty buffer or a smallest number that is not the expected one |
| MoldReceiverLaws.WideFillerSticks | crates/itch-mold/src/receiver.rs:297-305 | A four-packet run after which the expected number is buffered and not delivered |
| MoldReceiverLaws.PendingLedger | crates/itch-mold/src/receiver.rs:335-378 | Over every run the buffer stays within its bound, and the numbers accepted are, as a multiset, those still pending, those flushed and those evicted; the drop counter counts the evictions |
| MoldReceiverLaws.FlushOrder | crates/itch-mold/src/receiver.rs:369-378 | A flush takes buffered numbers in ascending order, from the expected one on |
| MoldReceiverLaws.FlushSurfaces | crates/itch-mold/src/receiver.rs:369-378 | And it surfaces exactly the buffered block of each, in that order |
| MoldLock.StartsFrom | crates/itch-mold/src/receiver.rs:242-249 | From the start, over every run, once the receiver is locked its first number is the configured one, or, without one, the header number of the packet that the first receiving step names |
| MoldLock.EarlyFramesLockBlank | crates/itch-mold/src/receiver.rs:507-530 | Frames handed back before any packet lock a receiver without a session on to the blank one, and the real session is then refused |
| MoldLock.BadFrameReported | crates/itch-mold/src/receiver.rs:507-530 | An empty or oversized recovered frame is reported as such and changes nothing else |
| MoldReceiverLaws.NoticesSurface | crates/itch-mold/src/receiver.rs:251-265 | A heartbeat and an end-of-session packet surface as one event each, with the number in their header |
| MoldReceiverLaws.AheadSurfaces | crates/itch-mold/src/receiver.rs:282-293 | A packet ahead of the expected number surfaces one gap, from the expected number up to the one before it, then one complaint for each block refused |
| MoldReceiverLaws.InOrderSurfaces | crates/itch-mold/src/receiver.rs:295-306 | A packet that carries the expected number surfaces its blocks from that number on and then what the buffer continues with |
| MoldReceiverLaws.RefusalsAreReported | crates/itch-mold/src/receiver.rs:335-367 | Under the Error policy a full buffer reports each refused block once and counts it |
| MoldReceiverLaws.FirstPacketDelivers | crates/itch-mold/src/receiver.rs:242-306 | The first data packet of a receiver without a start number is delivered whole |
| MoldReceiverLaws.DeliverySurfaces | crates/itch-mold/src/receiver.rs:297-333 | Blocks below the expected number are skipped; the others surface in order under their numbers |
| MoldStall.StaleUntilEvicted | crates/itch-mold/src/receiver.rs:335-378 | While a stale entry is buffered nothing is flushed, and after a packet it is still there if and only if the packet did not evict it |
| MoldStall.StaleForever | crates/itch-mold/src/receiver.rs:335-378 | Under the Error policy everything buffered with a stale entry stays, over every run, and nothing is flushed again |
| MoldStall.PacketMovesIff | crates/itch-mold/src/receiver.rs:225-306 | A packet changes the expected number if and only if it is data of the session that carries that number |
| MoldStall.FramesMoveIff | crates/itch-mold/src/receiver.rs:507-530 | An answer changes it if and only if the number is among its frames |
| MoldStall.StaysIffNeverFilled | crates/itch-mold/src/gap_recovery.rs:302-361 | Over every run of publisher, network, cache and recovery, a receiver stays where it is if and only if no step hands it the number it waits for |
| MoldStall.GivingUpStays | crates/itch-mold/src/gap_recovery.rs:325-333 | The same after the recovery has given up on the gap |
| MoldStall.ServedGapCloses | crates/itch-mold/src/gap_recovery.rs:302-361 | In the whole system, once a cache that covers the gap under recovery has answered, handing the answer over leaves the receiver past the gap, whatever happened in between |
| MoldStall.SilentIffIdle | crates/itch-mold/src/gap_recovery.rs:302-361 | From a finished stream nothing more is surfaced, on any run, if and only if no recovery is under way |
| MoldStall.LateError | crates/itch-mold/src/gap_recovery.rs:325-333 | A run from the start on which an error follows end-of-session |
| MoldGap.GapClosure | crates/itch-mold/src/gap_recovery.rs:302-361 | If the cache covers the gap, then lookup, response framing, relabelling and hand-back leave the expected number above the gap, whatever multicast packets arrived meanwhile |
| MoldGap.ClosedIffCovered | crates/itch-mold/src/receiver.rs:507-530 | With no multicast traffic in between, an answer closes the gap if and only if, with nothing stale in the buffer, every number of the gap beyond it is buffered, and with a stale entry, it carries the whole gap |
| MoldGap.StaleKeepsOpen | crates/itch-mold/src/receiver.rs:297-305 | A reachable receiver with a stale entry whose gap stays open although the answer and the buffer cover it |
| MoldGap.ClosedIffCarried | crates/itch-mold/src/receiver.rs:507-530 | When the last number of the gap is not buffered, the answer has to carry the whole gap, which it cannot above 65536 |
| MoldGap.WideGapCloses | crates/itch-mold/src/receiver.rs:507-530 | A reachable receiver whose gap of 65537 one answer closes |
| MoldGap.InOrderDelivers | crates/itch-mold/src/receiver.rs:283-306 | Packets that arrive back to back are all delivered |
| MoldGap.IngestedForward | crates/itch-mold/src/receiver.rs:225-306 | No packet moves the expected number back, and an in-order packet moves it past its last block |
| MoldCache.RingBufferSeqStore.Push | crates/itch-mold/src/request_server.rs:137-142 | At capacity the oldest frame makes room; increasing numbers stay sorted |
| MoldCache.RetainsLast | crates/itch-mold/src/request_server.rs:127-142 | After any pushes the cache is the last `capacity` entries of the unbounded log |
| MoldCache.RingBufferSeqStore.BinarySearch | crates/itch-mold/src/request_server.rs:184-204 | What it finds is the number, and in a sorted cache it finds the number if it is there |
| MoldCache.RingBufferSeqStore.Lookup | crates/itch-mold/src/request_server.rs:184-204 | Returns cached frames with consecutive numbers from the start; from a sorted cache, the longest such run, cut at the count and at 65536 |
| MoldCache.LongestRunUnique | crates/itch-mold/src/request_server.rs:184-204 | There is only one such run |
| MoldCache.StatusOkMeansComplete | crates/itch-mold/src/request_server.rs:209-229 | The status is OK if and only if the whole capped range is cached |
| MoldCache.StatusMeans | crates/itch-mold/src/request_server.rs:209-229 | For a request answered in part the status is end-of-session if the session is closed and no frame is cached at or after the last number asked for, and hole otherwise |
| MoldCache.UsableAnswer | crates/itch-mold/src/gap_recovery.rs:244-262 | The recovery client takes an answer if and only if it brings frames or the session is over; an empty answer from an open cache is asked for again |
| MoldCache.WriteResponse | crates/itch-mold/src/request_server.rs:362-385 | The loop writes status, count and length-prefixed frames, and refuses an oversized frame |
| MoldCache.ReadResponse | crates/itch-mold/src/request_server.rs:425-471 | The client's loop reads exactly what the reference parser of the response reads |
| MoldCache.ResponseRoundTrip | crates/itch-mold/src/request_server.rs:362-471 | A consecutive run of frames comes back with its numbers, which do not travel |
| MoldCache.ResponseInverse | crates/itch-mold/src/request_server.rs:425-471 | Whatever the client accepts starts with the code of what it read |
| MoldCache.RecoverGap | crates/itch-mold/src/gap_recovery.rs:219-279 | The retry and failover loops return the frames of the first usable answer in time; when there is none they fail with a timeout if the deadline came first, and otherwise with the error of the last attempt |
| MoldPublisher.MoldPublisher.Serve | crates/itch-mold/src/publisher.rs:217-300 | The packing loop as a function of its inputs: items, timer expiries, exhaustion and failure |
| MoldPublisher.MoldPublisher.FlushPending | crates/itch-mold/src/publisher.rs:302-329 | Sends the pending blocks as one packet, caches them and moves the counters |
| MoldPublisher.MoldPublisher.EosBurst | crates/itch-mold/src/publisher.rs:331-340 | Repeats the end-of-session packet |
| MoldPublisherLaws.PackingConserves | crates/itch-mold/src/publisher.rs:224-340 | For every interleaving of items and timer expiries the emitted blocks and then the pending ones are the source in order, each header number is the start plus the blocks before it, and the cache gets the same frames |
| MoldPublisherLaws.FinishedSentAll | crates/itch-mold/src/publisher.rs:224-300 | A publisher that finished has sent every item its source handed over before it ended, in order |
| MoldPublisherLaws.PacketIsSlice | crates/itch-mold/src/publisher.rs:302-329 | The blocks of each packet are the source at the place its header names |
| MoldPublisherLaws.TurnEndMarks | crates/itch-mold/src/publisher.rs:331-340 | End-of-session packets appear only when all is sent and name the next unsent number |
| MoldPublisherLaws.NoPacketOverMtu | crates/itch-mold/src/publisher.rs:224-300 | If every single block fits the MTU, no packet exceeds it |
| MoldPublisherLaws.TurnSends | crates/itch-mold/src/publisher.rs:224-340 | What each input makes the publisher send: a full packet before an item that does not fit, a pending packet or a heartbeat on the timer, the pending packet and the end burst on exhaustion |
| MoldPublisherLaws.PacketsAreFull | crates/itch-mold/src/publisher.rs:224-300 | Over every run a data packet went out because the timer fired, because the source ended, or because the next block of the source would have taken it over the MTU |
| MoldPublisherLaws.ItemsPackFully | crates/itch-mold/src/publisher.rs:224-300 | With items only, no packet could have taken the next block |
| MoldPublisherLaws.FailsIff | crates/itch-mold/src/publisher.rs:224-329 | Exactly which inputs stop a running publisher with an error |
| MoldPublisherLaws.BurstSends | crates/itch-mold/src/publisher.rs:331-340 | The end burst is the configured number of equal end-of-session packets |
| MoldPacket.Encode | crates/itch-mold/src/codec.rs:268-287 | Writes the packet's code into the buffer and nothing past it, or reports a short buffer |
| MoldPacket.Decode | crates/itch-mold/src/codec.rs:320-375 | The cursor loop computes the reference decoder, error cases included |
| MoldPacket.DecodeEncode | crates/itch-mold/src/codec.rs:203-287 | A packet decodes from its code as itself if and only if it is well formed |
| MoldPacket.EncodeDecode | crates/itch-mold/src/codec.rs:320-375 | Any buffer that decodes re-encodes to the same bytes |
| MoldPacket.HeaderLayout | crates/itch-mold/src/codec.rs:268-287 | Session in bytes 0 to 9, sequence number in 10 to 17, count in 18 and 19 |
| MoldPacket.BlockLayout | crates/itch-mold/src/codec.rs:268-287 | Each block follows those before it, its length in two bytes and then its body |
| Itch.DecodeEncode | crates/itch-protocol/src/codec.rs:850-918 | Each of the twenty kinds decodes from its code, whatever follows, if and only if its timestamp is below 2^48 |
| Itch.EncodeDecode | crates/itch-protocol/src/codec.rs:850-918 | What decodes is the code of the decoded message |
| Itch.LayoutMatchesBodyLen | crates/itch-protocol/src/messages.rs:884-968 | Every kind's fields add up to its length constant |
| ItchBook.FieldAt | crates/itch-protocol/src/codec.rs:890-918 | Every value of a decoded message is read from the bytes at its field's place |
| ItchBook.HeaderBytes | crates/itch-protocol/src/codec.rs:209-230 | In every kind the locate is in bytes 1 and 2, the tracking number in 3 and 4, the timestamp in 5 to 10 |
| ItchBook.ViewOfBytes | crates/itch-protocol/src/codec.rs:476-683 | What the books see of a message (locate, reference, side, shares, prices, attribution) is what its bytes say at the places the format gives them, by tag |
| Wire.BigEndianRoundTrip | crates/itch-protocol/src/codec.rs:143-200 | A number survives its big-endian field if and only if it fits the width |
| Wire.FromBigEndianSplit | crates/itch-protocol/src/codec.rs:143-200 | Most significant byte first: bytes in front count by the weight of those that follow |
| ItchStream.DecodeAll | crates/itch-compressed/src/lib.rs:824-835 | The loop accepts exactly the concatenations of encoded messages and returns the messages concatenated |
| ItchStream.EncodeAllInjective | crates/itch-protocol/src/messages.rs:938-968 | The message code is self-delimiting: a concatenation determines its messages |
| ItchStream.PayloadReader.DrainOneMessage | crates/itch-compressed/src/lib.rs:410-436 | One message at the cursor; a bad one discards the rest of the payload and does not count |
| ItchStream.PayloadDrains | crates/itch-compressed/src/lib.rs:410-436 | A payload drains to its messages, each counted once |
| ItchStream.BadPayloadDrains | crates/itch-compressed/src/lib.rs:410-436 | A bad message is reported once, after the messages before it; the next call finds nothing, and only the good messages were counted |
| ItchStream.EveryPayload | crates/itch-compressed/src/lib.rs:410-436 | Every payload is messages to the end, or messages up to a bad one |
| Replay.MessageIterator.ReadExact | crates/itch-replay/src/lib.rs:98-124 | Over any short reads: exactly the next n bytes, a clean end, or a truncation at the true offset |
| Replay.MessageIterator.NextRawBodies | crates/itch-replay/src/lib.rs:179-228 | One unframed message, its length taken from the tag |
| Replay.MessageIterator.NextGlimpseFrame | crates/itch-replay/src/lib.rs:139-177 | One length-prefixed message, with the zero-length end mark and the size limit |
| Replay.RawReplay | crates/itch-replay/src/lib.rs:179-228 | Replaying a concatenation returns exactly its messages and ends at the sum of their lengths |
| Replay.TruncatedReplay | crates/itch-replay/src/lib.rs:98-124 | A capture cut inside a message yields one item for everything before it, good or bad, and then one truncation error at the cut |
| Replay.RawPrefix | crates/itch-replay/src/lib.rs:179-228 | Good, bad and unknown messages in any order give one item each, and replay goes on behind each |
| Replay.RawReplayOfAny | crates/itch-replay/src/lib.rs:179-228 | For every byte string at all: it splits into frames and possibly a cut, each frame gives one item, the cut one truncation error, and all of it is read |
| Replay.GlimpseReplay | crates/itch-replay/src/lib.rs:139-177 | Length-prefixed replay returns exactly the captured messages, with or without an end mark |
| Replay.GlimpsePrefix | crates/itch-replay/src/lib.rs:139-177 | Bodies of 1 to 1024 bytes give one item each, good or bad, and replay goes on behind each |
| Replay.TruncatedGlimpse | crates/itch-replay/src/lib.rs:98-177 | A capture cut inside a frame or its length yields what came before and then one truncation error at the cut |
| Replay.OversizedGlimpse | crates/itch-replay/src/lib.rs:139-177 | A length above 1024 is reported at the offset behind it, and replay goes on right there |
| Framing.FramedReader.Decode | crates/itch-tcp/src/lib.rs:137-202 | One call of the decoder, with the skip counter, for both dialects |
| Framing.FramedReader.Receive | crates/itch-soup/src/lib.rs:561-642 | A chunk is appended and drained |
| Framing.ReportsConsume | crates/itch-tcp/src/lib.rs:137-202 | Every report shrinks the buffer, so draining ends |
| Framing.ChunkingIndependence | crates/itch-soup/src/lib.rs:561-642 | However a stream is cut into reads, the reports are those of a parser that sees the whole stream and keeps no counter |
| Framing.BoundariesNeverDrift | crates/itch-tcp/src/lib.rs:137-202 | Good, bad, empty and oversized frames in any order are each reported for themselves |
| Framing.PlainLimits | crates/itch-tcp/src/lib.rs:137-202 | The plain feed takes bodies of up to 1024 bytes, the empty one included, and reports the length of any other |
| Framing.SoupLimits | crates/itch-soup/src/lib.rs:561-642 | SoupBinTCP takes 1 to 1022 bytes behind the length, and reports the size of any other frame with its two length bytes |
| Framing.FrameLayout | crates/itch-tcp/src/lib.rs:208-229 | The length travels in two bytes, most significant first, and the body follows |
| ItchTcp.StreamRoundTrip | crates/itch-tcp/src/lib.rs:208-229 | Messages framed by the encoder come out as sent under any cutting into reads |
| ItchTcp.MessagesAreSmall | crates/itch-tcp/src/lib.rs:208-229 | The encoder's size check never fires: every message has at most 50 bytes |
| SoupText.PadRightInto | crates/itch-soup/src/lib.rs:422-430 | The in-place loop computes the right-padded or cut field |
| SoupText.PadLeftInto | crates/itch-soup/src/lib.rs:435-447 | The in-place loop computes the left-padded or cut field |
| SoupText.PadTrimIff | crates/itch-soup/src/lib.rs:422-468 | A padded field reads back as the text if and only if the text fits and has no spaces at its edges |
| SoupText.EncodeAsciiU64 | crates/itch-soup/src/lib.rs:472-494 | Every u64 fits: the field is its decimal numeral behind spaces |
| SoupText.DecodeAsciiU64 | crates/itch-soup/src/lib.rs:504-527 | The checked loop computes the decoded number, or names the first byte that spoils it |
| SoupText.DecimalMeaning | crates/itch-soup/src/lib.rs:504-527 | A field decodes to what its digits denote, and to an error if and only if it has a non-digit or exceeds u64; the error names the byte at which it first does |
| SoupText.DecimalRoundTrip | crates/itch-soup/src/lib.rs:472-527 | Every u64 survives its field |
| SoupText.DecimalPositions | crates/itch-soup/src/lib.rs:472-494 | Right-aligned: the units are in the last byte, each byte further left is the next digit, or a space |
| SoupPacket.PacketRoundTrip | crates/itch-soup/src/lib.rs:648-755 | A packet of any of the ten types decodes as itself if and only if its text fields fit |
| SoupPacket.DecodedIsNormal | crates/itch-soup/src/lib.rs:704-755 | Whatever decodes is in normal form and would decode to itself again |
| SoupPacket.StreamRoundTrip | crates/itch-soup/src/lib.rs:561-755 | Packets within the size limit come out as sent under any cutting into reads |
| SoupPacket.WireBytes | crates/itch-soup/src/lib.rs:671-702 | The very bytes of each packet without login fields |
| SoupPacket.RequestLayout | crates/itch-soup/src/lib.rs:671-684 | User name and password left-aligned in bytes 1 to 6 and 7 to 16, session and sequence number right-aligned in 17 to 26 and 27 to 46 |
| SoupPacket.AcceptanceLayout | crates/itch-soup/src/lib.rs:685-691 | Session and sequence number right-aligned in bytes 1 to 10 and 11 to 30 |
| SoupPacket.EncoderLimit | crates/itch-soup/src/lib.rs:645-669 | The encoder sends exactly the packets whose frame is at most 1024 bytes, which are those the decoder takes |
| SoupConnection.SoupConnection.PollNext | crates/itch-soup/src/connection.rs:300-369 | One poll: silent heartbeats and debug packets, data, session end, stray packets and codec errors |
| SoupConnection.SoupConnection.DeliverSequenced | crates/itch-soup/src/connection.rs:257-267 | The counter moves on a decoded message only |
| SoupConnection.PollingSurfaces | crates/itch-soup/src/connection.rs:300-369 | Polling surfaces each event once and in order, a session end once and nothing after it; the counter moves by the number of messages delivered |
| SoupConnection.SurfacedByTag | crates/itch-soup/src/connection.rs:300-369 | What each packet becomes by the tag it travels under: silence, a message, the session end, a handshake error with its tag, or a direction error |
| SoupConnection.WireToMessages | crates/itch-soup/src/connection.rs:257-369 | From the server's packets, heartbeats and debug text included, through any cutting into reads, to exactly the sequenced messages and the right next number |
| SeqStore.RingBufferSeqStore.StoreMessage | crates/itch-source/src/impls/ring_buffer_seq_store.rs:121-151 | Idempotent repetition, conflict error, eviction of the lowest number, high-water mark |
| SeqStore.RingBufferSeqStore.Range | crates/itch-source/src/impls/ring_buffer_seq_store.rs:153-177 | Returns the longest gap-free run from the start, at most the count |
| SeqStore.RingBufferSeqStore.Earliest | crates/itch-source/src/impls/ring_buffer_seq_store.rs:186-191 | The lowest retained number |
| SeqStore.StoredContract | crates/itch-source/src/impls/ring_buffer_seq_store.rs:121-191 | In any insertion order the latest number never decreases and the newest accepted message is readable |
| SeqStore.StoredTwice | crates/itch-source/src/impls/ring_buffer_seq_store.rs:121-151 | The same message under a stored number is accepted and changes nothing; any other is refused |
| SeqStore.StoredOnce | crates/itch-source/src/impls/ring_buffer_seq_store.rs:121-151 | A new number joins wherever it falls; a full store loses its lowest number and nothing else |
| SeqStore.KeepsLast | crates/itch-source/src/impls/ring_buffer_seq_store.rs:121-151 | After any increasing numbers the store holds exactly the last `capacity` entries |
| SoupServer.SeamlessHandOff | crates/itch-soup/src/server.rs:499-614 | For every interleaving of store, broadcast, login, chunked replay and live loop in which the store does not evict a number before the replay reads it, the numbers sent are the resume number and its successors, no hole, no repetition, right contents, provided `start_sequence` does not jump ahead of what is stored |
| SoupServer.CaughtUp | crates/itch-soup/src/server.rs:580-614 | On such a run, a live subscriber that did not lag and has read its queue was sent everything from its resume number |
| SoupLive.GoneIffDeparts | crates/itch-soup/src/server.rs:580-614 | Over every run a subscriber ends disconnected if and only if it left or the live loop noticed that messages were lost; an overlap of replay and broadcast drops nobody |
| SoupLive.LaggedIffOverflows | crates/itch-soup/src/server.rs:580-614 | Messages are lost if and only if one was broadcast while the subscriber's queue was full |
| SoupLive.AcceptsWhatWasAsked | crates/itch-soup/src/server.rs:499-527 | Over every run a subscriber is accepted if and only if it logged in, and Login Accepted names the number it asked for, or the next one to be stored when it asked for zero |
| SoupLive.Drains | crates/itch-soup/src/server.rs:580-614 | A live subscriber that lost nothing reads its whole queue and stays connected |
| SoupLive.CatchesUp | crates/itch-soup/src/server.rs:580-614 | After any such run, reading the queue leaves the subscriber with exactly the log from its resume number to the end |
| SoupServer.RetentionSuffices | crates/itch-soup/src/server.rs:551-576 | Over a whole run, retention makes every moment of asking the store for more a safe one |
| SoupServer.HoleWithoutSeam | crates/itch-soup/src/server.rs:580-614 | What a live subscriber sends next is right if and only if its queue reaches back to the number it is at |
| SoupServer.SafeToReadIff | crates/itch-soup/src/server.rs:551-576 | Asking the store for more is followed by a seamless hand-off on every safe continuation if and only if the number the replay is at is stored, not stored yet or covered by the queue, or the subscriber has lagged and will be dropped |
| SoupServer.EvictedResume | crates/itch-soup/src/server.rs:551-576 | A run from the start, with no jump, on which a subscriber that asks for an evicted number is sent a later message in its place |
| SoupServer.JumpMislabels | crates/itch-soup/src/server.rs:339-384 | With a start number that jumps, a four-step run announces one number and sends another |
| SoupServer.SeamlessIffNoJump | crates/itch-soup/src/server.rs:339-384 | All runs with retention hand over seamlessly if and only if the start number is at most one above the last stored one |
| SoupResume.ExactlyOnce | crates/itch-soup/src/resilient.rs:240-298 | Over any run of connects, losses and reconnects in which the store does not evict what a replay still needs, and the server's `start_sequence` does not jump ahead of what is stored, the delivered messages are one contiguous piece of the server's log, each once, and the carried number names the next one |
| SoupResume.EvictedResume | crates/itch-soup/src/resilient.rs:342-371 | Without retention it fails: a run on which the client takes a later message for the evicted one it asked for |
| L2Book.L2Book.Apply | crates/itch-book/src/book.rs:144-196 | Every message's effect and result as a function of the book |
| L2Book.L2Book.Execute | crates/itch-book/src/book.rs:221-256 | Executions and cancels: unknown order, over-execution without change, partial and full |
| L2Book.L2Book.Replace | crates/itch-book/src/book.rs:273-300 | Removes the original and adds the new order on its side |
| L2BookLaws.AddedExact | crates/itch-book/src/book.rs:202-219 | An add keeps the levels exact if and only if its reference carries no open shares already |
| L2BookLaws.ReplacedExact | crates/itch-book/src/book.rs:273-300 | The same for the new reference of a replace |
| L2BookLaws.LevelsAreExact | crates/itch-book/src/book.rs:202-314 | Over every stream with fresh references and at most 2^32+1 open orders, every level is the exact sum of its orders and nothing saturates |
| L2BookLaws.BestPrices | crates/itch-book/src/book.rs:82-93 | With positive sizes the best bid and ask are the extreme prices of the open orders, with the exact size there, and are missing if and only if the side is empty |
| L2BookLaws.BookIsCanonical | crates/itch-book/src/book.rs:202-314 | A live, exact book is determined by its open orders |
| BookHistory.IndexIsHistory | crates/itch-book/src/book.rs:144-300 | For every stream, well formed or not, the open orders are exactly those open by their own history, told one order at a time, with their price, side and remaining shares |
| L2BookLaws.ReusedReference | crates/itch-book/src/book.rs:202-219 | A stream after which a level shows shares of no order |
| Book.TotalFits | crates/itch-book/src/book.rs:202-219 | 2^32+1 orders of u32 size are within u64 at every level |
| L3Book.L3Book.Apply | crates/itch-book/src/l3.rs:248-305 | Every message's effect and result as a function of the book |
| L3Book.L3Book.Execute | crates/itch-book/src/l3.rs:351-416 | Full executions pop the front or report a violation after the shares were cleared |
| L3Book.L3Book.Cancel | crates/itch-book/src/l3.rs:424-444 | Partial cancels keep the place in line, full ones leave from anywhere |
| L3Book.L3Book.SummaryL2 | crates/itch-book/src/l3.rs:185-218 | Whatever order the orders are visited in, the result is the price-level book they call for |
| L2BookLaws.BookOfInsert | crates/itch-book/src/l3.rs:185-218 | Adding one order turns the book of some orders into the book of all of them |
| L3BookLaws.QueuesStayValid | crates/itch-book/src/l3.rs:313-494 | After every stream with fresh references, errors included, each queue holds exactly the open orders of its price, once, oldest first, and none is empty |
| L3BookLaws.InsertedValidIff | crates/itch-book/src/l3.rs:313-343 | An add keeps queues and orders in agreement if and only if its reference is not open |
| L3BookLaws.ReplacedValidIff | crates/itch-book/src/l3.rs:462-476 | A replace does if and only if its new reference is the old one or not open |
| L3BookLaws.PositionCountsSeniors | crates/itch-book/src/l3.rs:143-150 | An order's place in line is the number of open orders at its price that arrived earlier |
| L3BookLaws.FifoViolationIff | crates/itch-book/src/l3.rs:351-416 | A full execution is refused if and only if an older order rests at the price, and the error names the oldest |
| L3BookLaws.InsertedIsLast | crates/itch-book/src/l3.rs:313-343 | A new order stands behind every open order at its price and changes nobody's place in line |
| L3BookLaws.ReplaceLosesPriority | crates/itch-book/src/l3.rs:462-476 | A replaced order keeps side and attribution, takes the new size and price, and goes to the back of the line |
| L3BookLaws.ResizedKeepsPlace | crates/itch-book/src/l3.rs:424-444 | A partial cancel or execution moves nobody in line |
| L3BookLaws.ExecutedCases | crates/itch-book/src/l3.rs:351-416 | With valid queues the defensive branches are never taken, and a full execution of the front order is a delete |
| BookHistory.QueuesAreHistory | crates/itch-book/src/l3.rs:313-476 | The same for the per-order book, and each order keeps the attribution it came with, across replaces too |
| BookRefinement.StepRelated | crates/itch-book/src/l3.rs:248-305 | On one message the two books keep the same open orders if and only if it is not a full execution of an order while an older one rests at its price, and then they return the same result |
| BookRefinement.ViolationIff | crates/itch-book/src/l3.rs:351-416 | An execution reports a queue violation if and only if it executes an order fully and out of turn |
| BookRefinement.SummaryRefines | crates/itch-book/src/l3.rs:185-218 | Over every stream with fresh references, positive sizes and no execution out of turn, the summary of the per-order book is the price-level book fed the same stream |
| BookRefinement.SameOutcome | crates/itch-book/src/l3.rs:424-444 | Both books accept and refuse the same next message |
| BookManager.BookManager.Apply | crates/itch-book/src/manager.rs:157-171 | Counter, directory and both books of the locate, the second skipped when the first refuses |
| BookManager.CountsEveryMessage | crates/itch-book/src/manager.rs:157-171 | The counter is the number of messages applied, refused ones included, and the directory has each symbol's last Stock Directory entry |
| BookManager.ListedIff | crates/itch-book/src/manager.rs:157-171 | A symbol is in the directory if and only if a Stock Directory message named it |
| BookHistory.ManagerAnswers | crates/itch-book/src/manager.rs:157-171 | Whatever the other symbols did, a message is answered with an over-execution and the shares left if it takes more than its order has, with a violation naming the order and the first in line if it executes an order fully and out of turn, and with success otherwise |
| BookManager.RoutesCoarse | crates/itch-book/src/manager.rs:157-171 | A managed price-level book has seen exactly the messages addressed to its symbol |
| BookManager.RoutesFine | crates/itch-book/src/manager.rs:157-171 | So has the per-order book: skipping it on a refusal changes nothing |
| BookManager.BooksAgree | crates/itch-book/src/manager.rs:157-171 | The two books the manager keeps for a symbol agree |
| BookManager.LoneBook | crates/itch-book/src/manager.rs:157-171 | A managed book equals, at every moment, a book pinned to the symbol and fed the whole stream, if and only if every message that changes an order of the symbol is addressed to it |
| BookManager.LoneQueueBook | crates/itch-book/src/manager.rs:157-171 | The same for the managed per-order book, where a replace of an order by itself counts as a change |
| BookManager.InertFineIff | crates/itch-book/src/l3.rs:248-305 | A message addressed elsewhere leaves a pinned per-order book alone if and only if it names no open order, moves no shares or is refused |
| BookManager.InertIff | crates/itch-book/src/book.rs:144-196 | A message addressed elsewhere leaves a pinned book alone if and only if it names no open order, moves no shares, is refused, or replaces an order by itself |
| BookManager.MisaddressedExecution | crates/itch-book/src/manager.rs:157-171 | A stream on which the two part |

## Left out

- Sockets, multicast membership, tokio tasks, wakers, mutexes and tracing: only the order of steps is modelled, and a step may happen at any time.
- Silence timers, heartbeat schedules, timeouts, backoff and jitter: a timer expiry or a timeout is an input or a step.
- Authentication and warm-up messages: logins are accepted and the warm-up is empty.
- zstd, Kafka, Redis and PostgreSQL adapters, the command-line tools, benches and conformance drivers.
- The remaining `SeqStore` implementations, source adapters and the OHLCV accumulator: wrappers and folds around what is modelled.
- Sequence numbers at the very end of u64: runs are considered while the counters have room, `arrival_seq` and replay offsets are unbounded.
- SoupText and SoupPacket: text fields are byte strings, so the replacement of invalid UTF-8 by the lossy decoder is not modelled.
- SoupConnection: what the framed socket yields after an error, and the delivery of debug packets to their channel, are left to the environment.
- SoupResume.ExactlyOnce: assumes messages that decode; a message that fails to decode is reported but not counted, so it is not covered.
- Replay: I/O errors of the reader are not modelled.
- MoldCache.RingBufferSeqStore.Lookup: the longest run is promised for increasing numbers, which the publisher provides; in an unsorted cache a binary search need not find what is there.
- BookManager.BookManager.Apply: the per-symbol books are values in a map rather than objects, because the manager owns them; aliasing is not modelled.
- Price formatting, the `Display` implementations and floating-point prices.
