# SourceSDDS in Dafny

rh.SourceSDDS receives UDP packets in the SDDS format and turns them into BulkIO streams. Two
threads do the work. The socket reader lets the kernel write packets straight into reusable
buffers; the SDDS to BulkIO processor takes full buffers, checks their order, time tags and stream
description, swaps their bytes and writes them out. The buffers circulate: empty pool, reader's
queue, full pool, processor's work queue, recycle queue, empty pool.

The project models both threads and what they share, and proves what the component is for: the
packets received come out once, in order and intact, with drops and time slips counted exactly.

| files | content |
|---|---|
| `SequenceCounter`, `SddsTime`, `ByteOrder`, `SddsPacket`, `TimeStamp` | 16-bit frame numbers that skip parity slots, 96-bit times, memory and byte order, packet accessors, BulkIO time stamps |
| `SlipDetector`, `Processor` | the processor as functions on a state: one loop pass, `processPackets`, runs of passes and upstream SRI events |
| `ProcessorObject`, `SmartPacketBuffer`, `SocketReader` | the classes as they are, updating fields, queues, pointer arrays and payload bytes in place, proved against those functions and against the protocol's steps |
| `Segments`, `Sequences`, `Payloads`, `Announcements`, `Positions`, `Drops`, `Anchors`, `HalfRate`, `Livelock` | properties of every run of the processor |
| `SriKeywords`, `UpstreamSri`, `Restarts` | what the keywords of an upstream SRI ask for, what it does from when it is set or unset to the next event, and one run of the thread after another |
| `Folding`, `OwnStreams`, `Slips` | runs without upstream SRIs as a fold over packets, and what that decides exactly: which SRI governs which data, and how many slips are counted |
| `PoolProtocol`, `Deadlock` | the buffer protocol of both threads as a transition system, every interleaving |
| `Streaming`, `Progress`, `EndToEnd` | protocol and processor together: refinement, progress, and the processor's properties for the whole component |
| `Rounds`, `ProcessorRounds` | the processor object's loop body as a run of the component |
| `Examples` | streams that show what is not guaranteed |
| `Bits`, `Affinity`, `Routes`, `Arithmetic` | bitwise operators, CPU masks, route selection, division |

How to read it: the methods of a class state their whole new state as a function of the old one
(`State() == Offer(old(State()), ...)`); what that function guarantees is proved in the lemmas. The
main theorems are those named first in each block of the table below. `dafny verify dfyconfig.toml`
checks everything.

## Assumptions

- Doubles are reals and the clock unit is exactly 125 MHz / 2^63. An infinite sample period (header
  rate zero) is a value of its own.
- After 31 is mapped to 32, the sample width is zero or at least 8: below that `updateExpectedXdelta`
  divides by zero (`SddsToBulkIOProcessor.cpp:196`).
- The host is little-endian.
- Packets per read and packets per push are at least one; the pool is not shutting down.
- The exact slip counts and SRI conditions of `Slips` and `OwnStreams` are for runs in which no
  upstream SRI is set or unset.
- The clock, read when the year rolls over, is an argument of each pass. An upstream SRI event
  happens between two passes.
- A wait on a condition variable is a step that is not enabled, or a call that answers that it
  would block.

## What the code does not guarantee

- A packet with header rate zero is offered again for ever: `Livelock.StarvesIff` has the exact
  condition.
- The two threads block each other for good if and only if the pool is smaller than packets per
  read plus packets per push less one: `Deadlock.DeadlockIff`.
- A loss of exactly a whole number of 63488-packet cycles is not noticed, and of a longer one the
  counter sees the remainder of 65536, so a run's drops are all counted if and only if every gap is
  shorter than a cycle: `SequenceCounter.WireCollision`, `Drops.DropsAccountedIff`.
- A change of the SRI is pushed only on the port of the current sample width, so data can go out on
  another port under an outdated sample period: `OwnStreams.WidthChangeGoesStale` is such a stream.
  `OwnStreams.OwnStreamsCurrentIff` says exactly when it happens: a packet changes the width and
  says the same as the packet before it, while the last packet of its own width, or the very first
  packet if there was none, said something else. What a packet says is its mode and its header's
  period, or half of it once the device is known to be non-conforming. With one width it cannot
  happen (`OneWidthIsGoverned`, `OneWidthIsNeverStale`), nor if all packets say the same
  (`OneContentIsNeverStale`). One period and mode in all headers are enough only if no device can be
  found non-conforming, that is if no complex packet has a time tag (`OneHeaderIsNeverStale`):
  `Examples.AdaptedWidthChangeGoesStale` is a half-rate device that shows it.
- A packet that continues a sequence is written at the width of the packet that began it, even if
  its own header gives another: `Payloads.WidthChangeIsMissed` is such a stream. All payloads of a
  run are written at their own width if and only if no packet that continues a sequence changes it:
  `Payloads.OwnWidthsIff`.
- An upstream SRI that differs from the current one only in what is not compared, such as sample
  period, mode or keyword names, is ignored even if it claims priority: `UpstreamSris.SetIsIgnored`.
- After the upstream SRI is unset the identifier is the default one again, but open streams are not
  opened anew and keep the old identifier until an SRI is pushed: `UpstreamSris.UnsetReturnsToHeader`.
- A packet without a valid time tag between two tagged ones of a sequence, or a loss of whole cycles,
  costs a time slip although the stream is exactly steady, because the time last seen is kept:
  `Examples.UntaggedCostsASlip` is such a stream, `Slips.SlipsAreCosts` the exact count with and
  without the adaptation to half-rate devices, and `Slips.SlipsIff` when it is zero. Time that goes
  back costs none: `Anchors.BackwardsIsNoSlip`, `Examples.NewYearCostsNothing`.
- For a device that announces half its rate the log message at `SddsToBulkIOProcessor.cpp:276-278`
  promises an adjusted output SRI. It follows only up to 10 MHz: `HalfRate.AdaptedSriPushedIff`.
- Where comments and code differ the model follows the code: `orderIsValid` does not advance the
  expected number (`SddsToBulkIOProcessor.cpp:209`), `push_full_buffers` clears only what it pushes
  (`SmartPacketBuffer.h:172-173`), and the reader's buffers are dropped, not put back, once the pool is
  shutting down (`SocketReader.cpp:296`).

## Model

| member | source | states |
|---|---|---|
| PoolProtocol.ZeroCopyOwnership | cpp/SocketReader.cpp:232-267 | in every reachable state of every interleaving: when the socket is read, pointer i is buffer i of the reader's queue and no pointed-to buffer is in the pool or with the processor; the five queues are duplicate-free, disjoint and hold exactly the C buffers; consumed ++ in transit is what was received |
| PoolProtocol.BytesStableInTransit | cpp/SmartPacketBuffer.h:176-257 | from reception to consumption no step of either thread, nor the kernel, changes a packet's bytes, except the processor's own step on the front packet |
| PoolProtocol.DoKeepsInv | cpp/SmartPacketBuffer.h:137-257 | each locked section and each thread-local step keeps conservation, pointer alignment, FIFO order and batch sizes |
| PoolProtocol.RunKeepsInv | cpp/SddsToBulkIOProcessor.cpp:152-160 | so does every run, of any length and interleaving |
| PoolProtocol.Exclusive | cpp/SmartPacketBuffer.h:137-257 | conservation means one owner for each buffer: no queue repeats a buffer and no two share one |
| PoolProtocol.WriteReaches | cpp/SocketReader.cpp:250-258 | a read of n packets writes packet i where pointer i points and changes no other buffer |
| PoolProtocol.ReceiveKeepsFifo | cpp/SocketReader.cpp:250-258 | a read extends the sequence received without disturbing packets not yet consumed |
| PoolProtocol.ConsumeKeepsFifo | cpp/SddsToBulkIOProcessor.cpp:428-430 | consuming takes the oldest packet, and rewriting its payload disturbs no other |
| Deadlock.DeadlockIff | cpp/SmartPacketBuffer.h:144-223 | both threads can wait for each other for good if and only if C < R + P - 1 |
| Deadlock.DeadlockedIffStuck | cpp/SmartPacketBuffer.h:282-285 | reader blocked and processor blocked is exactly the state in which no step is enabled |
| Deadlock.BlockedMeansFewOutstanding | cpp/SmartPacketBuffer.h:216-223 | while the processor waits, fewer than P packets are unprocessed |
| Deadlock.TooFewBuffersDeadlock | cpp/SmartPacketBuffer.h:144-148 | below the bound an explicit run leads to the deadlock |
| Progress.RunsAreBounded | cpp/SddsToBulkIOProcessor.cpp:152-160 | with positive rates no interleaving takes more than 24 moves per packet received, 5 per upstream event and 3 besides |
| Progress.QuiescentMeansCaughtUp | cpp/SmartPacketBuffer.h:282-285 | with enough buffers, when only the network or a caller can move, the reader is at the socket and fewer than P packets are unconsumed |
| Progress.MoveSpends | cpp/SddsToBulkIOProcessor.cpp:304-441 | every move of the component's own lowers one potential, early returns and empty rounds included |
| Streaming.SystemRunIsProcessorRun | cpp/SddsToBulkIOProcessor.cpp:142-160 | whatever the interleaving, the processor acts as if the received stream were offered to it directly |
| Streaming.MoveKeepsSysInv | cpp/SddsToBulkIOProcessor.cpp:142-160 | what the processor's pass decides is always a step the protocol allows |
| EndToEnd.ReceivedPacketsAreWritten | cpp/SddsToBulkIOProcessor.cpp:304-441 | over any run of the component the payloads written are those of the packets consumed so far, in the order received, once each, less those wait-on-TTV skips; each is written at the width, 8, 16 or 32, that the five-bit field of the packet which began its sequence stands for, with all samples of that width as declared and the time intact, in the year set up or one the clock has said |
| EndToEnd.ComponentWidthsIff | cpp/SddsToBulkIOProcessor.cpp:212-222 | they are all written at their own packet's width if and only if no packet consumed that continues a sequence changes it |
| EndToEnd.ComponentStampsInOneYear | cpp/SddsToBulkIOUtils.cpp:77-97 | with packet times that do not go backwards, all in the year set up |
| EndToEnd.OutputSegmentsIntact | cpp/SddsToBulkIOProcessor.cpp:312-345 | segment integrity of the whole component's output |
| EndToEnd.ComponentDrops | cpp/SddsToBulkIOProcessor.cpp:212-237 | with gaps shorter than a cycle the component's drop counter equals the sum of the gaps, each counted once |
| EndToEnd.ComponentDropsIff | cpp/SddsToBulkIOProcessor.cpp:226-234 | once all is consumed it holds the packets missing and the parity slots among them, if that fits 64 bits, if and only if every gap is shorter than a cycle |
| EndToEnd.ComponentCountsNoSlips | cpp/SddsToBulkIOProcessor.cpp:246-298 | whatever SRIs arrive, the component counts no slip on a stream at its header's step, or a complex one at half of it, whose untagged packets and unnoticed losses leave the tagged packets tight |
| EndToEnd.ComponentSlips | cpp/SddsToBulkIOProcessor.cpp:246-298 | given no upstream SRI, its slips on such a stream, tight or not, are the packets consumed that cost one, so none if and only if none does |
| EndToEnd.ComponentDriftSlips | cpp/SddsToBulkIOProcessor.cpp:246-298 | given no upstream SRI, its slips under a constant error d are one for each packet measured by more than one step and one for each floor(tol/abs(d)) + 1 others of a stretch between such |
| EndToEnd.ComponentOwnStreamsIff | cpp/SddsToBulkIOProcessor.cpp:447-464 | given no upstream SRI, and periods, halved or not, that are equal or can be told apart, its data goes out under the SRI of its own stream if and only if no packet consumed is stale |
| EndToEnd.ComponentSriGovernsData | cpp/SddsToBulkIOProcessor.cpp:352-381 | the component's streams are used only while open, and without upstream priority data goes out under an SRI its own header confirms, at half the period if and only if the device was known to be non-conforming when the packet came; once known it stays so |
| EndToEnd.ComponentSetIsTaken | cpp/SddsToBulkIOUtils.cpp:186-243 | the component after an upstream SRI that differs is set, until the next event: the same as SetIsTaken, in every interleaving |
| EndToEnd.ComponentUnset | cpp/SddsToBulkIOProcessor.cpp:547-553 | the component after it is unset, until one is set again: the same as UnsetReturnsToHeader, in every interleaving |
| EndToEnd.ComponentWritesAsDeclared | cpp/SddsToBulkIOProcessor.cpp:394-421 | a stream of one width comes out at that width and is converted from the byte order set up unless upstream declares another |
| SocketReaders.SocketReader.Prime | cpp/SocketReader.cpp:232-233 | the initial fill is the protocol's Prime step, and blocks exactly when that is not enabled |
| SocketReaders.SocketReader.PointAll | cpp/SocketReader.cpp:235-245 | the loop over all pointers is the protocol's Point step |
| SocketReaders.SocketReader.Repoint | cpp/SocketReader.cpp:263-267 | the loop points the first n pointers at the first n buffers and keeps the rest |
| SocketReaders.SocketReader.AfterRead | cpp/SocketReader.cpp:254-267 | after a read of n the code takes the protocol's Push, Refill and Repoint steps, or waits between the first two |
| SocketReaders.SocketReader.RefillAndRepoint | cpp/SocketReader.cpp:260-267 | woken again, it takes the Refill and Repoint steps as soon as enough buffers are empty |
| SocketReaders.SocketReader.SetPktsPerRead | cpp/SocketReader.cpp:83-89 | refused while running |
| SocketReaders.RepointingTheFirstIsEnough | cpp/SocketReader.cpp:263-267 | repointing a prefix realigns all pointers because refills go in front; behind, it would do so only if nothing or everything was read |
| SmartPacketBuffers.ExchangesConserve | cpp/SmartPacketBuffer.h:137-257 | no pool operation creates, loses or duplicates a buffer, and a fill reaches the wanted length |
| SmartPacketBuffers.PushThenTakeIsFifo | cpp/SmartPacketBuffer.h:176-226 | a push and a take keep the order of work, full and pending buffers |
| SmartPacketBuffers.SmartPacketBuffer.Initialize | cpp/SmartPacketBuffer.h:78-88 | the empties are the new buffers; the full ones are left alone |
| SmartPacketBuffers.SmartPacketBuffer.ShutDown | cpp/SmartPacketBuffer.h:101-113 | both queues are emptied and nobody waits any more |
| SmartPacketBuffers.SmartPacketBuffer.PopEmptyBuffers | cpp/SmartPacketBuffer.h:137-156 | blocks exactly while too few are empty; then the oldest empties go in front of what the reader holds |
| SmartPacketBuffers.SmartPacketBuffer.PushFullBuffers | cpp/SmartPacketBuffer.h:176-188 | the first num buffers join the full queue; during shutdown they are dropped |
| SmartPacketBuffers.SmartPacketBuffer.PopFullBuffers | cpp/SmartPacketBuffer.h:210-226 | blocks exactly while too few are full; then the oldest go behind what the processor holds |
| SmartPacketBuffers.SmartPacketBuffer.RecycleBuffers | cpp/SmartPacketBuffer.h:246-257 | all buffers go to the end of the empties; during shutdown they are dropped |
| Payloads.PayloadsWritten | cpp/SddsToBulkIOProcessor.cpp:304-441 | over every run, early returns and upstream events included, the writes are the kept packets, once each, in order, each at the width that the header field (8, 16, or 31 for 32) of the packet which began its sequence stands for, the samples filling the payload and converted exactly once, and times split exactly, in the starting year or one the clock has said |
| Payloads.OwnWidthsIff | cpp/SddsToBulkIOProcessor.cpp:212-222 | every payload of a run is written at the width its own header field stands for if and only if no packet consumed that continues a sequence changes the field |
| Payloads.WidthChangeIsMissed | cpp/SddsToBulkIOProcessor.cpp:212-222 | a stream of two packets of which the second is written at the width of the first, in every run that consumes it, and there is one |
| Sequences.WidthsHoldIff | cpp/SddsToBulkIOProcessor.cpp:212-222 | no packet that continues a sequence changes the field if and only if every packet has that of the one which began its sequence |
| Processor.FieldGivesWidth | cpp/SddsToBulkIOUtils.cpp:119-125 | a field of 8, 16 or 31 gives the one of the widths 8, 16 and 32 that is at most 7 above it |
| Sequences.PassKeepsStep | cpp/SddsToBulkIOProcessor.cpp:212-237 | a pass keeps the tracker in step with the stream, and what it consumes it processes at the width of its sequence |
| Payloads.OfferWrites | cpp/SddsToBulkIOProcessor.cpp:394-425 | a pass writes exactly the packet it consumes, at the width of the sequence's first packet, in the declared byte order, in the year the pass leaves and with what was known of the device before the packet's own slip check; it leaves what it wrote in the buffer, and any other packet's payload as it was |
| Payloads.WrittenAsDeclared | cpp/SddsToBulkIOProcessor.cpp:394-421 | a stream of one width, from any state: all writes have that width and the byte order that stays declared |
| Payloads.StampedInOneYear | cpp/SddsToBulkIOUtils.cpp:77-97 | while packet times do not go backwards every payload of a run is stamped with its time in the year the processor started in |
| Payloads.OfferKeepsYear | cpp/SddsToBulkIOUtils.cpp:90-94 | a pass takes the clock's year if and only if it delivers a packet whose time is before the last one tracked |
| Payloads.DeliveredSamples | cpp/SddsToBulkIOProcessor.cpp:399-421 | what the host reads after conversion is what the payload says in the declared order |
| Segments.SegmentIntegrity | cpp/SddsToBulkIOProcessor.cpp:312-345 | writes with no flush or close between them carry consecutive frame numbers and one width; push-on-TTV: equal time-tag flags; wait-on-TTV: both set |
| Segments.OfferKeepsSegments | cpp/SddsToBulkIOProcessor.cpp:304-441 | every pass keeps that, whatever packet is offered |
| Segments.StopKeepsSegments | cpp/SddsToBulkIOProcessor.cpp:163-181 | so does the end of a run, so it holds across restarts |
| Restarts.RunAgain | cpp/SddsToBulkIOProcessor.cpp:142-181 | after a run the streams are closed and the thread expects a first packet of a conforming device, counters kept; a further run with other options, byte order and packets opens the streams before anything else and adds writes that are its own packets, once each, in order, at their width, in intact segments, under SRIs their headers confirm |
| Announcements.SriGovernsData | cpp/SddsToBulkIOProcessor.cpp:352-381 | streams are never opened twice nor used while closed, the SRI last announced is the current one, and without upstream priority every payload is written under one that agrees with its header, at half the period if and only if the device was known to be non-conforming when the packet came; once known it stays so |
| Announcements.OneWidthIsGoverned | cpp/SddsToBulkIOProcessor.cpp:447-463 | with one sample width the same holds of the stream the payload is written to |
| SriKeywords.ReadKeywords | cpp/SddsToBulkIOUtils.cpp:213-236 | the loop over the keywords of an upstream SRI: upstream takes priority if it had it or any keyword asks for it, and the byte order is the one declared or else the one before |
| SriKeywords.LastDeclares | cpp/SddsToBulkIOUtils.cpp:221-232 | the order declared is what the value of the last `dataRef` or `DATA_REF_STR` names, big-endian for an unknown value, and none without such a keyword |
| UpstreamSris.SetIsTaken | cpp/SddsToBulkIOUtils.cpp:186-243 | in any run, after an upstream SRI is set whose compared values or identifier differ, every payload to the next event goes out under an announced SRI with its identifier, its values as stored and its copied fields, with its period and mode if it or one before it has priority and else with those its header confirms, in the byte order declared or, if none is, the one before; once a packet was delivered that is the current SRI, and the streams were opened anew, after being closed if open, exactly if the identifier is new or they were not open |
| UpstreamSris.SetIsIgnored | cpp/SddsToBulkIOUtils.cpp:154-184 | one that differs in neither changes nothing, not even byte order or priority |
| UpstreamSris.SriUntilNextEvent | cpp/SddsToBulkIOProcessor.cpp:352-381 | from any moment of any run to the next event: what is then waiting, or the current SRI if nothing is, is what all payloads go out under, and once one is delivered it is the state |
| UpstreamSris.UnsetReturnsToHeader | cpp/SddsToBulkIOProcessor.cpp:541-553 | in any run, after the upstream SRI is unset and until one is set, the identifier is the default one, every payload is converted from big-endian and goes out under an SRI its own header confirms, open streams stay open, and a packet is held back for ever if and only if its clock field is zero and it is not skipped, whatever upstream decided before |
| HalfRate.HeaderAgreesIff | cpp/SddsToBulkIOUtils.cpp:133-152 | a header confirms an SRI if and only if its rate is not zero, the period times the rate, doubled for a non-conforming device, is one up to 50 ns times that rate, and the modes agree |
| OwnStreams.OwnStreamsCurrentIff | cpp/SddsToBulkIOProcessor.cpp:447-464 | without upstream events, and with periods, halved or not, that are equal or can be told apart, every payload of a run is written under an agreeing SRI of its own stream if and only if no packet changes the width and says the same as the one before it while its own width's last packet, or the first of all, said something else; a packet says its mode and its period, halved once the device is known |
| OwnStreams.OwnStreamsFollow | cpp/SddsToBulkIOProcessor.cpp:447-482 | the same without any condition on the periods, in terms of the SRI that each packet leaves on each stream |
| OwnStreams.AllAgreeIff | cpp/SddsToBulkIOUtils.cpp:133-152 | up to the first stale packet each stream carries what its last packet said, so all agree if and only if none is stale |
| OwnStreams.OneWidthIsNeverStale | cpp/SddsToBulkIOProcessor.cpp:447-464 | one width is enough |
| OwnStreams.OneContentIsNeverStale | cpp/SddsToBulkIOProcessor.cpp:447-464 | so is that all packets say the same, halved periods included |
| OwnStreams.OneHeaderIsNeverStale | cpp/SddsToBulkIOProcessor.cpp:447-464 | one rate and mode in the headers is enough if no complex packet has a time tag |
| Slips.FlagIsKnown | cpp/SddsToBulkIOProcessor.cpp:271-283 | on streams at the header's step or half of it what is known of the device at a packet can be read off the tags and numbers before it |
| Examples.AdaptedWidthChangeGoesStale | cpp/SddsToBulkIOProcessor.cpp:376-381 | four tagged complex packets of one rate and mode: the halved period goes to the 16-bit stream only, and the 8-bit packet goes out under twice the true one, in every run that consumes them, and there is one |
| OwnStreams.WidthChangeGoesStale | cpp/SddsToBulkIOProcessor.cpp:447-464 | a stream of three packets that fails: every run that consumes it, and there is one, writes the last under the period announced when the streams were opened |
| Folding.RunIsFold | cpp/SddsToBulkIOProcessor.cpp:304-441 | without upstream events the detector and the SRI after k packets are a fold over them, however often each was held back, and one step of it further while the next is |
| Folding.PassInLine | cpp/SddsToBulkIOProcessor.cpp:304-441 | what each pass over packet k does to that, and why it holds the packet back |
| Announcements.OfferAnnounces | cpp/SddsToBulkIOProcessor.cpp:466-477 | every pass keeps the stream discipline and the announcement current |
| Drops.DropAccounting | cpp/SddsToBulkIOProcessor.cpp:212-237 | on a channel that only loses packets, with gaps shorter than a cycle, each gap is counted once; in the end the counter is packets missing plus parity slots among them, modulo 2^64 |
| Drops.TotalCountsPacketsAndParity | cpp/SddsToBulkIOProcessor.cpp:508-515 | the total is missing packets plus the indices at which a parity slot was stepped over |
| Drops.LosslessReportsNothing | cpp/test_utils/sddsShooter.c:149-160 | sender and receiver in lockstep: a complete stream never reports a drop, across any number of wraps |
| Drops.CounterIsReported | cpp/SddsToBulkIOProcessor.cpp:226-234 | whatever is lost, the counter is the sum of the 16-bit differences found, each once |
| Drops.DropsAccountedIff | cpp/SddsToBulkIOProcessor.cpp:226-234 | once all is consumed the counter equals the total, if that fits 64 bits, if and only if every gap is shorter than a cycle |
| Drops.PassKeepsDrops | cpp/SddsToBulkIOProcessor.cpp:324-331 | one pass neither counts a difference twice nor misses it |
| Positions.ExpectedIffNoneMissing | cpp/SddsToBulkIOProcessor.cpp:226-234 | the front packet carries the expected number if and only if nothing is missing before it, up to whole cycles |
| SequenceCounter.WireBijection | tests/Sdds.py:62-74 | numbers of one 63488-packet cycle are exactly the 16-bit values other than 31 modulo 32, once each |
| SequenceCounter.InOrderClosedForm | cpp/SddsToBulkIOProcessor.cpp:432-437 | k steps from the number of packet j give the number of packet j + k, n + n/31 modulo 65536 |
| SequenceCounter.WireCollision | cpp/SddsToBulkIOProcessor.cpp:432-437 | two packets carry the same number if and only if their indices agree modulo 63488 |
| SequenceCounter.GapReportedIff | cpp/SddsToBulkIOProcessor.cpp:229-232 | the 16-bit difference is the gap (g-h) + (g/31 - h/31) if and only if the gap is shorter than a cycle |
| SequenceCounter.GapCountsPacketsAndParity | cpp/SddsToBulkIOProcessor.cpp:508-515 | a gap in frame numbers is the packets in it plus the parity slots counted one by one |
| SequenceCounter.SuccessorOfWire | cpp/SddsToBulkIOProcessor.cpp:432-437 | the receiver's step over the parity slot is the next packet's number |
| SequenceCounter.Send | cpp/test_utils/sddsShooter.c:149-160 | the sender's loop puts the number of packet i on the i-th packet |
| Livelock.StarvesIff | cpp/SddsToBulkIOProcessor.cpp:324-381 | without upstream events a packet is held back for ever if and only if its rate is zero, it is not skipped, and no upstream SRI with priority decides |
| Livelock.HeldAtMostTwicePlusEvents | cpp/SddsToBulkIOProcessor.cpp:324-381 | with a positive rate it is held back at most twice, and once more for each upstream event that arrives meanwhile |
| Livelock.BoundIsAttained | cpp/SddsToBulkIOProcessor.cpp:324-381 | that bound is exact for every number of events, in states that runs from the start reach |
| Livelock.ThreePassesEach | cpp/SddsToBulkIOProcessor.cpp:324-381 | with positive rates and no events three passes for each packet consume the stream |
| Livelock.HeldPassSettles | cpp/SddsToBulkIOUtils.cpp:133-152 | a pass that holds back a packet with a positive rate removes one of the at most two reasons to do so: its order or its SRI |
| HalfRate.SteadyCountsNoSlips | cpp/SddsToBulkIOProcessor.cpp:246-298 | a real or complex stream at its header's step, or a complex one at half of it, whose time may go back any number of times, counts no slip under any losses and any upstream SRIs, if its untagged packets and unnoticed losses leave the tagged packets tight; the expected step stays halved once adapted |
| HalfRate.AllTaggedIsTight | cpp/SddsToBulkIOProcessor.cpp:312-322 | they do if every packet has a valid time tag or is skipped by wait-on-TTV, and no loss is a whole number of cycles |
| Slips.SlipsAreCosts | cpp/SddsToBulkIOProcessor.cpp:246-298 | without upstream events the slips of such a stream, under any losses, with any packets untagged and wherever time goes back, are the packets measured by more than one step; at half the step by more than two until one is measured by other than two, and from then on by other than one if that was one, the packet that decided excepted as an anchor up to 10 MHz where the SRI push forgets it, and by other than two if it was more |
| Slips.SlipsIff | cpp/SddsToBulkIOProcessor.cpp:246-298 | so it has counted none if and only if no packet consumed costs one |
| Slips.SlipsAreLoosePackets | cpp/SddsToBulkIOProcessor.cpp:246-298 | at the header's step the slips are exactly the packets measured against an older one than the one before them |
| Examples.UntaggedCostsASlip | cpp/SddsToBulkIOProcessor.cpp:250-262 | a stream that is exactly steady and counts one, its middle packet having no time tag |
| Anchors.BackwardsIsNoSlip | cpp/SddsToBulkIOProcessor.cpp:265-269 | a packet in sequence whose time is before the last one's changes neither slips, accumulated error, steps, rate nor what is known of the device; it is what the next ones are measured against, and the clock is read again |
| Examples.NewYearCostsNothing | cpp/SddsToBulkIOProcessor.cpp:265-269 | a steady stream whose time begins anew at the second packet counts no slip in any run, and the third is measured against the second |
| Slips.DriftSlips | cpp/SddsToBulkIOProcessor.cpp:246-298 | with a constant error d over a whole run, losses, untagged packets, times that go back and early returns included, a packet measured by more than one step is a slip, each stretch of n others between such makes n over floor(tol/abs(d)) + 1, and the accumulator holds the remainder of the last times d |
| Slips.OneStretch | cpp/SddsToBulkIOProcessor.cpp:288-293 | if all are measured by one step there is one stretch, of all packets measured |
| HalfRate.TrueStepAdapts | cpp/SddsToBulkIOProcessor.cpp:271-293 | m true steps at once: one is accepted or triggers the adaptation and then fits exactly, two halves pass for a whole before it, anything else is one slip |
| HalfRate.AdaptedSriPushedIff | cpp/SddsToBulkIOUtils.cpp:133-144 | the halved sample period counts as a change if and only if the header rate is at most 10 MHz |
| HalfRate.SameXdeltaIff | cpp/SddsToBulkIOUtils.h:50-52 | two sample periods compare equal if and only if they are closer than 50 ns |
| SlipDetector.SteadyErrorSlips | cpp/SddsToBulkIOProcessor.cpp:246-298 | with a constant error d of at most a sample period, n packets give n / (floor(tol/abs(d)) + 1) slips and leave the remainder times d |
| SlipDetector.PeriodIs | cpp/SddsToBulkIOProcessor.cpp:288-293 | floor(tol/abs(d)) + 1 is the least number of errors that exceeds the tolerance |
| SlipDetector.StepWindow | cpp/SddsToBulkIOProcessor.cpp:188-205 | an error of up to a sample period stays inside the window of the expected step |
| SlipDetector.SlipInSamples | cpp/SddsToBulkIOProcessor.cpp:271-297 | for any step forwards, counted in sample periods of which 8192 bits make a packet: a slip if and only if it is off by more than one and twice the step does not fit a first-time half-rate device, or the errors add up past the tolerance, which clears them |
| TimeStamps.StampIsExact | cpp/SddsToBulkIOUtils.cpp:77-97 | whole seconds after the start of the year, a fraction in [0,1), together the packet's time exactly; the clock is read exactly if time ran backwards |
| TimeStamps.StampsKeepOrder | cpp/sddspacket.h:105-114 | within a year, stamps compare as the times do |
| SddsTimes.PlusAddsModulo | cpp/sddspacket.h:147-153 | addition with carry is addition modulo 2^96 |
| SddsTimes.MinusSubtractsModulo | cpp/sddspacket.h:156-166 | subtraction with borrow is subtraction modulo 2^96, for all operands |
| SddsTimes.PlusThenMinus | cpp/sddspacket.h:147-166 | (a + b) - b is a |
| SddsTimes.MinusThenPlus | cpp/sddspacket.h:147-166 | (a - b) + b is a |
| SddsTimes.LessIsNumeric | cpp/sddspacket.h:105-114 | the order on the two fields is the order of the numbers and of the seconds |
| SddsTimes.TimeCell.AddInPlace | cpp/sddspacket.h:128-133 | the in-place operator agrees with the binary one, also when both operands are the same object |
| SddsTimes.TimeCell.SubtractInPlace | cpp/sddspacket.h:136-145 | likewise for subtraction |
| SddsPackets.RateRoundTrip | cpp/sddspacket.h:243-262 | reading back a rate gives it rounded down by less than one unit, times 16 if wide, halved if complex; the field fits 63 bits exactly below 2 GHz |
| SddsPackets.RateLaws | cpp/sddspacket.h:240-249 | the rate is proportional to the field, 2^63 is 125 MHz, wide headers count sixteen times and complex ones half |
| SddsPackets.FreqField | cpp/sddspacket.h:261 | the field is the largest whose clock does not exceed the rate |
| SddsPackets.Swap8 | cpp/sddspacket.h:41-52 | the number that the eight bytes in memory spell, most significant first, and back |
| SddsPackets.NetReverses | cpp/sddspacket.h:41-52 | conversion of 16, 32 and 64-bit words reverses their bytes in memory |
| SddsPackets.SddsPacket.HeaderSpells | cpp/sddspacket.h:211-249 | the accessors return what the bytes of the raw fields spell, most significant first |
| SddsPackets.WithTtv | cpp/sddspacket.h:222-225 | setting the time-tag-valid bit keeps every other bit |
| SddsPackets.SddsPacket.SetRate | cpp/sddspacket.h:251-262 | the fields in network order change as the rate asks and no header field else |
| SddsPackets.SddsPacket.SetSeq | cpp/sddspacket.h:211-212 | reading the number back returns it, and no other header field changes |
| SddsPackets.SddsPacket.SetTtv | cpp/sddspacket.h:222-225 | likewise for the flag, the other bits of its word kept |
| SddsPackets.SddsPacket.SetTime | cpp/sddspacket.h:231-239 | likewise for the time |
| ByteOrder.SwappedSamples | cpp/SddsToBulkIOProcessor.cpp:399-421 | what the host reads from the swapped payload is the samples most significant byte first |
| ByteOrder.SampleSpells | cpp/SddsToBulkIOProcessor.cpp:394-421 | sample k of a payload is what its own one, two or four bytes spell, most significant first or last as the order says |
| ByteOrder.SwappedTwice | cpp/SddsToBulkIOProcessor.cpp:399-421 | swapping a payload twice returns it |
| ByteOrder.SwapInvolution | cpp/sddspacket.h:41-52 | byte reversal of a word of any size reverses its bytes in memory and undoes itself |
| ByteOrder.SwapSpells | cpp/sddspacket.h:41-52 | its result is what the memory spells, most significant byte first |
| ByteOrder.MemoryDigit | cpp/sddspacket.h:170 | on the host byte i in memory is the digit worth 256 to the i |
| ByteOrder.SwapShorts | cpp/SddsToBulkIOProcessor.cpp:401-403 | the in-place swap of 16-bit samples reverses each pair of the old bytes |
| ByteOrder.SwapWords | cpp/SddsToBulkIOProcessor.cpp:410-415 | the loop over 32-bit words reverses the four bytes of each, once |
| Processor.ProcessIsRun | cpp/SddsToBulkIOProcessor.cpp:304-441 | however the stream is cut into work queues, a call of processPackets is the same run of passes over it |
| ProcessorObject.SddsToBulkIOProcessor.constructor | cpp/SddsToBulkIOProcessor.cpp:32-58 | the object starts in the state all runs start from |
| ProcessorObject.SddsToBulkIOProcessor.SetPktsPerRead | cpp/SddsToBulkIOProcessor.cpp:80-95 | the wanted count, or the largest that fits one transfer; refused while running |
| ProcessorObject.SddsToBulkIOProcessor.SetWaitForTtv | cpp/SddsToBulkIOProcessor.cpp:116-122 | refused while running |
| ProcessorObject.SddsToBulkIOProcessor.SetPushOnTtv | cpp/SddsToBulkIOProcessor.cpp:128-135 | refused while running |
| ProcessorObject.SddsToBulkIOProcessor.SetEndianness | cpp/SddsToBulkIOProcessor.cpp:587-599 | refused while running or for an unknown name |
| ProcessorObject.SddsToBulkIOProcessor.SetUpstreamSri | cpp/SddsToBulkIOProcessor.cpp:534-539 | is the upstream event of the model |
| ProcessorObject.SddsToBulkIOProcessor.UnsetUpstreamSri | cpp/SddsToBulkIOProcessor.cpp:547-553 | likewise |
| ProcessorObject.SddsToBulkIOProcessor.UpdateExpectedXdelta | cpp/SddsToBulkIOProcessor.cpp:188-205 | sets the three steps of the detector, or none if the width is zero |
| ProcessorObject.SddsToBulkIOProcessor.OrderIsValid | cpp/SddsToBulkIOProcessor.cpp:212-237 | takes the first packet of a sequence, accepts the expected one, and on a gap counts the 16-bit difference and starts anew |
| ProcessorObject.SddsToBulkIOProcessor.CheckForTimeSlip | cpp/SddsToBulkIOProcessor.cpp:246-298 | the fields change as the detector's step says |
| ProcessorObject.SddsToBulkIOProcessor.FlushOutputs | cpp/SddsToBulkIOProcessor.cpp:316-320 | the streams are flushed if they exist |
| ProcessorObject.SddsToBulkIOProcessor.CreateOutputStreams | cpp/SddsToBulkIOProcessor.cpp:466-482 | open streams are closed before new ones are opened with the current SRI |
| ProcessorObject.SddsToBulkIOProcessor.PushTheCurrentSri | cpp/SddsToBulkIOProcessor.cpp:447-464 | pushes on the port of the current width, on none if the width has no port |
| ProcessorObject.SddsToBulkIOProcessor.TakeUpstreamSri | cpp/SddsToBulkIOUtils.cpp:154-243 | a waiting upstream SRI is merged at most once, and only if a compared field differs, with the fields that are only copied, the keyword values as stored, its priority and its byte order |
| ProcessorObject.SddsToBulkIOProcessor.MergeSddsSri | cpp/SddsToBulkIOUtils.cpp:133-152 | reports a change if and only if the header and the SRI disagree |
| ProcessorObject.SddsToBulkIOProcessor.UpdateTheSri | cpp/SddsToBulkIOProcessor.cpp:352-375 | both merges and the creation of missing streams |
| ProcessorObject.SddsToBulkIOProcessor.StampAndCheck | cpp/SddsToBulkIOProcessor.cpp:388-391 | the stamp is taken against the last time before the slip check replaces it |
| ProcessorObject.SddsToBulkIOProcessor.WriteThePacket | cpp/SddsToBulkIOProcessor.cpp:394-425 | swaps in place if need be and writes on the stream of the width |
| ProcessorObject.SddsToBulkIOProcessor.AdvanceCounter | cpp/SddsToBulkIOProcessor.cpp:432-437 | steps to the next frame number over the parity slot |
| ProcessorObject.SddsToBulkIOProcessor.DeliverThePacket | cpp/SddsToBulkIOProcessor.cpp:388-437 | stamp, slip check, write and counter together |
| ProcessorObject.SddsToBulkIOProcessor.AnnounceSri | cpp/SddsToBulkIOProcessor.cpp:376-381 | the SRI is pushed and the expected step set afresh |
| ProcessorObject.SddsToBulkIOProcessor.Admit | cpp/SddsToBulkIOProcessor.cpp:312-345 | skip, hold back or admit, with the flushes that go with each |
| ProcessorObject.SddsToBulkIOProcessor.Pass | cpp/SddsToBulkIOProcessor.cpp:306-439 | the loop body is one pass of the model, state and payload |
| ProcessorObject.SddsToBulkIOProcessor.PassFront | cpp/SddsToBulkIOProcessor.cpp:428-430 | the front packet moves to the recycle queue if and only if it is consumed; no other buffer changes |
| ProcessorObject.SddsToBulkIOProcessor.ProcessPackets | cpp/SddsToBulkIOProcessor.cpp:304-441 | the call computes the model's function on the queue's contents; consumed buffers move to the recycle queue with their new payloads, the others stay untouched |
| ProcessorObject.SddsToBulkIOProcessor.RunPass | cpp/SddsToBulkIOProcessor.cpp:152-160 | fill, process, recycle on the real pool: what is consumed returns to the empties, what is held back stays in front; nothing happens while too few are full |
| ProcessorRounds.Round | cpp/SddsToBulkIOProcessor.cpp:152-160 | that loop body, on objects, is the component's run of a fill, passes and a recycling: it blocks exactly when the fill is not enabled, and leaves the same queues, memory and processor state |
| Rounds.RoundIsRun | cpp/SddsToBulkIOProcessor.cpp:152-160 | such a run consumes what a call of processPackets on the filled queue consumes, and rewrites no other buffer |
| ProcessorObject.SddsToBulkIOProcessor.FinishRun | cpp/SddsToBulkIOProcessor.cpp:163-182 | streams closed, all buffers returned, flags reset |
| Affinity.IPow | cpp/AffinityUtils.h:60-72 | the wrapping loop computes the power modulo 2^64 |
| Affinity.CpusOf | cpp/AffinityUtils.h:87-92 | the set built from a mask is exactly its 64 bits; indices from 64 on contribute nothing |
| Affinity.MaskOf | cpp/AffinityUtils.h:125-132 | the mask built from a set has exactly its members below 64 |
| Affinity.MaskIsItsCpus | cpp/AffinityUtils.h:87-132 | two masks with the same set are the same, so rebuilding a mask returns it |
| Affinity.ConvertString | cpp/AffinityUtils.h:31-57 | succeeds if and only if the string is non-empty, all hexadecimal and below 2^64, and gives its value; zero otherwise |
| Affinity.HexRoundTrip | cpp/AffinityUtils.h:134-136 | reading the upper-case rendering of a number gives the number |
| Affinity.ReadThenWrite | cpp/AffinityUtils.h:134-136 | writing a value read gives the string back if and only if it is upper-case without leading zeros |
| Affinity.CaseIsIgnored | cpp/AffinityUtils.h:31-57 | lower and upper-case digits are accepted alike and have the same value |
| Affinity.ReadThenWritten | cpp/AffinityUtils.h:134-136 | writing a value read gives the string in upper case without leading zeros |
| Affinity.SetAffinity | cpp/AffinityUtils.h:74-92 | the set asked for, or nothing if the string is refused |
| Affinity.GetAffinity | cpp/AffinityUtils.h:125-136 | the rendering of the mask of the set's members below 64 |
| Affinity.AffinityRoundTrip | cpp/AffinityUtils.h:74-136 | what is reported after a mask is set is that mask, as the string asked for in upper case without leading zeros, so literally that string if and only if it is canonical |
| Routes.Select | cpp/SocketReader.cpp:389-406 | the loop returns the interface of a matching row with no greater mask matching and no later as great; the empty string if none matches |
| Routes.SelectedIsLongestPrefix | cpp/SocketReader.cpp:385-406 | on a table of contiguous masks that is the interface of the last of the longest prefixes that cover the group, empty if and only if none does |
| Routes.ChoiceIsLongestPrefix | cpp/SocketReader.cpp:385-406 | for contiguous masks that row is the last of the longest prefixes that cover the group, and it is unique |
| Routes.SwappedMasksKeepOrder | cpp/SocketReader.cpp:395 | netmasks in network byte order compare on the host as their lengths do |
| Routes.MatchesIsCovers | cpp/SocketReader.cpp:395 | the bitwise test on swapped words holds if and only if the group's leading bits are the destination |

## Left out

- Sockets, ioctl, poll, `/proc` and `/sys` parsing, thread scheduling calls: `recvmmsg` is a step that fills the first n buffers, 1 <= n <= R; the route table arrives parsed.
- The multicast or unicast decision at `SocketReader.cpp:130`: it compares addresses in two byte orders.
- Shutdown of the running threads: the class methods have their shutdown branches, but that the threads end is not claimed, since `shutDown` sets its flag without the mutexes.
- Restarts.RunAgain: the drop and slip counts of a further run are not restated for it; they go on from where they were.
- IEEE rounding of times, rates and accumulated error, and the decimal constants of the clock unit.
- The BulkIO library: an event log stands for it, without its flush at the buffer size.
- The comparison of stream identifiers at `SddsToBulkIOUtils.cpp:195` is taken for one of strings; what CORBA string members compare is not part of this model.
- CORBA `Any` comparison: one field stands for everything that is compared and copied, one for what is copied only, and an upstream SRI carries whether it claims priority, the byte order it declares, and what its compared fields become when stored.
- Unsynchronised reads of the upstream flags between the SRI lock and the end of a pass: an event falls between passes.
- The width of the time-slip counter (a C++ `long`).
- Sample widths 1 to 7, where the code divides by zero.
- Slips.DriftSlips: above 63 MHz, where several steps at once can stay inside the tolerance, it is for streams without packets measured by more than one step.
- OwnStreams.OwnStreamsCurrentIff: periods that differ by less than 50 ns are left to OwnStreamsFollow, which has no such condition.
- The `SDDSTime` constructors from seconds, which round doubles.
- PoolProtocol.ZeroCopyOwnership: buffers are numbers, so reference counts and deallocation are not modelled.
- The single-buffer pool methods and `confirmSingleHost`: the threads do not use the former, and the latter only logs.
- `getWholeAndFracSec`, the remaining accessors of the packet, component properties, attach and detach, logging: easy members.
