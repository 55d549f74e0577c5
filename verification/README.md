# Pseudo-TCP transport: verified model

This project models the transport engine in `lib/` of Pseudo-TCP, a TCP written by hand on raw sockets, and
proves properties of the model. Goroutines become atomic steps, channels become sequences, clocks and random
choices become arguments. The theorems are statements about all inputs, all reachable states or all runs; the lemmas
that exhibit a failing run (`...IsReachable`, `AgingSkips`, `OverflowBeyond`, `LimitIsPerStay`, the runs in `Modes`) give
that run.

| module | what it models |
|---|---|
| `Serial` | uint32 sequence numbers and their relation to unbounded stream offsets |
| `Sack` | the acknowledgment number and SACK blocks edited by `updateACKAndSACK` |
| `Receiver`, `Reassembly`, `Delivery` | `handleDataPacket`: values, representation invariant, theorems about runs of arrivals |
| `Sender`, `Resend` | segmentation, the resend map, pruning, retransmission rounds |
| `Transfer` | two ends, each in its mode, and a network that loses, duplicates and reorders; end-to-end delivery |
| `Modes` | three properties of the data phase, each with exactly the modes that have it |
| `Retries`, `Stays` | retransmission over runs, the retry limit and what it bounds |
| `Output` | the order in which packets leave, and what is acknowledged |
| `Connections` | the connection object, its methods proved against the functions above |
| `Bytes`, `Checksum`, `Codec`, `Decoder` | the checksum, `Marshal` into a reused buffer, `Unmarshal`, the round trip |
| `OptionFormat` | the option area as a list of kind-length-value options, against both |
| `Handshake`, `HandshakeEnds`, `Teardown` | opening and closing as two-party systems, and the objects that run them |
| `Reopened` | data that arrives after a FIN |
| `Sessions` | handshake and data phase interleaved in one system |
| `PortPools`, `DialTables`, `ServiceTables` | the port ring buffer and the connection tables on both sides |

## How the statements fit together

Each end is in one of two modes. With SACK negotiated and RetransmissionEnabled set (off by default,
lib/connection.go:125) it is reliable: it caches and orders what it receives and keeps what it sends. Otherwise it hands
packets over as they come (lib/connection.go:502-514). `EndToEnd` says that a reliable reader has read a prefix of what
the other end wrote. It rests on `HandleDataKeeps` (the three views of the receiver agree), which rests on
`UpdateConservesCoverage` and `UpdateSound` (the SACK edit adds exactly the packet's bytes and keeps the blocks disjoint,
sorted or not). The SACK edit is proved on unbounded offsets, and `CircleFollowsStraight` carries every result over to
the uint32 code, wraps included. The object methods in `Connections` change their fields, in either mode, exactly as
`Transfer` lets an end act. `OrderedInEveryRun`, `AcksNeverAhead` and `RetryBound` hold in every mode.

`Modes` makes the conditions exact: a prefix in all runs needs a reliable reader (`PrefixIffReliableReader`), honest
acknowledgments need a reliable reader or a writer that keeps nothing (`HonestIff`), and losing track of no segment needs
both ends reliable (`NeverLosesIff`).

`Sessions` runs the handshake and the data phase in one system: the data phase begins when the client opens, with the
packets the handshake has really left on the network, and the server may take the client's first data for the last ACK.
Each end is in the mode it negotiated. `SessionIsTransfer` shows that the data phase of every session is a run of
`Transfer`, and `EveryRunIsSession` that every run is part of a session. So `ServerReadsPrefixIff` and
`ClientReadsPrefixIff` hold from the first SYN on.

`Resend` counts duplicates against a log of what the resend map went through, and `RetryBound` carries the counts into
the runs of `Transfer`: a segment is given up only after exactly MaxResendCount duplicates in one stay in the map.

## Hypotheses

- Data-phase theorems about `handleDataPacket` assume fixed segmentation: any two packets that arrive are identical or
  share no byte, as holds for segments cut by `Write` and their duplicates (`Tiling`).
- They assume that a stream stays below 2^32 and shorter than 2^31, because lib/connection.go:416, 466, 477 and 531
  and lib/packet.go:682 compare raw numbers. `InOrderDeliveredIffNoWrap` shows that the limit is real: it says of any
  receiver which in-order packets the reader gets.
- `EndToEnd` and the results on lost packets assume that nothing has aged; `AgingSkips` shows why. In runs with aging, a
  packet is never aged in the call that brings it in.
- `mss` is positive in `Write`; with 0 the loop at lib/connection.go:643 makes no progress.
- A data run of `Transfer` ends when a FIN is processed. What data does after a FIN is in `Teardown` and `Reopened`.
- `RetryBound` and `NeverForgotten` assume that MaxResendCount is the same in every round of one end, as it is in the
  source. Walking the map visits every key once. `NeverForgotten` is for two reliable ends.
- `TeardownSafety` assumes fixed segmentation for the data that reaches the closing side.

## Where the code does not do what it says

- lib/connection.go:858-859 calls the block list ordered. A packet that arrives detached inside the first hole is
  appended behind larger blocks. `CanonicalKeptIff` gives the exact condition for sorted order. `DetachedNeverDelivered` shows the cost:
  such a packet is not delivered by any continuation without aging, and its retransmissions are dropped
  without an acknowledgment. The acknowledgment number itself stops when an in-order packet takes it to a byte that is
  already cached: `StallsIff` gives the condition before the call, `StallIsReachable` a run of three packets,
  `StallIsPermanent` the consequence. Over runs, `StalledIffEverStalls` says when, and `FollowsWhileNeverDetached` that
  it never happens while no packet arrives detached.
- With more than four SACK blocks, or more than three and a timestamp, six bytes of the header are left over from the
  previous frame in the buffer, and the timestamp or the block list is lost (`FrameIndependentIff`, `OptionsRoundTripIff`).
  With five to 31 blocks the reader sees no option at all (`OverfullIsIgnored`).
- A new block goes into the first gap of the list that holds it, even if it touches a block further on (`PlaceExactly`).
- A waiting server opens on any packet but a SYN, whatever its numbers (`OpensOnAnything`).
- `termStartSeq` of the closing side is never assigned (lib/connection.go:1143-1144), so a FIN has sequence number 0 and
  sets the receiver's `lastAckNumber` to 1 (`FinResetsLastAck`). The receiver goes on handling data, so a retransmission
  can be accepted as new. `RedeliveredIff` says of every delivered packet exactly when some continuation delivers it a
  second time: without aging only along a gapless chain of segments from the new number, with aging whenever it lies at or
  above that number and another packet does too, and without SACK whenever it lies at or above it.
- The last check of the teardown cannot tell an acknowledgment of data from the final ACK. `EarlyEndIff` says that the
  responder can finish too early exactly when such a packet is under way, `TeardownSafety` that this needs a sequence
  number at `Close` equal to `termStartSeq`, and `CollisionIsExact` that it then takes one in-order byte.
- `MaxResendCount` bounds the duplicates of one stay in the resend map, not those of a segment. A duplicate still queued
  when the entry is dropped registers the segment again, counting from 0 (`DroppedComesBackIffQueued`), and with any
  limit there are runs, without loss and with a short queue, in which the duplicates of one segment exceed every bound
  (`LimitIsPerStay`).
- A reader without SACK or retransmission acknowledges over a gap, and a writer with both then drops the missing segment
  as delivered (`HonestIff`).
- An inclusive right edge makes a SACK block prune the segment that starts there (`SackHitIffCoveredOrEdge`). In runs it
  has no effect, because the connection's own `inSACKOption` stays empty (part of `SendInv`).
- A failed dial never returns its port (`FailedDialsLeak`), and a failed server handshake blocks its key for good
  (`FailedKeyBlocked`, `FailedStaysFailed`).
- `returnPort` does not check that the port is out. `ReturnKeepsIff` says when the pool survives that; a new pool, full
  without the flag, forgets all the other ports (`ForeignReturn`).
- Both close handlers delete by key. A repeated close signal would take out another connection that uses the key again,
  and free its port (`RepeatedCloseHarmlessIff`, `StaleCloseWouldBreak`, `ServiceTables.StepOpenIff`). The guard in
  `clearConnResource` prevents that: `OnceIsNeverStale`.
- `Write` returns 0 and an error on pool exhaustion although a prefix of the buffer is already queued
  (`Connections.Connection.WriteBuffer`).

## Model

| member | source | states |
|---|---|---|
| Serial.GreaterIsForwardHalf | lib/utils.go:19-40 | isGreater holds exactly for a distance of 1 to 2^31 ahead on the circle |
| Serial.BothGreaterOnlyAntipodal | lib/utils.go:19-40 | two numbers are each greater than the other only at a distance of exactly 2^31 |
| Serial.SerialOrderLifts | lib/utils.go:19-52 | for offsets less than 2^31 apart all four comparisons of wire numbers are the unbounded order |
| Serial.IncrementLifts | lib/utils.go:10-16 | incrementing a wire number is incrementing the offset, across wraps |
| Serial.TransitiveInWindow | lib/utils.go:10-52 | inside a window below 2^31 the order is transitive, also over increments that wrap |
| Serial.RawOrderIffSameEpoch | lib/connection.go:416 | a raw comparison is the stream order exactly when no wrap lies between the two offsets |
| Sack.CircleFollowsStraight | lib/connection.go:837-926 | the SACK edit on uint32 numbers is the edit on unbounded offsets, wherever the window lies |
| Sack.PlaceExactly | lib/connection.go:873-925 | for a list in any order: the first block that contains the range, touches it or has it in the gap behind decides; that block is extended, or merged with its successor, or the range is inserted behind it, or at the end if none decides |
| Sack.SeparateIsInserted | lib/connection.go:906-925 | a range that touches no block is inserted in the first gap that holds it, or at the end |
| Sack.UnsortedAppends | lib/connection.go:906-925 | [6,7) goes behind [4,5), [2,3) |
| Sack.OldChangesNothing | lib/connection.go:842-845 | a packet more than half the circle ahead of the number counts as old and changes nothing |
| Sack.UpdateConservesCoverage | lib/connection.go:847-925 | for any block list the acknowledged bytes afterwards are those before plus the packet's range |
| Sack.UpdateSound | lib/connection.go:847-925 | blocks stay disjoint, on packet boundaries and above the acknowledgment number, which never falls |
| Sack.CanonicalKeptIff | lib/connection.go:913-919 | strictly ascending blocks separated by gaps stay so if and only if the packet is not detached inside the first hole |
| Sack.CanonicalAckIsMissing | lib/connection.go:854-866 | with sorted blocks the acknowledgment number is a byte not yet received |
| Sack.CanonicalUnique | lib/connection.go:837-926 | a canonical block list is determined by the bytes it covers |
| Sack.UpdateIsRecompute | lib/connection.go:837-926 | the incremental edit equals recomputing the first missing byte and the maximal runs from the set of received bytes |
| Sack.FirstMissing | lib/connection.go:852-866 | the reference: the first byte from n on that is not received, or the bound `top` when all below it are |
| Sack.TrimKeeps | lib/connection.go:524-539 | the trim keeps a block if and only if its left edge lies above the new number |
| Sack.TrimIsFilter | lib/connection.go:524-539 | the blocks kept stay in order, each as often as before |
| Reassembly.AscendingEnumerates | lib/packet.go:670-686 | the cached sequence numbers in strictly increasing order, every one of them |
| Receiver.AscendingUnique | lib/packet.go:680-683 | the sorted enumeration is determined by the set of keys |
| Receiver.ReadyCount | lib/connection.go:475-484 | the scan stops at the first key that is not below the acknowledgment number |
| Reassembly.AfterUpdate | lib/connection.go:437-439 | after the update, acknowledged bytes from the old number on are exactly the cached ones |
| Reassembly.NoWrapUpdate | lib/connection.go:437 | short of 2^32 the uint32 update computes on plain numbers |
| Reassembly.RunEndIsOpen | lib/connection.go:453-463 | the extended right edge is a packet boundary at which no cached packet starts |
| Reassembly.JumpKeeps | lib/connection.go:464-469 | the aging jump with its trim keeps blocks and cache in agreement above the new number |
| Reassembly.SkippedIffAgedBehind | lib/connection.go:444-472 | a missing byte is skipped if and only if an aged packet is cached behind it |
| Reassembly.DrainKeeps | lib/connection.go:474-501 | the drain appends exactly the cached packets below the number, takes exactly those out of the cache, and leaves the views in agreement |
| Reassembly.HandleDataKeeps | lib/connection.go:413-501 | every arrival keeps blocks, cache and number in agreement, never lowers the number, and takes the accepted packet exactly once |
| Reassembly.TakenOnce | lib/connection.go:427-501 | no packet is both cached and delivered, or delivered twice |
| Delivery.HandleDataComplete | lib/connection.go:413-501 | without aging everything below the acknowledgment number has reached the reader |
| Delivery.MonotoneDelivery | lib/connection.go:416-513 | in every mode, with aging, delivered ranges are disjoint and ascending and the acknowledgment number never falls |
| Delivery.PassThroughExactly | lib/connection.go:502-514 | without SACK or retransmission a packet not below the number is delivered at once, and the number moves to its end unless it is more than half the circle ahead |
| Delivery.StalledIffHeld | lib/connection.go:852-869 | three readings of a stall: the number is a cached key, is covered by a block, is a byte some cached packet holds |
| Delivery.StallsIff | lib/connection.go:852-869 | without aging an arrival stalls the receiver if and only if it is in order and the number lands on a cached packet |
| Delivery.StallIsReachable | lib/connection.go:858-866 | one-byte packets 3, 1, 0 into a fresh connection do it |
| Delivery.StalledIffEverStalls | lib/connection.go:413-501 | a run without aging ends stalled if and only if some arrival met that condition |
| Delivery.StallIsPermanent | lib/connection.go:427-434 | in that state no arrival, without aging, moves the number or delivers anything |
| Delivery.CanonicalIsNotStalled | lib/connection.go:858-866 | sorted blocks never stall |
| Delivery.SortedIffNeverDetached | lib/connection.go:858-919 | over runs, aging included, the blocks are sorted in every state while no packet arrives detached; without aging only then |
| Delivery.FollowsWhileNeverDetached | lib/connection.go:852-869 | and then the acknowledgment number is never a byte already received |
| Delivery.HandleDataCanonical | lib/connection.go:437-469 | sorted order survives every arrival that is not detached inside the first hole, aging included |
| Delivery.DetachedIsStranded | lib/connection.go:916-919 | an accepted detached packet ends up behind a larger block 0 |
| Delivery.DetachedNeverDelivered | lib/connection.go:427-434 | no continuation without aging delivers it or accepts it again |
| Delivery.DetachedIsReachable | lib/connection.go:916-919 | two packets into a fresh connection suffice |
| Delivery.SkippedNeverDelivered | lib/connection.go:416-425 | a packet the number has passed undelivered is refused in every continuation |
| Delivery.AgingSkips | lib/connection.go:444-472 | packet 1 is cached and has aged when packet 2 arrives: packet 0 is skipped, so the prefix theorem needs its hypothesis |
| Delivery.DeliveredIffBelow | lib/connection.go:475-501 | an accepted packet is delivered at once if and only if the new number lies above it |
| Delivery.InOrderDeliveredIffNoWrap | lib/connection.go:475-501 | for any cache and blocks, an in-order packet reaches the reader if and only if the run of received bytes it completes ends below 2^32 |
| Sender.CutIsPrefix | lib/connection.go:643-671 | the queued bytes are a prefix of the buffer, and all of it exactly when the pool has a chunk per segment |
| Sender.CutSizes | lib/connection.go:643-658 | every segment has 1 to mss bytes and the current acknowledgment number; all but the last are full |
| Sender.CutChained | lib/connection.go:651-659 | consecutive segments follow each other on the wire |
| Sender.ChainedContiguous | lib/connection.go:659 | short of 2^32 they tile the stream and the next sequence number follows the last byte |
| Resend.CountsInEveryRun | lib/connection.go:677-749 | over all transmissions, timer rounds and acknowledgments a kept entry's count is the number of duplicates queued since it was registered, at most MaxResendCount |
| Resend.RoundExactly | lib/connection.go:702-741 | what a round does to an entry: removed at the limit or inside a SACK block, left alone before its interval has passed or if its duplication fails, otherwise duplicated once, its count and time moved |
| Resend.DuplicatesInOrder | lib/connection.go:694-725 | duplicates are queued in the order of the walk |
| Resend.PruneFollows | lib/connection.go:957-981 | on stream offsets, across wraps, an entry stays unchanged exactly if the acknowledgment is not behind its first byte and no SACK block reaches it |
| Resend.PruneAcrossWrap | lib/connection.go:973-975 | key 2^32 - 16 goes on acknowledgment 16 |
| Resend.SurvivesExactly | lib/connection.go:702-741 | without acknowledgments an entry with count c survives n due rounds if and only if c + n <= MaxResendCount |
| Resend.RoundsEmptyTheMap | lib/connection.go:702-748 | MaxResendCount + 1 due rounds empty the map |
| Resend.SackHitIffCoveredOrEdge | lib/connection.go:965-971 | a SACK block prunes exactly the keys it covers and the one at its right edge |
| Connections.Connection.UpdateAckAndSack | lib/connection.go:837-926 | returns the acknowledgment number and blocks of the specification |
| Connections.Connection.PlaceBlock | lib/connection.go:881-925 | the loop over the blocks places the range as specified |
| Connections.Connection.RemoveSackBlock | lib/connection.go:929-937 | shifts the blocks behind the index down by one in place |
| Connections.Connection.TrimOutSackOption | lib/connection.go:524-539 | leaves exactly the trimmed list |
| Connections.Connection.SkipAged | lib/connection.go:444-472 | the downward scan moves the number as the specification does |
| Connections.Connection.DeliverReady | lib/connection.go:487-501 | moves the collected packets from cache to readChannel in order |
| Connections.Connection.HandleDataPacket | lib/connection.go:413-522 | new receiver state and the acknowledgment sent, none for an ignored packet |
| Connections.Connection.WriteBuffer | lib/connection.go:617-674 | queues the cut segments, and reports success exactly when the whole buffer was queued |
| Connections.Connection.ResendLostPackets | lib/connection.go:677-749 | map and queued duplicates after a round, for any order of walking the map |
| Connections.Connection.UpdateResendPacketsOnAck | lib/connection.go:939-986 | the map after pruning, for any order of walking it |
| Connections.Connection.RegisterSent | lib/pconn.go:614-645 | a data packet in reliable mode is added once, with count 0 |
| Connections.Connection.TransmitNext | lib/pconn.go:519-645 | takes the head of the output queue and registers it |
| Connections.Connection.HandleIncoming | lib/connection.go:244-263 | prunes and then handles data, as an end of the two-party system does |
| Transfer.EndToEnd | lib/connection.go:413-522 | in every run without aging an end with SACK negotiated and retransmission on has read exactly a prefix of the bytes the peer's Write accepted, once and in order, and its acknowledgment number counts them |
| Modes.PrefixIffReliableReader | lib/connection.go:427-514 | a reader always has a prefix if and only if it has SACK negotiated and retransmission on |
| Modes.HonestIff | lib/connection.go:502-514 | acknowledgments never remove an undelivered segment if and only if the reader is in that mode or the writer keeps nothing |
| Modes.NeverLosesIff | lib/pconn.go:614-645 | no segment is ever lost track of if and only if both ends are in that mode |
| Transfer.OrderedInEveryRun | lib/connection.go:413-522 | in every run and mode, aging included, both readers see segments the other side wrote, in order, each at most once |
| Transfer.AcksNeverAhead | lib/connection.go:405-410 | no packet anywhere acknowledges more than its sender has received, nor more than was sent |
| Transfer.AckedIsDelivered | lib/connection.go:939-986 | what an acknowledgment of a reliable reader removes from the resend map is on its read channel |
| Retries.RetryBound | lib/connection.go:677-749 | in every run, at both ends, a kept entry's count is its duplicates since registration, at most MaxResendCount, its time that of the last of them, and a key is given up only after exactly that many |
| Retries.DuplicatesAreSpaced | lib/connection.go:714-731 | in every run each duplicate is queued at least the resend interval after its segment was registered or queued before |
| Output.OutputIsFifo | lib/pconn.go:519-530 | packets leave in the order in which they were queued; an ACK with the new number is queued exactly if the arrival has changed the receiver |
| Output.NetworkWasSent | lib/pconn.go:546-600 | only transmitted packets are on the network |
| Retries.NeverForgotten | lib/pconn.go:614-645 | between two reliable ends every segment either side wrote is queued, kept for resending, delivered, or given up after MaxResendCount duplicates |
| Retries.DroppedComesBackIffQueued | lib/pconn.go:614-645 | a written segment not in the map enters it in some continuation if and only if it is still queued and its end is reliable |
| Retries.BackByTransmitting | lib/pconn.go:519-645 | transmitting the queue registers it again, with count 0 |
| Stays.LimitIsPerStay | lib/connection.go:702-741 | whatever the limit and the interval, with a running clock, no loss and at most `limit` packets queued, the duplicates of one segment can exceed any number |
| Transfer.RunKeeps | lib/connection.go:413-749 | the invariant of both directions holds in every run |
| Checksum.CalculateChecksum | lib/packet.go:416-436 | the loop with its 32-bit accumulator computes the folded complement of the word sum |
| Bytes.NetworkOrder | lib/packet.go:88-110 | numbers are written and read with the most significant byte first |
| Checksum.WordSumPadded | lib/packet.go:423-427 | an odd buffer is summed as if a zero byte followed |
| Checksum.PseudoLayout | lib/packet.go:482-488 | both addresses, a zero byte, the protocol and the length, in this order |
| Checksum.PseudoSum | lib/packet.go:482-488 | the pseudo-header adds the four address halves, the protocol and the length to the word sum |
| Checksum.NoOverflow | lib/packet.go:417-428 | the accumulator does not overflow up to 131074 bytes |
| Checksum.OverflowBeyond | lib/packet.go:417-428 | two bytes more can overflow it |
| Checksum.FoldedIsResidue | lib/packet.go:430-435 | two folds lose no carry: the result is congruent to the sum modulo 65535 and 0 only for 0 |
| Checksum.ChecksumCancels | lib/packet.go:174-185 | inserting the checksum makes the total congruent to 0 modulo 65535 |
| Checksum.AssemblePseudoHeader | lib/packet.go:471-490 | writes the twelve bytes, or reports a wrong length or a missing address and writes nothing |
| Checksum.VerifyChecksum | lib/packet.go:438-468 | verdict and the unchanged frame; a missing address leaves the checksum field zeroed |
| Checksum.WordChangeDetected | lib/packet.go:438-468 | a changed word stays undetected if and only if it is congruent to the old one modulo 65535 |
| Checksum.FieldChangeDetected | lib/packet.go:446-467 | a changed checksum field is always detected |
| Codec.HeaderLength | lib/packet.go:76-84 | the header length is a multiple of 4 between 20 and 60 |
| Codec.HeaderIsLeast | lib/packet.go:76-84 | it is the least multiple of 4 that holds the fixed header and the options |
| Codec.GapIffTooMany | lib/packet.go:63-76 | the header area is fully written if and only if the SACK blocks fit, otherwise six bytes are not |
| Codec.FrameIndependentIff | lib/packet.go:42-172 | the frame is independent of the old buffer if and only if the SACK blocks fit |
| Codec.WriteOptions | lib/packet.go:113-165 | the moving option offset writes the options one behind the other |
| Codec.WriteSack | lib/packet.go:135-150 | the SACK option with the blocks that end before byte 60 |
| Codec.Marshal | lib/packet.go:37-191 | pseudo-header and frame at the start of the buffer, the rest unchanged, and the error cases |
| Decoder.FixedRoundTrip | lib/packet.go:91-112 | every field stands at its place in the fixed header |
| Codec.MarshalledVerifies | lib/packet.go:438-468 | the verifier accepts every marshalled frame |
| Decoder.Unmarshal | lib/packet.go:194-311 | the parsed packet or the error |
| Decoder.ScanOptions | lib/packet.go:229-287 | the option loop consumes the bytes and applies every option |
| Decoder.BlocksRoundTrip | lib/packet.go:140-149 | parsing the written SACK blocks gives them back |
| Decoder.OptionsRoundTripIff | lib/packet.go:229-287 | the options are recovered if and only if the SACK blocks fit |
| Decoder.OverfullIsIgnored | lib/packet.go:135-150 | with five to 31 blocks the reader sees no option at all |
| OptionFormat.WrittenIsList | lib/packet.go:113-165 | with blocks that fit, Marshal writes exactly this list of kind-length-value options |
| OptionFormat.AreaIsList | lib/packet.go:113-172 | followed by no-operation bytes up to the end of the header |
| OptionFormat.ScanReadsAll | lib/packet.go:229-287 | Unmarshal reads every well-formed option area, in any order, with unknown kinds and repetitions: each option whose length fits its kind takes effect |
| OptionFormat.OutcomeExactly | lib/packet.go:199-306 | which error, from the length and the data offset, and otherwise every field from its place in the header |
| Decoder.RoundTrip | lib/packet.go:194-311 | every header field, option and the payload come back, out-blocks as in-blocks |
| Decoder.DataSurvives | lib/packet.go:194-311 | ports, numbers, flags and payload come back even when the blocks do not fit |
| Handshake.HandshakeAgreement | lib/service.go:251-285 | in every run an open server means an open client, which means agreement on first bytes, MSS, SACK permission and timestamps |
| Handshake.SynIsAnswered | lib/service.go:190-288 | every SYN under way carries the ISN and the proposal; the first one to arrive is answered with the next number, any other changes nothing |
| Handshake.SynAckIsAnswered | lib/connection.go:298-307 | every SYN-ACK under way carries the server's ISN and the number after the client's; an open client answers each again until it has seen ordinary traffic |
| Handshake.SilentAfterTraffic | lib/connection.go:298-307 | and from then on none |
| Handshake.FilterIs | lib/pconn.go:369 | a dialing client is handed SYN-ACKs for its ISN and the number after it, and no others |
| Handshake.OpensOnAnything | lib/connection.go:370-398 | a waiting server opens exactly on a packet that is not a SYN, whatever its numbers |
| Handshake.GivenUpStaysClosed | lib/pconn.go:194-208 | a dial that was given up never opens |
| Sessions.HandOverIsStart | lib/pconn.go:229-253 | when the client opens, both objects with their negotiated modes and the packets under way are the initial state of the data phase |
| Sessions.SessionIsTransfer | lib/pconn.go:229-253 | the data phase of every session is a run of the two-end system from the agreed numbers and in the negotiated modes, although the server may still be shaking hands |
| Sessions.EveryRunIsSession | lib/pconn.go:229-253 | every run of the two-end system is the data phase of some session |
| Sessions.SessionDelivers | lib/connection.go:357-398 | from the first SYN on, a side with SACK negotiated and retransmission on reads a prefix of what the other wrote |
| Sessions.ServerReadsPrefixIff | lib/service.go:268-270 | the server reads a prefix in all sessions of two configurations if and only if both permit SACK and the server wants it and retransmits |
| Sessions.ClientReadsPrefixIff | lib/pconn.go:237-239 | likewise the client |
| Handshake.FailedStaysFailed | lib/connection.go:346-356 | a handshake the server gave up is never resumed and no SYN of its key answered |
| HandshakeEnds.Dialer.HandleSynAck | lib/pconn.go:210-253 | the client's negotiation in place and its ACK |
| HandshakeEnds.Acceptor.HandleSyn | lib/service.go:241-285 | the server's negotiation in place and its SYN-ACK |
| Teardown.TeardownSafety | lib/connection.go:269-320 | with data arriving throughout, both sides agree on the termination numbers, and each final state is reached only after the other side's message, unless the caller's number at Close equals its termStartSeq |
| Teardown.TerminationNumbers | lib/connection.go:1010-1037 | the two numbers of every FIN, FIN-ACK and last ACK, and the number the caller ends with |
| Teardown.NoWritesFromFin | lib/connection.go:286 | each side is on hold from its first FIN step on: its next sequence number does not move any more |
| Teardown.WritesExactlyBeforeFin | lib/connection.go:617-635 | each side writes exactly before that step |
| Teardown.CanComplete | lib/connection.go:269-320 | from every state in which both sides wait, three arrivals bring both to their final state |
| Teardown.OnlyTheRightPacket | lib/connection.go:269-320 | exactly one packet ends each side, and a repeated FIN changes nothing |
| Teardown.EarlyEndIff | lib/connection.go:309-320 | while the caller waits, the responder can be made to finish first if and only if a packet with the two numbers of the last ACK is under way |
| Teardown.CollisionIsExact | lib/connection.go:309-320 | in the run Close, FIN, one data packet at the caller, its acknowledgment, the responder finishes first if and only if the numbers are equal and the packet is one in-order byte |
| Teardown.MovesByOneIff | lib/connection.go:852-866 | which data packets move the acknowledgment number by exactly one |
| Teardown.FinResetsLastAck | lib/connection.go:288-292 | in every run the FIN sets the responder's lastAckNumber to 1 |
| Reopened.RedeliveredIff | lib/connection.go:265-292 | a packet the reader has is refused before the FIN; after it, some continuation delivers it again if and only if the stream reaches it without a gap from the new number (no aging), or it can be jumped to (aging), or it lies at or above the number (no SACK) |
| Reopened.AfterFinIsRun | lib/connection.go:265-292 | those continuations are the ones of the two-party system |
| Reopened.NothingBeforeStart | lib/connection.go:265-292 | without aging nothing is delivered after a FIN before a packet that starts at the new number arrives |
| Teardown.TermConnection.Close | lib/connection.go:1139-1151 | the fields and the FIN of initTermination |
| Teardown.TermConnection.HandlePacket | lib/connection.go:269-320 | the FIN and ACK branches, and no change in every other case |
| PortPools.ReturnKeepsIff | lib/portpool.go:77-105 | available and handed-out ports stay a partition of the range if and only if the port is out, the call is refused, or the range has one port |
| PortPools.TakeBackReturns | lib/portpool.go:77-105 | a port that is out is never refused and goes to the back of the queue |
| PortPools.FlagIffRefilled | lib/portpool.go:96-98 | in disciplined runs the flag is set exactly if the ring is full again after a port has been out |
| PortPools.ForeignReturn | lib/portpool.go:86-98 | a port that is not out is refused by a used full ring, and makes a new one forget all its ports |
| PortPools.EmptyIffAllOut | lib/portpool.go:56-59 | allocation fails exactly when every port is out |
| PortPools.FifoLaw | lib/portpool.go:51-105 | in runs of disciplined callers, ports issued, then ports left, are the ports available at first, then the ports returned, in order |
| PortPools.ReissuedLast | lib/portpool.go:94-96 | a returned port is issued again only after every port available before it |
| PortPools.RunKeepsPartition | lib/portpool.go:51-105 | the partition holds in every run of disciplined callers |
| PortPools.PortPool.constructor | lib/portpool.go:26-48 | a permutation of the range, all available |
| PortPools.PortPool.AllocatePort | lib/portpool.go:51-74 | takes the head of the queue, or fails when it is empty |
| PortPools.PortPool.ReturnPort | lib/portpool.go:77-105 | queue, handed-out ports and flag in every case, and when the partition survives |
| DialTables.TablesSafe | lib/pconn.go:136-256 | while no close signal is stale, connections not yet closed are in the table under their own key, share no port, their ports stay out, and ports in use, leaked and available add up |
| DialTables.InOrderIffNeverStale | lib/pconn.go:136-256 | over all interleavings, repeated close signals included, the tables are in order in every state if and only if no signal is stale |
| DialTables.FailedDialsLeak | lib/pconn.go:194-208 | the pool shrinks by exactly one port per failed dial |
| DialTables.AbandonedStay | lib/pconn.go:175-178 | the temporary entries left behind are exactly those of dials that ended with a filter error |
| DialTables.CloseFindsOwn | lib/pconn.go:657-679 | a close signal finds its own connection under its key |
| DialTables.RepeatedCloseHarmlessIff | lib/pconn.go:657-679 | a repeated close signal keeps the tables in order if and only if its key is not open again |
| DialTables.StaleCloseWouldBreak | lib/pconn.go:657-679 | otherwise a live connection would leave the table and its port be available |
| DialTables.OnceIsNeverStale | lib/connection.go:1154-1165 | as long as every connection signals once, no signal is stale |
| DialTables.ProtocolConnection.StartDial | lib/pconn.go:139-172 | takes a port and files the temporary connection |
| DialTables.ProtocolConnection.FinishDial | lib/pconn.go:230-245 | moves it to the open table |
| DialTables.ProtocolConnection.FailDial | lib/pconn.go:175-208 | neither failure returns the port |
| DialTables.ProtocolConnection.HandleClose | lib/pconn.go:657-679 | a key not found changes nothing; otherwise the entry goes and its port is returned without error; order is kept unless the signal is stale |
| ServiceTables.ServiceSafe | lib/service.go:67-101 | a key is in one table at most, and Accept returns each completed connection once and skips none |
| ServiceTables.SynFilesIff | lib/service.go:207-250 | a SYN files a new temporary connection exactly if its key is in neither table, and changes nothing else |
| ServiceTables.NewKeyIsServed | lib/service.go:67-101 | a new key goes from SYN over the handshake to Accept |
| ServiceTables.AcceptsInOrder | lib/service.go:67-101 | Accept returns connections in the order in which their handshakes completed |
| ServiceTables.OpenIffNeverStale | lib/service.go:309-334 | every accepted connection stays in the open table until its close in every state of a run if and only if no close signal is stale |
| ServiceTables.StepOpenIff | lib/service.go:317-334 | the single step of that |
| ServiceTables.FailedKeyBlocked | lib/service.go:207-222 | the entry of a failed handshake stays, so its key is ignored for good |
| ServiceTables.FailureBlocks | lib/connection.go:346-356 | a pending handshake that fails blocks its key, whatever follows |

## Left out

- Raw sockets, deadlines, the send backoff loop, packet filters, configuration and the demo programs: I/O on libraries not modelled.
- Goroutines and mutexes: every handler call is one atomic step. In particular the options of a queued packet are taken when it is queued, whereas the source reads them from the connection at marshalling time.
- The ring pool of payload chunks: a payload is a byte sequence, and exhaustion is a failed allocation.
- Aliasing of slices: block lists are values. Connections.Connection.RemoveSackBlock shifts a backing array, on a copy.
- Connections.Connection.UpdateResendPacketsOnAck: does not sort inSACKOption first, because only membership is used and the list is empty in runs.
- Decoder.ScanOptions: as Decoder.Unmarshal, requires that the option scan ends.
- Decoder.Unmarshal: requires that the option scan ends. On a zero length byte the source loops forever, and on a SACK length not of the form 2 + 8n it reads outside the option area.
- Keepalive probes, whose byte overlaps the last segment, idle timeout, forced close after 6 seconds, simultaneous close, RST handling.
- Window size and window scale beyond their wire encoding: no flow control uses them.
- Eventual delivery and eventual close: the code gives up after bounded retries.
- Old packets of an earlier connection with the same ports: runs start with an empty network.
- The string format of connection keys: a key is the pair of ports, or a number on the server side.
- Shutting down a whole service or protocol connection.
