# A verified model of a userspace SCTP endpoint

This project models the core of an SCTP (RFC 9260) stack in Dafny and proves what the stack is for:
messages queued at one end come up at the other whole, once and in order over a network that loses,
duplicates and reorders, and as soon as they can; nothing acknowledged is lost although the receiver may take back what it
has gap-acked; associations agree on who they are and shut down without dropping anything; and the
queues, timers, cookies and codec underneath are the simple things their callers take them for.

`dafny verify dfyconfig.toml` checks everything.

## How it is laid out

Code that changes state is a class whose fields are the code's; each method is proved to take the
object from one value of a specification to the next. Theorems are then about that specification.

| module | what it is |
|---|---|
| `Serial` | serial-number arithmetic of TSNs and SSNs, SACK reports |
| `ReceiveSpec`, `ReceivePath` | the receiver on values, and `Receiver`, the code with wire TSNs |
| `MessageLog`, `Tracking`, `EndToEnd` | what a sender puts on the wire, and delivery from it |
| `Progress`, `Promptness` | which chunks are taken, and that nothing complete is held back |
| `Conservation`, `StreamCheck`, `SackReport` | byte accounting, the advertised window, valid streams, built SACKs |
| `Cutting`, `Tiling` | fragmentation of queued messages |
| `SendSpec`, `Transmission`, `SendPath` | the sender on values, and `Sender`, the code |
| `SackProcessing`, `NoStuckChunk`, `FlightLedger`, `NoLoss` | what every step of the sender keeps |
| `FastRetransmission`, `RetransmissionTimers`, `Failover` | what SACKs and expiries decide, and where DATA goes |
| `Reliability`, `MessageDelivery`, `ShutdownProgress` | sender, network and receiver together |
| `PathControl` | congestion window, RTO and idle decay of a path |
| `Handshake`, `Agreement`, `Restart` | setting up: handlers, termination, two endpoints, a peer that restarts |
| `TimerHeap`, `ReceiveQueue`, `ReadProgress`, `SendQueue`, `SendOrder` | queues and the plain things they stand for |
| `WireFormat`, `Codec`, `WireLayout`, `CookieAuth` | parameters, packets, State Cookies and their keys |

## Hypotheses

- TSNs that can arrive lie within half the TSN space of the cumulative point, as serial numbers
  require. Everything else is proved across the 32-bit wrap.
- Nothing is assumed of SSNs for delivery, loss or shutdown. That the receiver never finds a
  violation needs that SSNs under way can be told apart: `Reliability.SsnsApart`, at most 2^15
  ordered messages of a stream sent and not acknowledged whole. `EndToEnd.FarAheadIsAViolation` and
  `Tracking.AheadWithinHalf` show that the limit is exact.
- PMDCS is at least 20. Counters such as cwnd and timer generations are naturals.
- In the end-to-end theorems both ends run this code. Window, conservation and SACK theorems hold
  against any peer.

## Where the code falls short of a plain reading

- Two ends that are up need not hold each other's tags. While no TCB is removed they agree throughout
  a run if and only if every COOKIE ACK heeded answers the cookie that gave the initiator the tag it
  holds (`Agreement.HandshakeAgrees`); the code does not compare them. One way to break this is a
  duplicate of a Stale Cookie error that sends an initiator back to COOKIE-WAIT after its retry was
  accepted (`Agreement.StaleCookieBreaksAgreement`); another is a cookie refused as stale and later
  taken for a retransmission, as a collision allows (`Agreement.RevivedCookieBreaksAgreement`). Runs
  with neither always agree, retries included (`Agreement.OrderlyRunsAgree`).
- The send queue is documented to ignore new DATA refused by the last peek, but its flag outlives a
  later peek that finds a packet. If that packet's write then fails, `next_deadline` reports
  nothing and the retry is forgotten until something else is queued
  (`SendQueue.FailedSendIsForgotten`); `SendQueue.RetryIsScheduled` says exactly when.
- A message abandoned after the ULP read its beginning leaves no mark in the reads: the next message
  is read as its continuation (`ReceiveQueue.TornMessageIsGlued`). `ReceiveQueue.AbandonKeeps` gives
  the exact condition.
- The SACK encoder accepts gap blocks that the decoder refuses; `Codec.SackRoundTrip` says when. A
  chunk beyond 65535 bytes is cut without complaint and does not come back
  (`Codec.LongChunkIsLost`). `Codec.ChunkComesBack` says exactly which chunks do.

## Model

| member | source | states |
|---|---|---|
| `Serial.TsnLtIsIndexOrder` | include/sctp/utils.hpp:9-21 | within half the TSN space, the wire comparison is the order of the unwrapped TSNs |
| `Serial.UnwrapClassifies` | include/sctp/utils.hpp:9-25 | a wire TSN stands for exactly one index near another, and comparisons of both agree |
| `Tracking.AheadWithinHalf` | src/socket_handlers.cpp:124-140 | an ordered message is taken exactly when it is less than 2^15 messages ahead of its stream |
| `Tracking.DrainKeeps` | src/socket_handlers.cpp:113-122 | handing up early messages in turn keeps each stream's deliveries a prefix of what was sent on it |
| `Tracking.OrderKeeps` | src/socket_handlers.cpp:124-140 | a complete message goes up in its turn or waits for it, and is refused exactly when it is 2^15 messages ahead |
| `EndToEnd.ConsumeKeeps` | src/socket_handlers.cpp:142-178 | the next chunk of a well-cut log is taken in every state and the delivery invariant kept |
| `EndToEnd.ReadBufferKeeps` | src/socket_handlers.cpp:1860-1871 | so are the chunks the reorder buffer then yields |
| `EndToEnd.AssembleKeeps` | src/socket_handlers.cpp:180-227 | a message assembled above a gap is the message sent, delivered by this route or in order, never both; near its stream it is never refused |
| `EndToEnd.EvictKeeps` | src/socket_handlers.cpp:93-103 | evicting a chunk that was gap-acked keeps the delivery invariant |
| `EndToEnd.PartialKeeps` | src/socket_handlers.cpp:1784-1795 | so does handing up the first piece of the open message |
| `EndToEnd.PacketKeeps` | src/socket_handlers.cpp:1732-1795 | every packet of a well-cut log keeps the delivery invariant, and raises a violation only for a message half the SSN space ahead |
| `EndToEnd.DeliveryIsCorrect` | src/socket_handlers.cpp:1688-1815 | for every run over any loss, duplication and order, with nothing asked of SSNs: what was handed up is distinct sent messages, each whole but for an open last one, ordered ones a prefix of their stream |
| `EndToEnd.LegibleIsNoViolation` | src/socket_handlers.cpp:1762-1777 | a packet whose messages are less than half the SSN space ahead raises no violation |
| `EndToEnd.FarAheadIsAViolation` | src/socket_handlers.cpp:124-140 | a one-chunk message above a gap is a violation if and only if 2^15 messages of its stream come before it |
| `EndToEnd.ReceivedGoesUp` | src/socket_handlers.cpp:1688-1815 | once the cumulative point is at the end of the log, every message has gone up, whole |
| `Progress.RoomIsMade` | src/socket_handlers.cpp:93-103 | with the buffer full a chunk finds room exactly if something unassembled above it can go, the highest such, or it is next in turn and something complete waits for it |
| `Progress.ChunkIsTaken` | src/socket_handlers.cpp:1745-1777 | for any peer, exactly when a chunk is a duplicate, dropped or taken, and that nothing else is lost but what was evicted for it |
| `Progress.NextIsTaken` | src/socket_handlers.cpp:1752-1764 | the next chunk in turn moves the point, unless it is a violation or the buffer is full of nothing but what the ULP has not read and the open message |
| `Progress.RepeatsAreReported` | src/socket_handlers.cpp:1745-1749 | chunks that are here already are reported as duplicates, each, and change nothing |
| `Progress.DropsAreTold` | src/socket_handlers.cpp:1751-1756 | a packet tells of dropped chunks exactly if one was out of reach or found no room when its turn came |
| `Progress.PointNeverMovesBack` | src/socket_handlers.cpp:1757-1764 | over every run the cumulative point only moves up |
| `Progress.EverythingArrives` | src/socket_handlers.cpp:1688-1815 | if every packet finds room and every chunk comes, in any order within reach, every message goes up whole |
| `Progress.EverythingArrivesInTurn` | src/socket_handlers.cpp:1688-1815 | so it does if each chunk comes in its turn with room for it, whatever else arrives, is dropped or is evicted in between |
| `Promptness.WholeIsFound` | src/socket_handlers.cpp:180-214 | once the last missing chunk of a message above a gap is in, both walks find its ends |
| `Promptness.CompleteIsDone` | src/socket_handlers.cpp:180-227 | in every run a message all of whose chunks are here has been assembled |
| `Promptness.DeliveryIsPrompt` | src/socket_handlers.cpp:113-227 | in every state of every run, what has gone up or is held behind a partial delivery is exactly the messages all here whose predecessors in their stream have gone up |
| `Promptness.PartIsGivenWhenTight` | src/socket_handlers.cpp:1784-1795 | the open message goes up in part exactly when the window cannot take another full chunk and it is next in its stream, and then all there is of it |
| `StreamCheck.OnlyAgreedStreams` | src/socket_handlers.cpp:1743-1772 | over every run, with any peer, nothing is delivered on a stream that was not agreed on |
| `Conservation.PacketConserves` | src/socket_handlers.cpp:1732-1777 | held plus accepted bytes equal held, delivered and evicted bytes after every packet, and the running count is the buffer's occupancy |
| `Conservation.WindowIsHonest` | src/socket_handlers.cpp:1659-1667 | over every run of packets, reads and SACKs the peer never believes in more window than is free |
| `Conservation.WindowIsOffered` | src/socket_handlers.cpp:1659-1667 | in every run a SACK takes nothing back and offers all free space, unless it would add less than a packet and less than half the buffer |
| `SackReport.GapsReport` | src/socket_handlers.cpp:1648-1657 | the gap blocks are ascending, separate and cover exactly the offsets held |
| `SackReport.SackIsExact` | src/socket_handlers.cpp:1647-1681 | a built SACK acknowledges a TSN exactly if it is at or below the cumulative point or held, and its blocks satisfy the decoder |
| `ReceivePath.Receiver.HandUp` | src/socket_handlers.cpp:109-111 | deliveries behind an open partial delivery are held, others handed up |
| `ReceivePath.Receiver.AdvanceStream` | src/socket_handlers.cpp:113-122 | moves a stream past early messages as the specification does |
| `ReceivePath.Receiver.OrderMessage` | src/socket_handlers.cpp:124-140 | orders one message as specified, or refuses it |
| `ReceivePath.Receiver.Reassemble` | src/socket_handlers.cpp:142-178 | takes the next chunk as specified, or refuses it |
| `ReceivePath.Receiver.AssembleEarly` | src/socket_handlers.cpp:180-227 | finds a whole message around a new chunk across the TSN wrap and orders it |
| `ReceivePath.Receiver.FirstFragment` | src/socket_handlers.cpp:201-207 | walks down to the fragment that begins the message around a chunk, if all between are held |
| `ReceivePath.Receiver.LastFragment` | src/socket_handlers.cpp:208-214 | walks up to the fragment that ends it |
| `ReceivePath.Receiver.TakeOut` | src/socket_handlers.cpp:216-225 | gathers the payloads in TSN order and marks the chunks as assembled |
| `ReceivePath.Receiver.ReadOooBuffer` | src/socket_handlers.cpp:1860-1871 | drains the reorder buffer as specified |
| `ReceivePath.Receiver.MakeRoom` | src/socket_handlers.cpp:93-103 | evicts the highest chunk not yet assembled, if the new one is below it |
| `ReceivePath.Receiver.HighestEvictable` | src/socket_handlers.cpp:94-96 | the highest chunk held that is not part of an assembled message |
| `ReceivePath.Receiver.BlockedOnCumulativeTsn` | src/socket_handlers.cpp:52-60 | tells whether anything complete waits on the cumulative point |
| `ReceivePath.Receiver.HeldBytes` | src/socket_handlers.cpp:25-43 | counts the user data held for reassembly and order |
| `ReceivePath.Receiver.WaitingBytes` | src/socket_handlers.cpp:31-37 | sums the messages waiting for their turn |
| `ReceivePath.Receiver.FindRoom` | src/socket_handlers.cpp:1751-1756 | whether a chunk is taken: within reach, and with room left, made, or not needed |
| `ReceivePath.Receiver.Place` | src/socket_handlers.cpp:1757-1777 | takes a chunk in order, or puts it aside and tries early assembly |
| `ReceivePath.Receiver.GivePartOf` | src/socket_handlers.cpp:1786-1795 | hands up what there is of the open message once the window cannot take its rest |
| `ReceivePath.Receiver.HandleDataChunk` | src/socket_handlers.cpp:1740-1777 | one DATA chunk: duplicate, dropped, taken in order or put aside, as specified |
| `ReceivePath.Receiver.HandleDataChunks` | src/socket_handlers.cpp:1734-1777 | the loop over a packet's chunks, stopping at a violation |
| `ReceivePath.Receiver.HandleDataPacket` | src/socket_handlers.cpp:1688-1795 | a whole packet takes the receiver from one specified state to the next; empty DATA is fatal |
| `ReceivePath.Receiver.GapBlocks` | src/socket_handlers.cpp:1648-1657 | builds the specified gap blocks |
| `ReceivePath.Receiver.MakeSack` | src/socket_handlers.cpp:1647-1681 | builds the specified SACK and resets what the peer counts against the window |
| `Cutting.PacketBounds` | src/socket_event_loop.cpp:105-153 | a packet is within the PMDCS and, unless probing with one chunk, the peer's window; chunks are neither empty nor above a full fragment |
| `Cutting.CutBytes` | src/socket_event_loop.cpp:105-153 | bytes cut are exactly the bytes the queue no longer holds |
| `Cutting.CutShortIsWorthwhile` | src/socket_event_loop.cpp:112-128 | a fragment is cut short only for a message too long for a packet, and only if it fills half the peer's largest window |
| `Cutting.PacketIsFull` | src/socket_event_loop.cpp:105-153 | unless it probes, a packet leaves nothing queued that could still have gone into it: the next chunk does not fit, and every smaller piece is not to be split off or is below half the peer's largest window |
| `Cutting.ShortOnlyAtTheEnd` | src/socket_event_loop.cpp:112-128 | a fragment that neither ends its message nor is full is the last of a packet with less than four bytes left |
| `Cutting.ProbeIsOneChunk` | src/socket_event_loop.cpp:105-153 | a probe carries exactly one chunk, as large as it can be |
| `Cutting.SomethingIsCut` | src/socket_event_loop.cpp:105-153 | with the window open a queue that is not empty gives a packet that is not |
| `Tiling.QueueKeepsTiled` | src/socket_api.cpp:447-450 | queueing a message with the next SSN of its stream leaves what was cut a tiling of the queue |
| `Tiling.CutKeepsTiled` | src/socket_event_loop.cpp:105-153 | successive packets are the queued messages one after another, B and E only at their ends; one that fits a packet is not split |
| `SackProcessing.SackIsApplied` | src/socket_handlers.cpp:1435-1478 | the chunks left outstanding are those above the new point, each flag the SACK's report |
| `SackProcessing.SackKeepsNeverBoth` | src/socket_handlers.cpp:1435-1528 | whatever the state before, a SACK leaves no chunk both gap-acked and marked for retransmission |
| `SackProcessing.SackConservesFlight` | src/socket_handlers.cpp:1435-1528 | per path, flight changes by exactly minus newly acked, plus reneged, minus newly marked bytes, if no chunk was gap-acked and marked before |
| `SackProcessing.ThirdReportMarks` | src/socket_handlers.cpp:1501-1528 | a chunk is marked for fast retransmission by the third report that it is missing, once |
| `FastRetransmission.AccountedInOrder` | src/socket_handlers.cpp:1411-1433 | in every reachable state the outstanding chunks are in TSN order |
| `FastRetransmission.MissingIsCounted` | src/socket_handlers.cpp:1508-1528 | of all a SACK leaves outstanding, an unacknowledged chunk not yet fast retransmitted gains a report if and only if the peer dropped it or a chunk above it is newly acknowledged, or reported at all in fast recovery with the point advanced; the third marks it |
| `FastRetransmission.RecoveryIsBounded` | src/socket_handlers.cpp:1530-1545 | fast recovery begins with the first mark outside it, lasts until the point reaches the highest TSN then outstanding, and only its beginning retransmits at once |
| `FastRetransmission.ShutdownEndsRecovery` | src/socket_handlers.cpp:1287-1289 | a SHUTDOWN ends fast recovery as a SACK does, and never begins it |
| `FastRetransmission.UnsentIsViolation` | src/socket_handlers.cpp:1361-1367 | a SACK is a violation exactly if its point or the end of a block is at or above the next TSN |
| `RetransmissionTimers.SackDecidesTimer` | src/socket_handlers.cpp:1590-1606 | after a SACK the timer of a known path runs if and only if something there is unacknowledged and it ran before, its lowest chunk was settled, or the peer dropped one there |
| `RetransmissionTimers.ShutdownDecidesTimer` | src/socket_handlers.cpp:1259-1316 | a SHUTDOWN restarts or stops the timers of the paths it acknowledges something on, by what is left there, and leaves the others alone |
| `RetransmissionTimers.SendingStartsTimer` | src/socket_timers.cpp:116-136 | sending starts the timer of the packet's destination and touches no other |
| `NoStuckChunk.SackKeeps` | src/socket_handlers.cpp:1590-1624 | a SACK leaves every unacknowledged chunk timed, marked or queued |
| `NoStuckChunk.ExpiryKeeps` | src/socket_timers.cpp:216-264 | so does T3-rtx expiry with failover to any path |
| `Failover.DataPathIs` | src/socket_internal.hpp:109-122 | new DATA takes the primary while it is active, else the first usable path, else the primary |
| `Failover.NewDataIsSent` | src/socket_event_loop.cpp:105-153 | with the window open a queue gives one packet more, for that path, under consecutive TSNs |
| `Failover.RetransmissionPathIs` | src/socket_internal.hpp:129-143 | timed-out DATA goes with new DATA if that goes elsewhere, else to the nearest usable path after it in cyclic order; it stays exactly if there is no other |
| `Failover.ExpiryMovesData` | src/socket_timers.cpp:244-253 | an expiry binds what was in flight to the failed path, and nothing else, for that path, marked or in the packet queued last |
| `Failover.ExpiryPurges` | src/socket_timers.cpp:261-263 | queued retransmissions bound for the failed path go, the others stay, and at most one packet is added |
| `Failover.RetransmissionIsFull` | src/socket_timers.cpp:451-498 | one packet for the destination of the lowest marked chunk, led by it, with that destination's marked chunks in order up to the first that does not fit the PMDCS |
| `Failover.TrimmedIs` | src/send_queue.cpp:132-156 | after a SACK exactly the queued retransmissions it does not acknowledge are left |
| `Failover.ShutdownTrims` | src/socket_handlers.cpp:1259-1286 | so too after a SHUTDOWN that moves the point |
| `Failover.SentIsRecorded` | src/socket_timers.cpp:76-114 | a chunk sent is outstanding where it went and counts as retransmitted exactly if it was outstanding before |
| `NoStuckChunk.StepKeepsNoneStuck` | src/socket_timers.cpp:76-136 | so does every step of the sender |
| `NoStuckChunk.NeverStuck` | src/socket_timers.cpp:451-498 | in every reachable state no chunk is stuck |
| `FlightLedger.StepKeepsNeverBoth` | src/socket_timers.cpp:76-136 | no step of the sender leaves a chunk both gap-acked and marked for retransmission |
| `FlightLedger.NeverBothInRuns` | src/socket_handlers.cpp:1435-1528 | so there is none in any reachable state |
| `FlightLedger.SchedulingFlight` | src/socket_timers.cpp:451-498 | scheduling a retransmission adds to a path's flight exactly the bytes of the packet bound for it |
| `FlightLedger.SacksConserveFlight` | src/socket_handlers.cpp:1435-1626 | every SACK of every run changes a path's flight by minus newly acked, plus reneged, minus newly marked, plus scheduled bytes |
| `NoLoss.SackAccounted` | src/socket_handlers.cpp:1397-1626 | after a SACK the sender holds exactly the chunks above its new point |
| `NoLoss.ShutdownAccounted` | src/socket_handlers.cpp:1246-1296 | after a SHUTDOWN too, and gap-acked chunks stay held |
| `Reliability.EveryRunKeeps` | src/socket_handlers.cpp:1397-1626 | the invariant of sender, network and receiver holds in every reachable state |
| `Reliability.NoViolation` | src/socket_handlers.cpp:1355-1372 | the sender never finds a SACK of this receiver in violation |
| `Reliability.RunStreams` | src/socket_api.cpp:435-436 | all that is cut is on a stream both ends agreed on |
| `Reliability.NeverAborts` | src/socket_handlers.cpp:1760-1777 | while at most 2^15 ordered messages of a stream are sent and not acknowledged whole, the receiver finds no violation |
| `Reliability.ArrivalKeeps` | src/socket_handlers.cpp:1732-1795 | DATA arriving keeps the receiver within what was sent |
| `Reliability.BuiltIsHonest` | src/socket_handlers.cpp:1647-1681 | a SACK put on the network tells of nothing that was not sent |
| `Reliability.SackArrivalKeeps` | src/socket_handlers.cpp:1352-1626 | a SACK arriving, old or new, keeps the invariant and is no violation |
| `Reliability.ShutdownArrivalKeeps` | src/socket_handlers.cpp:1227-1319 | so does a SHUTDOWN |
| `Reliability.NoAcknowledgedLoss` | src/socket_handlers.cpp:1261-1283 | every assigned TSN is at or below the receiver's point or still held by the sender, despite reneging |
| `Reliability.ShutdownDropsNothing` | src/socket_handlers.cpp:1101-1131 | in SHUTDOWN-SENT and SHUTDOWN-ACK-SENT all that was queued was cut, sent and cumulatively acked |
| `Reliability.ShutdownIsNotUndone` | src/socket_handlers.cpp:1246-1296 | no step of sender or network takes an association out of shutting down |
| `ShutdownProgress.ShutdownNeverStalls` | src/socket_handlers.cpp:1101-1146 | in every reachable state a shutdown that waits has DATA queued, unsent or outstanding to wait for |
| `ShutdownProgress.ShutdownBegins` | src/socket_api.cpp:546-574 | the ULP's shutdown and the peer's begin one, and go on at once with nothing left to send |
| `MessageDelivery.MessagesArrive` | src/socket_event_loop.cpp:105-153 | in every reachable state, with nothing assumed of SSNs or streams, the receiving ULP has been given what the sending ULP queued: once, whole, on its stream, in order |
| `MessageDelivery.ShutdownDeliversAll` | src/socket_handlers.cpp:1101-1131 | once shutdown is under way every message queued has been delivered, whole and once |
| `SendPath.TwoPasses` | src/socket_handlers.cpp:1435-1528 | applying the report and then counting missing reports is the specified processing of each chunk |
| `SendPath.PackPending` | src/socket_timers.cpp:470-490 | the packet holds the lowest marked chunks for one destination that fit |
| `SendPath.ApplySack` | src/socket_handlers.cpp:1435-1478 | the first pass over the outstanding chunks |
| `SendPath.CountMissing` | src/socket_handlers.cpp:1500-1528 | the second pass: missing reports, and what to retransmit fast |
| `SendPath.HighestTsns` | src/socket_handlers.cpp:1411-1433 | the highest TSN newly acked and the highest reported |
| `SendPath.EarliestOnPaths` | src/socket_handlers.cpp:1400-1409 | the unacknowledged chunk of each path nearest the cumulative point |
| `SendPath.TrimAcked` | src/send_queue.cpp:132-156 | acked chunks leave queued retransmissions, and packets left empty go |
| `SendPath.DropBoundFor` | src/send_queue.cpp:158-187 | queued DATA bound for one address goes |
| `SendPath.MarkTimedOut` | src/socket_timers.cpp:244-253 | what was in flight to the failed path is marked and bound for the next |
| `SendPath.DropAcked` | src/socket_handlers.cpp:1261-1275 | what a SHUTDOWN acknowledges goes, and the paths it was sent on are found |
| `SendPath.Sender.RestartT3` | src/socket_timers.cpp:122-136 | the timer runs exactly if the destination is known and has something unacknowledged |
| `SendPath.Sender.StartT3IfStopped` | src/socket_timers.cpp:116-120 | leaves a running timer alone |
| `SendPath.Sender.RecordDataSent` | src/socket_timers.cpp:76-114 | a chunk sent is outstanding, or sent again and no longer gap-acked |
| `SendPath.Sender.RecordPacketSent` | src/socket_event_loop.cpp:452-497 | all chunks of a packet are recorded and its destination timed |
| `SendPath.Sender.SendRetransmission` | src/socket_event_loop.cpp:185-188 | a retransmission leaves the queue and is recorded |
| `SendPath.Sender.SendNewData` | src/socket_event_loop.cpp:185-188 | so does a packet of new DATA |
| `SendPath.Sender.BytesInFlight` | src/socket_internal.hpp:203-212 | sums what is outstanding on a path, neither gap-acked nor marked |
| `SendPath.Sender.SchedulePendingRetransmission` | src/socket_timers.cpp:451-498 | queues one packet of marked chunks, or none if the window is closed |
| `SendPath.Sender.CutNewData` | src/socket_event_loop.cpp:105-153 | cuts the specified packet with consecutive TSNs; `outbound_bytes` is what is left; says when the window blocked it |
| `SendPath.Sender.RefillNewData` | src/socket_event_loop.cpp:312-338 | cuts only when nothing cut is waiting |
| `SendPath.Sender.SendData` | src/socket_api.cpp:423-453 | refuses for the reasons in the order given, or queues the message under the SSN its place in its stream gives it |
| `SendPath.Sender.ProcessAcks` | src/socket_handlers.cpp:1384-1607 | chunks, cumulative point, fast recovery and timer decisions after a SACK |
| `SendPath.Sender.DecideT3` | src/socket_handlers.cpp:1590-1606 | stop, restart, start or leave the timer of each path |
| `SendPath.Sender.ApplyT3Actions` | src/socket_handlers.cpp:1612-1624 | timers stop, restart or start as decided |
| `SendPath.Sender.HandleSack` | src/socket_handlers.cpp:1352-1626 | a SACK takes the sender from one specified state to the next, or is a violation |
| `SendPath.Sender.HandleT3Expiration` | src/socket_timers.cpp:216-264 | so does the expiry of T3-rtx |
| `SendPath.Sender.DoNextShutdownStep` | src/socket_handlers.cpp:1101-1146 | shutdown proceeds once everything assigned is acked and nothing is queued |
| `SendPath.Sender.HandleShutdown` | src/socket_handlers.cpp:1227-1319 | a SHUTDOWN acknowledges cumulatively, keeps gap-acked chunks, and moves the shutdown on |
| `SendPath.Sender.DropAcknowledged` | src/socket_handlers.cpp:1259-1286 | cumulative acknowledgement by a SHUTDOWN, timers and queue included |
| `SendPath.Sender.RestartWhere` | src/socket_handlers.cpp:1314-1316 | timers restart on the paths acknowledged |
| `SendPath.Sender.Shutdown` | src/socket_api.cpp:546-574 | the ULP's shutdown in each state |
| `PathControl.HalvedIs` | src/socket_event_loop.cpp:95-97 | n idle periods leave max(floor, cwnd / 2^n) |
| `PathControl.DecayIgnoresPolling` | src/socket_event_loop.cpp:81-98 | any series of decay calls leaves what the last alone would |
| `PathControl.DecayRemembers` | src/socket_event_loop.cpp:81-98 | the first decay of an idle spell keeps the window in ssthresh, and less than one RTO is left over |
| `PathControl.StepKeepsBounds` | src/socket_handlers.cpp:1530-1537 | every event keeps cwnd at least PMDCS, ssthresh at least four, and the RTO in range |
| `PathControl.BoundsHoldInEveryRun` | src/socket_internal.hpp:103-108 | a new path is within bounds exactly when PMDCS is at most RWND / 4, and then always |
| `PathControl.BackOffIsExponential` | src/socket_timers.cpp:231-237 | n expiries leave min(rto * 2^n, RTO.Max) |
| `PathControl.GrowthIsEarned` | src/socket_handlers.cpp:342-358 | the window opens only when in use, by at most what was acknowledged or a PMDCS, and spends a window of acknowledged bytes beyond ssthresh |
| `PathControl.GrowthIsExact` | src/socket_handlers.cpp:342-358 | and exactly when earned, by all that was acknowledged up to a PMDCS in slow start, by a PMDCS per window beyond |
| `PathControl.SlowStartAdds` | src/socket_handlers.cpp:342-358 | over any series of acknowledgements in slow start the window opens by the sum of what they acknowledge, up to a PMDCS each |
| `PathControl.LossHalves` | src/socket_timers.cpp:231-237 | fast retransmit halves the window, an expiry leaves one packet and remembers half and doubles the RTO |
| `PathControl.InitialWindow` | src/socket_internal.hpp:59-61 | four packets, 4404 bytes or two packets, by size |
| `PathControl.RttIsSmoothed` | src/socket_timers.cpp:419-448 | SRTT takes an eighth of a sample and RTTVAR a quarter of its deviation, in whole microseconds; the RTO is their sum with four times the variation, clamped |
| `PathControl.SrttStaysBetween` | src/socket_timers.cpp:424-438 | the smoothed estimate stays between the old one and the sample |
| `PathControl.PeerPath.DecayIdleCwnd` | src/socket_event_loop.cpp:81-98 | the loop halves as specified |
| `PathControl.PeerPath.GrowCwnd` | src/socket_handlers.cpp:342-358 | slow start and congestion avoidance as specified |
| `PathControl.PeerPath.EnterFastRecovery` | src/socket_handlers.cpp:1530-1537 | the cut of fast retransmit |
| `PathControl.PeerPath.ExpireT3` | src/socket_timers.cpp:231-237 | the cut and backoff of an expiry |
| `PathControl.PeerPath.MeasureRtt` | src/socket_timers.cpp:419-448 | SRTT and RTTVAR truncated to microseconds, RTO clamped |
| `Handshake.OnlyRestartUndoesShutdown` | src/socket_handlers.cpp:916-966 | of all messages and timers only a restarted peer's cookie takes a shutdown to ESTABLISHED, and never from SHUTDOWN-ACK-SENT |
| `Handshake.CookieIsJudged` | src/socket_handlers.cpp:885-974 | for every TCB, exactly which cookies are acknowledged, refused as stale or ignored; acknowledging one leaves its tags, anything else changes nothing |
| `Handshake.RestartReplaces` | src/socket_handlers.cpp:923-945 | a fresh cookie of a restart leaves an ESTABLISHED association with its tags and TSNs, any other keeps everything but state and peer |
| `Handshake.HandshakeSucceeds` | src/socket_handlers.cpp:649-974 | four messages establish both ends, each with the other's tag and TSN, whatever is drawn |
| `Handshake.CollisionSucceeds` | src/socket_handlers.cpp:681-974 | so do two ends that open at the same time |
| `Handshake.FormingSpends` | src/socket_timers.cpp:45-74 | whatever leaves an association forming decreases (retries, state, retransmissions) lexicographically if it is a T1 expiry, an accepted INIT ACK or an honoured Stale Cookie error, and leaves it alone otherwise |
| `Handshake.RemovedAtTheLimit` | src/socket_timers.cpp:56-62 | a forming association is removed exactly at a limit, or by an INIT ACK it heeds that has no tag, cookie or streams, or a host name |
| `Handshake.HandshakeTerminates` | src/socket_handlers.cpp:995-1018 | whatever else arrives in between, at most 53 such steps before it is up or removed |
| `Handshake.Listener.HandleInit` | src/socket_handlers.cpp:649-751 | refuses an INIT without a tag or streams, with a host name or with new addresses; otherwise answers from the state it is in, with a SHUTDOWN ACK in SHUTDOWN-ACK-SENT, changing only Tie-Tags |
| `Handshake.Listener.HandleInitAck` | src/socket_handlers.cpp:753-827 | takes one usable INIT ACK under its own tag in COOKIE-WAIT; one that is not usable ends the attempt |
| `Handshake.Listener.HandleCookieEcho` | src/socket_handlers.cpp:867-974 | the collision and restart table, stale cookies included; a restart in SHUTDOWN-ACK-SENT gets a SHUTDOWN ACK and an ERROR |
| `Handshake.Listener.HandleCookieAck` | src/socket_handlers.cpp:1148-1163 | establishes from COOKIE-ECHOED only |
| `Handshake.Listener.HandleStaleCookie` | src/socket_handlers.cpp:995-1018 | starts over, twice at most |
| `Handshake.Listener.ExpireT1` | src/socket_timers.cpp:45-74 | retries eight times, then removes |
| `Agreement.CookieEchoKeeps` | src/socket_handlers.cpp:911-974 | every row of the table keeps both ends' tags in step |
| `Agreement.EchoIsAnswered` | src/socket_handlers.cpp:885-974 | a cookie is ignored, refused with nothing changed, or accepted with the tags of both ends |
| `Agreement.StaleCookieKeeps` | src/socket_handlers.cpp:995-1018 | a retry after a refusal keeps both ends in step |
| `Agreement.NoRestart` | src/socket_handlers.cpp:923-945 | a cookie the peer echoed never matches by its Tie-Tags alone, so the restart row is not reached while no TCB is removed |
| `Agreement.InitKeeps` | src/socket_handlers.cpp:681-717 | cookies name the peer's tag, and Tie-Tags only a live association |
| `Agreement.HandshakeAgrees` | src/socket_handlers.cpp:885-974 | through loss, duplication, collisions, stale cookies and retries, with no TCB removed: ends that are up hold each other's tag and initial TSN in every state if and only if each COOKIE ACK heeded answers the cookie of the tag held |
| `Agreement.UnboundBreaks` | src/socket_handlers.cpp:1148-1163 | a COOKIE ACK heeded for another tag leaves both ends up and apart |
| `Agreement.OrderlyRunsAgree` | src/socket_handlers.cpp:995-1018 | runs that heed errors only about the cookie last echoed, and take no refused cookie for a retransmission, agree |
| `Restart.RestartAgrees` | src/socket_handlers.cpp:923-945 | an end that loses its TCB and opens again, with everything ever sent still in the network, agrees with its peer once up, in every state of every run, if and only if each COOKIE ACK it heeds answers the cookie of the tag it holds |
| `Restart.NewCookieAtSurvivor` | src/socket_handlers.cpp:905-966 | the cookie of a restart replaces the old association, is taken for a retransmission, or changes nothing |
| `Restart.UnboundRestartBreaks` | src/socket_handlers.cpp:1148-1163 | a COOKIE ACK heeded for another tag leaves both ends up and apart |
| `Restart.RestartSucceeds` | src/socket_handlers.cpp:649-974 | four messages replace any association that is up by one both ends agree on, except in SHUTDOWN-ACK-SENT |
| `Agreement.PeerTagZeroExactlyInCookieWait` | src/socket_handlers.cpp:797-808 | in every run the peer tag is zero exactly in COOKIE-WAIT |
| `Agreement.StaleCookieBreaksAgreement` | src/socket_handlers.cpp:995-1018 | a run that heeds an error about an earlier cookie, and accepts none it refused, ends with both ends up and the tags apart |
| `Agreement.RevivedCookieBreaksAgreement` | src/socket_handlers.cpp:905-922 | so does one that accepts a cookie it refused, though every error heeded is about the cookie last echoed |
| `TimerHeap.DrainAgain` | src/expiration_queue.cpp:72-87 | draining early and again fires what draining once would, nothing twice |
| `TimerHeap.NothingDueBeforeNext` | src/expiration_queue.cpp:89-101 | before the next deadline nothing is due, and at it something is |
| `TimerHeap.ExpirationQueue.Schedule` | src/expiration_queue.cpp:5-14 | replaces the timer of a key |
| `TimerHeap.ExpirationQueue.Cancel` | src/expiration_queue.cpp:16-19 | removes it, though its entry stays in the heap |
| `TimerHeap.ExpirationQueue.CancelAll` | src/expiration_queue.cpp:21-30 | removes all of an association |
| `TimerHeap.ExpirationQueue.CancelAllOf` | src/expiration_queue.cpp:32-41 | removes all of one kind |
| `TimerHeap.ExpirationQueue.IsActive` | src/expiration_queue.cpp:43-46 | tells whether the plain map has the key |
| `TimerHeap.ExpirationQueue.DrainExpired` | src/expiration_queue.cpp:72-87 | returns exactly the live timers due, once each, in deadline order, and leaves the rest |
| `TimerHeap.ExpirationQueue.NextDeadline` | src/expiration_queue.cpp:89-101 | returns the earliest live deadline |
| `ReceiveQueue.PushKeeps` | src/receive_queue.cpp:5-20 | a push adds the same piece to the log and to what reader and queue hold |
| `ReceiveQueue.ReadKeeps` | src/receive_queue.cpp:55-71 | a read of any size moves bytes from queue to reader and changes nothing else |
| `ReceiveQueue.AbandonKeeps` | src/receive_queue.cpp:73-87 | abandoning the open message keeps reads and log in step exactly when its beginning was not read |
| `ReceiveQueue.ReadsGiveTheLog` | src/receive_queue.cpp:5-95 | over every run reads split where `partial` is false are the messages pushed, in order |
| `ReceiveQueue.TornMessageIsGlued` | src/receive_queue.cpp:73-87 | a run in which an abandoned beginning is glued to the next message |
| `ReadProgress.ReadTakesWhatFits` | src/receive_queue.cpp:55-71 | a read takes as much of the first message as fits, under its stream, and tells whether more is to come |
| `ReadProgress.StreamIsKept` | src/receive_queue.cpp:5-20 | a message keeps the stream it was begun on |
| `ReadProgress.EnoughReadsGiveAll` | src/receive_queue.cpp:22-71 | enough reads of any positive sizes give the reader every message pushed and all there is of the open one |
| `ReceiveQueue.Queue.Push` | src/receive_queue.cpp:5-20 | continues the open message or adds one; counts and ready list stay exact |
| `ReceiveQueue.Queue.ReadLocked` | src/receive_queue.cpp:55-71 | takes from the first message, its counts and the detached ones |
| `ReceiveQueue.Queue.ReadAny` | src/receive_queue.cpp:22-39 | serves associations in turn, staying with one while its message is part-read |
| `ReceiveQueue.Queue.ReadFromKey` | src/receive_queue.cpp:41-53 | reads one association and leaves the others |
| `ReceiveQueue.Queue.AbandonOpen` | src/receive_queue.cpp:73-87 | drops the open message and its bytes |
| `ReceiveQueue.Queue.Detach` | src/receive_queue.cpp:89-95 | what is left stops counting against the window |
| `ReceiveQueue.Queue.BufferedBytes` | src/receive_queue.cpp:117-121 | unread bytes less those detached |
| `SendQueue.CommitTakesPeeked` | src/send_queue.cpp:96-110 | committing removes the packet that was peeked, perhaps trimmed since, or nothing |
| `SendQueue.FoundIsFirst` | src/send_queue.cpp:77-94 | the new DATA found is the first of its association |
| `SendQueue.NothingFound` | src/send_queue.cpp:77-94 | none is found exactly when no association may send its first packet |
| `SendOrder.PeekIsByPriority` | src/send_queue.cpp:66-94 | a peek finds the oldest control packet, else the oldest retransmission, else the first new DATA in queue order that is first of its association and may go |
| `SendOrder.PeekNotes` | src/send_queue.cpp:25-34 | the associations noted are exactly those whose first packet the window alone held back |
| `SendOrder.ServedInOrder` | src/send_queue.cpp:66-110 | rounds of peek and commit serve control, then retransmissions, first in, first out |
| `SendOrder.EnqueueAppends` | src/send_queue.cpp:47-54 | a packet joins the end of its queue under a new identifier and wakes the event loop, unless it is control and 256 wait |
| `SendOrder.PurgedIs` | src/send_queue.cpp:117-130 | purging removes an association's packets and no others |
| `SendOrder.TrimmedIs` | src/send_queue.cpp:132-187 | trimming leaves of each packet exactly the chunks not to be dropped, and no empty packet |
| `SendOrder.AllowanceIs` | src/send_queue.cpp:25-34 | what an allowance admits and what counts as held by the window |
| `SendQueue.EveryInterleaving` | src/send_queue.cpp:47-187 | over every interleaving identifiers stay unique and each association's new DATA leaves in the order queued |
| `SendQueue.Queue.EnqueuePacket` | src/send_queue.cpp:47-54 | appends under a new identifier; control beyond 256 is dropped |
| `SendQueue.Queue.PeekPacket` | src/send_queue.cpp:66-94 | control, then retransmissions, then the first admissible new DATA, noting who the window refused |
| `SendQueue.Admit` | src/send_queue.cpp:25-34 | whether an allowance lets a packet out, noting a refusal by the window alone |
| `SendQueue.Queue.CommitPacket` | src/send_queue.cpp:96-110 | removes by identifier and ends backing off |
| `SendQueue.Queue.PurgePackets` | src/send_queue.cpp:117-130 | removes an association's packets from all three queues |
| `SendQueue.Queue.TrimRetransmissions` | src/send_queue.cpp:132-187 | removes acked DATA, or a kind with its bundled ERROR, and packets left empty |
| `SendQueue.DeferDelays` | src/send_queue.cpp:112-115 | backing off delays what a peek finds and changes nothing of it |
| `SendQueue.SleepIsSafe` | src/send_queue.cpp:198-205 | after a peek that found nothing there is no deadline, and through any purging and trimming still nothing to send under its allowances |
| `SendQueue.BlockedSince` | src/send_queue.cpp:92-93 | the flag is set exactly while a refusal stands: nothing queued or cleared since, whatever later peeks found |
| `SendQueue.RetryIsScheduled` | src/send_queue.cpp:198-205 | a failed send is retried at the time asked exactly unless only new DATA is queued and a refusal stands |
| `SendQueue.FailedSendIsForgotten` | src/send_queue.cpp:198-205 | a run in which a packet could be sent and there is no deadline |
| `WireFormat.WalkRoundTrip` | src/serialize.cpp:59-69 | walking over encoded parameters reads them back |
| `WireFormat.ScanIsIdempotent` | src/serialize.cpp:108-134 | scanning what a scan recognized recognizes all of it and reports nothing |
| `WireFormat.FindAfterScan` | src/serialize.cpp:71-89 | a lookup in what was recognized finds the first such parameter before the stop |
| `WireLayout.ScanIsFilter` | src/serialize.cpp:108-134 | in terms of the parameters read, a scan keeps the known ones before the one that stops it and reports, whole and padded, the unknown ones that ask for it |
| `WireLayout.TypeBits` | src/serialize.cpp:108-134 | which types ask to be skipped and which to be reported |
| `WireLayout.ParameterLayout` | src/serialize.cpp:59-69 | type, length, value and padding of a parameter, byte by byte |
| `WireFormat.FindParameter` | src/serialize.cpp:71-89 | the walk by offset is the specified lookup, and ends |
| `WireFormat.ScanParameters` | src/serialize.cpp:108-134 | the walk by offset is the specified scan, and ends |
| `Codec.SackRoundTrip` | src/serialize.cpp:408-451 | a SACK decodes to itself exactly when its gap blocks are in order and apart, and is refused otherwise |
| `Codec.ValueRoundTrip` | src/serialize.cpp:285-347 | every chunk type decodes to the value encoded |
| `Codec.ChunksRoundTrip` | src/serialize.cpp:244-283 | chunk after chunk, through inner and outer padding, whenever each length fits 16 bits |
| `Codec.PacketRoundTrip` | src/serialize.cpp:221-283 | a packet decodes to its ports, tag and chunks |
| `WireLayout.PacketLayout` | src/serialize.cpp:453-471 | ports and tag in network byte order at 0, 2 and 4, the checksum in the other at 8, the chunks from 12 |
| `WireLayout.ChunkLayout` | src/serialize.cpp:473-530 | type, flags, length, body and zero padding of a chunk |
| `WireLayout.InitLayout` | src/serialize.cpp:532-542 | the fields of an INIT body at their offsets |
| `WireLayout.DataLayout` | src/serialize.cpp:554-563 | the fields of a DATA body |
| `WireLayout.SackLayout` | src/serialize.cpp:565-590 | the fields, blocks and duplicates of a SACK body |
| `Codec.ChecksumVerifies` | src/serialize.cpp:453-471 | the checksum read is that of the packet with the field cleared |
| `Codec.BuiltSackDecodes` | src/serialize.cpp:421-434 | every SACK this receiver builds decodes to itself while its length fits 16 bits |
| `Codec.SerializeCauses` | src/serialize.cpp:548-552 | the loop over causes; one too long is refused |
| `Codec.SerializeGaps` | src/serialize.cpp:580-585 | the loop over gap blocks; an empty or reversed one is refused |
| `Codec.SerializeBody` | src/serialize.cpp:479-514 | the body of every chunk type, refused exactly where the encoder throws |
| `Codec.SerializeChunk` | src/serialize.cpp:473-530 | the header is filled in behind the body and the chunk cut or padded to its 16-bit length; what the encoder refuses is refused |
| `Codec.LongChunkIsLost` | src/serialize.cpp:516-529 | a chunk whose length does not fit 16 bits never decodes to itself |
| `Codec.ChunkComesBack` | src/serialize.cpp:473-530 | of the chunks the encoder takes, one decodes to itself if and only if its length fits and its flags or gap blocks are as the decoder wants them |
| `Codec.SerializePacket` | src/serialize.cpp:453-471 | the loop over chunks, and the checksum written last |
| `Codec.DeserializePacket` | src/serialize.cpp:221-283 | the loop by offset is the specified decoder, and ends |
| `Codec.DeserializeGaps` | src/serialize.cpp:421-434 | the loop over gap blocks |
| `Codec.DeserializeCauses` | src/serialize.cpp:377-395 | the loop over error causes |
| `CookieAuth.CookieRoundTrip` | src/serialize.cpp:136-211 | a State Cookie decodes to itself at its fixed offsets |
| `CookieAuth.CookieVerifies` | src/cookie_auth.cpp:103-151 | after any calls a cookie whose key is held and that comes from its endpoint is judged by its age alone, valid or stale by exactly the excess; from elsewhere it is refused; without the key it is unknown or refused for its MAC |
| `CookieAuth.CookieIsComplete` | src/cookie_auth.cpp:14-47 | a cookie verifies at every age up to its lifespan through any rotations and the wrap of the generation |
| `CookieAuth.ValidMeans` | src/cookie_auth.cpp:103-151 | which bytes are accepted at all: size, version, MAC under a held key, ports, tag, address and age, read at their offsets |
| `CookieAuth.CookieBringsBack` | src/cookie_auth.cpp:49-101 | a cookie carries all of the INIT and the answer, and lives a minute plus what was asked, at most two |
| `CookieAuth.OldKeysAreForgotten` | src/cookie_auth.cpp:14-47 | a key is replaced after an hour and forgotten after another |
| `CookieAuth.Authorizer.RotateIfDue` | src/cookie_auth.cpp:14-34 | rotates after an hour and keeps the old key |
| `CookieAuth.Authorizer.FindSecret` | src/cookie_auth.cpp:36-47 | the current or the previous key, by 8-bit generation |
| `CookieAuth.Authorizer.Generate` | src/cookie_auth.cpp:49-101 | rotates if due and signs under the current key |
| `CookieAuth.Authorizer.Verify` | src/cookie_auth.cpp:103-151 | the checks in their order |

## Left out

- Threads, locks, blocking timeouts, sockets and the event loop's polling: handlers are atomic steps and clock readings are parameters.
- HMAC-SHA256 and CRC32c: any functions; random tags and keys: any values, tags unused before.
- Heartbeats, path confirmation and error counts: paths carry only `active` and `confirmed`, and counting an error is a change of those given to the step; removal of an unreachable association is not modelled.
- T2 and T5 of a shutdown, SHUTDOWN ACK and SHUTDOWN COMPLETE: they only resend or remove the association.
- RTT measurement in `handle_sack` (which chunk is timed) and `duplicate_bytes`: the resulting samples and byte counts are inputs of `PathControl`.
- The peer's window estimate and the flags of zero-window probing: the window and the permission to probe are inputs of the cutter.
- The SACK bundled with a SHUTDOWN in SHUTDOWN-SENT: it is built before that packet's deliveries are queued, so the window theorem does not cover it.
- When a SACK is sent (every second packet, the delay timer, the reasons for sending at once) and the ERROR for invalid streams: what the SACK says is modelled, and that such DATA is not delivered.
- Out-of-the-blue replies, ABORT, ERROR wording and notifications: single-branch decisions.
- Multi-homing in the two-endpoint runs: both ends are single-homed there.
- Agreement.HandshakeAgrees: assumes that no TCB is removed.
- SendPath.Sender.RecordDataSent: does not model send times, the chunk timed for RTT or the peer's window estimate, which no result here is about.
- SendPath.Sender.ProcessAcks: leaves out RTT samples, the window estimate and cwnd growth; `PathControl` has the last.
- SendPath.Sender.HandleSack: leaves out the same and the reset of error counts.
- SendPath.Sender.HandleT3Expiration: the cut of cwnd and RTO is `PathControl.PeerPath.ExpireT3`; the removal of an unreachable peer is left out.
- SendPath.Sender.SendData: decides at once, where the code may wait for room first.
- `std::map` and `std::priority_queue` themselves: an ordered walk is a walk by offset or a sequence, and the top of the heap is any earliest entry.
- `find_ipv4_addresses`: the same walk as `find_parameter`.
- The append loop of `serialize_state_cookie`, and straight-line encoders of single fields: these are functions on byte sequences.
