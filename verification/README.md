# UDPlex: verification of the stream protocol, the schedulers, batching and framing

UDPlex carries UDP and TCP traffic between two sites over several unreliable lines. This project models, in Dafny, the
parts of it that are state machines with real loops and arithmetic, and proves what they promise.

- **Streams** (`Stream*.dfy`, `FrameCodec.dfy`, `BigEndian.dfy`; `src/tcp_stream.go`). Two ends carry a TCP byte stream
  as sequenced frames. `StreamEnd` gives each section that runs under a stream's mutex as a function on the state of one
  end, with `readLoop` and `writeLoop` split where they give the lock up. `StreamSystem` couples two ends by the history
  of all frames ever sent: any of them may be delivered at any later time, any number of times, or never.
  `StreamClass.TcpStream` is the object with its fields updated in place, proved to move as those functions do.
  The theorems are in `StreamTheorems`, `StreamFlow`, `StreamWindow`, `StreamRecovery`, `StreamCompletion`,
  `StreamTiming`, `StreamLife`, `StreamAnswers`, `StreamUpdates` and `StreamWakes`.
- **Schedulers** (`Codel.dfy`, `Fifo.dfy`, `TcpQueue*.dfy`, `PathShaper*.dfy`; `src/codel.go`, `src/shaper.go`,
  `src/tcp_tunnel_queue.go`). Times are whole nanoseconds, tokens and credit exact reals. Again a value, the object
  proved to move as the value, and theorems over all interleavings of operations.
- **Batching and framing** (`UdpBatch.dfy`, `UdpRead.dfy`, `BatchWrite.dfy`, `Framing.dfy`, `ReadLoop.dfy`;
  `src/udp_batch.go`, `src/tcp_tunnel.go`). Kernel and socket are methods whose outcome is left open within their
  contract; what they accept is recorded in ghost state.
- **Heartbeat statistics** (`HeartbeatRing.dfy`; `src/heartbeat_tracker.go`). The ring of packed words against the log of
  events.

`dafny verify dfyconfig.toml` checks the project.

## Where the code does less than it seems to

- `src/tcp_tunnel_queue.go:265-270`: the comment says priority packets are dropped when priority is over its share. The
  branch asks for `credit <= 0` and bulk waiting inside a case that has positive credit or no bulk waiting, so it is never
  taken (`TcpQueueClass.TcpTunnelQueue.TakePriority` asserts so) and `priorityCodel` is never consulted.
- `src/shaper.go:303`: the floor under `priorityTokens` forgives debt for packets larger than the priority bucket, so with a
  `priority_size` that, with IP headers of either family, passes the bucket and fits the queue beside bulk, and a share
  below 100 percent, priority exceeds its rate, and exactly then
  (`PathShaperOverrun.PriorityBoundIsExact`, `PathShaperOverrun.JumboOverruns`).
- `src/tcp_tunnel.go:669`: the size check admits payloads up to BufferSize, but header and payload together have only
  BufferSize bytes of room; a message with one of the last 8 sizes fills the buffer and the connection is closed as
  malformed, whatever the reads (`Framing.RoomIsExact`, `ReadLoop.TcpTunnelReader.Receive`, `ReadLoop.OversizeCloses`).
- `src/heartbeat_tracker.go:112`: the 24-hour window covers 1441 minutes of a 1440-slot ring (`HeartbeatRing.DayWindow`).
- `src/tcp_stream.go:507`: docs/tcp_listen_en.md:23 says the connection is reset when unacknowledged data makes no progress
  for `timeout` seconds. The clock is not set when data is queued on an idle stream, so what is sent after an idle time is
  given that much less, down to nothing (`StreamLife.IdleTimeCounts`, `StreamLife.IdleStreamDies`).
- `src/tcp_stream.go:293`: a sender assumes 64 KiB of window before the first ACK. A receiver configured with less may have
  to throw away what does not fit; `StreamWindow.WindowIsExact` says exactly when (`StreamFlow.SmallWindowOverrun`).

## Model

| member | source | states |
|---|---|---|
| StreamTheorems.StreamSafety | src/tcp_stream.go:538-604 | In every state of every run with loss, duplication and reordering, in both directions: bytes written, being written and queued at the receiver are a prefix of what the sender read from its conn; rcvFin and finWritten hold only when they are all of it; the server dials exactly once as soon as OPEN is delivered, its own target or, having none, the one in OPEN, and the client never |
| StreamTheorems.GracefulFinish | src/tcp_stream.go:754-764 | An end that is finished has had everything it read delivered and has written everything its peer read; next sequence numbers agree both ways |
| StreamTheorems.LingeringAckSuffices | src/tcp_stream.go:374-389 | The answer a finished, lingering end gives to any frame but a pure ACK acknowledges everything its live peer has sent, and the peer finishes if its own writes are done |
| StreamTheorems.AckTruth | src/tcp_stream.go:352-363 | sndUna <= peer rcvNxt <= sndNxt; every acknowledgement ever sent is at most its sender's rcvNxt and on a segment boundary; unacked of a live end tiles [sndUna, sndNxt) exactly; every parked segment lies above rcvNxt |
| StreamTheorems.NothingResentBelowUna | src/tcp_stream.go:452-465 | No frame sent in a step carries a segment from below the sndUna of that moment |
| StreamTheorems.NeverRetreats | src/tcp_stream.go:325-338 | In the order an end sends its frames, acknowledgements and advertised right edges never go back |
| StreamTheorems.NoStall | src/tcp_stream.go:487-499 | Whenever the mutex of a live stream is free: unacked data or a closed window without FIN has an armed timer, a pending ack has its timer, nothing pending means a sent frame acknowledged everything delivered, a reader or writer waiting with work to do has a token; the retransmission delay is within 200 ms and 10 s |
| StreamTheorems.KarnRule | src/tcp_stream.go:416-420 | Along every run the estimators change only on an acknowledgement of a segment that was sent exactly once, and then as sections 2.2, 2.3 and 3 of RFC 6298 say, in numbers: srtt, rttvar and the timeout |
| StreamKarn.EstimatorLaw | src/tcp_stream.go:467-485 | On each frame: a first sample R gives srtt = R, rttvar = R/2; a later one 7/8 and 1/8, 3/4 and 1/4, rounded down; rto = srtt + 4 rttvar within 200 ms and 10 s; whatever is no sample changes nothing |
| StreamTiming.SmoothedWithin | src/tcp_stream.go:467-485 | Over every run the smoothed round trip stays between the least and the largest sample, and its variation below the largest |
| StreamTiming.FastRetransmitExactly | src/tcp_stream.go:409-465 | A frame makes a live end send a segment again if and only if it shows a loss, by being the third in a row marked out of order or by acknowledging part of what was outstanding at the last one, and the first segment it leaves outstanding was last sent srtt + srtt/4 ago or more; it is that segment, once; the counter and the repair point are kept with it |
| StreamTiming.FiringsBackOff | src/tcp_stream.go:489-499 | With nothing heard in between, the timer is set to rto, doubled at each firing up to six times and to ten seconds |
| StreamTiming.ProgressRestarts | src/tcp_stream.go:414-430 | An acknowledgement of something new, and nothing else, restarts the timeout and the backoff; any frame heard restarts the clock of the probes |
| StreamLife.EndsForCause | src/tcp_stream.go:755-798 | A live end dies if and only if: both directions are done, an RST arrives, the timeout is over at a firing of the timer, no OPEN came, the endpoint stops, or dial, read or write fails; it is finished in the first case only, and sends RST in the last five and at no other time |
| StreamLife.DeadAnswers | src/tcp_stream.go:374-389 | A dead end answers frames with RST, or with its acknowledgement if it finished, but no RST, and no pure ACK once finished |
| StreamLife.ResetReaches | src/tcp_stream.go:374-389 | The next frame of the peer to reach an end that broke off brings back an RST that ends the peer |
| StreamLife.FirstContact | src/tcp_stream.go:180-197 | The first frame of an unknown stream: RST is ignored, an ACK or a frame at a stopped endpoint draws an RST that ends the client, any other opens the stream |
| StreamLife.IdleTimeCounts | src/tcp_stream.go:506-512 | The timeout of a first segment queued after a time without progress is shortened by exactly that time |
| StreamLife.IdleStreamDies | src/tcp_stream.go:506-512 | A run in which a client reads its first bytes when the timeout since the acknowledgement of OPEN is over, and the connection is reset at a firing of the timer at that moment |
| StreamAnswers.FrameAnswered | src/tcp_stream.go:538-580 | What a live end answers a frame with, beside what it sends again: an ACK at once for a segment it has, for one that closes a gap, for OPEN, FIN and every second data segment; one marked out of order for one that comes early; nothing yet for a first data segment, nothing for data beyond the window; an ACK for a probe otherwise unanswered; each with the ack and window of that moment |
| StreamAnswers.OutOfTurnKept | src/tcp_stream.go:548-556 | An early segment within the window is set aside once, as it is; nothing else that is out of turn is kept |
| StreamAnswers.InTurnTaken | src/tcp_stream.go:558-572 | A segment in its turn is taken, unless it is data beyond window and mss |
| StreamAnswers.RunPrompt | src/tcp_stream.go:573-579 | In no reachable state is more than one segment delivered in order unacknowledged |
| StreamWakes.WakesArePaid | src/tcp_stream.go:664-667 | In every stretch of every run each of the two loops of a live end wakes at most once for each frame the end hears, and once more for a signal left over; no loop spins |
| StreamUpdates.RunTold | src/tcp_stream.go:325-338 | In every reachable state advRight is the furthest right edge among the frames sent |
| StreamUpdates.UpdatesWindow | src/tcp_stream.go:737-740 | Once bytes are written out the peer is told of the window if and only if its right edge is a quarter window beyond the furthest one told |
| StreamTheorems.RunOnward | src/tcp_stream.go:245-283 | Histories, sequence numbers and window edges only grow along a run; a dead end stays dead and a finished one finished |
| StreamTheorems.FinishedIsComplete | src/tcp_stream.go:755-764 | In any state satisfying the invariant, a finished end and its peer have each delivered all the other queued |
| StreamFlow.FlowControl | src/tcp_stream.go:548-560 | With a window of at least 64 KiB: in-order bytes queued plus data parked out of order never exceed it, no data frame the peer ever sent is refused by line 558 or fails line 549; sndNxt exceeds sndRight by at most the FIN; rcvNxt minus queued bytes is control sequence numbers plus bytes written |
| StreamWindow.WindowIsExact | src/tcp_stream.go:285-293 | No data frame is ever refused or out of window, in any run, if and only if the window is large enough: from server to client the 64 KiB assumed before the first ACK; from client to server the same for client segments below 64 KiB, and a byte less for larger ones, which wait for OPEN to be acknowledged |
| StreamWindow.RunPatient | src/tcp_stream.go:655-661 | With such large segments and a server window of 65535: until the server has OPEN the client has sent nothing else, and from then on the server has room for all the client may send |
| StreamWindow.LargeSegmentsOverrun | src/tcp_stream.go:655-661 | With such large segments, for every server window below that, a run in which the client sends data the server has no room for |
| StreamFlow.SmallWindowOverrun | src/tcp_stream.go:549-556 | For every smaller server window, a run in which the client sends a data frame outside it, and the server, opened by that very frame, throws it away |
| StreamFlow.SmallClientOverrun | src/tcp_stream.go:549-556 | For every smaller client window, a run in which the dialled server sends data outside it |
| StreamFlow.Discarded | src/tcp_stream.go:548-557 | A live end keeps nothing of a data frame behind its window; its receive side changes only if the acknowledgement that came along finishes the stream, which clears what is parked |
| StreamFlow.HeldFits | src/tcp_stream.go:558-560 | Queued plus parked data bytes fit the window in any state whose sender respects the advertised edge |
| StreamFlow.ParkedFits | src/tcp_stream.go:549-553 | Parked segments never overlap: their data fits between rcvNxt and the right edge |
| StreamRecovery.OneRoundRecovers | src/tcp_stream.go:515-519 | From any reachable state of two live ends, with windows of at least 64 KiB and the timeout not reached: after one firing of the retransmission timer and the arrival of its frames the receiver has everything, and has acknowledged it or has its delayed-ACK timer set and acknowledges it when that fires; any frame with that acknowledgement brings the sender's una to nxt, and finishes it if its FIN is queued and its own writes are done |
| StreamRecovery.ProbeReopens | src/tcp_stream.go:522-530 | A reader waits and the update that opened the window was lost: one firing of the probe timer and the answer to the probe wake the reader, and it may read |
| StreamRecovery.AckCompletes | src/tcp_stream.go:409-450 | Any frame of the peer, ACK or segment, that acknowledges everything sent does all that |
| StreamRecovery.RoundDelivers | src/tcp_stream.go:515-519 | The frames one timer firing sends, delivered in order, leave the receiver with the whole log |
| StreamRecovery.RoundAcks | src/tcp_stream.go:544-546 | A duplicate of any segment then draws an acknowledgement of everything |
| StreamRecovery.RunsAreCoupled | src/tcp_stream.go:374-407 | Every reachable pair of ends with a window of at least 64 KiB is in such a state, timers included |
| StreamCompletion.FinishIsPossible | src/tcp_stream.go:501-536 | From any reachable state of two live ends with FINs queued, windows of at least 64 KiB and no timeout reached, the run can go on to both having finished with all bytes written out, even if every frame sent before is lost: the retransmission timers that are set fire, what they send and what answers it arrives, and the writers write |
| StreamCompletion.AllArrive | src/tcp_stream.go:538-580 | What one firing sends again, delivered, completes the peer, whatever it had already |
| StreamCompletion.AllAcked | src/tcp_stream.go:544-546 | Once both have everything, one more copy of an unacknowledged segment draws the acknowledgement of all of them, also from a finished end |
| StreamCompletion.WriteOut | src/tcp_stream.go:696-745 | An end that has received everything and has nothing unacknowledged finishes by writing out what is left |
| StreamCompletion.RunOrderly | src/tcp_stream.go:754-764 | In every reachable state a live end is not yet done: with the FIN queued and acknowledged its own writes are not finished; its goroutines start together; writeLoop has returned from it only after the FIN |
| StreamSystem.RunInv | src/tcp_stream.go:166-197 | The invariant of both ends and of the network between them holds in every reachable state, including the frame that opens the server end and frames rejected before it exists |
| StreamSystem.ActKeepsInv | src/tcp_stream.go:166-213 | Every action of the system keeps it |
| StreamSystem.SentIsGenuine | src/tcp_stream.go:324-350 | A frame the peer ever sent stays true whenever it arrives: its segment is an item of the peer's log, its ack a boundary of ours |
| StreamStep.StepInv | src/tcp_stream.go:374-407 | Every section under the mutex keeps its own end's invariant, for any genuine frame |
| StreamStep.HandleFrameInv | src/tcp_stream.go:374-407 | handleFrame keeps the invariant of its end, dead, finished or live |
| StreamStep.OnTimerInv | src/tcp_stream.go:501-536 | onTimer keeps the invariant of its end |
| StreamStep.ReadDoneInv | src/tcp_stream.go:674-693 | The account half of readLoop keeps the invariant, whatever happened while the lock was free |
| StreamStep.WriteDoneInv | src/tcp_stream.go:727-742 | The account half of writeLoop keeps the invariant, whatever happened while the lock was free |
| StreamStep.DialedInv | src/tcp_stream.go:625-643 | dial keeps the invariant, returning into a stream that may have died |
| StreamInv.EnqueueInv | src/tcp_stream.go:352-358 | Queuing a segment extends the tiling, the window bound and the log |
| StreamInv.AcknowledgedInv | src/tcp_stream.go:416-425 | Dropping acknowledged segments leaves an exact tiling of the rest |
| StreamInv.AckedCountIs | src/tcp_stream.go:416-422 | The loop drops exactly the segments an acknowledgement on a boundary covers |
| StreamInv.ProcessAckInv | src/tcp_stream.go:409-450 | processAckLocked keeps the send invariant and moves the edge only forwards |
| StreamInv.DrainInv | src/tcp_stream.go:563-572 | Delivering parked segments keeps the receive invariant and leaves none at rcvNxt |
| StreamInv.ProcessSegmentInv | src/tcp_stream.go:538-580 | processSegmentLocked keeps the receive invariant for any genuine segment, duplicate, early or in order |
| StreamLive.StepLive | src/tcp_stream.go:501-536 | Every section leaves a live stream with the timers and wake-ups that NoStall lists |
| StreamKarn.StepOnce | src/tcp_stream.go:416-420 | Every section keeps: a segment not marked as retransmitted was sent exactly once |
| StreamKarn.SampleIsUnambiguous | src/tcp_stream.go:467-485 | In one section, the estimators change only by a sample of a segment sent once |
| StreamEnd.AckedCount | src/tcp_stream.go:415-422 | The loop never counts past the end of unacked |
| StreamClass.TcpStream.constructor | src/tcp_stream.go:285-306 | A new stream is the initial value |
| StreamClass.TcpStream.FillAck | src/tcp_stream.go:325-338 | ack, window and the advertised edge of an outgoing frame (the object's new state equals the value the theorems are about) |
| StreamClass.TcpStream.QueueAck | src/tcp_stream.go:340-344 | The ACK frame queued (the object's new state equals the value the theorems are about) |
| StreamClass.TcpStream.QueueSegmentFrame | src/tcp_stream.go:346-350 | The segment frame queued (the object's new state equals the value the theorems are about) |
| StreamClass.TcpStream.UnlockAndFlush | src/tcp_stream.go:315-322 | Every queued frame is sent once, in order, marked with its direction (the object's new state equals the value the theorems are about) |
| StreamClass.TcpStream.QueueSegment | src/tcp_stream.go:352-363 | queueSegmentLocked as the value moves (the object's new state equals the value the theorems are about) |
| StreamClass.TcpStream.ArmTimer | src/tcp_stream.go:489-499 | armTimerLocked as the value moves (the object's new state equals the value the theorems are about) |
| StreamClass.TcpStream.UpdateRTT | src/tcp_stream.go:467-485 | Section 2 of RFC 6298 with integer division, clamped to the range (the object's new state equals the value the theorems are about) |
| StreamClass.TcpStream.FastRetransmit | src/tcp_stream.go:454-465 | fastRetransmitLocked as the value moves (the object's new state equals the value the theorems are about) |
| StreamClass.TcpStream.CountAcked | src/tcp_stream.go:415-422 | The loop counts the segments the ack covers and samples only the first, if sent once (the object's new state equals the value the theorems are about) |
| StreamClass.TcpStream.AdvanceTo | src/tcp_stream.go:414-433 | The branch that moves sndUna (the object's new state equals the value the theorems are about) |
| StreamClass.TcpStream.ProcessAck | src/tcp_stream.go:409-450 | processAckLocked as the value moves (the object's new state equals the value the theorems are about) |
| StreamClass.TcpStream.OpenWindowTo | src/tcp_stream.go:441-449 | The window update at its end (the object's new state equals the value the theorems are about) |
| StreamClass.TcpStream.OnTimer | src/tcp_stream.go:501-536 | onTimer as the value moves (the object's new state equals the value the theorems are about) |
| StreamClass.TcpStream.ResendAll | src/tcp_stream.go:517-521 | The loop resends every unacknowledged segment (the object's new state equals the value the theorems are about) |
| StreamClass.TcpStream.Deliver | src/tcp_stream.go:582-604 | deliverLocked as the value moves (the object's new state equals the value the theorems are about) |
| StreamClass.TcpStream.ProcessSegment | src/tcp_stream.go:538-580 | processSegmentLocked as the value moves (the object's new state equals the value the theorems are about) |
| StreamClass.TcpStream.DeliverParked | src/tcp_stream.go:563-572 | The loop delivers every segment that was waiting, and tells whether any was (the object's new state equals the value the theorems are about) |
| StreamClass.TcpStream.OnAckTimer | src/tcp_stream.go:606-613 | onAckTimer as the value moves (the object's new state equals the value the theorems are about) |
| StreamClass.TcpStream.EndStream | src/tcp_stream.go:783-798 | endLocked as the value moves (the object's new state equals the value the theorems are about) |
| StreamClass.TcpStream.MaybeFinish | src/tcp_stream.go:755-764 | maybeFinishLocked as the value moves (the object's new state equals the value the theorems are about) |
| StreamClass.TcpStream.Abort | src/tcp_stream.go:767-781 | abortLocked as the value moves (the object's new state equals the value the theorems are about) |
| StreamClass.TcpStream.HandleFrame | src/tcp_stream.go:374-407 | handleFrame as the value moves (the object's new state equals the value the theorems are about) |
| StreamClass.TcpStream.CheckOpened | src/tcp_stream.go:616-623 | checkOpened as the value moves (the object's new state equals the value the theorems are about) |
| StreamClass.TcpStream.OpenStream | src/tcp_stream.go:200-212 | open as the value moves (the object's new state equals the value the theorems are about) |
| StreamClass.TcpStream.DialReturned | src/tcp_stream.go:625-643 | dial after the attempt as the value moves (the object's new state equals the value the theorems are about) |
| StreamClass.TcpStream.ReadSection | src/tcp_stream.go:649-672 | readLoop up to conn.Read or the wait (the object's new state equals the value the theorems are about) |
| StreamClass.TcpStream.ReadReturned | src/tcp_stream.go:674-693 | readLoop after conn.Read (the object's new state equals the value the theorems are about) |
| StreamClass.TcpStream.WriteSection | src/tcp_stream.go:700-725 | writeLoop up to WriteTo, closeWrite or the wait (the object's new state equals the value the theorems are about) |
| StreamClass.TcpStream.WriteReturned | src/tcp_stream.go:727-742 | writeLoop after WriteTo (the object's new state equals the value the theorems are about) |
| StreamClass.TcpStream.WriteClosed | src/tcp_stream.go:716-721 | writeLoop after closeWrite (the object's new state equals the value the theorems are about) |
| FrameCodec.ParseEncode | src/tcp_stream.go:61-90 | Parsing what was put gives the frame back, for every valid frame |
| FrameCodec.EncodeParse | src/tcp_stream.go:61-90 | What parses is a valid frame whose bytes are those parsed, but for the two reserved ones |
| FrameCodec.PutTcpFrame | src/tcp_stream.go:80-90 | Writes the frame into a buffer, cutting the payload at its end, and touches nothing behind it |
| FrameCodec.SegmentsUncut | src/tcp_stream.go:133-136 | No segment is ever cut by the packet buffer if and only if buffer_size is at least 292, the header and the least segment size |
| FrameCodec.FrameRoundTrip | src/tcp_stream.go:36-38 | A frame of the stream model, flags and all, survives the wire |
| BigEndian.GetPut | src/tcp_stream.go:81-88 | Fixed-width big-endian integers read back as written |
| BigEndian.PutGet | src/tcp_stream.go:68-70 | and every byte string is the encoding of what it reads as |
| Codel.DropExactly | src/codel.go:24-60 | shouldDrop, over every history of calls: drops exactly when the delay has stood at or above target since a call at least one interval before, and, within an episode, its time has come; an episode lasts exactly as long as the queue stands |
| Codel.OnlyStandingQueuesDrop | src/codel.go:26-32 | A drop means every sojourn since some call an interval or more ago was at least target |
| Codel.CountAboveLast | src/codel.go:52-57 | count >= lastCount over every history, so the unsigned difference never wraps |
| Codel.EpisodeSchedule | src/codel.go:34-44 | Within an episode dropNext is its start plus the sum of the control-law gaps, one for each drop |
| Codel.DropsKeepSchedule | src/codel.go:39-43 | The drop after n others of an episode is never before its start plus n gaps |
| Codel.Gap | src/codel.go:62-64 | interval / sqrt(count), as the largest whole number of nanoseconds not above it |
| Codel.GapShrinks | src/codel.go:62-64 | Gaps never grow with the count |
| Codel.EpisodeResumes | src/codel.go:51-58 | A new episode starts with the drops of the last one but one if there were more than two and the next was due less than 16 intervals ago, else with 1 |
| Codel.FirstEpisode | src/codel.go:51-58 | The first episode starts with 1 |
| Codel.Controller.ShouldDrop | src/codel.go:24-60 | The object decides and moves as the law does |
| Fifo.ShaperQueue.Push | src/shaper.go:151-160 | The contents are a plain sequence with the item appended, whatever compaction does; bytes is the sum of wire sizes; elements copied never exceed pushes plus pops |
| Fifo.ShaperQueue.Pop | src/shaper.go:164-174 | Removes the head of that sequence, keeping the same |
| Fifo.ShaperQueue.Peek | src/shaper.go:162 | The head of that sequence |
| Fifo.ShaperQueue.Len | src/shaper.go:149 | Its length |
| TcpQueueTheorems.QueueConservation | src/tcp_tunnel_queue.go:201-344 | Over every interleaving of push, pop and close from an empty queue: each reference pushed is exactly one of queued, sent or released, once; the backlog counter is the wire bytes of the four queues |
| TcpQueueTheorems.PopIsRun | src/tcp_tunnel_queue.go:249-297 | Every pop is a sequence of turns, finds at most limit packets, and fewer only by emptying all four queues |
| TcpQueueOrder.ProtectedLeaveOnlyBySending | src/tcp_tunnel_queue.go:210-217 | Until close, accepted control, priority and large no-drop packets leave only by being sent, each class in the order it was accepted |
| TcpQueueOrder.OnlyDroppableReleased | src/tcp_tunnel_queue.go:218-236 | Until close, only droppable packets are given back, and droppable bytes queued never exceed the limit |
| TcpQueueOrder.ArrivalOrder | src/tcp_tunnel_queue.go:273-277 | With push times that do not go back, bulk and reliable packets leave merged in non-decreasing enqueue time, across any interleaving |
| TcpQueueDrops.PopDropsExactly | src/tcp_tunnel_queue.go:277-289 | Over every run: a turn gives a packet back if and only if it takes the head of bulk, codel is on, and CoDel drops it given the history of calls of the run, each with its pop time and delay, 0 with less than 1500 bytes of data left behind; every other packet taken is sent |
| TcpQueueDrops.UncongestedLosesNothing | src/tcp_tunnel_queue.go:279-289 | With codel off, or while no bulk packet stands for the target, no turn of a run gives a packet back |
| TcpQueueAdmission.PushAdmits | src/tcp_tunnel_queue.go:201-245 | push accepts, and says so, if and only if the queue is open and the packet is control, must not be dropped, or fits beside priority and reliable data; the fewest bulk packets make room, oldest first; it joins the class of its kind and size |
| TcpQueueAdmission.CloseEnds | src/tcp_tunnel_queue.go:333-344 | After close, over any further run: nothing is held, enters or is sent, and every packet pushed is given back |
| TcpQueueOrder.TurnTakesOne | src/tcp_tunnel_queue.go:258-292 | A turn sends the head of one class or drops the head of bulk: control first, then priority exactly while it has credit or no data waits; of the two data classes the older head goes, bulk on a tie |
| TcpQueueOrder.MakeRoomDropsOldestBulk | src/tcp_tunnel_queue.go:219-225 | Room is made from the oldest bulk packets only, no more of them than needed, and the packet then fits unless bulk is empty |
| TcpQueueShare.PriorityShareAtMost | src/tcp_tunnel_queue.go:247-297 | Over any run in which bulk or reliable data waits whenever pop looks: priority bytes sent < starting credit + r x data bytes sent + one priority packet, r = share/(1-share+1e-9) |
| TcpQueueShare.PriorityShareAtLeast | src/tcp_tunnel_queue.go:247-297 | If priority also waits and r x the largest data packet is at most the credit cap: priority bytes sent >= r x data bytes sent, less one packet's worth on each side |
| TcpQueueShare.CreditInRange | src/tcp_tunnel_queue.go:253-256 | Credit is always above minus one priority packet and at most the cap |
| TcpQueueShare.TurnCredit | src/tcp_tunnel_queue.go:254-289 | What each kind of turn does to the credit while data waits, and when priority may go |
| TcpQueue.TurnCounts | src/tcp_tunnel_queue.go:252-296 | Every turn takes a packet out of a queue, so pop ends |
| TcpQueueClass.TcpTunnelQueue.constructor | src/tcp_tunnel_queue.go:186-198 | An empty queue with full credit |
| TcpQueueClass.TcpTunnelQueue.Push | src/tcp_tunnel_queue.go:201-245 | push as the value moves, and its answer |
| TcpQueueClass.TcpTunnelQueue.Trim | src/tcp_tunnel_queue.go:220-225 | The loop that makes room |
| TcpQueueClass.TcpTunnelQueue.Store | src/tcp_tunnel_queue.go:210-238 | The packet joins its class and the backlog |
| TcpQueueClass.TcpTunnelQueue.Account | src/tcp_tunnel_queue.go:299-302 | The backlog counter |
| TcpQueueClass.TcpTunnelQueue.TakeTurn | src/tcp_tunnel_queue.go:252-295 | One turn of pop's loop as the value moves |
| TcpQueueClass.TcpTunnelQueue.TakePriority | src/tcp_tunnel_queue.go:261-272 | The priority case; its CoDel branch is proved unreachable |
| TcpQueueClass.TcpTunnelQueue.TakeReliable | src/tcp_tunnel_queue.go:273-276 | The reliable case |
| TcpQueueClass.TcpTunnelQueue.TakeBulk | src/tcp_tunnel_queue.go:277-289 | The bulk case with CoDel |
| TcpQueueClass.TcpTunnelQueue.Pop | src/tcp_tunnel_queue.go:249-297 | pop as the value moves, and exactly the packets sent appended to out |
| TcpQueueClass.TcpTunnelQueue.Close | src/tcp_tunnel_queue.go:333-344 | close as the value moves |
| TcpQueueClass.TcpTunnelQueue.Release | src/tcp_tunnel_queue.go:338-342 | The loop that empties one queue |
| TcpQueueClass.TcpTunnelQueue.Len | src/tcp_tunnel_queue.go:326-330 | The packets queued |
| PathShaperRate.RateConformance | src/shaper.go:254-323 | At a fixed rate, data bytes that leave in any stretch of any run are at most a full bucket, what the rate brings in that time, and one packet, however many control messages go out beside them |
| PathShaperRate.StretchConformance | src/shaper.go:254-323 | The same measured from a time t0, however long the path was idle before |
| PathShaperRate.ClippedConformance | src/shaper.go:293-306 | While bulk stays queued, for packets of any size: priority bytes, of each packet at most a bucketful, are at most a full priority bucket, what the priority rate brings, and one packet |
| PathShaperRate.WholeRateConformance | src/shaper.go:83-86 | With a share of 100 percent the priority bound holds for packets of any size |
| PathShaperRate.PriorityConformance | src/shaper.go:293-306 | While bulk stays queued, priority bytes are at most a full priority bucket, what the priority rate brings, and one packet, for packets no larger than the bucket |
| PathShaperRate.StretchPriority | src/shaper.go:293-306 | The same measured from a time t0 |
| PathShaperRate.PriorityGuaranteed | src/shaper.go:36 | The guaranteed share, at a fixed rate: whenever bulk leaves past waiting priority data, priority has already sent at least what its bucket held at any earlier moment and what the priority rate has brought since, if no refill in between found that bucket too full; packets CoDel drops do not count as sent |
| PathShaperOverrun.PriorityBoundIsExact | src/shaper.go:295-306 | Over all runs of a new path, the priority bound holds for packets of up to a size if and only if the largest of them that can be queued beside bulk, IPv4 or IPv6, is no larger than the priority bucket, or the share is 100 percent; but for sizes where what one nanosecond brings decides |
| PathShaperOverrun.RunLargest | src/shaper.go:209-235 | No priority packet that leaves past queued bulk is larger than that: priority_size with the headers of its family, and beside the smallest bulk packet within queueLimit |
| PathShaperOverrun.LargerPacketsOverrun | src/shaper.go:303 | For every larger size that a packet of either family can have and that is queued beside the smallest bulk packet, a run from a new path that exceeds the bound by any amount: the floor under priorityTokens leaves part of the debt unpaid |
| PathShaperOverrun.JumboOverruns | src/shaper.go:303 | At 40 Mbit/s and 30 percent, packets of 9000 bytes exceed it and packets of 3000 do not; with a priority_size of 2960 it holds for IPv4 and fails for IPv6 |
| PathShaperOverrun.WholeRateBucket | src/shaper.go:85-86 | A share of 100 percent has the bucket of the path |
| PathShaperRate.SleepThenTokens | src/shaper.go:335-348 | On a path out of tokens wait sleeps at least a millisecond, and after the truncated sleep the bucket holds tokens |
| PathShaperTheorems.ShaperInvariant | src/shaper.go:216-365 | Over every run: each reference enqueued is exactly one of queued, sent or released, once; the backlog statistic is exact; data queued stays within queueLimit and control within 1024; neither bucket overflows, also across rate changes |
| PathShaperTheorems.DequeueIsRun | src/shaper.go:281-323 | dequeue returns fewer than limit only with no control message left and no tokens or no data left |
| PathShaperDrops.DequeueDropsExactly | src/shaper.go:295-318 | Over every run, for both data classes: the next turn gives the head it takes back if and only if CoDel is asked about it and drops it, given the calls of the run about that class: about every bulk packet, with delay 0 when less than 1500 bytes stay behind, and about a priority packet only with 1500 bytes of them behind it; else it is sent |
| PathShaperDrops.UncongestedLosesNothing | src/shaper.go:295-318 | While no packet that CoDel is asked about stands for the target, no turn of a run gives one back |
| PathShaperControl.EnqueueAdmits | src/shaper.go:217-247 | enqueue accepts up to 1024 control messages and data that fits beside priority; the fewest bulk packets make room, oldest first; what it accepts joins its class and, if data, marks the path active |
| PathShaperControl.RateInForce | src/shaper.go:261-270 | Over every run the rate in force is the one last set, with the buckets that belong to it |
| PathShaperControl.SetRateCredits | src/shaper.go:261-270 | A change of rate first credits what the old one has brought, as far as both buckets hold it |
| PathShaperControl.RefillCredits | src/shaper.go:251-259 | A refill credits the rate times the time gone by, up to the bucket, and time never goes back |
| PathShaperControl.WaitAnswers | src/shaper.go:332-348 | wait returns 0 if and only if dequeue could take something, -1 if and only if nothing is queued, and otherwise no longer than half a bucket takes to earn |
| PathShaperControl.PathRemembers | src/shaper.go:325-330 | Over every run sent is the bytes sent, and lastActive the last time data was accepted |
| PathShaperTheorems.TurnTakesOne | src/shaper.go:283-321 | A turn sends or drops the head of one class: control first, then, with tokens, priority exactly while it has tokens of its own or no bulk waits; control is never dropped |
| PathShaperTheorems.MakeRoomDropsOldestBulk | src/shaper.go:231-235 | Room is made from the oldest bulk packets only, and no more of them than needed |
| PathShaperTheorems.EnqueueSpendsNothing | src/shaper.go:217-247 | enqueue never touches tokens, time or what was sent |
| PathShaperTheorems.OwnRate | src/shaper.go:109-114 | The configured rate has the configured buckets |
| PathShaper.TurnCounts | src/shaper.go:283-321 | Every turn takes a packet out of a queue, so dequeue ends |
| PathShaperClass.Path.constructor | src/shaper.go:194-206 | A new path has full buckets and nothing queued |
| PathShaperClass.Path.Enqueue | src/shaper.go:217-247 | enqueue as the value moves |
| PathShaperClass.Path.Store | src/shaper.go:224-246 | The packet joins its queue and the backlog |
| PathShaperClass.Path.Trim | src/shaper.go:231-235 | The loop that makes room |
| PathShaperClass.Path.Drop | src/shaper.go:249-252 | The reference is given back |
| PathShaperClass.Path.Refill | src/shaper.go:254-262 | refill as the value moves |
| PathShaperClass.Path.SetRate | src/shaper.go:265-273 | setRate as the value moves |
| PathShaperClass.Path.Dequeue | src/shaper.go:281-323 | dequeue as the value moves, and exactly the items sent appended to out |
| PathShaperClass.Path.TakeControl | src/shaper.go:284-289 | The control case |
| PathShaperClass.Path.TakePriority | src/shaper.go:295-307 | The priority case with CoDel |
| PathShaperClass.Path.TakeBulk | src/shaper.go:308-320 | The bulk case with CoDel |
| PathShaperClass.Path.Take | src/shaper.go:325-330 | The item counts as sent |
| PathShaperClass.Path.Wait | src/shaper.go:335-348 | wait as the value moves, and its answer |
| PathShaperClass.Path.Reset | src/shaper.go:357-365 | reset as the value moves |
| PathShaperClass.Path.Release | src/shaper.go:359-363 | The loop that empties one queue |
| UdpBatch.Writer.Write | src/udp_batch.go:193-276 | For any kernel that takes messages from the front or refuses the first: Write ends; exactly datagrams 0 to n-1 reached the kernel, each once, in order, to its own address; n is all of them if and only if there is no error; an error is the kernel's answer to a message that starts with datagram n, and never one that speaks against GSO to a coalesced message; such answers, and they alone, limit the segment size or turn GSO off, which is never turned on again |
| UdpBatch.Writer.Build | src/udp_batch.go:216-249 | The messages hold the first datagrams in order without a gap, all of them or as many as there are slots fill; every GSO run keeps the limits on segments, size and segment size |
| UdpBatch.Writer.BuildOne | src/udp_batch.go:220-247 | One message: a datagram and the longest run behind it that may join it |
| UdpBatch.Writer.SendBuilt | src/udp_batch.go:251-267 | What the kernel took of the messages is a prefix of the batch |
| UdpBatch.Writer.SendEach | src/udp_batch.go:197-210 | The same without batching |
| UdpBatch.Writer.OnGsoError | src/udp_batch.go:282-291 | A size error lowers the segment size at most 8 times and never to 575 or less; anything else turns GSO off |
| UdpBatch.CutRun | src/udp_batch.go:216-249 | A run concatenated and cut at its segment size is the run |
| UdpBatch.OutIsBuffers | src/udp_batch.go:244-247 | The kernel makes of a message exactly the datagrams it was built from |
| UdpBatch.SameIsCanonical | src/udp_batch.go:300-307 | Two addresses are the same if and only if port, zone and the IPv4 form of the address are |
| UdpRead.GsoGroRoundTrip | src/udp_batch.go:117-127 | A multi-datagram message built by Write, received as one with its segment size, is read back as exactly its datagrams, if they fit the buffers |
| UdpRead.SingleRoundTrip | src/udp_batch.go:117-127 | A lone datagram is read as it is; an empty one is one empty packet |
| UdpRead.CutKeepsBytes | src/udp_batch.go:121-127 | Splitting loses no byte, and only the last piece is short |
| UdpRead.Reader.SplitMessage | src/udp_batch.go:117-127 | The splitting loop appends exactly the pieces, each truncated to the buffer size, each in a fresh buffer of its own, shared with no other item |
| UdpRead.Reader.CopyPiece | src/udp_batch.go:122-126 | The fresh buffer holds the piece behind the headroom, cut to the buffer size |
| UdpRead.Reader.Append | src/udp_batch.go:122-126 | One item is appended: the piece copied behind the headroom of a fresh buffer |
| UdpRead.Reader.Handoff | src/udp_batch.go:134-139 | The buffer is given away and its slot refilled |
| UdpRead.Reader.Read | src/udp_batch.go:109-130 | All messages, in order, no two items in one buffer and none in a buffer the reader reads into again |
| ReadLoop.TcpTunnelReader.Receive | src/tcp_tunnel.go:609-826 | However the stream of an authenticated peer is cut into reads: exactly the messages before the first that does not fit the buffer are handled, and the connection is open at the end if and only if there is none |
| ReadLoop.OversizeCloses | src/tcp_tunnel.go:668-672 | With the default buffer of 1500 bytes, a data message with a payload of 1500 bytes ends the connection |
| ReadLoop.TcpTunnelReader.Run | src/tcp_tunnel.go:609-826 | For every way of cutting the stream into reads: the messages handled and the packets made are exactly those the length-prefix parser finds in the bytes consumed; the connection is open exactly while the parser's is and its rest fits the buffer; every read makes progress |
| ReadLoop.TcpTunnelReader.ReadOnce | src/tcp_tunnel.go:632-825 | One read: never past the end of the message begun, all complete messages handled, the rest at the front |
| ReadLoop.TcpTunnelReader.Process | src/tcp_tunnel.go:656-811 | The inner loop handles what the parser does, and knows the length of the message begun |
| ReadLoop.TcpTunnelReader.ProcessOne | src/tcp_tunnel.go:657-811 | One turn of the inner loop leaves the rest of the parse as it was |
| ReadLoop.TcpTunnelReader.Peek | src/tcp_tunnel.go:658-685 | The header check answers as the parser does |
| ReadLoop.TcpTunnelReader.HandleMessage | src/tcp_tunnel.go:687-807 | One message, before or after authentication |
| ReadLoop.TcpTunnelReader.HandleAuthed | src/tcp_tunnel.go:690-780 | Data becomes a packet, a disconnect ends the connection, anything else is passed over |
| ReadLoop.TcpTunnelReader.HandleHandshake | src/tcp_tunnel.go:781-807 | A handshake of the right type that is accepted authenticates, anything else ends the connection |
| ReadLoop.TcpTunnelReader.Route | src/tcp_tunnel.go:692-704 | A data message becomes a packet; handing the buffer over loses no unread byte, no two packets share a buffer, and no packet's bytes are ever overwritten by the loop |
| ReadLoop.TcpTunnelReader.CopyOut | src/tcp_tunnel.go:700-703 | The copy holds the message |
| ReadLoop.TcpTunnelReader.Fill | src/tcp_tunnel.go:648-654 | Bytes read are appended |
| ReadLoop.TcpTunnelReader.Shift | src/tcp_tunnel.go:813-819 | The rest moves to the front unchanged |
| Framing.ParseResumes | src/tcp_tunnel.go:656-811 | Parsing in two goes is parsing in one |
| Framing.ParseKeepsBytes | src/tcp_tunnel.go:809-819 | No byte is lost, duplicated or moved |
| Framing.ParseFlatten | src/tcp_tunnel.go:656-811 | The parser gives back exactly the well-formed messages a peer wrote one after the other |
| Framing.ParseStops | src/tcp_tunnel.go:682-685 | An open connection stops at an incomplete message; authentication is never lost |
| Framing.FullOnlyWhenOversize | src/tcp_tunnel.go:821-825 | The buffer fills up only on a message that announces more than it can hold |
| Framing.AcceptedButNeverComplete | src/tcp_tunnel.go:668-685 | A message that passes the size check and is larger than the buffer with its header fills the buffer before it is complete, the messages before it handled |
| Framing.RoomIsExact | src/tcp_tunnel.go:668-685 | Of well-formed messages, every part of the stream leaves the parser open with room in the buffer if and only if each message fits the buffer with its header |
| Framing.PartParses | src/tcp_tunnel.go:656-819 | Any part of the stream parses to the whole messages in it, the rest of the next left over |
| Framing.HandshakeDecides | src/tcp_tunnel.go:668-685 | Before authentication a message of any length but 96 ends the connection unread; one of the expected type that is accepted authenticates it, and any other ends it |
| Framing.MessageDecides | src/tcp_tunnel.go:690-780 | Afterwards a payload above BufferSize ends the connection unread, a disconnect ends it with nothing behind it looked at, data becomes a packet, and anything else is passed over |
| Framing.ParsedFit | src/tcp_tunnel.go:656-811 | No message handled is longer than what was in the buffer |
| BatchWrite.Writer.Send | src/tcp_tunnel.go:404-466 | Over any short writes and timeouts: each packet is released exactly once, in order; the socket holds a prefix of the batch, all of it if it was sent; a packet is released before its last byte only if the batch is abandoned, which happens exactly on an error, a timeout without progress or a deadline that cannot be set |
| BatchWrite.Writer.Advance | src/tcp_tunnel.go:371-402 | After any number of bytes written, (index, offset) points just past them and the packets before it are released |
| BatchWrite.Writer.ReleaseBatch | src/tcp_tunnel.go:358-369 | Releases exactly what is still held |
| BatchWrite.Writer.ReleaseCurrent | src/tcp_tunnel.go:394-398 | Releases the packet at the position and moves past it |
| BatchWrite.Writer.Gather | src/tcp_tunnel.go:421-427 | The buffers are the batch |
| BatchWrite.PositionIsBytes | src/tcp_tunnel.go:371-402 | The position determines the bytes on the socket |
| BatchWrite.ConsumeDrops | src/tcp_tunnel.go:431-434 | What net.Buffers keeps after n bytes is the rest |
| HeartbeatRing.RingIsLog | src/heartbeat_tracker.go:63-94 | For events whose minutes never go back, the ring reports the events of any range if and only if no later minute took over the slot of one of them |
| HeartbeatRing.ShortRangeIsExact | src/heartbeat_tracker.go:85-94 | So a range that starts fewer than 1440 minutes before the last event is exact |
| HeartbeatRing.NeverOvercounts | src/heartbeat_tracker.go:63-83 | No stale count leaks from a reused bucket: the ring never reports more events than there were |
| HeartbeatRing.MissesReused | src/heartbeat_tracker.go:75-77 | Once a slot is reused the ring reports too few |
| HeartbeatRing.SlotHoldsLatest | src/heartbeat_tracker.go:63-83 | A used slot holds the latest minute that falls on it and how often it occurred |
| HeartbeatRing.ShortWindows | src/heartbeat_tracker.go:110-124 | The five-minute and one-hour counts are exact |
| HeartbeatRing.DayWindow | src/heartbeat_tracker.go:112-128 | The 24-hour count spans 1441 minutes: it is exact if and only if the first and the last of them do not both have events |
| HeartbeatRing.UnpackPack | src/heartbeat_tracker.go:39-45 | A packed word gives back its minute and count |
| HeartbeatRing.Tracker.constructor | src/heartbeat_tracker.go:33-37 | Empty rings |
| HeartbeatRing.Tracker.IncrementBucket | src/heartbeat_tracker.go:63-83 | The bucket of the minute counts one more, stops at its limit, or starts afresh |
| HeartbeatRing.Tracker.CountBucketsInRange | src/heartbeat_tracker.go:85-94 | The sum over the buckets whose minute is in range |
| HeartbeatRing.Tracker.NoteHeartbeatSentAt | src/heartbeat_tracker.go:96-100 | The sent ring follows the sent log |
| HeartbeatRing.Tracker.NoteHeartbeatLostAt | src/heartbeat_tracker.go:102-104 | The lost ring follows the lost log |
| HeartbeatRing.Tracker.SnapshotAt | src/heartbeat_tracker.go:110-130 | What the rings hold of each window |
| HeartbeatRing.Tracker.Counted | src/heartbeat_tracker.go:116-119 | One window of both rings |

## Left out

- StreamEnd.Config.Valid: window below 2^32 as the wire format needs; sequence numbers are unbounded, so 64-bit wrap-around is not modelled.
- StreamSystem.Act: one incarnation of a stream id; an end lingers for ever, so re-creation after the 30 s linger is not modelled.
- StreamSystem.CanAct: timers may fire at any time, so nothing is said about how soon; times passed to sections are arbitrary.
- StreamClass.TcpStream: the fields of the struct are grouped in records, and segments are values, so the aliasing of `*tcpSegment` between unacked and out is not captured; the two goroutines are the sections between lock and unlock.
- StreamSystem.Act: frames reach the peer with their whole payload; putTcpFrame cuts at the packet buffer, which with a buffer_size below 292 (FrameCodec.SegmentsUncut), or for a target address longer than the buffer, would take bytes from a segment.
- StreamCompletion.FinishIsPossible: says that the ends can finish, not that they will; the timer fires within the delay NoStall gives, but that the frames then arrive is up to the lines.
- StreamRecovery.OneRoundRecovers: the frames of the timer arrive in order; other orders and losses are runs of the system and leave the next firing to recover.
- StreamEnd.UpdateRTT: durations are unbounded integers; `rto<<backoff` does not overflow within the proved range.
- Codel.Gap: the exact square root rounded down, where the code rounds a floating-point quotient; count is unbounded, where the code has 32 bits.
- TcpQueueShare.PriorityShareAtLeast: credit is an exact real, so floating-point drift is not modelled; the same for tokens in PathShaperRate.RateConformance.
- PathShaperOverrun.PriorityBoundIsExact: leaves open sizes above the bucket for which either the excess over it, or the part of the packet that is not priority's share, is no more than what the priority rate brings in a nanosecond (a byte at 8 Gbit/s); there the rounding of times decides.
- PathShaperTheorems.ShaperInvariant: statistics shared between paths are modelled as the contribution of one path.
- UdpBatch.Writer.Write: one connection; the exchange of the packet conn and the bytes of the control message are not modelled.
- UdpRead.Reader.Read: starts where the kernel has filled the buffers; the control message is its segment size.
- ReadLoop.TcpTunnelReader.HandleMessage: authentication is a yes or no for each handshake message; heartbeat replies, connection-id tracking and routing are not modelled, and the buffer pool is modelled as never handing out a buffer still in use.
- ReadLoop.TcpTunnelReader.HandleAuthed: a packet that UnwrapData rejects (a duplicate, or one that does not decrypt) is made and then not routed; the model ends where the packet is made.
- ReadLoop.TcpTunnelReader.Run: so the packets it speaks of include those.
- BatchWrite.Writer.WriteTo: net.Buffers is assumed to write everything or report an error, which it does for batches with at least one byte.
- HeartbeatRing.Tracker: increments are one atomic step; loss rates are quotients of the counts and not modelled.
- Sockets, dialling, deadlines, TUN and iptables set-up, the API server and the web page: input and output.
- WrapData and UnwrapData, encryption, authentication codes: packet contents are opaque.
- Autorate, the load balancer, filters, the IP router and the protocol detector: mostly one-branch facts.
- Unsynchronised reads between goroutines: a section under a mutex is one step.
