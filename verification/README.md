# LightningBNB link and mux, verified

LightningBNB carries TCP connections over a lossy Bluetooth link. It does so in
two layers of its own. The *link* (`internal/link`) makes a resumable, reliable
byte stream out of small packets that may be lost, duplicated and reordered, and
that keeps its state while the radio is detached and attached again, perhaps
with another packet size. The *mux* (`internal/mux`) runs many streams with
credit-based flow control over that one byte stream. This project models both
layers and the codecs between them, and proves what the program relies on.

## How it is laid out

Data first, then behaviour of one end, then the system of two ends.

- `Bytes`, `Fragments`: big-endian numbers; sets of disjoint byte fragments.
- `Reassembly`, `ReassemblyMap`, `ReassemblyVerdict`, `TrueSlices`: the receiver as a
  specification, its invariant, its refinement of a partial map, which packets it
  takes, and its meaning for slices of one stream.
- `LinkPackets`, `LinkEndpoint`, `LinkInvariants`: packets, one end as a value
  with one function per critical section, and what each keeps.
- `LinkSession`: the program's own form, classes `Session` and `Binding` whose
  methods update fields and loop over the fragment map in an arbitrary order.
  Each method is proved against the function of `LinkEndpoint`.
- `LinkEnd`, `LinkFlow`, `LinkAnswers`: one end under arbitrary packets: its invariant
  over runs, how the flight moves, and what it answers.
- `LinkSystem`, `LinkResume`, `LinkProgress`, `LinkStall`, `LinkStale`: runs of two
  ends joined by a bag of packets.
- `Heartbeat`, `ResumeExpiry`: the two timed state machines.
- `Handshake`, `Frames`, `Services`: packet filling, greeting, negotiation,
  frames over a chunked byte stream, the service list.
- `MuxStream`, `MuxCredit`, `MuxSession`, `MuxOpening`, `MuxSelectors`, `MuxAnswers`,
  `MuxScheduler`: one stream as a value, credit between two ends, two sessions sharing
  a byte stream, how a stream comes to be open and for what, what a session answers
  under any peer, the round-robin line.
- `MuxOverLink`: the whole stack, two sessions over the lossy link.
- `StreamObject`, `MuxObjects`: the mux in the program's own form, classes
  `Stream` and `Session`, proved against `MuxStream` and `MuxSession`.

The main theorems are `LinkSystem.StepRefinesFifo` and `ExactlyOnceInOrder`
(the link is a FIFO byte queue), `ReassemblyMap.AcceptRefinesMap`,
`ReassemblyVerdict.AcceptVerdict` and `GapFillDeliversAll` (the receiver),
`LinkFlow.RepeatedAcks` and `WindowGoesOut` (the sender), `LinkEnd.EndOverRuns`,
`LinkProgress.EverythingArrives` and `ProbeClears` (nothing is forgotten),
`Heartbeat.CheckFollowsHistory` and `SilenceMeansDetach`,
`MuxCredit.ReadToEndIsExact` and `BlockedWriterCanResume`,
`MuxOpening.StreamsFromTheStart` (isolation and order, from the creation of both
sessions), `MuxSelectors.SelectorsArrive`, `MuxAnswers.FramesAreAnswered` and
`LimitsOverRuns` (any peer), `MuxOverLink.RunRefinesPair` and `ExactOverTheLink` (the
mux over the lossy link itself), and `MuxScheduler.NoWakeupIsLost` and `NoOvertaking`.

## Where the code keeps less than one would expect

The model follows the code. Each point below names the lemma with a concrete case
or family of cases, and the exact condition under which the expected property
holds.

1. The end of the send window is computed in 64 bits without a guard. Near the
   last offset it wraps and accepted bytes are never sent
   (`LinkEnd.WrappedWindowStalls`; exactly when:
   `LinkInvariants.RetransmitsOldestUnlessWrapped`).
2. A timer that has decided to close a session looks again at nothing. A session
   bound between decision and close is closed all the same
   (`ResumeExpiry.RebindCanLoseTheRace`; exactly when:
   `ResumeExpiry.ExpiryHitsUnboundIffNoBindSince`).
3. A handshake reply queued for a repeated greeting survives the binding it was
   queued on, is the first packet of the next, and can name a byte the client
   has released, which the client treats as a lost session
   (`LinkStale.StaleReplyIsRefused`; exactly when:
   `LinkStale.ReplyRefusedIffReleased`). Replies to the current attempt are safe
   (`LinkResume.ResumeIsNeverRefused`).
4. Removing a stream rotates the ready line while the writer may take from it.
   Nothing is lost (`MuxScheduler.RotationClears`), but a stream can be served twice
   while others that stay in line are not served at all
   (`MuxScheduler.TwoTurnsInARow`; exactly when a stream is overtaken:
   `LapseIffOvertaken`; how often over a run: `NoOvertaking` and `RoundRobin`, which
   hold as one would expect while there is no such lapse). At most one head is
   taken in a rotation: after its take the one writer waits for the session's mutex
   (`internal/mux/session.go:441-442`, `460-463`), which the removal holds. A take in
   the middle of a round is one before the next round, and a frame the writer was
   still sending is as good as sent before the removal, which looks at the line only.
   What the rotation does to the line: `OneTakeReorders`; with no take,
   `RemovalKeepsOrder`.
5. The writer can send a stream's first DATA before its OPEN_OK, although control
   frames are meant to go first, and the client then resets the stream
   (`MuxOpening.DataMayOvertakeOpenOk`; exactly when:
   `MuxOpening.OpensIffApprovalFirst`).
6. A HELLO that lowers the packet size under data in flight can leave more in flight
   than the smaller window allows (`LinkEnd.ShrunkPacketSizeOverruns`; exactly when:
   `LinkEnd.FlightStaysBounded`).
7. A service list above 16 KiB passes validation and is unreadable; exactly when:
   `Frames.OversizedListIsUnreadable`.
8. The receive window is not negotiated. While the oldest packet a sender can make
   is larger than its peer's window, that packet is refused each time and nothing
   gets through (`LinkStall.StuckFromTheStart`, `StuckForEver`; exactly when:
   `LinkStall.MovesIffOldestFits`).

`docs/protocol.md:49` describes out-of-order packets as retained when they do not
overlap; like the code, the model also merges a packet that fills the gap and
spans retained fragments, as `docs/protocol.md:63-66` says.

## Conventions

Each critical section under a mutex is one step. Times are natural numbers of
nanoseconds that do not run backwards, 0 standing for the zero time. Offsets are
unbounded numbers with the 64-bit limit checked where the code checks it, and
wrapped where the code wraps. Packets in flight are a set from which any element
may be delivered any number of times or never. Packets of a connection are
tagged with the client's attempt, since a new connection carries no packets of
an old one; the queued reply keeps the tag of the greeting it answers.

## Model

| member | source | states |
|---|---|---|
| Reassembly.AcceptKeepsWindow | internal/link/session.go:435-523 | every packet keeps the receive window: fragments non-empty, disjoint, strictly above the contiguous offset, inside the window, at most 128; buffered plus pending bytes within the window; the pending counter is the sum of lengths; the offset never falls |
| Reassembly.RefusalChangesNothing | internal/link/session.go:436-475 | a rejected, conflicting or exhausted packet leaves the receiver untouched, and an accepted contiguous one reports at least one delivered fragment |
| Reassembly.AcceptConserves | internal/link/session.go:469-522 | the byte counter minus delivered and pending bytes is unchanged by every packet, through merges, suffix splits and drains |
| Reassembly.NoHeadOfLineDeadlock | internal/link/session.go:446-471 | with the buffer drained, a non-conflicting packet covering the contiguous offset is accepted and advances past its end if and only if it ends inside the window, whatever is retained out of order |
| ReassemblyMap.AcceptRefinesMap | internal/link/session.go:435-523 | refinement of a partial map from offset to byte: an accepted packet adds its new bytes and moves the offset past the longest contiguous run, altering no retained byte; every other verdict changes nothing |
| ReassemblyVerdict.AcceptVerdict | internal/link/session.go:435-523 | the verdict on every packet, from the bytes held: past the offset space, old or beyond the window; ahead of a gap, kept if and only if none of its bytes is held, they fit, and fewer than 128 fragments are held; at the gap, a conflict if and only if a byte held differs, delivered if and only if all bytes then known fit, counting itself and every fragment handed over with it |
| ReassemblyVerdict.BatchIsKept | internal/link/session.go:473-484 | up to 128 packets ahead of a gap that do not overlap and end inside the free window are all kept, in whatever order they come |
| ReassemblyVerdict.GapFillDeliversAll | internal/link/session.go:485-522 | the packet that fills the gap then delivers the stream up to the first byte nobody has sent |
| TrueSlices.SlicesAgree | internal/link/session.go:453-468 | slices of one stream never conflict, whatever their boundaries |
| TrueSlices.AcceptDeliversStream | internal/link/session.go:435-523 | when packets are slices of one source stream the conflict error is unreachable and exactly the stream bytes between the old and new offset are handed over |
| Fragments.OneStraddler | internal/link/session.go:487-503 | at most one retained fragment crosses the end of a packet, so one suffix variable loses nothing and overwrites nothing |
| Fragments.Pigeonhole | internal/link/session.go:453-471 | disjoint fragments inside an interval hold at most as many bytes as it is long |
| LinkSession.Session.CountOverlap | internal/link/session.go:452-468 | the overlap loop, visiting the map in any order, finds a blocking fragment, a conflict, or the exact number of bytes already retained, each if and only if there is one |
| LinkSession.Session.DropCovered | internal/link/session.go:487-503 | the covering loop, in any order, leaves exactly the retained bytes from the packet end on, with the right pending count |
| LinkSession.Session.DrainPending | internal/link/session.go:507-517 | the drain loop hands over exactly the contiguous run of fragments and counts them |
| LinkSession.Session.AcceptData | internal/link/session.go:435-523 | the method computes the specified receiver and verdict whatever order the map is visited in |
| LinkSession.Session.constructor | internal/link/session.go:140-147 | a new session is the empty endpoint |
| LinkSession.Session.HandleDataPacket | internal/link/session.go:347-373 | a DATA packet updates the receiver and schedules its acknowledgement: batched for progress, at once for gaps, duplicates and pressure |
| LinkSession.Session.ReconcilePeer | internal/link/session.go:781-792 | an offset inside the replay interval drops exactly the bytes before it; any other is refused without a change |
| LinkSession.Session.HandleAck | internal/link/session.go:794-831 | a cumulative ACK releases, re-arms, grows, counts duplicates or goes back exactly as specified; older ACKs change nothing |
| LinkSession.Session.NoteAdvance | internal/link/session.go:803-818 | the part of an ACK that moves the base on |
| LinkSession.Session.NoteDuplicate | internal/link/session.go:819-829 | the part of an ACK that repeats the base |
| LinkSession.Binding.ReduceFlightWindow | internal/link/session.go:833-839 | the flight window is halved, not below eight packets |
| LinkSession.Session.NegotiateLimits | internal/link/session.go:841-849 | each limit becomes the smaller positive offer |
| LinkSession.Session.HandlePacket | internal/link/session.go:331-428 | a packet for the current binding does what the specification of all packet types says, and a CLOSE asks for the session to be closed; a packet for a stale binding changes nothing at all |
| LinkSession.Session.HandleHelloPacket | internal/link/session.go:401-423 | a HELLO on a live binding reconciles, renegotiates and queues its answer, without moving the send position |
| LinkSession.Session.Next | internal/link/session.go:579-638 | the send loop picks reply, PONG, due ACK or the next DATA slice in that order, and keeps the invariant |
| LinkSession.Session.PrepareFlight | internal/link/session.go:598-621 | the repair of a stray send position and the timeout go-back leave a position inside the replay buffer |
| LinkSession.Session.AttachBinding | internal/link/session.go:269-311 | a binding starts at the oldest unacknowledged byte with eight packets, drops pending fragments, makes an owed ACK due now and clears the detachment time |
| LinkSession.Session.StartOver | internal/link/session.go:291-300 | what a replacement binding drops and makes due |
| LinkSession.Session.FailBinding | internal/link/session.go:744-760 | only the current binding of an open session can be failed, which notes the time and starts a timer for the timeout in force; a stale one changes nothing |
| LinkSession.Session.ExpireCheck | internal/link/session.go:773-775 | a timer closes exactly a session that is open, unbound, and detached since that time |
| LinkSession.Session.CloseWithError | internal/link/session.go:967-984 | closing unbinds, once |
| LinkSession.Session.WelcomePeer | internal/link/session.go:237-266 | the state part of BindServer: reconcile, negotiate and reply, or an error and no change |
| LinkSession.Session.ResumePeer | internal/link/session.go:175-235 | the state part of BindClient: compare compression with the configuration copied before the HELLO, reconcile and negotiate, or an error and no change |
| LinkSession.Session.Read | internal/link/session.go:890-915 | a read takes the front of the buffer, even of a closed session, and fails only if that is empty and the session closed |
| LinkSession.Session.Write | internal/link/session.go:917-952 | a write takes exactly what fits (replay window, and 64 KiB while bound), or fails at the end of the offset space or on a closed session |
| LinkSession.Session.HeartbeatCheck | internal/link/session.go:722-742 | the periodic check computes the specified probe or detach order |
| LinkSession.Session.HeartbeatSendResult | internal/link/session.go:696-717 | the result of a probe computes the specified order; on a stale binding it changes nothing |
| LinkInvariants.HandleAckKeeps | internal/link/session.go:781-831 | an ACK keeps the replay buffer equal to the unreleased bytes, the timer armed while bytes are outstanding, 8..128 packets, and the byte bound on the flight; it is refused if and only if it acknowledges bytes never sent |
| LinkInvariants.SendDataKeeps | internal/link/session.go:598-637 | a DATA packet carries 1..mtu-9 bytes that are the stream slice at its sequence number, and the flight stays bounded |
| LinkInvariants.NextPacketKeeps | internal/link/session.go:579-638 | sending keeps the whole endpoint invariant and the flight bound |
| LinkInvariants.HandleKeeps | internal/link/session.go:331-428 | any packet at all, well-formed or not, keeps the whole endpoint invariant |
| LinkInvariants.HandleKeepsFlight | internal/link/session.go:331-428 | the flight bound (mtu-9)*flightPackets survives a packet if and only if the packet is not a HELLO whose packet size what was sent does not fit, a condition on the state and the packet before the call |
| LinkInvariants.RetransmitsOldestUnlessWrapped | internal/link/session.go:598-637 | with the timer out the oldest byte is sent again if and only if the window end does not wrap past 2^64; otherwise nothing is sent |
| LinkEnd.EndOverRuns | internal/link/session.go:269-311 | over every run of one end with arbitrary packets: endpoint invariant, no forgotten ACK, timer at most a second ahead, and dataRXBytes = rxNext + pending + discarded by re-attachment |
| LinkEnd.EndFromStart | internal/link/session.go:140-147 | so they are from the creation of a session on |
| LinkEnd.OwedAckIsEmitted | internal/link/session.go:579-597 | progress beyond the last ACK sent is acknowledged within three packets once 40 ms have passed |
| LinkEnd.OutstandingIsResent | internal/link/session.go:598-637 | outstanding bytes whose timer is out are sent again, from the oldest, within four packets |
| LinkEnd.ResentWithinOneSecond | internal/link/session.go:598-633 | one second after the latest event that is so for whatever is outstanding |
| LinkEnd.WrappedWindowStalls | internal/link/session.go:621-623 | a concrete well-formed endpoint near 2^64 that never sends its byte at any time |
| LinkEnd.FlightStaysBounded | internal/link/session.go:598-637 | the flight bound holds across an event if and only if the event is not such a HELLO |
| LinkEnd.ShrunkPacketSizeOverruns | internal/link/session.go:401-423 | a concrete HELLO that lowers the packet size under data in flight breaks the bound |
| LinkFlow.RepeatedAcks | internal/link/session.go:819-839 | any run of ACKs that repeat the base under data in flight: the one that makes three goes back to the base, starts the timer again and halves the window, not below eight; none before and none after does more than count |
| LinkFlow.FastRetransmission | internal/link/session.go:598-637 | after three of them the next DATA packet is the oldest outstanding, long before the timer is out |
| LinkFlow.NoHastyRetransmission | internal/link/session.go:598-637 | after fewer it is what it would have been without them |
| LinkFlow.AdvancingAcks | internal/link/session.go:803-818 | any run of ACKs that move the base: one packet more in the window for each, up to 128, the count forgotten, the timer started again from the last for what is in flight, and stopped when nothing is |
| LinkFlow.WindowGoesOut | internal/link/session.go:611-637 | with nothing else to send the loop sends exactly what the window allows, in order, in full packets but perhaps the last; the first packet from the base arms the timer and no other does |
| LinkFlow.EdgeReaches | internal/link/session.go:611-637 | so all of it is out after no more packets than it has bytes |
| LinkFlow.TimeoutResends | internal/link/session.go:603-637 | when the timer is out the oldest packet goes again, the timer starts again and the window is halved |
| LinkFlow.StrayPositionStartsOver | internal/link/session.go:598-602 | a position that a HELLO left behind the base starts over there with a fresh timer and the same window |
| LinkFlow.WriteFills | internal/link/session.go:928-945 | a write takes everything, or fills the replay window, or 64 KiB while bound, and takes nothing above that |
| LinkFlow.ReplayFits | internal/link/session.go:917-952 | over every run of one end the bytes kept for replay fit the replay window |
| LinkAnswers.AckIsBatched | internal/link/session.go:358-363 | packets in order earn an ACK exactly once eight of them, retained ones included, have been taken since the last, or 40 ms have passed since the first |
| LinkAnswers.DueAckGoes | internal/link/session.go:589-597 | an ACK that is due goes out behind a queued reply and a PONG only, names the offset reached and clears the account |
| LinkAnswers.NoAckBeforeDue | internal/link/session.go:589-597 | before it is due none goes out |
| LinkAnswers.GapIsAnsweredAtOnce | internal/link/session.go:364-369 | a packet kept ahead of a gap, or refused, is answered at once with the offset at which to go on |
| LinkAnswers.FaultsAreReported | internal/link/session.go:331-428 | for any bytes: an error if and only if the packet is at fault by its bytes, the bytes held and the offsets, the error of that fault, and no other change than the time of the last packet |
| LinkAnswers.WelcomesExactly | internal/link/session.go:237-256 | a server takes a client if and only if identity and compression are its own, the session is open and the offset is retained |
| LinkAnswers.ResumesExactly | internal/link/session.go:214-228 | a client goes on if and only if the server compresses exactly if asked to, and the offset is retained |
| LinkAnswers.SettingsOverRuns | internal/link/session.go:841-849 | over every run compression and window stay as configured and the limits only fall and stay above zero |
| LinkAnswers.AttachStartsOver | internal/link/session.go:269-311 | a new binding sends the oldest byte first, starts with eight packets, answers what is owed at once, uses a packet size both sides can do, and is first probed after three seconds |
| LinkAnswers.UnboundIsDeaf | internal/link/session.go:336-342 | without a binding no packet is handled |
| LinkAnswers.StopCloses | internal/link/session.go:967-984 | closing unbinds and leaves what was sent and received as it was |
| LinkAnswers.ClosedForGood | internal/link/session.go:967-984 | a closed session is never bound again and moves no byte, over every run |
| LinkSystem.StepKeepsInv | internal/link/session.go:163-311 | every step of the two-endpoint system (loss, duplication, reordering, detach, attach at another size, handshakes) keeps txBase <= peer rxNext <= txNext and txBuf = written bytes from txBase, and only extends histories |
| LinkSystem.StepRefinesFifo | internal/link/session.go:435-523 | the two-endpoint system refines two FIFO byte queues: writes append, reads take from the front, all else is invisible |
| LinkSystem.ExactlyOnceInOrder | internal/link/session.go:890-952 | over every run from the start each end has read a prefix of what the other wrote |
| LinkResume.StepKeepsHandshake | internal/link/session.go:163-266 | every step keeps the facts about greetings and replies of the current attempt |
| LinkResume.HandshakeOverRuns | internal/link/session.go:163-266 | they hold over every run |
| LinkResume.ResumeIsNeverRefused | internal/link/handshake.go:211-216 | a HELLO or a reply belonging to the current attempt, exchanged while the client is unbound, is never refused |
| LinkResume.AcksAreNeverRefused | internal/link/session.go:794-800 | no ACK still on its way is ever refused, whenever it arrives |
| LinkResume.ReplayNeverConflicts | internal/link/session.go:464-466 | no DATA still on its way ever conflicts |
| LinkStale.ReplySurvivesAttach | internal/link/session.go:579-584 | a reply queued on one binding is the first packet of the next |
| LinkStale.ReplyRefusedIffReleased | internal/link/session.go:220-229 | in every reachable state a reply on its way or queued is refused if and only if it names a byte the client has released |
| LinkStale.StaleReplyIsRefused | internal/link/session.go:401-423 | a concrete run of nineteen steps in which a bound server repeats an old reply and the client refuses it with the session-state error |
| LinkProgress.EverythingArrives | internal/link/session.go:347-638 | from every reachable state with both ends bound, if the oldest packet fits the peer window and offsets do not run out, some run of sending, delivery and reading alone, of at most ten actions for each unacknowledged byte and one more, with times in order, delivers, reads and acknowledges all that was written |
| LinkProgress.PingIsAnswered | internal/link/session.go:382-387 | a PING is answered with a PONG by the next packet but a queued reply |
| LinkProgress.ProbeClears | internal/link/session.go:382-393 | when the check orders a probe and the network carries it and its answer, within two packets of the peer nothing is held against the binding, and the next probe is due three seconds after the last |
| LinkProgress.RoundTripAcknowledges | internal/link/session.go:579-638 | from every reachable state, for either end: with both ends bound, the reader caught up, the timer out and a packet that fits the window, at most four packets out and three back, with the oldest DATA and then the ACK of what was received delivered, move the base that far |
| LinkStall.StepStuck | internal/link/session.go:446-451 | with more than a window outstanding and packets larger than the window, no step of the system gets a byte through |
| LinkStall.StuckForEver | internal/link/session.go:446-451 | so it is over every run in which the packet size stays above the window |
| LinkStall.MovesIffOldestFits | internal/link/session.go:446-451 | something gets through if the oldest packet fits the peer window, and otherwise never does |
| LinkStall.TinyWindowIsAlwaysExceeded | internal/link/handshake.go:201-209 | a window under eleven bytes is below every packet size there is |
| LinkStall.StuckFromTheStart | internal/link/session.go:917-947 | a client that writes more than the server window before it is bound is in such a state |
| Heartbeat.DetachMeansSilence | internal/link/session.go:696-742 | over every run of a binding, a detachment ordered at a time means no packet, nor the attachment, in the four seconds before |
| Heartbeat.SilenceMeansDetach | internal/link/session.go:647-742 | over every run of checks and successful sends at most d apart in which nothing is heard, a detachment is ordered within seven seconds and five times d |
| Heartbeat.CheckFollowsHistory | internal/link/session.go:722-742 | over every run of a binding, what the check orders by the history: it waits two seconds from when a probe got through, three seconds otherwise, then orders a probe, or a detachment if and only if two are unanswered |
| Heartbeat.SendFailureDetaches | internal/link/session.go:696-717 | over every run the result of a probe orders a detachment if and only if sending failed, unless it only took too long and something was heard since it started; then nothing is held against the binding |
| ResumeExpiry.DecisionMeansExpired | internal/link/session.go:762-776 | a timer decides to close only when its whole timeout has passed since a detachment after every binding: a re-attachment defuses all earlier timers |
| ResumeExpiry.UnboundSessionExpires | internal/link/session.go:744-778 | whenever a binding fails, the timer it starts closes the session as expired after the timeout in force then, unless somebody binds or closes it before |
| ResumeExpiry.ExpiryHitsUnboundIffNoBindSince | internal/link/session.go:773-778 | carrying the decision out closes a session unbound since the detachment if and only if no binding was made between decision and close |
| ResumeExpiry.RebindCanLoseTheRace | internal/link/session.go:773-778 | a concrete run in which a session bound again in time is closed |
| LinkPackets.HelloRoundTrip | internal/link/handshake.go:131-146 | an encoded HELLO parses to the offer it announces |
| LinkPackets.HelloAckRoundTrip | internal/link/handshake.go:148-188 | an encoded HELLO_ACK decodes to its offer, and is malformed for a bound session |
| LinkPackets.GreetingLayout | internal/link/handshake.go:131-164 | type, version, offset, milliseconds, streams, packet size and capability stand at their byte positions |
| LinkPackets.DataRoundTrip | internal/link/session.go:347-352 | an encoded DATA packet parses to its offset and payload |
| Handshake.PutUint | internal/link/handshake.go:131-164 | a field of a packet buffer is its big-endian value and nothing else changes |
| Handshake.FillOffer | internal/link/handshake.go:131-164 | filling a buffer field by field gives the specified body |
| Handshake.MakeHello | internal/link/handshake.go:131-146 | the filled buffer is the specified HELLO |
| Handshake.MakeHelloAck | internal/link/handshake.go:148-164 | the filled buffer is the specified HELLO_ACK |
| Handshake.ReadHello | internal/link/handshake.go:69-114 | the receive loop computes the specified greeting |
| Handshake.GreetingIsHeard | internal/link/handshake.go:69-114 | a client is heard as what it said among any noise before, between and after its two packets |
| Handshake.GreetingIsDecided | internal/link/handshake.go:69-114 | for any packets: the first that is of another version, or asks once a session was named, decides, for the session named last; without one the connection ends unheard |
| Handshake.TimeoutsAgree | internal/link/handshake.go:190-199 | resume timeouts end up less than a millisecond apart for all durations, despite truncation and clamping |
| Handshake.NegotiationAgrees | internal/link/session.go:226-261 | after one exchange over the wire packet size, stream limit and compression are equal and no limit has risen |
| Handshake.LiveNegotiationAgrees | internal/link/session.go:401-423 | so it is when a bound server hears the greeting on its live binding |
| Handshake.NegotiationNeverRaises | internal/link/session.go:841-849 | renegotiation from any offer never raises a limit, keeps it valid, and repeating it changes nothing |
| Frames.WindowUpdateCarriesAmount | internal/protocol/frame.go:119-130 | the amount of a window update survives, and a non-zero one is a valid frame |
| Frames.DecodeEncode | internal/protocol/frame.go:43-82 | a valid frame of at most 16 KiB, followed by anything, is read back as itself |
| Frames.EncodeDecode | internal/protocol/frame.go:61-82 | whatever is read is readable and re-encodes to the bytes consumed |
| Frames.ValidExactly | internal/protocol/frame.go:84-117 | a frame is valid if and only if type, stream, payload length and credit are in the table of its type |
| Frames.FrameLayout | internal/protocol/frame.go:43-59 | type, stream, length and payload stand at their byte positions |
| Frames.OversizedListIsUnreadable | internal/protocol/frame.go:64-104 | a frame that passes validation is readable if and only if its payload is at most 16 KiB; only a service list can fail |
| Frames.StreamRoundTrip | internal/protocol/frame.go:43-82 | frames written back to back are read back as exactly that sequence |
| Frames.ReadFramesAreThePrefix | internal/protocol/frame.go:61-82 | frames read from any bytes, written again, are a prefix of them |
| Frames.Source.ReadFull | internal/protocol/frame.go:61-78 | whatever the chunking, exactly the bytes asked for are read, or all there are |
| Frames.Source.ReadFrame | internal/protocol/frame.go:61-82 | reading a frame depends on the bytes only, not on the chunks |
| Frames.Source.ReadFrames | internal/mux/session.go:252-264 | the read loop reads the specified frames from every chunking |
| Frames.Sink.WriteAll | internal/protocol/frame.go:132-143 | everything is written or an error reported with a proper prefix written; it succeeds if every call makes progress |
| Frames.Sink.WriteFrame | internal/protocol/frame.go:43-59 | an invalid frame writes nothing; success means its whole encoding was written |
| Services.DecodeInvertsServices | internal/mux/session.go:365-427 | a list is read back as it was if and only if names, hosts, ports and length fit |
| Services.EncodeInvertsServices | internal/mux/session.go:388-427 | every accepted payload is the encoding of the list read from it |
| Services.DecodeServices | internal/mux/session.go:388-427 | the decoding loop with its moving offset computes the specified listing |
| Services.EncodeServices | internal/mux/session.go:365-386 | the encoding loop computes the specified payload |
| MuxStream.ChunksCarry | internal/mux/stream.go:183-213 | cutting a write into frames loses and reorders nothing; each frame holds 1..16384 bytes of its own stream |
| MuxStream.NothingAfterCloseRead | internal/mux/stream.go:303-310 | after it nothing is read and no data is taken |
| MuxStream.GracefulCloseDrains | internal/mux/stream.go:312-381 | a close after both directions ended sends everything queued in order and is done with after the last frame and not before; any other close resets |
| StreamObject.Stream.Read | internal/mux/stream.go:127-165 | a read hands over the front of the buffer, returns credit in 8 KiB batches, and reports end or error only when nothing is left |
| StreamObject.Stream.Write | internal/mux/stream.go:167-226 | the write loop takes exactly what the window allows, as the frames of one cut, and says how it ended and whether to schedule |
| StreamObject.Stream.ReceiveData | internal/mux/stream.go:228-252 | DATA is appended and charged, or refused without a change |
| StreamObject.Stream.UpdateSendWindow | internal/mux/stream.go:254-263 | credit is added unless zero or above the initial window |
| StreamObject.Stream.ReceiveFIN | internal/mux/stream.go:265-272 | a FIN ends the peer direction of an open stream |
| StreamObject.Stream.ReceiveReset | internal/mux/stream.go:274-285 | a RESET closes, once |
| StreamObject.Stream.CloseWrite | internal/mux/stream.go:287-301 | a FIN is queued behind all data, once |
| StreamObject.Stream.CloseRead | internal/mux/stream.go:303-310 | unread bytes are dropped and no more are taken |
| StreamObject.Stream.Close | internal/mux/stream.go:312-332 | a stream finished both ways drains before it goes, any other goes with a RESET |
| StreamObject.Stream.Reset | internal/mux/stream.go:334-349 | a reset drops queued frames and the scheduled mark |
| StreamObject.Stream.EnqueueLocked | internal/mux/stream.go:351-358 | appending a frame marks the stream and asks for a place in line exactly if it had none |
| StreamObject.Stream.NextOutbound | internal/mux/stream.go:360-381 | the oldest frame, whether to go back in line, and whether the stream is done |
| MuxCredit.StepKeepsLane | internal/mux/stream.go:127-332 | every step of either end of a live stream, a graceful close included, keeps both credit equations, the order of data and FIN, and the read/written prefixes |
| MuxCredit.NothingIsRefused | internal/mux/stream.go:228-263 | between two such ends neither the receive-window nor the window-update error can happen, and neither DATA nor FIN reaches a closed end |
| MuxCredit.ReadToEndIsExact | internal/mux/stream.go:127-332 | over every run, graceful closes included, what has been read is a prefix of what was written, and at end of stream all of it |
| MuxCredit.ClosedEndDrains | internal/mux/stream.go:312-381 | a closed end sends its queue in order behind what is on the wire, and is forgotten then and not before |
| MuxCredit.QuietMeansCredit | internal/mux/stream.go:133-147 | with nothing queued or in flight and the reader caught up, the writer has more than 65536-8192 of credit |
| MuxCredit.BlockedWriterCanResume | internal/mux/stream.go:187-217 | from every reachable state of an open writer such credit can be regained while the writer sends only what is queued and handles what arrives, its stream as open as before |
| MuxSession.IdsNeverRepeat | internal/mux/session.go:155-166 | client identifiers are the odd numbers in turn, never repeat, and stop at 2^32-1 |
| MuxSelectors.SelectorsArrive | internal/mux/session.go:142-178 | over every run of two sessions from their creation, each stream the server knows has exactly the selector given to the call that opened it |
| MuxAnswers.FramesAreAnswered | internal/mux/session.go:266-363 | for every frame: the session ends if and only if it is a violation or there is no room for its answer; otherwise exactly the one answer it gets is queued, and exactly the streams it is about begin and end |
| MuxAnswers.OpensExactly | internal/mux/session.go:142-178 | a call opens a stream if and only if it is made at the client of an open session, below the limits, with a name of at most 64 bytes; it announces that name |
| MuxAnswers.LimitsOverRuns | internal/mux/session.go:331-363 | over every run under any peer: streams, control frames and streams to be accepted within their limits, unread bytes and credit of each stream within 64 KiB |
| MuxAnswers.LimitsFromTheStart | internal/mux/session.go:106-134 | so they are from its creation on |
| MuxAnswers.BacklogIsCounted | internal/mux/session.go:200-212 | over every run the streams waiting to be accepted are those begun by the peer less those accepted |
| MuxAnswers.GivingUpReachesPeer | internal/mux/stream.go:312-349 | a stream reset, rejected or closed early is gone at once and announced; the announcement ends it at the peer and is not answered |
| MuxAnswers.ResetSendsNothingMore | internal/mux/stream.go:334-349 | a stream reset sends nothing of what it had queued |
| MuxAnswers.TurnsEmptyTheQueue | internal/mux/stream.go:360-381 | turn by turn the oldest frame goes, another turn is asked for exactly while there is more, and the stream is done with the last frame exactly if closed gracefully |
| MuxAnswers.CreditComesInBatches | internal/mux/stream.go:127-147 | over any reads credit goes back in batches of at least 8 KiB, all of it but for less than a batch, and the bytes read are the front of those that arrived |
| MuxAnswers.WritesWhileThereIsCredit | internal/mux/stream.go:187-217 | a write stops short only with the credit used up, or on a stream not open for writing |
| MuxSession.StreamsAreIsolated | internal/mux/session.go:266-329 | each step of two sessions is, for a stream alive at both ends, one step of its own lane or none, whatever other streams do |
| MuxSession.OpenStreamsStayHealthy | internal/mux/session.go:266-329 | so credit, order and half-close of a live stream survive any traffic |
| MuxSession.OpenStreamOverRuns | internal/mux/session.go:429-458 | over every run in which a stream stays alive, through graceful closes, each end has read a prefix of what the other wrote, and at end of stream exactly that |
| MuxOpening.StreamsFromTheStart | internal/mux/session.go:97-178 | from two new sessions, whether or not the server announces its services, over every run in which the stream is not given up: whenever it is alive at both ends its lane is in order and its readers are exact |
| MuxOpening.FirstFrameDecides | internal/mux/session.go:299-315 | the next frame of an announced stream that reaches the client is its approval, which opens it with a lane in order, its data, which loses it, or its end, which leaves it waiting |
| MuxOpening.OpensIffApprovalFirst | internal/mux/session.go:432-451 | over every run in which nobody gives the stream up, whatever else both sessions do: the client keeps and opens it if and only if OPEN_OK reaches it before the first DATA of the stream, has lost it if and only if DATA comes first, and waits until either comes |
| MuxOpening.GoneForGood | internal/mux/session.go:155-166 | a client never takes up again a stream it has forgotten, nor changes it, over every run |
| MuxOpening.DataMayOvertakeOpenOk | internal/mux/session.go:432-451 | a run from two new sessions in which the inner select sends DATA before the queued OPEN_OK and the client resets the stream |
| MuxObjects.Session.constructor | internal/mux/session.go:106-134 | a new session is empty, with at least one stream allowed |
| MuxObjects.Session.WithServices | internal/mux/session.go:97-104 | a server that announces its services starts with their list as its only control frame |
| MuxObjects.Session.Shutdown | internal/mux/session.go:520-541 | a failure drops every stream and resets each of them, once |
| MuxObjects.Session.SendControl | internal/mux/session.go:466-480 | a control frame is queued, or a full queue ends the session |
| MuxObjects.Session.Schedule | internal/mux/session.go:482-501 | a live stream gets the end of the line; there is always a slot, so the full-queue error is unreachable |
| MuxObjects.Session.LeaveLine | internal/mux/session.go:503-518 | undisturbed by the writer, turning the line round once removes one stream and keeps the order of the others |
| MuxObjects.Session.RemoveStream | internal/mux/session.go:503-518 | undisturbed by the writer, a removed stream leaves the table and the line, and the others stay as they were |
| MuxObjects.Session.OpenService | internal/mux/session.go:142-173 | a new stream takes the next identifier, never one in use, and is announced |
| MuxObjects.Session.HandleOpen | internal/mux/session.go:331-363 | an OPEN is accepted with its selector, refused at the limits, or ends the session for a bad or repeated identifier |
| MuxObjects.Session.HandleFrame | internal/mux/session.go:266-329 | every frame does what its specification says, an advertised list is kept, and every stream stays in line exactly while it has frames |
| MuxObjects.Session.HandleTraffic | internal/mux/session.go:307-315 | DATA and window updates are taken, or reset the stream |
| MuxObjects.Session.PickReady | internal/mux/session.go:439-449 | the head of the line gives up its oldest frame and, with more to send, goes to the end |
| MuxObjects.Session.Write | internal/mux/stream.go:167-226 | a write puts its stream in line exactly if it was not there |
| MuxObjects.Session.Read | internal/mux/stream.go:127-147 | a read sends back credit as its specification says |
| MuxObjects.Session.Close | internal/mux/stream.go:312-332 | a close removes, drains or resets as specified |
| MuxObjects.Session.Reset | internal/mux/stream.go:334-349 | a reset removes the stream and announces it, once |
| MuxObjects.Session.Approve | internal/mux/stream.go:57-72 | an approval opens the stream and answers, once |
| MuxObjects.Session.Reject | internal/mux/stream.go:74-87 | a rejection removes the stream and answers, once |
| MuxOverLink.DoValid | internal/protocol/frame.go:43-104 | no operation of a session queues or sends a frame that validation refuses, so writing a frame fails only with the link |
| MuxOverLink.HandleValid | internal/protocol/frame.go:84-104 | nor does handling a valid frame |
| MuxOverLink.DecodePrefix | internal/protocol/frame.go:61-82 | what the reader makes of the first bytes of a frame: too few, too long a payload, or the frame and what is left |
| MuxOverLink.NextFrameIsRead | internal/mux/session.go:252-264 | a reader gets exactly the next frame sent, or waits for the rest of it, and gives up if and only if that frame is longer than 16 KiB |
| MuxOverLink.StepRefinesPair | internal/mux/session.go:252-264 | every step of two sessions over the lossy link is a step of two sessions joined by perfect frame queues, or none |
| MuxOverLink.RunRefinesPair | internal/mux/session.go:429-458 | and so is every run |
| MuxOverLink.ExactOverTheLink | internal/mux/session.go:429-458 | from the start of link and mux, under loss, duplication, reordering and any detachments: a stream that is not given up delivers at each end a prefix of what was written at the other, and at end of stream all of it |
| MuxOverLink.SelectorsOverTheLink | internal/mux/session.go:142-178 | and each stream the server knows is for the service asked for, over the lossy link |
| MuxScheduler.TokensOverRuns | internal/mux/session.go:482-518 | over every interleaving of critical sections, and of the writer taking a head inside a removal, tokens are unique, and each stream of the session not on its way out, open or draining, holds one exactly while it has frames |
| MuxScheduler.NoWakeupIsLost | internal/mux/session.go:482-518 | from the start on, over the same runs: each stream of the session, until it is on its way out, has a token if and only if it has frames, a closed one always; none is in line twice, and the line never overflows |
| MuxScheduler.LapseIffOvertaken | internal/mux/session.go:439-518 | when the writer takes a head inside a removal: a stream ahead of another keeps its turn if and only if the head taken is not the other, and it is not itself the first of the rest, with the other among them |
| MuxScheduler.NoOvertaking | internal/mux/session.go:429-518 | over every run: before a stream in line is served, another has at most one turn if it stands ahead, and one more for each such lapse |
| MuxScheduler.RoundRobin | internal/mux/session.go:429-518 | between two turns of a stream every stream that was in line has had a turn, unless it left, or there were more lapses at its expense than turns of the first in between |
| MuxScheduler.LapsesNeedRemovals | internal/mux/session.go:503-518 | there are no more lapses than removals in which the writer takes a head |
| MuxScheduler.LineMoves | internal/mux/session.go:429-449 | a stream in line is served after no more than all those before it when the writer is left alone |
| MuxScheduler.FramesAreConserved | internal/mux/stream.go:351-381 | over every run without its reset, what a stream has queued is what was sent and what is still to be sent |
| MuxScheduler.TwoTurnsInARow | internal/mux/session.go:439-518 | a run from the start in which one stream is served twice while two others stay in line: with one lapse at the expense of each |
| MuxScheduler.RemovalKeepsOrder | internal/mux/session.go:503-518 | undisturbed, the rotation yields the same order without the removed stream |
| MuxScheduler.RotationClears | internal/mux/session.go:503-518 | however the writer interferes, the removed stream is gone and every other is still in line or was taken, exactly as often as it was there |
| MuxScheduler.OneTakeReorders | internal/mux/session.go:503-518 | for every line, removed stream, in line or not, and round: what one take by the writer during the rotation leaves; order is kept if and only if the take was the first of at most two others, or the removed stream with at most one other |

## Left out

- Goroutines, mutexes, channels and contexts as such; a blocked Read or Write returns what it has instead of waiting, and wake-up signals and deadlines are not modelled.
- The time a critical section uses is read by the program just before it takes the lock; the model reads it inside.
- Radio, GATT, discovery and reconnection (`internal/ble`, `internal/app`): a connection is the bag of packets.
- TCP proxying and dialling (`internal/bridge`), command line, console and benchmark traffic.
- DEFLATE and the per-frame encoding byte: the mux is modelled in its raw mode; compression appears only as a negotiated flag.
- Random session identifiers; statistics other than the received-byte counter; `lastTX` and the time of the last heartbeat, which decide nothing.
- Texts of RESET, OPEN_ERROR and REJECT, and the kinds of errors kept in a session or a stream; such frames carry an empty payload here, and a closed session has one error.
- How numeric selectors are resolved (`internal/bridge`).
- Concurrent writers, or concurrent readers, of one stream direction.
- Reads from a stream its session has already forgotten; their window updates go to a stream the peer has retired.
- Scheduling after a stream has left the table is modelled in `MuxScheduler` only; the class runs each operation and the placing in line as one step.
- MuxObjects.Session.OpenService: ends with the announcement; the wait for the answer is not modelled, and the reset after a wait that fails is a call of `Reset`.
- MuxScheduler.NoOvertaking: counts frames instead of carrying them; a removal with at most one take inside it is one step, as `MuxScheduler.OneTakeReorders` computes it.
- MuxObjects.Session.LeaveLine: is the rotation undisturbed; a take by the writer inside it is a step of `MuxScheduler` only.
- MuxObjects.Session.RemoveStream: the same.
- MuxOverLink.ExactOverTheLink: takes a service list shorter than 4 GiB, whose length its header can hold; ends of the link's byte stream and errors from it are a failure of the session at any time.
- MuxOverLink.SelectorsOverTheLink: the same.
- LinkAnswers.FaultsAreReported: says which packets are at fault; that the binding is then failed by the receive loop is `LinkSession.Session.FailBinding`, and a detachment at any time in `LinkSystem`.
- MuxSession.OpenStreamOverRuns: leaves out `CloseRead`, which drops unread bytes without returning credit, and says nothing of a stream once it is reset or closed before both directions have ended.
- MuxOpening.StreamsFromTheStart: leaves out the same; before the stream is open the client's application, having no handle on it, can only give it up.
- MuxCredit.StepKeepsLane: leaves out `CloseRead` for the same reason.
- LinkSystem.ExactlyOnceInOrder: is about safety; that a network delivers at all is not promised; `LinkProgress.EverythingArrives` gives a run in which it does.
- LinkEnd.EndOverRuns: counts received bytes without the 64-bit wrap of the statistics counter.
- ResumeExpiry.DecisionMeansExpired: models the session by its binding, timers and clock only; `LinkSession.Session.FailBinding` and `ExpireCheck` are the steps as the program takes them.
