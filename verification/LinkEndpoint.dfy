// One end of the link as a value, and what each critical section of the
// session does to it. The session class is proved against these functions.
module LinkEndpoint {
  import opened Bytes
  import opened Reassembly
  import opened LinkPackets

  const RETRANSMIT_INTERVAL: nat := 1000 * MILLISECOND
  const ACK_MAX_DELAY: nat := 40 * MILLISECOND
  const ACK_BATCH_PACKETS: nat := 8
  const INITIAL_FLIGHT_PACKETS: nat := 8
  const MAX_FLIGHT_PACKETS: nat := 128
  const FAST_RETRANSMIT_ACKS: nat := 3
  const LIVE_WRITE_WINDOW: nat := 64 * 1024

  // Times are nanoseconds; 0 stands for "not set".

  // Bytes written and not yet acknowledged: offsets [base, next).
  datatype Sender = Sender(base: nat, next: nat, buf: seq<byte>)

  // How far the current binding has sent, and how far it may.
  datatype Flight = Flight(sendNext: nat, retransmitAt: nat, duplicateACK: nat, flightPackets: nat)

  // Liveness of the current binding.
  datatype Pulse = Pulse(lastRX: nat, pending: bool, sentAt: nat, failures: nat)

  datatype BindingState = BindingState(mtu: nat, pulse: Pulse, flight: Flight)

  datatype AckState = AckState(dirty: bool, packets: nat, deadline: nat)

  datatype Endpoint = Endpoint(
    id: SessionID,
    config: Config,
    tx: Sender,
    rx: Receiver,
    ack: AckState,
    pongDirty: bool,
    helloReply: seq<byte>,
    pendingHello: Option<SessionID>,
    binding: Option<BindingState>,
    closed: bool)

  // An end as it is created.
  function NewEndpoint(id: SessionID, config: Config): Endpoint {
    Endpoint(id, config, Sender(0, 0, []), Receiver(0, [], map[], 0, 0), AckState(false, 0, 0), false, [], None, None, false)
  }

  predicate Live(e: Endpoint) {
    e.binding.Some? && !e.closed
  }

  // ---- Offsets and the replay buffer ---------------------------------------

  function Reconcile(tx: Sender, expected: nat): Result<Sender> {
    if expected < tx.base || expected > tx.next || |tx.buf| < expected - tx.base then Err(ErrSessionState)
    else Ok(Sender(expected, tx.next, tx.buf[expected - tx.base..]))
  }

  function Negotiate(config: Config, peer: Offer): Config {
    Config(
      if 0 < peer.resumeTimeout < config.resumeTimeout then peer.resumeTimeout else config.resumeTimeout,
      config.replayWindow,
      if 0 < peer.maxConnections < config.maxConnections then peer.maxConnections else config.maxConnections,
      config.compression && peer.compression)
  }

  // ---- The flight window ---------------------------------------------------

  function AtLeastInitial(flightPackets: nat): nat {
    if flightPackets < INITIAL_FLIGHT_PACKETS then INITIAL_FLIGHT_PACKETS else flightPackets
  }

  function Halved(flightPackets: nat): nat {
    Max(INITIAL_FLIGHT_PACKETS, AtLeastInitial(flightPackets) / 2)
  }

  function Grown(flightPackets: nat): nat {
    if flightPackets < INITIAL_FLIGHT_PACKETS then INITIAL_FLIGHT_PACKETS
    else if flightPackets < MAX_FLIGHT_PACKETS then flightPackets + 1
    else flightPackets
  }

  function PayloadLimit(mtu: nat): nat {
    if mtu < 10 then 1 else mtu - 9
  }

  // Go back to the oldest unacknowledged byte and halve the window.
  function GoBack(tx: Sender, f: Flight, now: nat): Flight {
    Flight(tx.base, now + RETRANSMIT_INTERVAL, 0, Halved(f.flightPackets))
  }

  // The flight after the cumulative ACK moved the replay buffer on to tx.
  function AfterAdvance(tx: Sender, f: Flight, now: nat): Flight {
    var sendNext := Max(f.sendNext, tx.base);
    Flight(sendNext, if sendNext > tx.base then now + RETRANSMIT_INTERVAL else 0, 0, Grown(f.flightPackets))
  }

  // The flight after an ACK that repeats the base.
  function AfterDuplicate(tx: Sender, f: Flight, now: nat): Flight {
    if f.sendNext <= tx.base then f
    else if f.duplicateACK + 1 >= FAST_RETRANSMIT_ACKS then GoBack(tx, f, now)
    else f.(duplicateACK := f.duplicateACK + 1)
  }

  function HandleAck(tx: Sender, f: Flight, expected: nat, now: nat): Result<(Sender, Flight)> {
    if expected < tx.base then Ok((tx, f))
    else
      match Reconcile(tx, expected)
      case Err(e) => Err(e)
      case Ok(tx') =>
        if tx'.base > tx.base then Ok((tx', AfterAdvance(tx', f, now)))
        else Ok((tx', AfterDuplicate(tx', f, now)))
  }

  // ---- Sending -------------------------------------------------------------

  function Repaired(tx: Sender, f: Flight): Flight {
    if f.sendNext < tx.base || f.sendNext > tx.next then Flight(tx.base, 0, 0, f.flightPackets) else f
  }

  function TimedOut(tx: Sender, f: Flight, now: nat): Flight {
    if f.sendNext > tx.base && f.retransmitAt != 0 && now >= f.retransmitAt then GoBack(tx, f, now) else f
  }

  // The flight with which the next DATA packet is chosen.
  function Prepared(tx: Sender, f: Flight, now: nat): Flight {
    var t := TimedOut(tx, Repaired(tx, f), now);
    t.(flightPackets := AtLeastInitial(t.flightPackets))
  }

  // 64-bit addition without a guard.
  function WrapAdd(a: nat, b: nat): nat {
    (a + b) % (MAX_U64 + 1)
  }

  // The flight window in bytes.
  function WindowBytes(mtu: nat, flightPackets: nat): nat {
    PayloadLimit(mtu) * flightPackets
  }

  function WindowLimit(tx: Sender, mtu: nat, flightPackets: nat): nat {
    Min(tx.next, WrapAdd(tx.base, WindowBytes(mtu, flightPackets)))
  }

  // The next DATA packet, if the window has room for one.
  function SendData(tx: Sender, mtu: nat, f: Flight, now: nat): (Flight, Option<seq<byte>>)
  {
    var limit := WindowLimit(tx, mtu, f.flightPackets);
    if f.sendNext < limit && tx.base <= f.sendNext && limit - tx.base <= |tx.buf| then
      var size := Min(PayloadLimit(mtu), limit - f.sendNext);
      var offset := f.sendNext - tx.base;
      (Flight(f.sendNext + size,
              if f.sendNext == tx.base && f.retransmitAt == 0 then now + RETRANSMIT_INTERVAL else f.retransmitAt,
              f.duplicateACK, f.flightPackets),
       Some(EncodeData(f.sendNext, tx.buf[offset..offset + size])))
    else (f, None)
  }

  predicate AckDue(ack: AckState, now: nat) {
    ack.dirty && (ack.packets >= ACK_BATCH_PACKETS || ack.deadline == 0 || now >= ack.deadline)
  }

  // The next packet to send, in the order of precedence of the send loop.
  function NextPacket(e: Endpoint, now: nat): (Endpoint, Option<seq<byte>>)
    requires Live(e)
  {
    if e.helloReply != [] then (e.(helloReply := []), Some(e.helloReply))
    else if e.pongDirty then (e.(pongDirty := false), Some([PONG]))
    else if AckDue(e.ack, now) then (e.(ack := AckState(false, 0, 0)), Some(EncodeAck(e.rx.next)))
    else
      var b := e.binding.value;
      var (f, packet) := SendData(e.tx, b.mtu, Prepared(e.tx, b.flight, now), now);
      (e.(binding := Some(b.(flight := f))), packet)
  }

  // ---- Receiving -----------------------------------------------------------

  function AckAfter(ack: AckState, v: Verdict, now: nat): AckState {
    match v
    case Advanced(n) =>
      AckState(true, ack.packets + n, if ack.deadline == 0 then now + ACK_MAX_DELAY else ack.deadline)
    case _ => AckState(true, ACK_BATCH_PACKETS, now)
  }

  ghost function HandleData(e: Endpoint, start: nat, payload: seq<byte>, now: nat): (Endpoint, Option<LinkError>)
  {
    var (rx, v) := Accept(e.rx, e.config.replayWindow, start, payload);
    match v
    case SequenceExhausted => (e, Some(ErrSequenceExhausted))
    case Conflict => (e, Some(ErrConflictingReplay))
    case _ => (e.(rx := rx, ack := AckAfter(e.ack, v, now)), None)
  }

  function HandleHello(e: Endpoint, offer: Offer, known: bool): (Endpoint, Option<LinkError>)
    requires e.binding.Some?
  {
    if e.pendingHello != Some(e.id) then (e, None)
    else if !known || offer.compression != e.config.compression then (e, Some(ErrCompression))
    else
      match Reconcile(e.tx, offer.expected)
      case Err(error) => (e, Some(error))
      case Ok(tx) =>
        var b := e.binding.value;
        var mtu := Min(b.mtu, NormalizeMTU(offer.mtu));
        var config := Negotiate(e.config, offer);
        (e.(tx := tx, config := config, binding := Some(b.(mtu := mtu)),
            helloReply := EncodeHelloAck(e.rx.next, config, mtu), pendingHello := None), None)
  }

  function Revived(p: Pulse, now: nat): Pulse {
    Pulse(now, false, p.sentAt, 0)
  }

  // Any packet proves the path alive.
  function Heard(e: Endpoint, now: nat): Endpoint
    requires e.binding.Some?
  {
    var b := e.binding.value;
    e.(binding := Some(b.(pulse := Revived(b.pulse, now))))
  }

  ghost function Handle(e: Endpoint, raw: seq<byte>, now: nat): (Endpoint, Option<LinkError>)
  {
    if raw == [] || !Live(e) then (e, None) else HandleParsed(Heard(e, now), Parse(raw), now)
  }

  ghost function HandleParsed(e: Endpoint, packet: Packet, now: nat): (Endpoint, Option<LinkError>)
    requires Live(e)
  {
    match packet
    case Empty => (e, None)
    case Ignored => (e, None)
    case Malformed => (e, Some(ErrHandshake))
    case Reject => (e, Some(ErrRejected))
    case Data(start, payload) => HandleData(e, start, payload, now)
    case Ack(expected) =>
      (match HandleAck(e.tx, e.binding.value.flight, expected, now)
       case Err(error) => (e, Some(error))
       case Ok((tx, f)) => (e.(tx := tx, binding := Some(e.binding.value.(flight := f))), None))
    case Ping => (e.(pongDirty := true), None)
    case Pong => (e, None)
    case Close => (e, None)
    case HelloID(id) => (e.(pendingHello := Some(id)), None)
    case Hello(offer, known) => HandleHello(e, offer, known)
  }

  // ---- Binding -------------------------------------------------------------

  // A new binding starts over at the oldest unacknowledged byte; fragments
  // retained ahead of a gap are dropped and replayed by the sender.
  function Attach(e: Endpoint, connMTU: int, mtu: int, now: nat): Endpoint {
    if e.closed then e else
    e.(binding := Some(BindingState(Min(NormalizeMTU(connMTU), NormalizeMTU(mtu)), Pulse(now, false, now, 0),
                               Flight(e.tx.base, 0, 0, INITIAL_FLIGHT_PACKETS))),
       rx := e.rx.(pending := map[], pendingBytes := 0),
       ack := if e.ack.dirty then e.ack.(deadline := now) else e.ack)
  }

  function Detach(e: Endpoint): Endpoint {
    if e.closed then e else e.(binding := None)
  }

  function Shut(e: Endpoint): Endpoint {
    if e.closed then e else e.(closed := true, binding := None)
  }

  // The reconciling half of binding as a server, and the reply it sends.
  function Welcome(e: Endpoint, id: SessionID, offer: Offer, connMTU: int): Result<(Endpoint, seq<byte>, nat)> {
    if id != e.id then Err(ErrRejected)
    else if offer.compression != e.config.compression then Err(ErrCompression)
    else if e.closed then Err(ErrClosed)
    else
      match Reconcile(e.tx, offer.expected)
      case Err(error) => Err(error)
      case Ok(tx) =>
        var mtu := Min(NormalizeMTU(connMTU), NormalizeMTU(offer.mtu));
        var config := Negotiate(e.config, offer);
        Ok((e.(tx := tx, config := config), EncodeHelloAck(e.rx.next, config, mtu), mtu))
  }

  // The reconciling half of binding as a client, on the server's reply; `compression`
  // is what the client was configured with when it said HELLO.
  function Resume(e: Endpoint, compression: bool, offer: Offer, connMTU: int): Result<(Endpoint, nat)> {
    if compression && !offer.compression then Err(ErrCompression)
    else if !compression && offer.compression then Err(ErrHandshake)
    else
      match Reconcile(e.tx, offer.expected)
      case Err(error) => Err(error)
      case Ok(tx) =>
        Ok((e.(tx := tx, config := Negotiate(e.config, offer)), Min(NormalizeMTU(connMTU), offer.mtu)))
  }

  // ---- The application side ------------------------------------------------

  function WriteRoom(e: Endpoint): int {
    var space := e.config.replayWindow - |e.tx.buf|;
    if e.binding.Some? then Min(space, LIVE_WRITE_WINDOW - |e.tx.buf|) else space
  }

  // How many of `size` bytes the session takes before it blocks.
  function WriteSize(e: Endpoint, size: nat): nat {
    if WriteRoom(e) <= 0 then 0 else Min(WriteRoom(e), size)
  }

  function Append(tx: Sender, p: seq<byte>): Sender {
    Sender(tx.base, tx.next + |p|, tx.buf + p)
  }

  function Take(e: Endpoint, n: nat): Endpoint
    requires n <= |e.rx.buf|
  {
    e.(rx := e.rx.(buf := e.rx.buf[n..]))
  }

}
