// What every critical section of one end keeps, whatever packets arrive: the
// replay buffer, the receive window, the flight window and the retransmission
// timer.
module LinkInvariants {
  import opened Bytes
  import opened Reassembly
  import opened LinkPackets
  import opened LinkEndpoint

  predicate SenderOk(tx: Sender) {
    tx.base <= tx.next <= MAX_U64 && |tx.buf| == tx.next - tx.base
  }

  // Anything sent beyond the base has its retransmission timer armed. The
  // position may trail the base after a HELLO on a live binding.
  predicate FlightOk(tx: Sender, f: Flight) {
    && f.sendNext <= tx.next
    && INITIAL_FLIGHT_PACKETS <= f.flightPackets <= MAX_FLIGHT_PACKETS
    && (f.sendNext > tx.base ==> f.retransmitAt != 0)
    && f.duplicateACK < FAST_RETRANSMIT_ACKS
  }

  predicate BindingOk(tx: Sender, b: BindingState) {
    MINIMUM_PACKET_MTU <= b.mtu <= MAXIMUM_PACKET_MTU && FlightOk(tx, b.flight)
  }

  predicate ConfigOk(config: Config) {
    config.resumeTimeout > 0 && config.replayWindow > 0 && 0 < config.maxConnections <= 0xFFFF
  }

  ghost predicate EndpointOk(e: Endpoint) {
    && ConfigOk(e.config)
    && SenderOk(e.tx)
    && WellFormed(e.rx, e.config.replayWindow)
    && (e.binding.Some? ==> BindingOk(e.tx, e.binding.value))
  }

  // Unacknowledged bytes in flight, bounded by the flight window in bytes.
  predicate WithinFlight(tx: Sender, b: BindingState) {
    b.flight.sendNext <= tx.base + WindowBytes(b.mtu, b.flight.flightPackets)
  }

  lemma Parts(e: Endpoint)
    requires EndpointOk(e)
    ensures SenderOk(e.tx) && WellFormed(e.rx, e.config.replayWindow)
  {}

  lemma NewEndpointOk(id: SessionID, config: Config)
    requires ConfigOk(config)
    ensures EndpointOk(NewEndpoint(id, config))
  {
    assert WellFormed(NewEndpoint(id, config).rx, config.replayWindow) by { NewReceiverOk(config.replayWindow); }
  }

  // ---- The flight window ---------------------------------------------------

  lemma ProductMonotone(limit: nat, a: nat, b: nat)
    requires a <= b
    ensures limit * a <= limit * b
  {}

  lemma HandleAckKeeps(tx: Sender, b: BindingState, expected: nat, now: nat)
    requires SenderOk(tx) && BindingOk(tx, b)
    ensures var r := HandleAck(tx, b.flight, expected, now);
            r.Ok? ==> var (tx', f) := r.value;
              && SenderOk(tx') && FlightOk(tx', f) && tx'.next == tx.next
              && tx'.base == Max(tx.base, expected)
              && tx'.buf == tx.buf[tx'.base - tx.base..]
              && (WithinFlight(tx, b) ==> WithinFlight(tx', b.(flight := f)))
    ensures HandleAck(tx, b.flight, expected, now).Err? <==> expected > tx.next
  {
    ProductMonotone(PayloadLimit(b.mtu), b.flight.flightPackets, Grown(b.flight.flightPackets));
  }

  lemma PreparedKeeps(tx: Sender, b: BindingState, now: nat)
    requires SenderOk(tx) && BindingOk(tx, b)
    ensures var f := Prepared(tx, b.flight, now);
            FlightOk(tx, f) && tx.base <= f.sendNext
            && (WithinFlight(tx, b) ==> WithinFlight(tx, b.(flight := f)))
  {}

  // A DATA packet carries 1..mtu-9 bytes, the ones the replay buffer holds at
  // its offset, and ends within the flight window.
  ghost predicate DataFits(tx: Sender, b: BindingState, start: nat, payload: seq<byte>) {
    && SenderOk(tx)
    && 1 <= |payload| <= b.mtu - 9
    && tx.base <= start && start + |payload| <= tx.next
    && payload == tx.buf[start - tx.base..start - tx.base + |payload|]
    && start + |payload| <= tx.base + WindowBytes(b.mtu, b.flight.flightPackets)
  }

  lemma WrapAddAtMost(a: nat, b: nat)
    ensures WrapAdd(a, b) <= a + b
  {}

  lemma SendDataKeeps(tx: Sender, b: BindingState, now: nat)
    requires SenderOk(tx) && BindingOk(tx, b) && tx.base <= b.flight.sendNext
    ensures var (f, packet) := SendData(tx, b.mtu, b.flight, now);
            && FlightOk(tx, f)
            && b.flight.sendNext <= f.sendNext <= tx.next
            && f.flightPackets == b.flight.flightPackets
            && (WithinFlight(tx, b) ==> WithinFlight(tx, b.(flight := f)))
            && (packet.Some? ==>
                 var payload := tx.buf[b.flight.sendNext - tx.base..f.sendNext - tx.base];
                 && packet.value == EncodeData(b.flight.sendNext, payload)
                 && DataFits(tx, b, b.flight.sendNext, payload))
            && (packet.None? ==> f == b.flight)
  {
    hide WindowBytes;
    WrapAddAtMost(tx.base, WindowBytes(b.mtu, b.flight.flightPackets));
  }

  // ---- Every critical section ----------------------------------------------

  lemma NextPacketKeeps(e: Endpoint, now: nat)
    requires EndpointOk(e) && Live(e)
    ensures var (e', packet) := NextPacket(e, now);
            && EndpointOk(e') && Live(e')
            && (WithinFlight(e.tx, e.binding.value) ==> WithinFlight(e'.tx, e'.binding.value))
  {
    hide WellFormed, FlightOk, SendData, Prepared, SenderOk, WithinFlight;
    var b := e.binding.value;
    PreparedKeeps(e.tx, b, now);
    SendDataKeeps(e.tx, b.(flight := Prepared(e.tx, b.flight, now)), now);
  }

  lemma HandleKeeps(e: Endpoint, raw: seq<byte>, now: nat)
    requires EndpointOk(e)
    ensures EndpointOk(Handle(e, raw, now).0)
  {
    hide WellFormed, FlightOk, Parse, HandleAck, Accept, Reconcile, SenderOk;
    if raw != [] && Live(e) {
      assert Parse(raw).Data? ==> |Parse(raw).payload| > 0 by { ParsedData(raw); }
      HandleParsedKeeps(Heard(e, now), Parse(raw), now);
    }
  }

  lemma HeardOk(e: Endpoint, now: nat)
    requires EndpointOk(e) && Live(e)
    ensures EndpointOk(Heard(e, now))
  {}

  lemma ParsedData(raw: seq<byte>)
    ensures Parse(raw).Data? ==> |Parse(raw).payload| > 0
  {}

  lemma HandleParsedKeeps(e: Endpoint, packet: Packet, now: nat)
    requires EndpointOk(e) && Live(e) && (packet.Data? ==> |packet.payload| > 0)
    ensures EndpointOk(HandleParsed(e, packet, now).0)
  {
    hide WellFormed, FlightOk, HandleAck, Accept, Reconcile, SenderOk;
    match packet
    case Data(start, payload) =>
      AcceptKeepsWindow(e.rx, e.config.replayWindow, start, payload);
    case Ack(expected) =>
      HandleAckKeeps(e.tx, e.binding.value, expected, now);
    case Hello(offer, known) =>
      ReconcileKeeps(e.tx, offer.expected, e.binding.value.flight);
    case _ =>
  }

  // Moving the base on alone leaves the position and the timer as they are.
  lemma ReconcileKeeps(tx: Sender, expected: nat, f: Flight)
    requires SenderOk(tx)
    ensures Reconcile(tx, expected).Err? <==> expected < tx.base || expected > tx.next
    ensures var r := Reconcile(tx, expected);
            r.Ok? ==> SenderOk(r.value) && r.value.next == tx.next && r.value.base == expected
                      && (FlightOk(tx, f) ==> FlightOk(r.value, f))
  {}

  lemma AttachKeeps(e: Endpoint, connMTU: int, mtu: int, now: nat)
    requires EndpointOk(e)
    ensures EndpointOk(Attach(e, connMTU, mtu, now))
    ensures !e.closed ==> WithinFlight(e.tx, Attach(e, connMTU, mtu, now).binding.value)
  {}

  lemma WriteKeeps(e: Endpoint, p: seq<byte>)
    requires EndpointOk(e) && |p| <= MAX_U64 - e.tx.next
    ensures EndpointOk(e.(tx := Append(e.tx, p)))
  {}

  lemma TakeKeeps(e: Endpoint, n: nat)
    requires EndpointOk(e) && n <= |e.rx.buf|
    ensures EndpointOk(Take(e, n))
  {}

  // A HELLO that a bound session takes.
  predicate TakesHello(e: Endpoint, offer: Offer, known: bool) {
    && e.pendingHello == Some(e.id) && known && offer.compression == e.config.compression
    && e.tx.base <= offer.expected <= e.tx.next
  }

  // What has to hold before a packet for the flight to stay in bounds: only a HELLO
  // asks for something, that what was sent fits its packet size.
  predicate FitsPacketSize(e: Endpoint, raw: seq<byte>)
    requires e.binding.Some?
  {
    match Parse(raw)
    case Hello(offer, known) =>
      var b := e.binding.value;
      TakesHello(e, offer, known) ==>
        b.flight.sendNext <= offer.expected + WindowBytes(Min(b.mtu, NormalizeMTU(offer.mtu)), b.flight.flightPackets)
    case _ => true
  }

  // The byte bound on the flight survives a packet exactly when that holds.
  lemma HandleKeepsFlight(e: Endpoint, raw: seq<byte>, now: nat)
    requires EndpointOk(e) && Live(e) && WithinFlight(e.tx, e.binding.value)
    ensures var e' := Handle(e, raw, now).0;
            e'.binding.Some? && (WithinFlight(e'.tx, e'.binding.value) <==> FitsPacketSize(e, raw))
  {
    hide WellFormed, FlightOk, Accept, HandleAck, Reconcile, SenderOk, Parse, WindowBytes;
    if raw != [] {
      var b := Heard(e, now).binding.value;
      match Parse(raw)
      case Ack(expected) => HandleAckKeeps(e.tx, b, expected, now);
      case Hello(offer, known) => ReconcileKeeps(e.tx, offer.expected, b.flight);
      case _ =>
    } else {
      ParsedEmpty(raw);
    }
  }

  lemma ParsedEmpty(raw: seq<byte>)
    requires raw == []
    ensures Parse(raw) == Empty
  {}

  // ---- The retransmission timer --------------------------------------------

  // The timer is set no later than one interval after the latest time seen.
  predicate TimerSoon(e: Endpoint, clock: nat) {
    e.binding.Some? ==> e.binding.value.flight.retransmitAt <= clock + RETRANSMIT_INTERVAL
  }

  lemma NextKeepsTimer(e: Endpoint, now: nat)
    requires Live(e) && TimerSoon(e, now)
    ensures TimerSoon(NextPacket(e, now).0, now)
  {
    hide WindowLimit, PayloadLimit, EncodeAck, EncodeData;
  }

  lemma HandleKeepsTimer(e: Endpoint, raw: seq<byte>, now: nat)
    requires TimerSoon(e, now)
    ensures TimerSoon(Handle(e, raw, now).0, now)
  {
    hide Accept, Reconcile, Parse, EncodeHelloAck, NormalizeMTU, Negotiate;
  }

  // ---- No lost retransmission ----------------------------------------------

  predicate NothingQueued(e: Endpoint, now: nat) {
    e.helloReply == [] && !e.pongDirty && !AckDue(e.ack, now)
  }

  // The timer has run out, or nothing unacknowledged was sent.
  predicate RetransmitDue(e: Endpoint, now: nat)
    requires e.binding.Some?
  {
    var f := e.binding.value.flight;
    f.sendNext <= e.tx.base || now >= f.retransmitAt
  }

  function FlightBytes(e: Endpoint, now: nat): nat
    requires e.binding.Some?
  {
    WindowBytes(e.binding.value.mtu, Prepared(e.tx, e.binding.value.flight, now).flightPackets)
  }

  // With bytes outstanding and the timer out, the oldest byte is sent again,
  // unless the window end wraps past the last 64-bit offset: then nothing is.
  lemma RetransmitsOldestUnlessWrapped(e: Endpoint, now: nat)
    requires EndpointOk(e) && Live(e) && NothingQueued(e, now)
    requires e.tx.base < e.tx.next && RetransmitDue(e, now)
    ensures var (e', packet) := NextPacket(e, now);
            var size := Min(PayloadLimit(e.binding.value.mtu), e.tx.next - e.tx.base);
            if e.tx.base + FlightBytes(e, now) <= MAX_U64
            then packet == Some(EncodeData(e.tx.base, e.tx.buf[..size])) && size >= 1
            else packet == None
  {
    hide WellFormed;
    var b := e.binding.value;
    var f := Prepared(e.tx, b.flight, now);
    assert f.sendNext == e.tx.base;
    WindowAtLeastOnePacket(PayloadLimit(b.mtu), f.flightPackets);
    SendOldest(e.tx, b.mtu, f, now);
  }

  lemma WindowAtLeastOnePacket(limit: nat, packets: nat)
    requires packets >= 1
    ensures limit * packets >= limit
  {}

  lemma SendOldest(tx: Sender, mtu: nat, f: Flight, now: nat)
    requires SenderOk(tx) && tx.base < tx.next && f.sendNext == tx.base
    requires MINIMUM_PACKET_MTU <= mtu <= MAXIMUM_PACKET_MTU
    requires INITIAL_FLIGHT_PACKETS <= f.flightPackets <= MAX_FLIGHT_PACKETS
    ensures var packet := SendData(tx, mtu, f, now).1;
            var size := Min(PayloadLimit(mtu), tx.next - tx.base);
            if tx.base + WindowBytes(mtu, f.flightPackets) <= MAX_U64
            then packet == Some(EncodeData(tx.base, tx.buf[..size]))
            else packet == None
  {
    var w := WindowBytes(mtu, f.flightPackets);
    WindowAtLeastOnePacket(PayloadLimit(mtu), f.flightPackets);
    assert w <= 235 * 128 by { ProductMonotone(PayloadLimit(mtu), f.flightPackets, 128); }
    if tx.base + w <= MAX_U64 {
      assert WrapAdd(tx.base, w) == tx.base + w;
    } else {
      assert WrapAdd(tx.base, w) == tx.base + w - (MAX_U64 + 1);
    }
  }

}
