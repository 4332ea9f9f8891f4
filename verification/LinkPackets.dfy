// The packets of the resumable link: their byte layout and how a receiver
// classifies a packet.
module LinkPackets {
  import opened Bytes

  const PROTOCOL_VERSION: byte := 3
  const HELLO_ID: byte := 1
  const HELLO: byte := 2
  const HELLO_ACK: byte := 3
  const DATA: byte := 4
  const ACK: byte := 5
  const PING: byte := 6
  const PONG: byte := 7
  const CLOSE: byte := 8
  const REJECT: byte := 9

  const MINIMUM_PACKET_MTU: nat := 20
  const MAXIMUM_PACKET_MTU: nat := 244
  const COMPRESSION: byte := 1

  // Durations are in nanoseconds.
  const MILLISECOND: nat := 1_000_000
  const MAX_MILLISECONDS: nat := 0xFFFF_FFFF

  type SessionID = s: seq<byte> | |s| == 16 witness seq(16, i => 0)

  datatype Config = Config(resumeTimeout: nat, replayWindow: nat, maxConnections: nat, compression: bool)

  datatype Option<T> = None | Some(value: T)

  datatype LinkError =
    | ErrHandshake
    | ErrProtocolVersion
    | ErrRejected
    | ErrCompression
    | ErrSessionState
    | ErrClosed
    | ErrSequenceExhausted
    | ErrConflictingReplay

  datatype Result<T> = Ok(value: T) | Err(error: LinkError)

  // The body of a HELLO or a HELLO_ACK: the next byte the sender of the packet
  // expects, and the limits it offers (the timeout in nanoseconds).
  datatype Offer = Offer(expected: nat, resumeTimeout: nat, maxConnections: nat, mtu: nat, compression: bool)

  datatype Packet =
    | Empty
    | Malformed
    | Ignored
    | HelloID(id: SessionID)
    | Hello(offer: Offer, known: bool)
    | Data(start: nat, payload: seq<byte>)
    | Ack(expected: nat)
    | Ping
    | Pong
    | Close
    | Reject

  function DurationMilliseconds(d: nat): (ms: nat)
    ensures 1 <= ms <= MAX_MILLISECONDS
  {
    var ms := d / MILLISECOND;
    if ms <= 0 then 1 else if ms > MAX_MILLISECONDS then MAX_MILLISECONDS else ms
  }

  function NormalizeMTU(mtu: int): (n: nat)
    ensures MINIMUM_PACKET_MTU <= n <= MAXIMUM_PACKET_MTU
    ensures MINIMUM_PACKET_MTU <= mtu <= MAXIMUM_PACKET_MTU ==> n == mtu
  {
    if mtu < MINIMUM_PACKET_MTU then MINIMUM_PACKET_MTU
    else if mtu > MAXIMUM_PACKET_MTU then MAXIMUM_PACKET_MTU
    else mtu
  }

  // ---- Encoding ------------------------------------------------------------

  function EncodeData(start: nat, payload: seq<byte>): seq<byte> {
    [DATA] + BigEndian(start, 8) + payload
  }

  function EncodeAck(expected: nat): seq<byte> {
    [ACK] + BigEndian(expected, 8)
  }

  function EncodeHelloID(id: SessionID): seq<byte> {
    [HELLO_ID, PROTOCOL_VERSION] + id
  }

  // The capability byte is omitted when zero.
  function Capabilities(compression: bool): seq<byte> {
    if compression then [COMPRESSION] else []
  }

  function EncodeOffer(expected: nat, config: Config, packetMTU: int): seq<byte> {
    BigEndian(expected, 8) + BigEndian(DurationMilliseconds(config.resumeTimeout), 4)
    + BigEndian(config.maxConnections, 2) + BigEndian(NormalizeMTU(packetMTU), 2)
    + Capabilities(config.compression)
  }

  function EncodeHello(expected: nat, config: Config, packetMTU: int): seq<byte> {
    [HELLO] + EncodeOffer(expected, config, packetMTU)
  }

  function EncodeHelloAck(expected: nat, config: Config, packetMTU: int): seq<byte> {
    [HELLO_ACK, PROTOCOL_VERSION] + EncodeOffer(expected, config, packetMTU)
  }

  // ---- Decoding ------------------------------------------------------------

  // The body shared by HELLO and HELLO_ACK, and whether its capability byte has
  // known bits only.
  function DecodeOffer(body: seq<byte>): (Offer, bool)
    requires |body| == 16 || |body| == 17
  {
    var flags := if |body| == 17 then body[16] else 0;
    (Offer(FromBigEndian(body[..8]), FromBigEndian(body[8..12]) * MILLISECOND, FromBigEndian(body[12..14]),
           FromBigEndian(body[14..16]), flags % 2 == 1),
     flags <= COMPRESSION)
  }

  // How a bound session reads a packet. HELLO_ACK is not among its cases.
  function Parse(raw: seq<byte>): Packet {
    if raw == [] then Empty
    else if raw[0] == DATA then
      if |raw| <= 9 then Malformed else Data(FromBigEndian(raw[1..9]), raw[9..])
    else if raw[0] == ACK then
      if |raw| != 9 then Malformed else Ack(FromBigEndian(raw[1..9]))
    else if raw[0] == PING then
      if |raw| != 1 then Malformed else Ping
    else if raw[0] == PONG then
      if |raw| != 1 then Malformed else Pong
    else if raw[0] == CLOSE then Close
    else if raw[0] == HELLO_ID then
      if |raw| == 18 && raw[1] == PROTOCOL_VERSION then HelloID(raw[2..]) else Ignored
    else if raw[0] == HELLO then
      if |raw| == 17 || |raw| == 18 then
        var (offer, known) := DecodeOffer(raw[1..]);
        Hello(offer, known)
      else Ignored
    else if raw[0] == REJECT then Reject
    else Malformed
  }

  // An offer both ends can work with.
  predicate Usable(offer: Offer) {
    offer.resumeTimeout > 0 && offer.maxConnections > 0 && offer.mtu >= MINIMUM_PACKET_MTU
  }

  function DecodeHelloAck(raw: seq<byte>): Result<Offer> {
    if (|raw| != 18 && |raw| != 19) || raw[0] != HELLO_ACK then Err(ErrHandshake)
    else if raw[1] != PROTOCOL_VERSION then Err(ErrProtocolVersion)
    else
      var (offer, known) := DecodeOffer(raw[2..]);
      if !known || !Usable(offer) then Err(ErrHandshake) else Ok(offer)
  }

  // ---- Decoding inverts encoding -------------------------------------------

  // What an encoded offer says once decoded.
  function Announced(expected: nat, config: Config, packetMTU: int): Offer {
    Offer(expected, DurationMilliseconds(config.resumeTimeout) * MILLISECOND, config.maxConnections,
          NormalizeMTU(packetMTU), config.compression)
  }

  lemma OfferRoundTrip(expected: nat, config: Config, packetMTU: int)
    requires expected <= MAX_U64 && config.maxConnections <= 0xFFFF
    ensures var body := EncodeOffer(expected, config, packetMTU);
            (|body| == 16 || |body| == 17) && DecodeOffer(body) == (Announced(expected, config, packetMTU), true)
  {
    Widths();
    var body := EncodeOffer(expected, config, packetMTU);
    assert body[..8] == BigEndian(expected, 8);
    assert body[8..12] == BigEndian(DurationMilliseconds(config.resumeTimeout), 4);
    assert body[12..14] == BigEndian(config.maxConnections, 2);
    assert body[14..16] == BigEndian(NormalizeMTU(packetMTU), 2);
    DecodeInvertsEncode(expected, 8);
    DecodeInvertsEncode(DurationMilliseconds(config.resumeTimeout), 4);
    DecodeInvertsEncode(config.maxConnections, 2);
    DecodeInvertsEncode(NormalizeMTU(packetMTU), 2);
  }

  // The fields stand where docs/protocol.md puts them: type 2, or type 3 and the
  // version, then offset, milliseconds, streams, packet size, and a capability byte
  // exactly if there is a capability.
  lemma GreetingLayout(expected: nat, config: Config, packetMTU: int)
    requires expected <= MAX_U64 && config.maxConnections <= 0xFFFF
    ensures var hello, ack := EncodeHello(expected, config, packetMTU), EncodeHelloAck(expected, config, packetMTU);
            && |hello| == (if config.compression then 18 else 17) && |ack| == |hello| + 1
            && hello[0] == 2 && ack[0] == 3 && ack[1] == 3 && ack[2..] == hello[1..]
            && FromBigEndian(hello[1..9]) == expected
            && FromBigEndian(hello[9..13]) == DurationMilliseconds(config.resumeTimeout)
            && FromBigEndian(hello[13..15]) == config.maxConnections
            && FromBigEndian(hello[15..17]) == NormalizeMTU(packetMTU)
            && (config.compression ==> hello[17] == 1)
  {
    hide DurationMilliseconds, NormalizeMTU;
    Widths();
    var body, hello := EncodeOffer(expected, config, packetMTU), EncodeHello(expected, config, packetMTU);
    assert hello[1..] == body && EncodeHelloAck(expected, config, packetMTU)[2..] == body;
    assert hello[1..9] == BigEndian(expected, 8);
    assert hello[9..13] == BigEndian(DurationMilliseconds(config.resumeTimeout), 4);
    assert hello[13..15] == BigEndian(config.maxConnections, 2);
    assert hello[15..17] == BigEndian(NormalizeMTU(packetMTU), 2);
    DecodeInvertsEncode(expected, 8);
    DecodeInvertsEncode(DurationMilliseconds(config.resumeTimeout), 4);
    DecodeInvertsEncode(config.maxConnections, 2);
    DecodeInvertsEncode(NormalizeMTU(packetMTU), 2);
  }

  lemma DataRoundTrip(start: nat, payload: seq<byte>)
    requires start <= MAX_U64 && payload != []
    ensures Parse(EncodeData(start, payload)) == Data(start, payload)
  {
    Widths();
    DecodeInvertsEncode(start, 8);
    assert EncodeData(start, payload)[1..9] == BigEndian(start, 8);
  }

  lemma AckRoundTrip(expected: nat)
    requires expected <= MAX_U64
    ensures Parse(EncodeAck(expected)) == Ack(expected)
  {
    Widths();
    DecodeInvertsEncode(expected, 8);
    assert EncodeAck(expected)[1..9] == BigEndian(expected, 8);
  }

  lemma HelloRoundTrip(expected: nat, config: Config, packetMTU: int)
    requires expected <= MAX_U64 && config.maxConnections <= 0xFFFF
    ensures Parse(EncodeHello(expected, config, packetMTU)) == Hello(Announced(expected, config, packetMTU), true)
  {
    OfferRoundTrip(expected, config, packetMTU);
    assert EncodeHello(expected, config, packetMTU)[1..] == EncodeOffer(expected, config, packetMTU);
  }

  lemma HelloIDRoundTrip(id: SessionID)
    ensures Parse(EncodeHelloID(id)) == HelloID(id)
  {
    assert EncodeHelloID(id)[2..] == id;
  }

  // A handshake reply decodes to its offer; a bound session does not accept it.
  lemma HelloAckRoundTrip(expected: nat, config: Config, packetMTU: int)
    requires expected <= MAX_U64 && 0 < config.maxConnections <= 0xFFFF
    ensures DecodeHelloAck(EncodeHelloAck(expected, config, packetMTU)) == Ok(Announced(expected, config, packetMTU))
    ensures Parse(EncodeHelloAck(expected, config, packetMTU)) == Malformed
  {
    OfferRoundTrip(expected, config, packetMTU);
    assert EncodeHelloAck(expected, config, packetMTU)[2..] == EncodeOffer(expected, config, packetMTU);
  }

}
