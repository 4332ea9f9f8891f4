// The bootstrap packets: filling their buffers, reading a greeting from a new
// connection, and the agreement one exchange reaches.
module Handshake {
  import opened Bytes
  import opened LinkPackets
  import opened LinkEndpoint
  import opened LinkInvariants

  // ---- Filling packet buffers ----------------------------------------------

  method PutUint(a: array<byte>, offset: nat, width: nat, value: nat)
    requires offset + width <= a.Length
    modifies a
    ensures a[offset..offset + width] == BigEndian(value, width)
    ensures forall j :: 0 <= j < a.Length && !(offset <= j < offset + width) ==> a[j] == old(a[j])
  {
    var i, v := width, value;
    while i > 0
      invariant 0 <= i <= width
      invariant BigEndian(value, width) == BigEndian(v, i) + a[offset + i..offset + width]
      invariant forall j :: 0 <= j < a.Length && !(offset <= j < offset + width) ==> a[j] == old(a[j])
    {
      ghost var done := a[offset + i..offset + width];
      i := i - 1;
      a[offset + i] := v % 256;
      assert a[offset + i..offset + width] == [v % 256] + done;
      v := v / 256;
    }
  }

  method FillOffer(packet: array<byte>, at: nat, expected: nat, config: Config, packetMTU: int)
    requires packet.Length == at + 16 + |Capabilities(config.compression)|
    modifies packet
    ensures packet[at..] == EncodeOffer(expected, config, packetMTU)
    ensures packet[..at] == old(packet[..at])
  {
    hide BigEndian, DurationMilliseconds, NormalizeMTU;
    PutUint(packet, at, 8, expected);
    PutUint(packet, at + 8, 4, DurationMilliseconds(config.resumeTimeout));
    assert packet[at..at + 8] == BigEndian(expected, 8);
    PutUint(packet, at + 12, 2, config.maxConnections);
    assert packet[at..at + 8] == BigEndian(expected, 8);
    assert packet[at + 8..at + 12] == BigEndian(DurationMilliseconds(config.resumeTimeout), 4);
    PutUint(packet, at + 14, 2, NormalizeMTU(packetMTU));
    assert packet[at..at + 8] == BigEndian(expected, 8);
    assert packet[at + 8..at + 12] == BigEndian(DurationMilliseconds(config.resumeTimeout), 4);
    assert packet[at + 12..at + 14] == BigEndian(config.maxConnections, 2);
    FourFields(packet[..], at);
    PutCapability(packet, at + 16, config.compression);
  }

  lemma FourFields(s: seq<byte>, at: nat)
    requires at + 16 <= |s|
    ensures s[at..at + 16] == s[at..at + 8] + s[at + 8..at + 12] + s[at + 12..at + 14] + s[at + 14..at + 16]
  {
    assert s[at..at + 16] == s[at..at + 14] + s[at + 14..at + 16];
    assert s[at..at + 14] == s[at..at + 12] + s[at + 12..at + 14];
  }

  // The last byte of a packet, if it has one for capabilities.
  method PutCapability(packet: array<byte>, end: nat, compression: bool)
    requires packet.Length == end + |Capabilities(compression)|
    modifies packet
    ensures packet[..end] == old(packet[..end]) && packet[..] == packet[..end] + Capabilities(compression)
    ensures forall from :: 0 <= from <= end ==> packet[from..] == old(packet[from..end]) + Capabilities(compression)
  {
    if compression {
      packet[end] := COMPRESSION;
    }
  }

  method MakeHello(expected: nat, config: Config, packetMTU: int) returns (packet: array<byte>)
    ensures fresh(packet) && packet[..] == EncodeHello(expected, config, packetMTU)
  {
    var length := 17;
    if config.compression {
      length := length + 1;
    }
    packet := new byte[length](_ => 0);
    packet[0] := HELLO;
    assert packet[..1] == [HELLO];
    FillOffer(packet, 1, expected, config, packetMTU);
    assert packet[..] == packet[..1] + packet[1..];
  }

  method MakeHelloAck(expected: nat, config: Config, packetMTU: int) returns (packet: array<byte>)
    ensures fresh(packet) && packet[..] == EncodeHelloAck(expected, config, packetMTU)
  {
    var length := 18;
    if config.compression {
      length := length + 1;
    }
    packet := new byte[length](_ => 0);
    packet[0] := HELLO_ACK;
    packet[1] := PROTOCOL_VERSION;
    assert packet[..2] == [HELLO_ACK, PROTOCOL_VERSION];
    FillOffer(packet, 2, expected, config, packetMTU);
    assert packet[..] == packet[..2] + packet[2..];
  }

  // ---- Reading a greeting --------------------------------------------------

  datatype Greeting = Greeted(id: SessionID, offer: Offer) | Failed(error: LinkError) | ConnectionClosed

  // The effect of one packet while waiting for a greeting: the session id read
  // so far, or the outcome.
  function Listen(id: Option<SessionID>, packet: seq<byte>): (Option<SessionID>, Option<Greeting>) {
    if packet == [] then (id, None)
    else if packet[0] == HELLO_ID then
      if |packet| != 18 then (id, None)
      else if packet[1] != PROTOCOL_VERSION then (id, Some(Failed(ErrProtocolVersion)))
      else (Some(packet[2..]), None)
    else if packet[0] == HELLO then
      if id.None? || (|packet| != 17 && |packet| != 18) then (id, None)
      else
        var (offer, known) := DecodeOffer(packet[1..]);
        if !known || !Usable(offer) then (id, Some(Failed(ErrHandshake)))
        else (id, Some(Greeted(id.value, offer)))
    else (id, None)
  }

  // The packets of a connection in order, until it closes.
  function Scan(id: Option<SessionID>, packets: seq<seq<byte>>): Greeting
    decreases |packets|
  {
    if packets == [] then ConnectionClosed
    else
      var (id', outcome) := Listen(id, packets[0]);
      if outcome.Some? then outcome.value else Scan(id', packets[1..])
  }

  method ReadHello(packets: seq<seq<byte>>) returns (greeting: Greeting)
    ensures greeting == Scan(None, packets)
  {
    var id: SessionID, haveID := seq(16, i => 0), false;
    var i := 0;
    assert packets[0..] == packets;
    while i < |packets|
      invariant 0 <= i <= |packets|
      invariant Scan(None, packets) == Scan(if haveID then Some(id) else None, packets[i..])
    {
      var packet := packets[i];
      assert packets[i..][0] == packet && packets[i..][1..] == packets[i + 1..];
      i := i + 1;
      if |packet| == 0 {
        continue;
      }
      if packet[0] == HELLO_ID {
        if |packet| != 18 {
          continue;
        }
        if packet[1] != PROTOCOL_VERSION {
          return Failed(ErrProtocolVersion);
        }
        id, haveID := packet[2..], true;
      } else if packet[0] == HELLO {
        if !haveID || (|packet| != 17 && |packet| != 18) {
          continue;
        }
        var (offer, known) := DecodeOffer(packet[1..]);
        if !known || !Usable(offer) {
          return Failed(ErrHandshake);
        }
        return Greeted(id, offer);
      }
    }
    greeting := ConnectionClosed;
  }

  // A packet that names a session, in this version or another, and one that asks.
  predicate Names(packet: seq<byte>) {
    |packet| == 18 && packet[0] == HELLO_ID && packet[1] == PROTOCOL_VERSION
  }

  predicate Foreign(packet: seq<byte>) {
    |packet| == 18 && packet[0] == HELLO_ID && packet[1] != PROTOCOL_VERSION
  }

  predicate Asks(packet: seq<byte>) {
    (|packet| == 17 || |packet| == 18) && packet[0] == HELLO
  }

  // Where the last session named among the first i packets stands.
  predicate LastNamed(packets: seq<seq<byte>>, i: nat, j: nat) {
    j < i <= |packets| && Names(packets[j]) && forall k :: j < k < i ==> !Names(packets[k])
  }

  predicate NoneNamed(packets: seq<seq<byte>>, i: nat) {
    i <= |packets| && forall k :: 0 <= k < i ==> !Names(packets[k])
  }

  // The packet at which a greeting is over: one of another version, or one that asks
  // once a session has been named.
  predicate Decides(packets: seq<seq<byte>>, i: nat) {
    i < |packets| && (Foreign(packets[i]) || (Asks(packets[i]) && !NoneNamed(packets, i)))
  }

  predicate Undecided(packets: seq<seq<byte>>, i: nat) {
    i <= |packets| && forall k :: 0 <= k < i ==> !Decides(packets, k)
  }

  // What has been read after i packets that decide nothing: the last name.
  lemma {:induction false} ScanSoFar(packets: seq<seq<byte>>, i: nat) returns (id: Option<SessionID>, j: nat)
    requires Undecided(packets, i)
    ensures Scan(None, packets) == Scan(id, packets[i..])
    ensures id.None? ==> NoneNamed(packets, i)
    ensures id.Some? ==> LastNamed(packets, i, j) && id.value == packets[j][2..]
    decreases i
  {
    if i == 0 {
      id, j := None, 0;
      assert packets[0..] == packets;
    } else {
      id, j := ScanSoFar(packets, i - 1);
      var packet := packets[i - 1];
      assert packets[i - 1..][0] == packet && packets[i - 1..][1..] == packets[i..];
      assert !Decides(packets, i - 1);
      if id.Some? { assert !NoneNamed(packets, i - 1); }
      if Names(packet) {
        var name: SessionID := packet[2..];
        id, j := Some(name), i - 1;
      }
    }
  }

  // A greeting ends with the first packet that decides, for the session named last
  // before it; all that is the wrong size or type, or asks too early, is passed over.
  lemma GreetingIsDecided(packets: seq<seq<byte>>, i: nat)
    requires Undecided(packets, i)
    ensures i == |packets| ==> Scan(None, packets) == ConnectionClosed
    ensures i < |packets| && Foreign(packets[i]) ==> Scan(None, packets) == Failed(ErrProtocolVersion)
    ensures Decides(packets, i) && Asks(packets[i]) ==>
              var (offer, known) := DecodeOffer(packets[i][1..]);
              if known && Usable(offer) then exists j: nat :: LastNamed(packets, i, j) && Scan(None, packets) == Greeted(packets[j][2..], offer)
              else Scan(None, packets) == Failed(ErrHandshake)
  {
    var id, j := ScanSoFar(packets, i);
    if i < |packets| {
      assert packets[i..][0] == packets[i];
      if Asks(packets[i]) && Decides(packets, i) { assert id.Some?; }
    }
  }

  // Packets of any other type are passed over.
  predicate Noise(packets: seq<seq<byte>>) {
    forall i :: 0 <= i < |packets| ==> packets[i] == [] || (packets[i][0] != HELLO_ID && packets[i][0] != HELLO)
  }

  lemma {:induction false} NoisePassesOver(id: Option<SessionID>, noise: seq<seq<byte>>, rest: seq<seq<byte>>)
    requires Noise(noise)
    ensures Scan(id, noise + rest) == Scan(id, rest)
    decreases |noise|
  {
    if noise == [] {
      assert noise + rest == rest;
    } else {
      assert (noise + rest)[1..] == noise[1..] + rest;
      NoisePassesOver(id, noise[1..], rest);
    }
  }

  // A client's two packets are read as what it said, whatever other packets
  // precede and separate them and whatever follows.
  lemma GreetingIsHeard(id: SessionID, expected: nat, config: Config, packetMTU: int,
                        before: seq<seq<byte>>, between: seq<seq<byte>>, after: seq<seq<byte>>)
    requires expected <= MAX_U64 && ConfigOk(config) && Noise(before) && Noise(between)
    ensures Scan(None, before + ([EncodeHelloID(id)] + (between + ([EncodeHello(expected, config, packetMTU)] + after))))
         == Greeted(id, Announced(expected, config, packetMTU))
  {
    var hello := EncodeHello(expected, config, packetMTU);
    var tail := [hello] + after;
    var middle := [EncodeHelloID(id)] + (between + tail);
    NoisePassesOver(None, before, middle);
    assert EncodeHelloID(id)[2..] == id;
    assert middle[1..] == between + tail;
    NoisePassesOver(Some(id), between, tail);
    OfferRoundTrip(expected, config, packetMTU);
    assert hello[1..] == EncodeOffer(expected, config, packetMTU);
  }

  // ---- Agreement -----------------------------------------------------------

  // Both ends take the smaller offer; a timeout crosses the wire in whole
  // milliseconds, clamped to 1..2^32-1.
  lemma TimeoutsAgree(client: nat, server: nat)
    requires client > 0 && server > 0
    ensures var asked := DurationMilliseconds(client) * MILLISECOND;
            var s := if asked < server then asked else server;
            var told := DurationMilliseconds(s) * MILLISECOND;
            var c := if told < client then told else client;
            c < s + MILLISECOND && s < c + MILLISECOND && 0 < s <= server && 0 < c <= client
  {}

  function WireOffer(raw: seq<byte>): Offer
    requires Parse(raw).Hello?
  {
    Parse(raw).offer
  }

  // After one exchange over the wire both ends hold the same packet size,
  // stream limit and compression, timeouts less than a millisecond apart, and
  // no limit above what either held before.
  lemma NegotiationAgrees(c: Endpoint, s: Endpoint, clientMTU: int, serverMTU: int, now: nat)
    requires ConfigOk(c.config) && ConfigOk(s.config) && c.id == s.id && c.config.compression == s.config.compression
    requires SenderOk(c.tx) && SenderOk(s.tx) && !c.closed && !s.closed
    requires s.tx.base <= c.rx.next <= s.tx.next && c.tx.base <= s.rx.next <= c.tx.next
    ensures var hello := EncodeHello(c.rx.next, c.config, clientMTU);
            && Parse(hello).Hello? && Usable(WireOffer(hello))
            && var welcomed := Welcome(s, c.id, WireOffer(hello), serverMTU);
               && welcomed.Ok?
               && var (s', reply, mtu) := welcomed.value;
                  && DecodeHelloAck(reply).Ok?
                  && var resumed := Resume(c, c.config.compression, DecodeHelloAck(reply).value, clientMTU);
                     && resumed.Ok?
                     && var (c', mtu') := resumed.value;
                        Agreed(c.config, s.config, c'.config, s'.config)
                        && Attach(c', clientMTU, mtu', now).binding.value.mtu
                           == Attach(s', serverMTU, mtu, now).binding.value.mtu
                           == Min(NormalizeMTU(clientMTU), NormalizeMTU(serverMTU))
  {
    hide EncodeHello, EncodeHelloAck, DecodeHelloAck, Parse, Reconcile, DurationMilliseconds;
    HelloRoundTrip(c.rx.next, c.config, clientMTU);
    var offer := Announced(c.rx.next, c.config, clientMTU);
    ReconcileKeeps(s.tx, offer.expected, Flight(0, 0, 0, 0));
    var mtu := Min(NormalizeMTU(serverMTU), NormalizeMTU(offer.mtu));
    var config := Negotiate(s.config, offer);
    HelloAckRoundTrip(s.rx.next, config, mtu);
    ReconcileKeeps(c.tx, s.rx.next, Flight(0, 0, 0, 0));
    TimeoutsAgree(c.config.resumeTimeout, s.config.resumeTimeout);
  }

  // So it is when the server is still bound and hears the two packets of the greeting on
  // that binding: its reply, queued, brings both to the same limits and the same packet size, and
  // the greeting is used up.
  lemma LiveNegotiationAgrees(c: Endpoint, s: Endpoint, clientMTU: int, now: nat)
    requires ConfigOk(c.config) && ConfigOk(s.config) && c.id == s.id && c.config.compression == s.config.compression
    requires SenderOk(c.tx) && EndpointOk(s) && !c.closed && Live(s)
    requires s.tx.base <= c.rx.next <= s.tx.next && c.tx.base <= s.rx.next <= c.tx.next
    ensures var hello := EncodeHello(c.rx.next, c.config, clientMTU);
            && Parse(hello).Hello?
            && var named := Handle(s, EncodeHelloID(c.id), now).0;
            && var (s', error) := Handle(named, hello, now);
               && error == None && Live(s') && s'.pendingHello == None && DecodeHelloAck(s'.helloReply).Ok?
               && s'.tx.base == c.rx.next && s'.binding.value.flight == s.binding.value.flight
               && var resumed := Resume(c, c.config.compression, DecodeHelloAck(s'.helloReply).value, clientMTU);
                  && resumed.Ok?
                  && var (c', mtu) := resumed.value;
                     && Agreed(c.config, s.config, c'.config, s'.config) && c'.tx.base == s.rx.next
                     && Attach(c', clientMTU, mtu, now).binding.value.mtu == s'.binding.value.mtu
                        == Min(NormalizeMTU(clientMTU), s.binding.value.mtu)
  {
    hide EncodeHello, EncodeHelloID, EncodeHelloAck, DecodeHelloAck, Parse, Reconcile, DurationMilliseconds, FlightOk;
    NameIsKept(s, c.id, now);
    HelloRoundTrip(c.rx.next, c.config, clientMTU);
    assert EncodeHello(c.rx.next, c.config, clientMTU) != [] by { HelloNotEmpty(c.rx.next, c.config, clientMTU); }
    var offer := Announced(c.rx.next, c.config, clientMTU);
    ReconcileKeeps(s.tx, offer.expected, Flight(0, 0, 0, 0));
    var mtu := Min(s.binding.value.mtu, NormalizeMTU(offer.mtu));
    HelloAckRoundTrip(s.rx.next, Negotiate(s.config, offer), mtu);
    ReconcileKeeps(c.tx, s.rx.next, Flight(0, 0, 0, 0));
    TimeoutsAgree(c.config.resumeTimeout, s.config.resumeTimeout);
  }

  lemma NameIsKept(s: Endpoint, id: SessionID, now: nat)
    requires Live(s)
    ensures Handle(s, EncodeHelloID(id), now) == (Heard(s, now).(pendingHello := Some(id)), None)
  {
    HelloIDRoundTrip(id);
    assert EncodeHelloID(id) != [];
  }

  lemma HelloNotEmpty(expected: nat, config: Config, packetMTU: int)
    ensures EncodeHello(expected, config, packetMTU) != []
  {}

  predicate Agreed(c: Config, s: Config, c': Config, s': Config) {
    && c'.maxConnections == s'.maxConnections == Min(c.maxConnections, s.maxConnections)
    && c'.compression == s'.compression
    && c'.resumeTimeout < s'.resumeTimeout + MILLISECOND && s'.resumeTimeout < c'.resumeTimeout + MILLISECOND
    && 0 < c'.resumeTimeout <= c.resumeTimeout && 0 < s'.resumeTimeout <= s.resumeTimeout
  }

  // Renegotiation, from any offer, never raises a limit and keeps them valid.
  lemma NegotiationNeverRaises(config: Config, peer: Offer)
    requires ConfigOk(config)
    ensures var n := Negotiate(config, peer);
            && ConfigOk(n) && n.replayWindow == config.replayWindow
            && n.resumeTimeout <= config.resumeTimeout && n.maxConnections <= config.maxConnections
            && (n.compression ==> config.compression)
            && Negotiate(n, peer) == n
  {}

}
