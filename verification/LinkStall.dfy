// A receive window is not negotiated. When the oldest packet a sender can make is
// larger than its peer's window, the packet is refused for ever; when it is not, a
// round trip gets it through.
module LinkStall {
  import opened Bytes
  import opened Reassembly
  import opened LinkPackets
  import opened LinkEndpoint
  import opened LinkInvariants
  import opened LinkSystem
  import opened LinkProgress
  import Heartbeat

  function Window(y: System, side: Side): nat {
    At(y, Other(side)).e.config.replayWindow
  }

  // Packets of the current binding, if any, can carry more than the window.
  predicate Wide(y: System, side: Side) {
    At(y, side).e.binding.Some? ==> PayloadLimit(At(y, side).e.binding.value.mtu) > Window(y, side)
  }

  ghost predicate WideThroughout(y: System, actions: seq<Action>, side: Side)
    decreases |actions|
  {
    actions != [] ==> WideThroughout(y, actions[..|actions| - 1], side) && Wide(Run(y, actions), side)
  }

  // A packet that holds the byte at k reaches beyond the window from there.
  predicate Oversized(raw: seq<byte>, k: nat, window: nat) {
    Parse(raw).Data? ==>
      var start, end := Parse(raw).start, Parse(raw).start + |Parse(raw).payload|;
      start <= k < end ==> end > k + window
  }

  // All that was received is acknowledged, more than a window is outstanding, and
  // every packet with the next byte is too large.
  ghost predicate Stuck(y: System, side: Side) {
    var x, k := At(y, side), At(y, Other(side)).e.rx.next;
    && x.e.tx.base == k && x.e.tx.next > k + Window(y, side)
    && Wide(y, side)
    && !Parse(x.e.helloReply).Data?
    && forall m :: m in Sent(y, side) ==> Oversized(m.raw, k, Window(y, side))
  }

  // ---- The receiver does not move ------------------------------------------

  lemma OversizedRefused(r: Receiver, window: nat, start: nat, payload: seq<byte>)
    requires start <= r.next < start + |payload| ==> start + |payload| > r.next + window
    ensures Accept(r, window, start, payload).0.next == r.next
  {}

  lemma HandleOversized(e: Endpoint, raw: seq<byte>, now: nat)
    requires Oversized(raw, e.rx.next, e.config.replayWindow)
    ensures var e' := Handle(e, raw, now).0;
            e'.rx.next == e.rx.next && e'.config.replayWindow == e.config.replayWindow
  {
    hide Parse, Accept, Reconcile, LinkEndpoint.HandleAck, AckAfter, EncodeHelloAck, NormalizeMTU;
    if Parse(raw).Data? {
      OversizedRefused(e.rx, e.config.replayWindow, Parse(raw).start, Parse(raw).payload);
    }
  }

  lemma HandleKeepsReply(e: Endpoint, raw: seq<byte>, now: nat)
    requires EndpointOk(e) && !Parse(e.helloReply).Data?
    ensures !Parse(Handle(e, raw, now).0.helloReply).Data?
  {
    hide Parse, Accept, Reconcile, LinkEndpoint.HandleAck, AckAfter, EncodeHelloAck, NormalizeMTU, WellFormed, SenderOk;
    match Parse(raw)
    case Hello(offer, known) =>
      if Live(e) && e.rx.next <= MAX_U64 {
        ReceiverInRange(e);
        var mtu := Min(e.binding.value.mtu, NormalizeMTU(offer.mtu));
        HelloAckRoundTrip(e.rx.next, Negotiate(e.config, offer), mtu);
      } else { ReceiverInRange(e); }
    case _ =>
  }

  lemma ReceiverInRange(e: Endpoint)
    requires EndpointOk(e)
    ensures e.rx.next <= MAX_U64
  {}

  // ---- The sender sends only what is too large -----------------------------

  lemma EmitsOversized(e: Endpoint, now: nat, k: nat, window: nat)
    requires EndpointOk(e) && Live(e) && e.tx.base == k && e.tx.next > k + window
    requires PayloadLimit(e.binding.value.mtu) > window && !Parse(e.helloReply).Data?
    ensures var (e', packet) := NextPacket(e, now);
            && (packet.Some? ==> Oversized(packet.value, k, window))
            && (e'.helloReply == e.helloReply || e'.helloReply == [])
  {
    hide Parse, WellFormed, Prepared, SendData, EncodeAck, EncodeData;
    Harmless(e);
    var b := e.binding.value;
    PreparedKeeps(e.tx, b, now);
    var f := Prepared(e.tx, b.flight, now);
    SendDataKeeps(e.tx, b.(flight := f), now);
    DataOversized(e.tx, b.mtu, f, now, window);
  }

  lemma Harmless(e: Endpoint)
    requires EndpointOk(e)
    ensures Parse([]) == Empty && !Parse([PONG]).Data? && !Parse(EncodeAck(e.rx.next)).Data?
  {
    AckRoundTrip(e.rx.next);
  }

  lemma DataOversized(tx: Sender, mtu: nat, f: Flight, now: nat, window: nat)
    requires SenderOk(tx) && tx.base <= f.sendNext <= tx.next && tx.next > tx.base + window
    requires PayloadLimit(mtu) > window && mtu <= MAXIMUM_PACKET_MTU
    requires INITIAL_FLIGHT_PACKETS <= f.flightPackets <= MAX_FLIGHT_PACKETS
    ensures var packet := SendData(tx, mtu, f, now).1;
            packet.Some? ==> Oversized(packet.value, tx.base, window)
  {
    hide EncodeData, Parse, WrapAdd;
    var (f', packet) := SendData(tx, mtu, f, now);
    if packet.Some? {
      var payload := tx.buf[f.sendNext - tx.base..f'.sendNext - tx.base];
      assert packet.value == EncodeData(f.sendNext, payload);
      DataRoundTrip(f.sendNext, payload);
      if f.sendNext == tx.base {
        WindowAtLeastOnePacket(PayloadLimit(mtu), f.flightPackets);
        ProductMonotone(PayloadLimit(mtu), f.flightPackets, MAX_FLIGHT_PACKETS);
        WrapOrNot(tx.base, WindowBytes(mtu, f.flightPackets));
      }
    }
  }

  // A sum in 64 bits is the sum, or less than either part.
  lemma WrapOrNot(a: nat, b: nat)
    requires a <= MAX_U64
    ensures WrapAdd(a, b) == a + b || WrapAdd(a, b) < a || b > MAX_U64
  {
    if a + b > MAX_U64 && b <= MAX_U64 {
      assert WrapAdd(a, b) == a + b - (MAX_U64 + 1);
    }
  }

  // ---- Every step ----------------------------------------------------------

  // What a step leaves of an end's part: its replies and packets are not DATA that
  // fits, and its peer's contiguous offset and window stay.
  ghost predicate Stays(y: System, y': System, side: Side) {
    var k := At(y, Other(side)).e.rx.next;
    && At(y', Other(side)).e.rx.next == k && Window(y', side) == Window(y, side)
    && !Parse(At(y', side).e.helloReply).Data?
    && forall m :: m in Sent(y', side) ==> Oversized(m.raw, k, Window(y, side))
  }

  lemma StepStays(y: System, a: Action, side: Side)
    requires Inv(y) && Stuck(y, side)
    ensures Stays(y, Step(y, a), side)
  {
    hide Inv, Stays, Stuck, EndpointOk, Retains, SenderOk, StepEmit, StepDeliver, StepHello, StepWelcome, StepResume, Attach, Detach, Shut;
    hide WriteNode, ReadNode, StepBeat, StepProbed;
    EndsOk(y, Client);
    EndsOk(y, Server);
    match a
    case Emit(which, now) => EmitStays(y, which, now, side);
    case Beat(which, now) => BeatStays(y, a, side);
    case Probed(which, _, _, _) => BeatStays(y, a, side);
    case Deliver(to, m, now) => DeliverStays(y, to, m, now, side);
    case SayHello(connMTU) => HelloStays(y, connMTU, side);
    case WelcomeHello(m, connMTU) => WelcomeStays(y, m, connMTU, side);
    case ResumeReply(m, compression, connMTU) => ResumeStays(y, m, compression, connMTU, side);
    case AttachSide(_, connMTU, mtu, now) => AttachStays(y, a, side);
    case DetachSide(_) => AttachStays(y, a, side);
    case CloseSide(_) => AttachStays(y, a, side);
    case Write(_, _) => AppStays(y, a, side);
    case Read(_, _) => AppStays(y, a, side);
  }

  lemma AppStays(y: System, a: Action, side: Side)
    requires Stuck(y, side) && (a.Write? || a.Read?)
    ensures Stays(y, Step(y, a), side)
  {
    hide Oversized, Parse;
  }

  lemma AttachStays(y: System, a: Action, side: Side)
    requires Stuck(y, side) && (a.AttachSide? || a.DetachSide? || a.CloseSide?)
    ensures Stays(y, Step(y, a), side)
  {
    hide Oversized, Parse, NormalizeMTU;
  }

  lemma BeatStays(y: System, a: Action, side: Side)
    requires Stuck(y, side) && (a.Beat? || a.Probed?)
    ensures Stays(y, Step(y, a), side)
  {
    hide Oversized, Parse, Heartbeat.Check, Heartbeat.SendResult;
    PingHarmless(At(y, side).e.tx.base, Window(y, side));
  }

  lemma PingHarmless(k: nat, window: nat)
    ensures Oversized([PING], k, window)
  {}

  lemma EmitStays(y: System, which: Side, now: nat, side: Side)
    requires Stuck(y, side) && EndpointOk(At(y, side).e)
    ensures Stays(y, StepEmit(y, which, now), side)
  {
    hide Oversized, Parse, NextPacket, EndpointOk;
    var e := At(y, which).e;
    if Live(e) {
      if which == side {
        EmitsOversized(e, now, e.tx.base, Window(y, side));
        assert Parse([]) == Empty && !Parse(e.helloReply).Data? by { Harmless(e); }
      } else {
        NextKeepsReceiver(e, now);
      }
    }
  }

  lemma NextKeepsReceiver(e: Endpoint, now: nat)
    requires Live(e)
    ensures var e' := NextPacket(e, now).0; e'.rx == e.rx && e'.config == e.config
  {
    hide SendData, Prepared, EncodeAck;
  }

  lemma DeliverStays(y: System, to: Side, m: Tagged, now: nat, side: Side)
    requires Stuck(y, side) && EndpointOk(At(y, side).e)
    ensures Stays(y, StepDeliver(y, to, m, now), side)
  {
    hide Oversized, Parse, Handle, EndpointOk, Answered;
    if to == side {
      HandleKeepsReply(At(y, side).e, m.raw, now);
    } else if m in Sent(y, side) {
      HandleOversized(At(y, to).e, m.raw, now);
    }
  }

  lemma HelloStays(y: System, connMTU: int, side: Side)
    requires Stuck(y, side) && EndpointOk(y.c.e)
    ensures Stays(y, StepHello(y, connMTU), side)
  {
    hide Parse, EncodeHello, EncodeHelloID;
    ReceiverInRange(y.c.e);
    HelloIDRoundTrip(y.c.e.id);
    HelloRoundTrip(y.c.e.rx.next, y.c.e.config, connMTU);
  }

  lemma WelcomeStays(y: System, m: Tagged, connMTU: int, side: Side)
    requires Stuck(y, side) && EndpointOk(y.s.e)
    ensures Stays(y, StepWelcome(y, m, connMTU), side)
  {
    hide Parse, EncodeHelloAck, Reconcile, NormalizeMTU;
    ReceiverInRange(y.s.e);
    match Parse(m.raw)
    case Hello(offer, known) =>
      var mtu := Min(NormalizeMTU(connMTU), NormalizeMTU(offer.mtu));
      HelloAckRoundTrip(y.s.e.rx.next, Negotiate(y.s.e.config, offer), mtu);
    case _ =>
  }

  lemma ResumeStays(y: System, m: Tagged, compression: bool, connMTU: int, side: Side)
    requires Stuck(y, side)
    ensures Stays(y, StepResume(y, m, compression, connMTU), side)
  {
    hide Oversized, Parse, DecodeHelloAck, Reconcile, NormalizeMTU;
  }

  // As long as the packet size stays above the window, no step gets anything
  // through.
  lemma StepStuck(y: System, a: Action, side: Side)
    requires Inv(y) && Stuck(y, side) && Wide(Step(y, a), side)
    ensures Inv(Step(y, a)) && Stuck(Step(y, a), side)
    ensures At(Step(y, a), Other(side)).e.rx.next == At(y, Other(side)).e.rx.next
  {
    hide Step, Inv, Oversized, Parse, NodeOk, NetHonest;
    StepKeepsInv(y, a);
    StepStays(y, a, side);
    Sides(y, side);
    Sides(Step(y, a), side);
  }

  lemma {:induction false} StuckForEver(y: System, actions: seq<Action>, side: Side)
    requires Inv(y) && Stuck(y, side) && WideThroughout(y, actions, side)
    ensures var y' := Run(y, actions);
            && Inv(y') && Stuck(y', side) && At(y', Other(side)).e.rx.next == At(y, Other(side)).e.rx.next
            && At(y', side).e.tx.base == At(y, side).e.tx.base
    decreases |actions|
  {
    hide Step, Inv, Oversized, Parse, Wide;
    if actions != [] {
      var before := actions[..|actions| - 1];
      StuckForEver(y, before, side);
      StepStuck(Run(y, before), actions[|actions| - 1], side);
    }
  }

  // ---- Exactly when --------------------------------------------------------

  // Both ends bound, all that was received acknowledged and read, the timer out,
  // and nothing under way that the receiver could use: something gets through by a
  // round trip if the oldest packet fits the peer's window. If it does not, nothing
  // ever does, over any run in which the packet size stays above the window.
  lemma MovesIffOldestFits(y: System, side: Side, t1: nat, t2: nat)
    requires Inv(y) && Live(At(y, side).e) && Live(At(y, Other(side)).e)
    requires var e := At(y, side).e;
             && e.tx.base < e.tx.next && RetransmitDue(e, t1) && e.tx.base + FlightBytes(e, t1) <= MAX_U64
             && e.tx.base == At(y, Other(side)).e.rx.next && !Parse(e.helloReply).Data?
    requires At(y, Other(side)).e.rx.buf == []
    requires t2 >= Max(At(y, Other(side)).e.ack.deadline, t1 + ACK_MAX_DELAY)
    requires forall m :: m in Sent(y, side) ==> Oversized(m.raw, At(y, side).e.tx.base, Window(y, side))
    ensures |Oldest(At(y, side).e)| <= Window(y, side)
            ==> exists actions :: Moved(y, actions, side)
    ensures |Oldest(At(y, side).e)| > Window(y, side)
            ==> forall actions :: WideThroughout(y, actions, side) ==> !Moved(y, actions, side)
  {
    hide Inv, Step, Oversized, Parse, FlightBytes, Run, WideThroughout;
    var e := At(y, side).e;
    EndsOk(y, side);
    if |Oldest(e)| <= Window(y, side) {
      var n, data, m, ack := RoundTripAcknowledges(y, side, t1, t2);
      assert Moved(y, RoundTrip(side, t1, n, data, t2, m, ack), side);
    } else {
      forall actions | WideThroughout(y, actions, side) ensures !Moved(y, actions, side) {
        StuckForEver(y, actions, side);
      }
    }
  }

  ghost predicate Moved(y: System, actions: seq<Action>, side: Side) {
    At(Run(y, actions), side).e.tx.base > At(y, side).e.tx.base
  }

  // However small the packets, they carry eleven bytes: a smaller window stalls
  // whenever it is exceeded.
  lemma TinyWindowIsAlwaysExceeded(y: System, side: Side)
    requires Inv(y) && Window(y, side) < MINIMUM_PACKET_MTU - 9
    ensures Wide(y, side)
  {
    EndsOk(y, side);
    if At(y, side).e.binding.Some? { EndpointPacketSize(At(y, side).e); }
  }

  lemma EndpointPacketSize(e: Endpoint)
    requires EndpointOk(e) && e.binding.Some?
    ensures MINIMUM_PACKET_MTU <= e.binding.value.mtu
  {}

  // It happens from the start: a client that writes more than the server's window
  // before it is bound.
  lemma StuckFromTheStart(id: SessionID, client: Config, server: Config, p: seq<byte>)
    requires ConfigOk(client) && ConfigOk(server) && server.replayWindow < |p| <= client.replayWindow && |p| <= MAX_U64
    ensures var y := Step(Start(id, client, server), Write(Client, p));
            Inv(y) && Stuck(y, Client) && y.c.written == p
  {
    var y0 := Start(id, client, server);
    StartInv(id, client, server);
    StepKeepsInv(y0, Write(Client, p));
    assert p[..|p|] == p && [] + p == p;
  }
}
