// The resumable session as the program keeps it: fields updated in place,
// one method per critical section, each proved against the functions of
// LinkEndpoint. Loops over the fragment map take the keys in any order.
module LinkSession {
  import opened Bytes
  import opened Fragments
  import opened Reassembly
  import opened LinkPackets
  import opened LinkEndpoint
  import opened LinkInvariants
  import Heartbeat
  import ResumeExpiry

  class Binding {
    const gen: nat
    var mtu: nat
    var lastRX: nat
    var heartbeatPending: bool
    var heartbeatSentAt: nat
    var heartbeatFailures: nat
    var sendNext: nat
    var retransmitAt: nat
    var duplicateACK: nat
    var flightPackets: nat

    function Pulse(): Pulse
      reads `lastRX, `heartbeatPending, `heartbeatSentAt, `heartbeatFailures
    {
      LinkEndpoint.Pulse(lastRX, heartbeatPending, heartbeatSentAt, heartbeatFailures)
    }

    function Flight(): Flight
      reads `sendNext, `retransmitAt, `duplicateACK, `flightPackets
    {
      LinkEndpoint.Flight(sendNext, retransmitAt, duplicateACK, flightPackets)
    }

    function View(): BindingState
      reads this
    {
      BindingState(mtu, Pulse(), Flight())
    }

    constructor (gen: nat, mtu: nat, sendNext: nat, now: nat)
      ensures this.gen == gen
      ensures View() == BindingState(mtu, LinkEndpoint.Pulse(now, false, now, 0),
                                     LinkEndpoint.Flight(sendNext, 0, 0, INITIAL_FLIGHT_PACKETS))
    {
      this.gen := gen;
      this.mtu := mtu;
      lastRX, heartbeatPending, heartbeatSentAt, heartbeatFailures := now, false, now, 0;
      this.sendNext, retransmitAt, duplicateACK := sendNext, 0, 0;
      flightPackets := INITIAL_FLIGHT_PACKETS;
    }

    method ReduceFlightWindow()
      modifies this`flightPackets
      ensures flightPackets == Halved(old(flightPackets))
    {
      var packets := flightPackets;
      if packets < INITIAL_FLIGHT_PACKETS {
        packets := INITIAL_FLIGHT_PACKETS;
      }
      flightPackets := Max(INITIAL_FLIGHT_PACKETS, packets / 2);
    }
  }

  // The four results of accepting a packet.
  function Report(v: Verdict): (nat, bool, bool, Option<LinkError>) {
    match v
    case Advanced(n) => (n, false, false, None)
    case Buffered => (0, true, false, None)
    case Rejected => (0, false, true, None)
    case SequenceExhausted => (0, false, false, Some(ErrSequenceExhausted))
    case Conflict => (0, false, false, Some(ErrConflictingReplay))
  }

  lemma ClipInsert(p: Store, k: nat, v: seq<byte>, cut: nat)
    requires k !in p
    ensures Total(Clip(p[k := v], cut)) == Total(Clip(p, cut)) + (if k < cut then Min(|v|, cut - k) else 0)
  {
    if k < cut {
      assert Clip(p[k := v], cut) == Clip(p, cut)[k := v[..Min(|v|, cut - k)]];
      TotalInsert(Clip(p, cut), k, v[..Min(|v|, cut - k)]);
    } else {
      assert Clip(p[k := v], cut) == Clip(p, cut);
    }
  }

  // The fragments whose keys are in s.
  ghost function Restrict(p: Store, s: set<nat>): Store {
    map k | k in p && k in s :: p[k]
  }

  lemma RestrictMore(p: Store, s: set<nat>, k: nat)
    requires k in p && k !in s
    ensures k !in Restrict(p, s) && Restrict(p, s + {k}) == Restrict(p, s)[k := p[k]]
  {}

  lemma ClipNothing(p: Store, end: nat)
    ensures Total(Clip(Restrict(p, {}), end)) == 0
  {
    assert Clip(Restrict(p, {}), end) == map[];
    EmptyTotal();
  }

  lemma RestrictAll(p: Store)
    ensures Restrict(p, p.Keys) == p
  {}

  class Session {
    const id: SessionID
    var config: Config

    var txBase: nat
    var txNext: nat
    var txBuf: seq<byte>
    var rxNext: nat
    var rxBuf: seq<byte>
    var rxPending: Store
    var rxPendingBytes: int
    var dataRXBytes: int

    var current: Binding?
    var bindGen: nat
    var detachedAt: nat

    var ackDirty: bool
    var ackPackets: nat
    var ackDeadline: nat
    var pongDirty: bool
    var helloReply: seq<byte>
    var pendingHelloID: SessionID
    var havePendingHello: bool
    var closed: bool

    function Sender(): Sender
      reads this
    {
      LinkEndpoint.Sender(txBase, txNext, txBuf)
    }

    function Receiver(): Receiver
      reads this
    {
      Reassembly.Receiver(rxNext, rxBuf, rxPending, rxPendingBytes, dataRXBytes)
    }

    function Acks(): AckState
      reads this
    {
      AckState(ackDirty, ackPackets, ackDeadline)
    }

    function View(): Endpoint
      reads this, current
    {
      Endpoint(id, config, Sender(), Receiver(), Acks(), pongDirty, helloReply,
               if havePendingHello then Some(pendingHelloID) else None,
               if current == null then None else Some(current.View()), closed)
    }

    ghost predicate Valid()
      reads this, current
    {
      EndpointOk(View())
    }

    constructor (id: SessionID, config: Config)
      requires ConfigOk(config)
      ensures Valid()
      ensures View() == NewEndpoint(id, config)
    {
      hide EndpointOk;
      this.id := id;
      this.config := config;
      txBase, txNext, txBuf := 0, 0, [];
      rxNext, rxBuf, rxPending, rxPendingBytes, dataRXBytes := 0, [], map[], 0, 0;
      current, bindGen, detachedAt := null, 0, 0;
      ackDirty, ackPackets, ackDeadline, pongDirty := false, 0, 0, false;
      helloReply, pendingHelloID, havePendingHello := [], id, false;
      closed := false;
      NewEndpointOk(id, config);
    }

    // ---- Receiving DATA ----------------------------------------------------

    // Is the packet kept out by a fragment, does it contradict one, and how
    // many of its bytes are retained already?
    method CountOverlap(start: nat, payload: seq<byte>) returns (blocked: bool, conflict: bool, overlap: nat)
      requires start >= rxNext
      requires forall k: nat :: k in rxPending ==> k > rxNext && |rxPending[k]| > 0
      ensures start > rxNext ==> !conflict && (blocked <==> Overlapped(rxPending, start, start + |payload|))
      ensures start == rxNext ==> !blocked && (conflict <==> Conflicting(rxPending, start, payload))
      ensures !blocked && !conflict && start == rxNext ==> overlap == Overlap(rxPending, start + |payload|)
      ensures !blocked && !conflict && start > rxNext ==> overlap == 0
    {
      hide Total, Clip, Restrict;
      var end := start + |payload|;
      blocked, conflict, overlap := false, false, 0;
      var todo := rxPending.Keys;
      ghost var seen: set<nat> := {};
      ClipNothing(rxPending, end);
      while todo != {}
        invariant seen + todo == rxPending.Keys && seen !! todo
        invariant start > rxNext ==> overlap == 0 && forall k :: k in seen ==> !Overlapping(rxPending, k, start, end)
        invariant start == rxNext ==> forall k :: k in seen ==> !Disagrees(rxPending, k, start, payload)
        invariant start == rxNext ==> overlap == Total(Clip(Restrict(rxPending, seen), end))
      {
        var k :| k in todo;
        var fragment := rxPending[k];
        RestrictMore(rxPending, seen, k);
        ClipInsert(Restrict(rxPending, seen), k, fragment, end);
        if start < k + |fragment| && k < end {
          if start != rxNext {
            assert Overlapping(rxPending, k, start, end);
            return true, false, 0;
          }
          var n := Min(end, k + |fragment|) - k;
          if payload[k - start..k - start + n] != fragment[..n] {
            assert Disagrees(rxPending, k, start, payload);
            return false, true, 0;
          }
          overlap := overlap + n;
        }
        todo := todo - {k};
        seen := seen + {k};
      }
      RestrictAll(rxPending);
    }

    // Remove the fragments a packet ending at `end` covers and keep the suffix
    // of the one that reaches beyond it.
    method DropCovered(end: nat)
      requires Disjoint(rxPending) && rxPendingBytes == Total(rxPending)
      modifies this`rxPending, this`rxPendingBytes
      ensures rxPending == Beyond(old(rxPending), end)
      ensures rxPendingBytes == Total(rxPending)
    {
      hide Total, Disjoint, Straddles, Beyond;
      ghost var p := rxPending;
      var suffix: seq<byte> := [];
      var todo := rxPending.Keys;
      assert Remaining(p, todo, end) == p;
      assert SuffixSoFar(p, todo, end, suffix) by { SuffixStart(p, end); }
      while todo != {}
        invariant todo <= p.Keys
        invariant rxPending == Remaining(p, todo, end)
        invariant rxPendingBytes == Total(rxPending)
        invariant SuffixSoFar(p, todo, end, suffix)
      {
        var k: nat :| k in todo;
        RemainingStep(p, todo, end, k);
        SuffixStep(p, todo, end, suffix, k);
        todo := todo - {k};
        if k < end {
          var fragment := rxPending[k];
          TotalRemove(rxPending, k);
          rxPending := map j: nat | j in rxPending && j != k :: rxPending[j];
          rxPendingBytes := rxPendingBytes - |fragment|;
          if k + |fragment| > end {
            suffix := fragment[end - k..];
          }
        }
      }
      DropLeaves(p, end, suffix);
      if |suffix| > 0 {
        TotalInsert(rxPending, end, suffix);
        rxPending := rxPending[end := suffix];
        rxPendingBytes := rxPendingBytes + |suffix|;
      }
    }

    // Deliver the run of fragments that starts at rxNext.
    method DrainPending(delivered: nat) returns (packets: nat)
      modifies this`rxNext, this`rxBuf, this`rxPending, this`rxPendingBytes
      ensures (Receiver(), packets) == Drain(old(Receiver()), delivered)
    {
      packets := delivered;
      while rxNext in rxPending
        invariant Drain(Receiver(), packets) == Drain(old(Receiver()), delivered)
        decreases |rxPending|
      {
        ghost var r := Receiver();
        var fragment := rxPending[rxNext];
        rxPending := map j | j in rxPending && j != rxNext :: rxPending[j];
        rxPendingBytes := rxPendingBytes - |fragment|;
        rxBuf := rxBuf + fragment;
        rxNext := rxNext + |fragment|;
        packets := packets + 1;
        assert Receiver() == Deliver(r);
      }
    }

    method AcceptData(start: nat, payload: seq<byte>)
      returns (advancedPackets: nat, buffered: bool, rejected: bool, error: Option<LinkError>)
      requires WellFormed(Receiver(), config.replayWindow)
      modifies this`rxNext, this`rxBuf, this`rxPending, this`rxPendingBytes, this`dataRXBytes
      ensures var (r, v) := Accept(old(Receiver()), config.replayWindow, start, payload);
              Receiver() == r && (advancedPackets, buffered, rejected, error) == Report(v)
    {
      hide Total, Beyond, Clip, Drain, Conflicting, Overlapped, WellFormed, Disjoint;
      PendingShape(Receiver(), config.replayWindow);
      if |payload| > MAX_U64 - start {
        return 0, false, false, Some(ErrSequenceExhausted);
      }
      var end := start + |payload|;
      if end <= rxNext {
        return 0, false, true, None;
      }
      var unseen, at := payload, start;
      if start < rxNext {
        unseen := payload[rxNext - start..];
        at := rxNext;
      }
      if end - rxNext > config.replayWindow {
        return 0, false, true, None;
      }
      var blocked, conflict, overlap := CountOverlap(at, unseen);
      if blocked {
        return 0, false, true, None;
      }
      if conflict {
        return 0, false, false, Some(ErrConflictingReplay);
      }
      if |rxBuf| + rxPendingBytes + |unseen| - overlap > config.replayWindow {
        return 0, false, true, None;
      }
      if at > rxNext {
        if |rxPending| >= MAX_FRAGMENTS {
          return 0, false, true, None;
        }
        rxPending := rxPending[at := unseen];
        rxPendingBytes := rxPendingBytes + |unseen|;
        dataRXBytes := dataRXBytes + |unseen|;
        return 0, true, false, None;
      }
      DropCovered(end);
      rxBuf := rxBuf + unseen;
      rxNext := end;
      dataRXBytes := dataRXBytes + |unseen| - overlap;
      advancedPackets := DrainPending(1);
      buffered, rejected, error := false, false, None;
    }

    // ---- Acknowledgements and offsets --------------------------------------

    method ReconcilePeer(expected: nat) returns (error: Option<LinkError>)
      requires SenderOk(Sender())
      modifies this`txBase, this`txBuf
      ensures match Reconcile(old(Sender()), expected)
              case Ok(tx) => Sender() == tx && error == None
              case Err(e) => Sender() == old(Sender()) && error == Some(e)
    {
      if expected < txBase || expected > txNext {
        return Some(ErrSessionState);
      }
      var delta := expected - txBase;
      if delta > 0 {
        txBuf := txBuf[delta..];
        txBase := expected;
      }
      error := None;
    }

    method HandleAck(b: Binding, expected: nat, now: nat) returns (error: Option<LinkError>)
      requires SenderOk(Sender())
      modifies this`txBase, this`txBuf, b`sendNext, b`retransmitAt, b`duplicateACK, b`flightPackets
      ensures match LinkEndpoint.HandleAck(old(Sender()), old(b.Flight()), expected, now)
              case Ok((tx, f)) => Sender() == tx && b.Flight() == f && error == None
              case Err(e) => Sender() == old(Sender()) && b.Flight() == old(b.Flight()) && error == Some(e)
    {
      hide AfterAdvance, AfterDuplicate, Binding.Flight;
      if expected < txBase {
        return None;
      }
      var previousBase := txBase;
      error := ReconcilePeer(expected);
      if error != None {
        return;
      }
      if txBase > previousBase {
        NoteAdvance(b, now);
      } else {
        NoteDuplicate(b, now);
      }
    }

    method NoteAdvance(b: Binding, now: nat)
      modifies b`sendNext, b`retransmitAt, b`duplicateACK, b`flightPackets
      ensures b.Flight() == AfterAdvance(Sender(), old(b.Flight()), now)
    {
      b.duplicateACK := 0;
      if b.flightPackets < INITIAL_FLIGHT_PACKETS {
        b.flightPackets := INITIAL_FLIGHT_PACKETS;
      } else if b.flightPackets < MAX_FLIGHT_PACKETS {
        b.flightPackets := b.flightPackets + 1;
      }
      if b.sendNext < txBase {
        b.sendNext := txBase;
      }
      if b.sendNext > txBase {
        b.retransmitAt := now + RETRANSMIT_INTERVAL;
      } else {
        b.retransmitAt := 0;
      }
    }

    method NoteDuplicate(b: Binding, now: nat)
      modifies b`sendNext, b`retransmitAt, b`duplicateACK, b`flightPackets
      ensures b.Flight() == AfterDuplicate(Sender(), old(b.Flight()), now)
    {
      if b.sendNext > txBase {
        b.duplicateACK := b.duplicateACK + 1;
        if b.duplicateACK >= FAST_RETRANSMIT_ACKS {
          b.sendNext := txBase;
          b.retransmitAt := now + RETRANSMIT_INTERVAL;
          b.duplicateACK := 0;
          b.ReduceFlightWindow();
        }
      }
    }

    method NegotiateLimits(peer: Offer)
      modifies this`config
      ensures config == Negotiate(old(config), peer)
    {
      if peer.resumeTimeout > 0 && peer.resumeTimeout < config.resumeTimeout {
        config := config.(resumeTimeout := peer.resumeTimeout);
      }
      if peer.maxConnections > 0 && peer.maxConnections < config.maxConnections {
        config := config.(maxConnections := peer.maxConnections);
      }
      config := config.(compression := config.compression && peer.compression);
    }

    // ---- Packets in and out ------------------------------------------------

    // A packet for a binding that is no longer current changes nothing. A CLOSE has
    // the session closed by another goroutine.
    method HandlePacket(b: Binding, packet: seq<byte>, now: nat) returns (error: Option<LinkError>, closing: bool)
      requires Valid()
      modifies this, b
      ensures Valid() && current == old(current)
      ensures (View(), error) == if b == old(current) then Handle(old(View()), packet, now) else (old(View()), None)
      ensures closing == (b == old(current) && !old(closed) && Parse(packet) == Close)
      ensures detachedAt == old(detachedAt)
    {
      hide HandleParsed, Parse, EndpointOk;
      HandleKeeps(View(), packet, now);
      if packet == [] || current != b || closed {
        if packet == [] { ParsedEmpty(packet); }
        return None, false;
      }
      HeardOk(View(), now);
      b.lastRX := now;
      b.heartbeatPending := false;
      b.heartbeatFailures := 0;
      closing := Parse(packet) == Close;
      error := Dispatch(b, Parse(packet), now);
    }

    method Dispatch(b: Binding, packet: Packet, now: nat) returns (error: Option<LinkError>)
      requires b == current && !closed && Valid()
      modifies this, b
      ensures current == old(current) && detachedAt == old(detachedAt)
      ensures (View(), error) == HandleParsed(old(View()), packet, now)
    {
      hide HandleData, LinkEndpoint.HandleAck, HandleHello, EndpointOk, WellFormed, SenderOk;
      Parts(View());
      error := None;
      match packet {
        case Data(start, payload) =>
          error := HandleDataPacket(start, payload, now);
        case Ack(expected) =>
          error := HandleAck(b, expected, now);
        case Ping =>
          pongDirty := true;
        case HelloID(peer) =>
          pendingHelloID := peer;
          havePendingHello := true;
        case Hello(offer, known) =>
          error := HandleHelloPacket(b, offer, known);
        case Reject =>
          error := Some(ErrRejected);
        case Malformed =>
          error := Some(ErrHandshake);
        case _ =>
      }
    }

    method HandleDataPacket(start: nat, payload: seq<byte>, now: nat) returns (error: Option<LinkError>)
      requires WellFormed(Receiver(), config.replayWindow)
      modifies this`rxNext, this`rxBuf, this`rxPending, this`rxPendingBytes, this`dataRXBytes,
               this`ackDirty, this`ackPackets, this`ackDeadline
      ensures (View(), error) == HandleData(old(View()), start, payload, now)
    {
      hide Accept, WellFormed, AckAfter;
      RefusalChangesNothing(Receiver(), config.replayWindow, start, payload);
      ghost var v := Accept(Receiver(), config.replayWindow, start, payload).1;
      var advancedPackets, buffered, rejected;
      advancedPackets, buffered, rejected, error := AcceptData(start, payload);
      if error == None {
        NoteReceived(advancedPackets, buffered, rejected, now, v);
      }
    }

    // Batch the acknowledgement of progress; answer anything else at once.
    method NoteReceived(advancedPackets: nat, buffered: bool, rejected: bool, now: nat, ghost v: Verdict)
      requires (advancedPackets, buffered, rejected, None) == Report(v) && (v.Advanced? ==> v.packets > 0)
      modifies this`ackDirty, this`ackPackets, this`ackDeadline
      ensures Acks() == AckAfter(old(Acks()), v, now)
    {
      ackDirty := true;
      if advancedPackets > 0 {
        ackPackets := ackPackets + advancedPackets;
        if ackDeadline == 0 {
          ackDeadline := now + ACK_MAX_DELAY;
        }
      } else if buffered || rejected {
        ackPackets := ACK_BATCH_PACKETS;
        ackDeadline := now;
      }
    }

    method HandleHelloPacket(b: Binding, offer: Offer, known: bool) returns (error: Option<LinkError>)
      requires b == current && SenderOk(Sender())
      modifies this`txBase, this`txBuf, this`config, this`helloReply, this`havePendingHello, b`mtu
      ensures (View(), error) == HandleHello(old(View()), offer, known)
    {
      hide Reconcile, EncodeHelloAck, Negotiate, NormalizeMTU, SenderOk, Binding.Pulse, Binding.Flight;
      ghost var e := View();
      if !havePendingHello || pendingHelloID != id {
        return None;
      }
      if !known || offer.compression != config.compression {
        return Some(ErrCompression);
      }
      error := ReconcilePeer(offer.expected);
      if error != None {
        return;
      }
      var mtu := Min(b.mtu, NormalizeMTU(offer.mtu));
      NegotiateLimits(offer);
      b.mtu := Min(b.mtu, mtu);
      helloReply := EncodeHelloAck(rxNext, config, mtu);
      havePendingHello := false;
      assert b.View() == e.binding.value.(mtu := mtu);
    }

    method Next(b: Binding, now: nat) returns (packet: Option<seq<byte>>)
      requires Valid() && b == current && !closed
      modifies this`helloReply, this`pongDirty, this`ackDirty, this`ackPackets, this`ackDeadline,
               b`sendNext, b`retransmitAt, b`duplicateACK, b`flightPackets
      ensures Valid()
      ensures (View(), packet) == NextPacket(old(View()), now)
    {
      hide WellFormed, FlightOk, WindowBytes, WrapAdd, EncodeAck, EncodeData;
      NextPacketKeeps(View(), now);
      if |helloReply| > 0 {
        packet := Some(helloReply);
        helloReply := [];
        return;
      }
      if pongDirty {
        pongDirty := false;
        return Some([PONG]);
      }
      if ackDirty && (ackPackets >= ACK_BATCH_PACKETS || ackDeadline == 0 || now >= ackDeadline) {
        ackDirty, ackPackets, ackDeadline := false, 0, 0;
        return Some(EncodeAck(rxNext));
      }
      packet := NextData(b, now);
    }

    method NextData(b: Binding, now: nat) returns (packet: Option<seq<byte>>)
      requires SenderOk(Sender())
      modifies b`sendNext, b`retransmitAt, b`duplicateACK, b`flightPackets
      ensures (b.Flight(), packet) == SendData(Sender(), b.mtu, Prepared(Sender(), old(b.Flight()), now), now)
    {
      hide WrapAdd, EncodeData, Prepared;
      PrepareFlight(b, now);
      var payloadSize := if b.mtu < 10 then 1 else b.mtu - 9;
      var windowEnd := Min(txNext, WrapAdd(txBase, payloadSize * b.flightPackets));
      if b.sendNext < windowEnd {
        payloadSize := Min(payloadSize, windowEnd - b.sendNext);
        var start := b.sendNext - txBase;
        packet := Some(EncodeData(b.sendNext, txBuf[start..start + payloadSize]));
        if b.sendNext == txBase && b.retransmitAt == 0 {
          b.retransmitAt := now + RETRANSMIT_INTERVAL;
        }
        b.sendNext := b.sendNext + payloadSize;
        return;
      }
      packet := None;
    }

    // Repair a position outside the replay buffer, and go back on a timeout.
    method PrepareFlight(b: Binding, now: nat)
      requires SenderOk(Sender())
      modifies b`sendNext, b`retransmitAt, b`duplicateACK, b`flightPackets
      ensures b.Flight() == Prepared(Sender(), old(b.Flight()), now)
      ensures b.sendNext >= txBase
    {
      if b.sendNext < txBase || b.sendNext > txNext {
        b.sendNext, b.retransmitAt, b.duplicateACK := txBase, 0, 0;
      }
      if b.sendNext > txBase && b.retransmitAt != 0 && now >= b.retransmitAt {
        b.sendNext, b.retransmitAt, b.duplicateACK := txBase, now + RETRANSMIT_INTERVAL, 0;
        b.ReduceFlightWindow();
      }
      if b.flightPackets < INITIAL_FLIGHT_PACKETS {
        b.flightPackets := INITIAL_FLIGHT_PACKETS;
      }
    }

    // ---- Binding and unbinding ---------------------------------------------

    method AttachBinding(connMTU: int, mtu: int, now: nat) returns (ok: bool)
      requires Valid()
      modifies this`current, this`bindGen, this`detachedAt, this`rxPending, this`rxPendingBytes, this`ackDeadline
      ensures Valid() && View() == Attach(old(View()), connMTU, mtu, now)
      ensures detachedAt == if closed then old(detachedAt) else 0
      ensures ok == !closed && (ok ==> fresh(current) && current.gen == old(bindGen) + 1 == bindGen)
    {
      hide EndpointOk, NormalizeMTU, View, Binding.View;
      Fields();
      AttachKeeps(View(), connMTU, mtu, now);
      if closed {
        return false;
      }
      var b := new Binding(bindGen + 1, Min(NormalizeMTU(connMTU), NormalizeMTU(mtu)), txBase, now);
      Install(b, now);
      ok := true;
    }

    lemma Fields()
      ensures View().closed == closed && View().tx.base == txBase
    {}

    method Install(b: Binding, now: nat)
      modifies this`current, this`bindGen, this`detachedAt, this`rxPending, this`rxPendingBytes, this`ackDeadline
      ensures current == b && bindGen == b.gen && detachedAt == 0
      ensures var e := old(View());
              View() == e.(binding := Some(b.View()), rx := e.rx.(pending := map[], pendingBytes := 0),
                           ack := if e.ack.dirty then e.ack.(deadline := now) else e.ack)
    {
      hide Binding.View;
      StartOver(now);
      bindGen, current, detachedAt := b.gen, b, 0;
    }

    // A replacement binding can use other packet boundaries: fragments ahead of a
    // gap are dropped, and an acknowledgement owed is due now.
    method StartOver(now: nat)
      modifies this`rxPending, this`rxPendingBytes, this`ackDeadline
      ensures Receiver() == old(Receiver()).(pending := map[], pendingBytes := 0)
      ensures Acks() == if ackDirty then old(Acks()).(deadline := now) else old(Acks())
    {
      rxPending, rxPendingBytes := map[], 0;
      if ackDirty {
        ackDeadline := now;
      }
    }

    // Only the current binding can be failed, which starts a timer for the timeout
    // then in force; a stale one changes nothing.
    method FailBinding(b: Binding, at: nat) returns (timer: Option<ResumeExpiry.Timer>)
      requires Valid()
      modifies this`current, this`detachedAt
      ensures Valid()
      ensures timer == if b == old(current) && !closed then Some(ResumeExpiry.Timer(at, config.resumeTimeout)) else None
      ensures detachedAt == if timer.Some? then at else old(detachedAt)
      ensures View() == if b == old(current) then Detach(old(View())) else old(View())
    {
      if current != b || closed {
        return None;
      }
      current := null;
      detachedAt := at;
      timer := Some(ResumeExpiry.Timer(at, config.resumeTimeout));
    }

    // A timer that has run out closes the session if it is still detached since
    // then.
    method ExpireCheck(at: nat) returns (shouldClose: bool)
      ensures shouldClose == (!closed && View().binding == None && detachedAt == at)
    {
      shouldClose := !closed && current == null && detachedAt == at;
    }

    method CloseWithError()
      requires Valid()
      modifies this`current, this`closed
      ensures Valid() && View() == Shut(old(View()))
    {
      if closed {
        return;
      }
      closed := true;
      current := null;
    }

    // BindServer up to the reply it sends.
    method WelcomePeer(peer: SessionID, offer: Offer, connMTU: int) returns (reply: Result<(seq<byte>, nat)>)
      requires Valid()
      modifies this`txBase, this`txBuf, this`config
      ensures match Welcome(old(View()), peer, offer, connMTU)
              case Ok((e, ack, mtu)) => View() == e && reply == Ok((ack, mtu))
              case Err(error) => View() == old(View()) && reply == Err(error)
    {
      if id != peer {
        return Err(ErrRejected);
      }
      if offer.compression != config.compression {
        return Err(ErrCompression);
      }
      if closed {
        return Err(ErrClosed);
      }
      var error := ReconcilePeer(offer.expected);
      if error != None {
        return Err(error.value);
      }
      var mtu := Min(NormalizeMTU(connMTU), NormalizeMTU(offer.mtu));
      NegotiateLimits(offer);
      reply := Ok((EncodeHelloAck(rxNext, config, mtu), mtu));
    }

    // BindClient from the server's reply to the packet size it attaches with;
    // `compression` is from the configuration it copied before the HELLO.
    method ResumePeer(compression: bool, offer: Offer, connMTU: int) returns (mtu: Result<nat>)
      requires Valid()
      modifies this`txBase, this`txBuf, this`config
      ensures match Resume(old(View()), compression, offer, connMTU)
              case Ok((e, size)) => View() == e && mtu == Ok(size)
              case Err(error) => View() == old(View()) && mtu == Err(error)
    {
      if compression && !offer.compression {
        return Err(ErrCompression);
      }
      if !compression && offer.compression {
        return Err(ErrHandshake);
      }
      var error := ReconcilePeer(offer.expected);
      if error != None {
        return Err(error.value);
      }
      NegotiateLimits(offer);
      mtu := Ok(Min(NormalizeMTU(connMTU), offer.mtu));
    }

    // ---- Liveness of the binding -------------------------------------------

    method HeartbeatCheck(b: Binding, now: nat) returns (probe: bool, detach: bool)
      modifies b`heartbeatPending, b`heartbeatSentAt, b`heartbeatFailures
      ensures var (p, order) := Heartbeat.Check(old(b.Pulse()), now);
              b.Pulse() == p && probe == (order == Heartbeat.Probe) && detach == (order == Heartbeat.Detach)
    {
      var probeAfterFailure := false;
      if b.heartbeatPending {
        if now - b.heartbeatSentAt < Heartbeat.RESPONSE_TIMEOUT {
          return false, false;
        }
        b.heartbeatPending := false;
        b.heartbeatFailures := b.heartbeatFailures + 1;
        if b.heartbeatFailures >= Heartbeat.FAILURE_LIMIT {
          return false, true;
        }
        probeAfterFailure := true;
      }
      if !probeAfterFailure && b.heartbeatSentAt != 0 && now - b.heartbeatSentAt < Heartbeat.HEARTBEAT_INTERVAL {
        return false, false;
      }
      b.heartbeatPending := true;
      b.heartbeatSentAt := now;
      return true, false;
    }

    method HeartbeatSendResult(b: Binding, started: nat, finished: nat, outcome: Heartbeat.SendOutcome) returns (detach: bool)
      modifies b`heartbeatPending, b`heartbeatSentAt, b`heartbeatFailures
      ensures current == b && !closed ==>
                (b.Pulse(), detach) == Heartbeat.SendResult(old(b.Pulse()), started, finished, outcome)
      ensures current != b || closed ==> b.Pulse() == old(b.Pulse()) && !detach
    {
      if current != b || closed {
        return false;
      }
      if outcome == Heartbeat.Sent {
        if b.heartbeatPending {
          b.heartbeatSentAt := finished;
        }
        return false;
      }
      if outcome == Heartbeat.DeadlineExceeded && b.lastRX >= started {
        b.heartbeatPending := false;
        b.heartbeatFailures := 0;
        b.heartbeatSentAt := finished;
        return false;
      }
      return true;
    }

    // ---- The application side ----------------------------------------------

    // Read what is there, even from a closed session; nothing read and no error
    // stands for waiting.
    method Read(size: nat) returns (p: seq<byte>, error: Option<LinkError>)
      requires Valid()
      modifies this`rxBuf
      ensures Valid() && p == old(rxBuf)[..Min(size, |old(rxBuf)|)]
      ensures View() == Take(old(View()), |p|)
      ensures error == if size > 0 && old(rxBuf) == [] && closed then Some(ErrClosed) else None
    {
      error := if size > 0 && rxBuf == [] && closed then Some(ErrClosed) else None;
      TakeKeeps(View(), Min(size, |rxBuf|));
      var n := Min(size, |rxBuf|);
      p := rxBuf[..n];
      rxBuf := rxBuf[n..];
    }

    // Write until everything is taken or the session would block.
    method Write(p: seq<byte>) returns (written: nat, error: Option<LinkError>)
      requires Valid()
      modifies this`txBuf, this`txNext
      ensures Valid() && written <= |p|
      ensures View() == old(View()).(tx := Append(old(Sender()), p[..written]))
      ensures !closed && WriteSize(old(View()), |p|) <= MAX_U64 - old(txNext) ==>
                written == WriteSize(old(View()), |p|) && error == None
      ensures !closed && WriteSize(old(View()), |p|) > MAX_U64 - old(txNext) ==>
                written == 0 && error == Some(ErrSequenceExhausted)
      ensures closed ==> written == 0 && error == if p == [] then None else Some(ErrClosed)
    {
      hide EndpointOk, WellFormed;
      Parts(View());
      written, error := 0, None;
      var rest := p;
      ghost var room := WriteRoom(View());
      assert p[..0] == [];
      while |rest| > 0
        invariant written <= |p| && rest == p[written..]
        invariant error == None
        invariant Valid() && View() == old(View()).(tx := Append(old(Sender()), p[..written]))
        invariant WriteRoom(View()) == room - written
        invariant written == 0 || (!closed && 0 < written == Min(room, |p|) && txNext == old(txNext) + written <= MAX_U64)
        decreases |rest|
      {
        if closed {
          return written, Some(ErrClosed);
        }
        var space := config.replayWindow - |txBuf|;
        if current != null {
          space := Min(space, LIVE_WRITE_WINDOW - |txBuf|);
        }
        if space <= 0 {
          return;
        }
        var n := Min(space, |rest|);
        if n > MAX_U64 - txNext {
          return written, Some(ErrSequenceExhausted);
        }
        WriteKeeps(View(), rest[..n]);
        assert p[..written + n] == p[..written] + rest[..n];
        txBuf := txBuf + rest[..n];
        txNext := txNext + n;
        written := written + n;
        rest := rest[n..];
      }
    }

  }

  // What is left of p while the keys in todo are still to be visited.
  ghost function Remaining(p: Store, todo: set<nat>, end: nat): Store {
    map k | k in p && (k >= end || k in todo) :: p[k]
  }

  lemma RemainingStep(p: Store, todo: set<nat>, end: nat, k: nat)
    requires k in todo && todo <= p.Keys
    ensures k in Remaining(p, todo, end) && Remaining(p, todo, end)[k] == p[k]
    ensures if k < end then Remaining(p, todo - {k}, end) == Without(Remaining(p, todo, end), k)
            else Remaining(p, todo - {k}, end) == Remaining(p, todo, end)
  {}

  // The suffix of the straddling fragment, once that has been visited.
  ghost predicate SuffixSoFar(p: Store, todo: set<nat>, end: nat, suffix: seq<byte>) {
    && (forall k: nat :: Straddles(p, k, end) && k !in todo ==> suffix == p[k][end - k..])
    && ((forall k: nat :: Straddles(p, k, end) ==> k in todo) ==> suffix == [])
  }

  lemma SuffixStart(p: Store, end: nat)
    ensures SuffixSoFar(p, p.Keys, end, [])
  {}

  lemma SuffixStep(p: Store, todo: set<nat>, end: nat, suffix: seq<byte>, k: nat)
    requires Disjoint(p) && k in todo && todo <= p.Keys && SuffixSoFar(p, todo, end, suffix)
    ensures if k < end && k + |p[k]| > end then SuffixSoFar(p, todo - {k}, end, p[k][end - k..])
            else SuffixSoFar(p, todo - {k}, end, suffix)
  {
    if Straddles(p, k, end) {
      forall j: nat | Straddles(p, j, end) ensures j == k { OneStraddler(p, j, k, end); }
    }
  }

  lemma DropLeaves(p: Store, end: nat, suffix: seq<byte>)
    requires Disjoint(p) && SuffixSoFar(p, {}, end, suffix)
    ensures suffix == [] ==> Beyond(p, end) == Remaining(p, {}, end)
    ensures suffix != [] ==> end !in Remaining(p, {}, end) && Beyond(p, end) == Remaining(p, {}, end)[end := suffix]
  {
    assert Remaining(p, {}, end) == From(p, end);
    if k: nat :| Straddles(p, k, end) {
      assert Straddles(p, k, end);
      OneStraddler(p, k, k, end);
      UnionSingleton(From(p, end), end, suffix);
    }
  }

  lemma PendingShape(r: Receiver, window: nat)
    requires WellFormed(r, window)
    ensures Disjoint(r.pending) && r.pendingBytes == Total(r.pending) && r.next <= MAX_U64
    ensures forall k: nat :: k in r.pending ==> k > r.next && |r.pending[k]| > 0
  {}
}
