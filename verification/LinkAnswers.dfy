// What an end owes for what it receives: acknowledgements in batches, an answer at
// once to anything out of the ordinary, an error to what its peer must not send; and
// whom it lets bind.
module LinkAnswers {
  import opened Bytes
  import opened Fragments
  import opened Reassembly
  import opened ReassemblyMap
  import opened ReassemblyVerdict
  import opened LinkPackets
  import opened LinkEndpoint
  import opened LinkInvariants
  import opened LinkEnd
  import Heartbeat

  // ---- Acknowledgements in batches -----------------------------------------

  datatype Arrival = Arrival(start: nat, payload: seq<byte>, at: nat)

  ghost function Arrive(e: Endpoint, arrivals: seq<Arrival>): Endpoint {
    if arrivals == [] then e
    else
      var last := arrivals[|arrivals| - 1];
      Handle(Arrive(e, arrivals[..|arrivals| - 1]), EncodeData(last.start, last.payload), last.at).0
  }

  ghost function VerdictOn(e: Endpoint, a: Arrival): Verdict {
    Accept(e.rx, e.config.replayWindow, a.start, a.payload).1
  }

  // Each packet moves the contiguous offset on.
  ghost predicate AllProgress(e: Endpoint, arrivals: seq<Arrival>) {
    arrivals != [] ==>
      var before, last := arrivals[..|arrivals| - 1], arrivals[|arrivals| - 1];
      && AllProgress(e, before)
      && last.start <= MAX_U64 && last.payload != [] && VerdictOn(Arrive(e, before), last).Advanced?
  }

  // How many packets' worth of progress they make, those retained before included.
  ghost function Progress(e: Endpoint, arrivals: seq<Arrival>): nat {
    if arrivals == [] then 0
    else
      var before, last := arrivals[..|arrivals| - 1], arrivals[|arrivals| - 1];
      var v := VerdictOn(Arrive(e, before), last);
      Progress(e, before) + if v.Advanced? then v.packets else 0
  }

  lemma DataHandled(e: Endpoint, a: Arrival)
    requires Live(e) && a.start <= MAX_U64 && a.payload != []
    ensures Handle(e, EncodeData(a.start, a.payload), a.at) == HandleData(Heard(e, a.at), a.start, a.payload, a.at)
  {
    hide Accept, EncodeData;
    DataRoundTrip(a.start, a.payload);
    assert EncodeData(a.start, a.payload) != [] by { NotEmpty(a); }
  }

  lemma NotEmpty(a: Arrival)
    ensures EncodeData(a.start, a.payload) != []
  {}

  // After an acknowledgement, packets in order earn the next one exactly once eight of
  // them have been taken or 40 ms have passed since the first; it names the offset
  // reached, goes out behind a queued reply and a PONG only, and clears the account.
  lemma {:induction false} AckIsBatched(e: Endpoint, arrivals: seq<Arrival>)
    requires EndpointOk(e) && Live(e) && e.ack == AckState(false, 0, 0)
    requires arrivals != [] && AllProgress(e, arrivals)
    ensures var e', n := Arrive(e, arrivals), Progress(e, arrivals);
            && EndpointOk(e') && Live(e') && n >= |arrivals|
            && e'.ack == AckState(true, n, arrivals[0].at + ACK_MAX_DELAY)
            && (forall now: nat :: AckDue(e'.ack, now) <==> n >= 8 || now >= arrivals[0].at + ACK_MAX_DELAY)
    decreases |arrivals|
  {
    hide EndpointOk, Accept, EncodeData, Handle, HandleData;
    var before, last := arrivals[..|arrivals| - 1], arrivals[|arrivals| - 1];
    var m := Arrive(e, before);
    if before == [] {
      assert m == e;
      assert Progress(e, before) == 0;
    } else {
      AckIsBatched(e, before);
      assert before[0] == arrivals[0];
    }
    OneMoreArrives(m, last);
    HandleKeeps(m, EncodeData(last.start, last.payload), last.at);
  }

  lemma OneMoreArrives(e: Endpoint, a: Arrival)
    requires EndpointOk(e) && Live(e) && a.start <= MAX_U64 && a.payload != [] && VerdictOn(e, a).Advanced?
    ensures var e', v := Handle(e, EncodeData(a.start, a.payload), a.at).0, VerdictOn(e, a);
            && Live(e') && v.packets >= 1
            && e'.ack == AckState(true, e.ack.packets + v.packets, if e.ack.deadline == 0 then a.at + ACK_MAX_DELAY else e.ack.deadline)
  {
    hide Accept, EncodeData, WellFormed;
    DataHandled(e, a);
    RefusalChangesNothing(e.rx, e.config.replayWindow, a.start, a.payload);
  }

  // An acknowledgement that is due goes out, and clears the account.
  lemma DueAckGoes(e: Endpoint, now: nat)
    requires Live(e) && AckDue(e.ack, now)
    ensures Nth(e, now, Ahead(e)) == Some(EncodeAck(e.rx.next))
    ensures After(e, now, Ahead(e) + 1) == e.(helloReply := [], pongDirty := false, ack := AckState(false, 0, 0))
  {
    hide EncodeAck;
    AfterAhead(e, now);
  }

  // Before it is due none does, whatever else is sent.
  lemma NoAckBeforeDue(e: Endpoint, now: nat)
    requires EndpointOk(e) && Live(e) && !AckDue(e.ack, now) && Parse(e.helloReply) != Ack(e.rx.next)
    ensures var (e', packet) := NextPacket(e, now);
            e'.ack == e.ack && (packet.Some? ==> Parse(packet.value) != Ack(e.rx.next))
  {
    hide WellFormed, SenderOk, FlightOk, SendData, Prepared, EncodeAck, EncodeData, Parse;
    assert Parse([PONG]) == Pong by { ParsedPong(); }
    if e.helloReply == [] && !e.pongDirty {
      var b := e.binding.value;
      PreparedKeeps(e.tx, b, now);
      var f := Prepared(e.tx, b.flight, now);
      SendDataKeeps(e.tx, b.(flight := f), now);
      var (g, packet) := SendData(e.tx, b.mtu, f, now);
      if packet.Some? {
        DataIsNoAck(e.tx, b, f, g, packet.value);
      }
    }
  }

  lemma ParsedPong()
    ensures Parse([PONG]) == Pong
  {}

  lemma DataIsNoAck(tx: Sender, b: BindingState, f: Flight, g: Flight, raw: seq<byte>)
    requires SenderOk(tx) && tx.base <= f.sendNext <= g.sendNext <= tx.next
    requires var payload := tx.buf[f.sendNext - tx.base..g.sendNext - tx.base];
             raw == EncodeData(f.sendNext, payload) && DataFits(tx, b.(flight := f), f.sendNext, payload)
    ensures Parse(raw).Data?
  {
    DataRoundTrip(f.sendNext, tx.buf[f.sendNext - tx.base..g.sendNext - tx.base]);
  }

  // A packet that is kept ahead of a gap, or refused, is answered at once with the
  // offset at which the sender has to go on.
  lemma GapIsAnsweredAtOnce(e: Endpoint, a: Arrival, now: nat)
    requires EndpointOk(e) && Live(e) && a.start <= MAX_U64 && a.payload != [] && a.at <= now
    requires VerdictOn(e, a).Buffered? || VerdictOn(e, a).Rejected?
    ensures var e' := Handle(e, EncodeData(a.start, a.payload), a.at).0;
            Live(e') && Ahead(e') == Ahead(e) && e'.rx.next == e.rx.next && Nth(e', now, Ahead(e')) == Some(EncodeAck(e.rx.next))
  {
    hide EncodeData, EncodeAck, WellFormed, Nth;
    DataHandled(e, a);
    var e' := Handle(e, EncodeData(a.start, a.payload), a.at).0;
    DueAckGoes(e', now);
  }

  // ---- What the peer must not send -----------------------------------------

  predicate KnownType(tag: byte) {
    1 <= tag <= 9 && tag != HELLO_ACK
  }

  // The fault of a packet, read off its bytes, the bytes held, and the offsets.
  ghost function Fault(e: Endpoint, raw: seq<byte>): Option<LinkError> {
    if raw == [] then None
    else if !KnownType(raw[0]) then Some(ErrHandshake)
    else if raw[0] == REJECT then Some(ErrRejected)
    else if raw[0] == DATA then
      if |raw| < 10 then Some(ErrHandshake) else DataFault(e, FromBigEndian(raw[1..9]), raw[9..])
    else if raw[0] == ACK then
      if |raw| != 9 then Some(ErrHandshake)
      else if FromBigEndian(raw[1..9]) > e.tx.next then Some(ErrSessionState) else None
    else if raw[0] == PING || raw[0] == PONG then if |raw| != 1 then Some(ErrHandshake) else None
    else if raw[0] == HELLO && (|raw| == 17 || |raw| == 18) && e.pendingHello == Some(e.id) then
      if (if |raw| == 18 then raw[17] else 0) != (if e.config.compression then COMPRESSION else 0) then Some(ErrCompression)
      else if !(e.tx.base <= FromBigEndian(raw[1..9]) <= e.tx.next) then Some(ErrSessionState) else None
    else None
  }

  ghost function DataFault(e: Endpoint, start: nat, payload: seq<byte>): Option<LinkError> {
    var end := start + |payload|;
    if end > MAX_U64 then Some(ErrSequenceExhausted)
    else if start <= e.rx.next < end <= e.rx.next + e.config.replayWindow
            && Contradicts(Held(e.rx.pending), e.rx.next, start, payload) then Some(ErrConflictingReplay)
    else None
  }

  // Exactly the packets at fault are reported, each with its error, and none of them
  // changes anything but the time of the last packet.
  lemma FaultsAreReported(e: Endpoint, raw: seq<byte>, now: nat)
    requires EndpointOk(e) && Live(e)
    ensures var (e', error) := Handle(e, raw, now);
            error == Fault(e, raw) && (error.Some? ==> e' == Heard(e, now))
  {
    hide EndpointOk, Accept, LinkEndpoint.HandleAck, Reconcile, Held, Contradicts, Known;
    if raw != [] {
      var h := Heard(e, now);
      HeardOk(e, now);
      Parts(h);
      assert h.binding.Some? && BindingOk(h.tx, h.binding.value) by { Bound(h); }
      match Parse(raw)
      case Data(start, payload) =>
        AcceptVerdict(h.rx, h.config.replayWindow, start, payload);
        RefusalChangesNothing(h.rx, h.config.replayWindow, start, payload);
      case Ack(expected) => AckFault(h, expected, now);
      case Hello(offer, known) => HelloFault(h, raw);
      case _ =>
    }
  }

  lemma Bound(e: Endpoint)
    requires EndpointOk(e) && Live(e)
    ensures BindingOk(e.tx, e.binding.value)
  {}

  lemma AckFault(e: Endpoint, expected: nat, now: nat)
    requires SenderOk(e.tx) && Live(e) && BindingOk(e.tx, e.binding.value)
    ensures var (e', error) := HandleParsed(e, Ack(expected), now);
            && error == (if expected > e.tx.next then Some(ErrSessionState) else None)
            && (error.Some? ==> e' == e)
  {
    HandleAckKeeps(e.tx, e.binding.value, expected, now);
  }

  lemma HelloFault(e: Endpoint, raw: seq<byte>)
    requires SenderOk(e.tx) && Live(e) && Parse(raw).Hello?
    ensures var (e', error) := HandleHello(e, Parse(raw).offer, Parse(raw).known);
            error == Fault(e, raw) && (error.Some? ==> e' == e)
  {
    hide EncodeHelloAck, Negotiate, NormalizeMTU;
    assert raw[1..][..8] == raw[1..9];
    var flags := if |raw| == 18 then raw[17] else 0;
    assert |raw| == 18 ==> raw[1..][16] == raw[17];
    assert Parse(raw).known <==> flags <= 1;
    assert flags <= 1 ==> (Parse(raw).offer.compression <==> flags == 1);
    ReconcileKeeps(e.tx, Parse(raw).offer.expected, e.binding.value.flight);
  }

  // ---- Whom an end lets bind -----------------------------------------------

  // A server takes a client with its own identity, its own compression setting, and an
  // offset that is still retained; nothing else, and none when it is closed.
  lemma WelcomesExactly(e: Endpoint, id: SessionID, offer: Offer, connMTU: int)
    requires EndpointOk(e)
    ensures Welcome(e, id, offer, connMTU).Ok?
            <==> id == e.id && offer.compression == e.config.compression && !e.closed && e.tx.base <= offer.expected <= e.tx.next
  {
    hide WellFormed, FlightOk, EncodeHelloAck, Negotiate, NormalizeMTU;
    ReconcileKeeps(e.tx, offer.expected, Flight(0, 0, 0, 0));
  }

  // A client goes on with a server that compresses exactly if it asked for it.
  lemma ResumesExactly(e: Endpoint, compression: bool, offer: Offer, connMTU: int)
    requires EndpointOk(e)
    ensures Resume(e, compression, offer, connMTU).Ok? <==> offer.compression == compression && e.tx.base <= offer.expected <= e.tx.next
  {
    hide WellFormed, FlightOk, Negotiate, NormalizeMTU;
    ReconcileKeeps(e.tx, offer.expected, Flight(0, 0, 0, 0));
  }

  // The copy of the compression setting a client compares is its own.
  predicate OwnCopy(s: End, ev: Event) {
    ev.Rejoin? ==> ev.compression == s.e.config.compression
  }

  ghost predicate OwnCopies(s: End, events: seq<Event>) {
    events != [] ==>
      && OwnCopies(s, events[..|events| - 1])
      && OwnCopy(RunEnd(s, events[..|events| - 1]), events[|events| - 1])
  }

  // So compression is as configured, over every run of one end under any packets; the
  // limits only ever fall, and stay above zero.
  lemma {:induction false} SettingsOverRuns(s: End, events: seq<Event>)
    requires EndOk(s) && OwnCopies(s, events)
    ensures var c, c' := s.e.config, RunEnd(s, events).e.config;
            && c'.compression == c.compression && c'.replayWindow == c.replayWindow
            && 0 < c'.resumeTimeout <= c.resumeTimeout && 0 < c'.maxConnections <= c.maxConnections
    decreases |events|
  {
    hide EndOk, Occur;
    assert s.e.config.resumeTimeout > 0 && s.e.config.maxConnections > 0 by { ConfigInEnd(s); }
    if events != [] {
      var before := RunEnd(s, events[..|events| - 1]);
      SettingsOverRuns(s, events[..|events| - 1]);
      SettingsKept(before, events[|events| - 1]);
    }
  }

  lemma ConfigInEnd(s: End)
    requires EndOk(s)
    ensures ConfigOk(s.e.config)
  {}

  lemma SettingsKept(s: End, ev: Event)
    requires OwnCopy(s, ev) && s.e.config.resumeTimeout > 0 && s.e.config.maxConnections > 0
    ensures var c, c' := s.e.config, Occur(s, ev).e.config;
            && c'.compression == c.compression && c'.replayWindow == c.replayWindow
            && 0 < c'.resumeTimeout <= c.resumeTimeout && 0 < c'.maxConnections <= c.maxConnections
  {
    hide Parse, Accept, LinkEndpoint.HandleAck, AckAfter, Reconcile, SendData, Prepared, EncodeAck, EncodeHelloAck, NormalizeMTU;
  }

  // A new binding starts over at the oldest unacknowledged byte with a window of eight
  // packets, an owed acknowledgement goes out at once, its packet size is what both
  // sides can do, and its pulse is that of a new binding, with three seconds to the
  // first probe.
  lemma AttachStartsOver(e: Endpoint, connMTU: int, mtu: int, now: nat, later: nat)
    requires EndpointOk(e) && !e.closed && now <= later
    ensures var e' := Attach(e, connMTU, mtu, now);
            && Live(e') && e'.tx == e.tx && e'.rx.next == e.rx.next && e'.rx.buf == e.rx.buf && e'.rx.pending == map[]
            && e'.binding.value.mtu == Min(NormalizeMTU(connMTU), NormalizeMTU(mtu))
            && e'.binding.value.flight == Flight(e.tx.base, 0, 0, 8) && e'.binding.value.pulse == Heartbeat.Bound(now).p
            && (now > 0 ==> (Heartbeat.Check(e'.binding.value.pulse, later).1 == Heartbeat.Wait <==> later < now + Heartbeat.HEARTBEAT_INTERVAL))
            && (e.ack.dirty ==> Nth(e', later, Ahead(e')) == Some(EncodeAck(e.rx.next)))
            && (e.tx.base < e.tx.next && e.tx.base + FlightBytes(e', later) <= MAX_U64 ==>
                  exists n :: n <= 3 && Nth(e', later, n)
                    == Some(EncodeData(e.tx.base, e.tx.buf[..Min(PayloadLimit(e'.binding.value.mtu), e.tx.next - e.tx.base)])))
  {
    hide EndpointOk, EncodeAck, EncodeData, NormalizeMTU, Nth, PayloadLimit, WindowBytes, Prepared;
    AttachKeeps(e, connMTU, mtu, now);
    var e' := Attach(e, connMTU, mtu, now);
    if e.ack.dirty { DueAckGoes(e', later); }
    if e.tx.base < e.tx.next && e.tx.base + FlightBytes(e', later) <= MAX_U64 { OutstandingIsResent(e', later); }
  }

  // ---- Unbound and closed --------------------------------------------------

  // Without a binding nothing is handled and nothing happens to what was received.
  lemma UnboundIsDeaf(e: Endpoint, raw: seq<byte>, now: nat)
    requires !e.closed
    ensures var e' := Detach(e);
            !Live(e') && e'.binding == None && Handle(e', raw, now) == (e', None) && e' == e.(binding := None)
  {}

  // Once closed, an end is never bound again, handles and sends nothing, and takes no
  // more bytes, over every run.
  lemma {:induction false} ClosedForGood(s: End, events: seq<Event>)
    requires s.e.closed && s.e.binding == None
    ensures var e := RunEnd(s, events).e;
            e.closed && e.binding == None && e.rx.next == s.e.rx.next && e.tx.next == s.e.tx.next
    decreases |events|
  {
    hide Occur;
    if events != [] {
      ClosedForGood(s, events[..|events| - 1]);
      ClosedOnce(RunEnd(s, events[..|events| - 1]), events[|events| - 1]);
    }
  }

  lemma ClosedOnce(s: End, ev: Event)
    requires s.e.closed && s.e.binding == None
    ensures var e := Occur(s, ev).e;
            e.closed && e.binding == None && e.rx.next == s.e.rx.next && e.tx.next == s.e.tx.next
  {
    hide Parse, EncodeHelloAck, NormalizeMTU;
  }

  lemma StopCloses(s: End)
    requires s.e.closed ==> s.e.binding == None
    ensures var e := Happen(s, Stop).e; e.closed && e.binding == None && e.tx == s.e.tx && e.rx == s.e.rx
  {}
}
