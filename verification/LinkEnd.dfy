// One end over any run of its critical sections, whatever packets reach it:
// acknowledgements owed, retransmission timers, window bounds and counters.
module LinkEnd {
  import opened Bytes
  import opened Fragments
  import opened Reassembly
  import opened LinkPackets
  import opened LinkEndpoint
  import opened LinkInvariants

  datatype Event =
    | Receive(raw: seq<byte>, now: nat)
    | SendNext(now: nat)
    | Bind(connMTU: int, mtu: int, now: nat)
    | Unbind
    | Stop
    | Put(p: seq<byte>)
    | Get(size: nat)
    | Greet(id: SessionID, offer: Offer, connMTU: int)
    | Rejoin(compression: bool, offer: Offer, connMTU: int)

  // An end with the latest time seen, the last ACK it emitted, and the bytes
  // dropped when a binding was replaced.
  datatype End = End(e: Endpoint, clock: nat, lastAck: nat, discarded: nat)

  // Events carry times that do not run backwards; one that would is skipped.
  function At(ev: Event, clock: nat): nat {
    if ev.Receive? || ev.SendNext? || ev.Bind? then ev.now else clock
  }

  ghost function Occur(s: End, ev: Event): End {
    if At(ev, s.clock) < s.clock then s
    else Happen(s.(clock := At(ev, s.clock)), ev)
  }

  ghost function Happen(s: End, ev: Event): End {
    match ev
    case Receive(raw, now) => s.(e := Handle(s.e, raw, now).0)
    case SendNext(now) =>
      if !Live(s.e) then s else
      s.(e := NextPacket(s.e, now).0,
         lastAck := if NextIsAck(s.e, now) then s.e.rx.next else s.lastAck)
    case Bind(connMTU, mtu, now) =>
      s.(e := Attach(s.e, connMTU, mtu, now),
         discarded := if s.e.closed then s.discarded else s.discarded + Max(0, s.e.rx.pendingBytes))
    case Unbind => s.(e := Detach(s.e))
    case Stop => s.(e := Shut(s.e))
    case Put(p) =>
      if s.e.closed || WriteSize(s.e, |p|) > MAX_U64 - s.e.tx.next then s
      else s.(e := s.e.(tx := Append(s.e.tx, p[..WriteSize(s.e, |p|)])))
    case Get(size) => s.(e := Take(s.e, Min(size, |s.e.rx.buf|)))
    case Greet(id, offer, connMTU) =>
      (match Welcome(s.e, id, offer, connMTU) case Ok((e, _, _)) => s.(e := e) case Err(_) => s)
    case Rejoin(compression, offer, connMTU) =>
      (match Resume(s.e, compression, offer, connMTU) case Ok((e, _)) => s.(e := e) case Err(_) => s)
  }

  predicate NextIsAck(e: Endpoint, now: nat) {
    e.helloReply == [] && !e.pongDirty && AckDue(e.ack, now)
  }

  ghost function RunEnd(s: End, events: seq<Event>): End {
    if events == [] then s else Occur(RunEnd(s, events[..|events| - 1]), events[|events| - 1])
  }

  // ---- The invariant -------------------------------------------------------

  // No forgotten ACK: progress past the last ACK emitted is owed, and due at
  // the latest 40 ms after the latest event.
  predicate AckOwed(s: End) {
    && s.lastAck <= s.e.rx.next
    && (s.e.rx.next > s.lastAck ==> s.e.ack.dirty)
    && (!s.e.ack.dirty ==> s.e.ack.deadline == 0)
    && (s.e.ack.dirty ==> s.e.ack.packets >= ACK_BATCH_PACKETS || s.e.ack.deadline <= s.clock + ACK_MAX_DELAY)
  }

  // Every byte counted was delivered, is pending, or was dropped by a re-bind.
  predicate Conserved(s: End) {
    s.e.rx.dataRX == s.e.rx.next + s.e.rx.pendingBytes + s.discarded
  }

  ghost predicate EndOk(s: End) {
    EndpointOk(s.e) && AckOwed(s) && Conserved(s) && TimerSoon(s.e, s.clock)
  }

  lemma ReceiveOk(s: End, raw: seq<byte>, now: nat)
    requires EndOk(s) && s.clock <= now
    ensures EndOk(s.(clock := now, e := Handle(s.e, raw, now).0))
  {
    hide EndpointOk, Parse, HandleData, LinkEndpoint.HandleAck, HandleHello;
    HandleKeeps(s.e, raw, now);
    HandleKeepsTimer(s.e, raw, now);
    if raw != [] && Live(s.e) {
      var h := Heard(s.e, now);
      HeardOk(s.e, now);
      match Parse(raw)
      case Data(start, payload) =>
        DataOwesAck(s.(clock := now, e := h), start, payload);
      case Hello(offer, known) => HelloKeepsReceiver(h, offer, known);
      case _ =>
    }
  }

  lemma HelloKeepsReceiver(e: Endpoint, offer: Offer, known: bool)
    requires Live(e)
    ensures var e' := HandleHello(e, offer, known).0; e'.rx == e.rx && e'.ack == e.ack
  {}

  lemma DataOwesAck(s: End, start: nat, payload: seq<byte>)
    requires EndOk(s)
    ensures var s' := s.(e := HandleData(s.e, start, payload, s.clock).0);
            AckOwed(s') && Conserved(s')
  {
    hide Accept, WellFormed, BindingOk, SenderOk;
    AcceptConserves(s.e.rx, s.e.config.replayWindow, start, payload);
    RefusalChangesNothing(s.e.rx, s.e.config.replayWindow, start, payload);
    NextNeverFalls(s.e.rx, s.e.config.replayWindow, start, payload);
  }

  lemma NextNeverFalls(r: Receiver, window: nat, start: nat, payload: seq<byte>)
    requires WellFormed(r, window)
    ensures r.next <= Accept(r, window, start, payload).0.next
  {
    hide Orderly;
    if |payload| > 0 { AcceptKeepsWindow(r, window, start, payload); }
  }

  lemma SendOk(s: End, now: nat)
    requires EndOk(s) && s.clock <= now
    ensures EndOk(Happen(s.(clock := now), SendNext(now)))
  {
    hide EndpointOk, SendData, Prepared, EncodeAck;
    if Live(s.e) {
      NextPacketKeeps(s.e, now);
      NextKeepsTimer(s.e, now);
    }
  }

  lemma BindOk(s: End, connMTU: int, mtu: int, now: nat)
    requires EndOk(s) && s.clock <= now
    ensures EndOk(Happen(s.(clock := now), Bind(connMTU, mtu, now)))
  {
    hide NormalizeMTU;
    AttachKeeps(s.e, connMTU, mtu, now);
  }

  lemma PutOk(s: End, p: seq<byte>)
    requires EndOk(s)
    ensures EndOk(Happen(s, Put(p)))
  {
    hide EndpointOk;
    if !s.e.closed && WriteSize(s.e, |p|) <= MAX_U64 - s.e.tx.next {
      WriteKeeps(s.e, p[..WriteSize(s.e, |p|)]);
    }
  }

  lemma GetOk(s: End, size: nat)
    requires EndOk(s)
    ensures EndOk(Happen(s, Get(size)))
  {
    hide EndpointOk;
    TakeKeeps(s.e, Min(size, |s.e.rx.buf|));
  }

  lemma RejoinOk(s: End, ev: Event)
    requires EndOk(s) && (ev.Greet? || ev.Rejoin?)
    ensures EndOk(Happen(s, ev))
  {
    hide WellFormed, FlightOk, SenderOk, Reconcile, EncodeHelloAck, NormalizeMTU;
    if s.e.binding.Some? {
      ReconcileKeeps(s.e.tx, ev.offer.expected, s.e.binding.value.flight);
    } else {
      ReconcileKeeps(s.e.tx, ev.offer.expected, Flight(0, 0, 0, 0));
    }
  }

  lemma OccurOk(s: End, ev: Event)
    requires EndOk(s)
    ensures EndOk(Occur(s, ev))
  {
    hide EndOk, Handle, NextPacket, Attach, Welcome, Resume;
    if At(ev, s.clock) >= s.clock {
      match ev
      case Receive(raw, now) => ReceiveOk(s, raw, now);
      case SendNext(now) => SendOk(s, now);
      case Bind(connMTU, mtu, now) => BindOk(s, connMTU, mtu, now);
      case Unbind => UnbindOk(s);
      case Stop => UnbindOk(s);
      case Put(p) => PutOk(s, p);
      case Get(size) => GetOk(s, size);
      case Greet(_, _, _) => RejoinOk(s, ev);
      case Rejoin(_, _, _) => RejoinOk(s, ev);
    }
  }

  lemma UnbindOk(s: End)
    requires EndOk(s)
    ensures EndOk(Happen(s, Unbind)) && EndOk(Happen(s, Stop))
  {
    hide WellFormed, FlightOk, SenderOk;
  }

  // Over every run of one end, with arbitrary packets: the replay buffer, the
  // receive window, the flight window and timer, the acknowledgement owed and
  // the byte counters all stay right.
  lemma {:induction false} EndOverRuns(s: End, events: seq<Event>)
    requires EndOk(s)
    ensures EndOk(RunEnd(s, events))
    decreases |events|
  {
    hide EndOk, Occur;
    if events == [] {
    } else {
      EndOverRuns(s, events[..|events| - 1]);
      OccurOk(RunEnd(s, events[..|events| - 1]), events[|events| - 1]);
    }
  }

  // An end as it is created.
  function New(id: SessionID, config: Config): End {
    End(NewEndpoint(id, config), 0, 0, 0)
  }

  lemma NewOk(id: SessionID, config: Config)
    requires ConfigOk(config)
    ensures EndOk(New(id, config))
  {
    hide EndpointOk;
    NewEndpointOk(id, config);
  }

  // So they are for every session from its creation on.
  lemma EndFromStart(id: SessionID, config: Config, events: seq<Event>)
    requires ConfigOk(config)
    ensures EndOk(RunEnd(New(id, config), events))
  {
    NewOk(id, config);
    EndOverRuns(New(id, config), events);
  }

  // ---- What the invariant gives --------------------------------------------

  // The state after n more packets were taken by the send loop at `now`.
  function After(e: Endpoint, now: nat, n: nat): (e': Endpoint)
    requires Live(e)
    ensures Live(e')
  {
    if n == 0 then e else NextPacket(After(e, now, n - 1), now).0
  }

  function Nth(e: Endpoint, now: nat, n: nat): Option<seq<byte>>
    requires Live(e)
  {
    NextPacket(After(e, now, n), now).1
  }

  // How many packets go before acknowledgements: a reply and a PONG.
  function Ahead(e: Endpoint): nat {
    (if e.helloReply != [] then 1 else 0) + (if e.pongDirty then 1 else 0)
  }

  lemma AfterAhead(e: Endpoint, now: nat)
    requires Live(e)
    ensures After(e, now, Ahead(e)) == e.(helloReply := [], pongDirty := false)
  {
    hide SendData, Prepared, EncodeAck;
    assert After(e, now, 0) == e;
    assert After(e, now, 1) == NextPacket(e, now).0;
    assert After(e, now, 2) == NextPacket(After(e, now, 1), now).0;
  }

  // 40 ms after the latest event at the latest, the cumulative ACK for all
  // progress is among the next three packets.
  lemma OwedAckIsEmitted(s: End, now: nat)
    requires EndOk(s) && Live(s.e) && s.e.rx.next > s.lastAck && now >= s.clock + ACK_MAX_DELAY
    ensures Ahead(s.e) <= 2 && Nth(s.e, now, Ahead(s.e)) == Some(EncodeAck(s.e.rx.next))
  {
    hide EndpointOk, EncodeAck, After;
    AfterAhead(s.e, now);
  }

  // With bytes outstanding and the timer out, the oldest byte is sent again
  // within four packets, as long as the window end does not wrap.
  lemma OutstandingIsResent(e: Endpoint, now: nat)
    requires EndpointOk(e) && Live(e) && e.tx.base < e.tx.next && RetransmitDue(e, now)
    requires e.tx.base + FlightBytes(e, now) <= MAX_U64
    ensures var n := Ahead(e) + (if AckDue(e.ack, now) then 1 else 0);
            && n <= 3
            && After(e, now, n) == e.(helloReply := [], pongDirty := false,
                                      ack := if AckDue(e.ack, now) then AckState(false, 0, 0) else e.ack)
            && Nth(e, now, n) == Some(EncodeData(e.tx.base, e.tx.buf[..Min(PayloadLimit(e.binding.value.mtu), e.tx.next - e.tx.base)]))
  {
    hide EncodeAck, EncodeData, SendData, Prepared, WellFormed;
    AfterAhead(e, now);
    var m := e.(helloReply := [], pongDirty := false);
    if AckDue(e.ack, now) {
      assert After(e, now, Ahead(e) + 1) == NextPacket(m, now).0;
      RetransmitsOldestUnlessWrapped(m.(ack := AckState(false, 0, 0)), now);
    } else {
      RetransmitsOldestUnlessWrapped(m, now);
    }
  }

  // One second after the latest event the timer of whatever is outstanding is out.
  lemma ResentWithinOneSecond(s: End, now: nat)
    requires EndOk(s) && Live(s.e) && s.e.tx.base < s.e.tx.next && now >= s.clock + RETRANSMIT_INTERVAL
    requires s.e.tx.base + FlightBytes(s.e, now) <= MAX_U64
    ensures var n := Ahead(s.e) + (if AckDue(s.e.ack, now) then 1 else 0);
            && n <= 3
            && Nth(s.e, now, n) == Some(EncodeData(s.e.tx.base, s.e.tx.buf[..Min(PayloadLimit(s.e.binding.value.mtu), s.e.tx.next - s.e.tx.base)]))
  {
    hide EndpointOk, EncodeData, After, Nth, Prepared, WindowBytes;
    OutstandingIsResent(s.e, now);
  }

  // At the end of the 64-bit offset space the unguarded window sum wraps, and
  // bytes the session accepted are never sent.
  lemma WrappedWindowStalls() returns (e: Endpoint)
    ensures EndpointOk(e) && Live(e) && e.tx.base < e.tx.next
    ensures forall now: nat :: NextPacket(e, now).1 == None
  {
    var base := MAX_U64 - 5;
    e := Endpoint(seq(16, i => 0), Config(60_000 * MILLISECOND, 1048576, 32, false),
                  Sender(base, base + 1, [7]), Receiver(0, [], map[], 0, 0), AckState(false, 0, 0), false, [], None,
                  Some(BindingState(20, Pulse(0, false, 0, 0), Flight(base, 0, 0, 8))), false);
    assert Total(map[]) == 0;
    forall now: nat ensures NextPacket(e, now).1 == None {
      RetransmitsOldestUnlessWrapped(e, now);
    }
  }

  // The byte bound on unacknowledged flight holds from binding on, through
  // growth, halving, timeouts, acknowledgements, and each event: exactly if the
  // event is not a HELLO whose packet size what was sent does not fit.
  lemma FlightStaysBounded(s: End, ev: Event)
    requires EndOk(s) && Live(s.e) && Live(Occur(s, ev).e) && WithinFlight(s.e.tx, s.e.binding.value)
    ensures WithinFlight(Occur(s, ev).e.tx, Occur(s, ev).e.binding.value)
            <==> (ev.Receive? && ev.now >= s.clock ==> FitsPacketSize(s.e, ev.raw))
  {
    hide WellFormed, FlightOk, Handle, NextPacket, SenderOk, Accept, Reconcile, EncodeHelloAck, NormalizeMTU, WindowBytes, FitsPacketSize;
    if At(ev, s.clock) >= s.clock {
      match ev
      case Receive(raw, now) => HandleKeepsFlight(s.e, raw, now);
      case SendNext(now) => NextPacketKeeps(s.e, now);
      case Bind(connMTU, mtu, now) => AttachKeeps(s.e, connMTU, mtu, now);
      case Greet(_, offer, _) => ReconcileKeeps(s.e.tx, offer.expected, s.e.binding.value.flight);
      case Rejoin(_, offer, _) => ReconcileKeeps(s.e.tx, offer.expected, s.e.binding.value.flight);
      case _ =>
    }
  }

  // A HELLO that shrinks the packet size can leave more in flight than the
  // smaller window allows.
  lemma ShrunkPacketSizeOverruns() returns (e: Endpoint, offer: Offer)
    ensures EndpointOk(e) && Live(e) && WithinFlight(e.tx, e.binding.value)
    ensures var (e', error) := HandleHello(e, offer, true);
            error == None && e'.binding.Some? && !WithinFlight(e'.tx, e'.binding.value)
  {
    var id: SessionID := seq(16, i => 0);
    e := Endpoint(id, Config(60_000 * MILLISECOND, 1048576, 32, false),
                  Sender(0, 1000, seq(1000, i => 0)), Receiver(0, [], map[], 0, 0), AckState(false, 0, 0), false, [], Some(id),
                  Some(BindingState(244, Pulse(0, false, 0, 0), Flight(1000, 1, 0, 8))), false);
    offer := Offer(0, 60_000 * MILLISECOND, 32, 20, false);
    assert Total(map[]) == 0;
  }

}
