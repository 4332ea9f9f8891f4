// How the sender's flight moves: what acknowledgements, timeouts and the send loop do
// to it over whole runs, and when the receiver answers.
module LinkFlow {
  import opened Bytes
  import opened Reassembly
  import opened LinkPackets
  import opened LinkEndpoint
  import opened LinkInvariants
  import opened LinkEnd

  function FlightOf(e: Endpoint): Flight
    requires Live(e)
  {
    e.binding.value.flight
  }

  // Everything but the sender, its flight and the pulse is as it was.
  predicate OnlyFlight(e: Endpoint, e': Endpoint) {
    && Live(e) && Live(e') && e'.binding.value.mtu == e.binding.value.mtu
    && e' == e.(tx := e'.tx, binding := e'.binding)
  }

  lemma OnlyFlightTwice(e: Endpoint, m: Endpoint, e': Endpoint)
    requires OnlyFlight(e, m) && OnlyFlight(m, e')
    ensures OnlyFlight(e, e')
  {}

  lemma OnlyFlightLive(e: Endpoint, e': Endpoint)
    requires OnlyFlight(e, e')
    ensures Live(e) && Live(e') && e'.binding.value.mtu == e.binding.value.mtu
    ensures e'.helloReply == e.helloReply && e'.pongDirty == e.pongDirty && e'.ack == e.ack && e'.rx == e.rx
  {}

  // ---- Acknowledgements ----------------------------------------------------

  datatype Acknowledged = Acknowledged(expected: nat, at: nat)

  // The packets arrive one after the other.
  ghost function Acks(e: Endpoint, acks: seq<Acknowledged>): Endpoint {
    if acks == [] then e
    else
      var last := acks[|acks| - 1];
      Handle(Acks(e, acks[..|acks| - 1]), EncodeAck(last.expected), last.at).0
  }

  lemma AckHandled(e: Endpoint, expected: nat, now: nat)
    requires Live(e) && expected <= MAX_U64
    ensures Handle(e, EncodeAck(expected), now) == HandleParsed(Heard(e, now), Ack(expected), now)
  {
    AckRoundTrip(expected);
    assert EncodeAck(expected) != [];
  }

  predicate AllRepeat(acks: seq<Acknowledged>, base: nat) {
    forall i :: 0 <= i < |acks| ==> acks[i].expected == base
  }

  function AfterRepeats(f: Flight, base: nat, acks: seq<Acknowledged>): Flight {
    var missing := if f.duplicateACK < 3 then 3 - f.duplicateACK else 1;
    if |acks| < missing then f.(duplicateACK := f.duplicateACK + |acks|)
    else Flight(base, acks[missing - 1].at + RETRANSMIT_INTERVAL, 0, Max(8, f.flightPackets / 2))
  }

  function OneRepeat(f: Flight, base: nat, now: nat): Flight {
    if f.sendNext <= base then f
    else if f.duplicateACK < 2 then f.(duplicateACK := f.duplicateACK + 1)
    else Flight(base, now + RETRANSMIT_INTERVAL, 0, Max(8, f.flightPackets / 2))
  }

  lemma OneMoreRepeat(f: Flight, base: nat, acks: seq<Acknowledged>)
    requires acks != [] && f.sendNext > base && f.duplicateACK < 3
    ensures AfterRepeats(f, base, acks) == OneRepeat(AfterRepeats(f, base, acks[..|acks| - 1]), base, acks[|acks| - 1].at)
  {}

  lemma AllRepeatBefore(acks: seq<Acknowledged>, base: nat)
    requires acks != [] && AllRepeat(acks, base)
    ensures AllRepeat(acks[..|acks| - 1], base) && acks[|acks| - 1].expected == base
  {}

  lemma CountBelowThree(e: Endpoint)
    requires EndpointOk(e) && Live(e)
    ensures FlightOf(e).duplicateACK < 3 && 8 <= FlightOf(e).flightPackets <= 128 && FlightOf(e).sendNext <= e.tx.next <= MAX_U64
    ensures |e.tx.buf| == e.tx.next - e.tx.base && e.tx.base <= e.tx.next
  {}

  // Acknowledgements that repeat the base, with bytes in flight: the one that makes
  // three goes back to the oldest byte, arms the timer anew, forgets the count and
  // halves the window, not below eight packets. None before it and none after it does
  // anything but count.
  lemma {:induction false} RepeatedAcks(e: Endpoint, acks: seq<Acknowledged>)
    requires EndpointOk(e) && Live(e) && FlightOf(e).sendNext > e.tx.base && AllRepeat(acks, e.tx.base)
    ensures var e' := Acks(e, acks);
            && EndpointOk(e') && Live(e') && OnlyFlight(e, e') && e'.tx == e.tx
            && FlightOf(e') == AfterRepeats(FlightOf(e), e.tx.base, acks)
    decreases |acks|
  {
    if acks != [] {
      hide EndpointOk, Handle, EncodeAck, OnlyFlight, AfterRepeats, OneRepeat, AllRepeat;
      var before, last := acks[..|acks| - 1], acks[|acks| - 1];
      AllRepeatBefore(acks, e.tx.base);
      RepeatedAcks(e, before);
      var m := Acks(e, before);
      RepeatOnce(m, last.at);
      HandleKeeps(m, EncodeAck(e.tx.base), last.at);
      OnlyFlightTwice(e, m, Acks(e, acks));
      CountBelowThree(e);
      OneMoreRepeat(FlightOf(e), e.tx.base, acks);
    } else {
      hide EndpointOk;
      assert Acks(e, acks) == e;
    }
  }

  lemma RepeatOnce(e: Endpoint, now: nat)
    requires EndpointOk(e) && Live(e)
    ensures var e' := Handle(e, EncodeAck(e.tx.base), now).0;
            && Live(e') && OnlyFlight(e, e') && e'.tx == e.tx
            && FlightOf(e') == OneRepeat(FlightOf(e), e.tx.base, now)
  {
    hide WellFormed, LinkEndpoint.HandleAck, OneRepeat, Parse, EncodeAck;
    CountBelowThree(e);
    AckHandled(e, e.tx.base, now);
    RepeatResult(e.tx, FlightOf(e), now);
  }

  lemma RepeatResult(tx: Sender, f: Flight, now: nat)
    requires SenderOk(tx) && f.flightPackets >= 8
    ensures LinkEndpoint.HandleAck(tx, f, tx.base, now) == Ok((tx, OneRepeat(f, tx.base, now)))
  {
    hide Halved;
    HalvedIs(f.flightPackets);
    assert tx.buf[0..] == tx.buf;
  }

  lemma HalvedIs(packets: nat)
    requires packets >= 8
    ensures Halved(packets) == Max(8, packets / 2)
  {}

  // Each acknowledges more than the one before, and no more than was sent.
  predicate AllAdvance(acks: seq<Acknowledged>, base: nat, next: nat) {
    && (forall i :: 0 <= i < |acks| ==> base < acks[i].expected <= next)
    && (forall i, j :: 0 <= i < j < |acks| ==> acks[i].expected < acks[j].expected)
  }

  // Acknowledgements that move the base: each lets one packet more into flight, up to
  // 128, and forgets repetitions; the timer starts again for what is still in flight,
  // and stops when nothing is.
  lemma {:induction false} AdvancingAcks(e: Endpoint, acks: seq<Acknowledged>)
    requires EndpointOk(e) && Live(e) && acks != [] && AllAdvance(acks, e.tx.base, e.tx.next)
    ensures var e', last := Acks(e, acks), acks[|acks| - 1];
            && EndpointOk(e') && Live(e') && OnlyFlight(e, e')
            && last.expected - e.tx.base <= |e.tx.buf|
            && e'.tx == Sender(last.expected, e.tx.next, e.tx.buf[last.expected - e.tx.base..])
            && FlightOf(e') == AfterAdvances(FlightOf(e), last, |acks|)
    decreases |acks|
  {
    hide EndpointOk, Handle, EncodeAck, OnlyFlight;
    var before, last := acks[..|acks| - 1], acks[|acks| - 1];
    var m := Acks(e, before);
    CountBelowThree(e);
    if before == [] {
      assert m == e;
    } else {
      AdvancingAcks(e, before);
      assert before[|before| - 1] == acks[|acks| - 2];
    }
    AdvanceOnce(m, last);
    HandleKeeps(m, EncodeAck(last.expected), last.at);
    if before != [] {
      OnlyFlightTwice(e, m, Acks(e, acks));
      CutTwice(e.tx.buf, acks[|acks| - 2].expected - e.tx.base, last.expected - e.tx.base);
    }
  }

  function AfterAdvances(f: Flight, last: Acknowledged, n: nat): Flight {
    Flight(Max(f.sendNext, last.expected), if f.sendNext > last.expected then last.at + RETRANSMIT_INTERVAL else 0,
           0, Min(128, f.flightPackets + n))
  }

  lemma CutTwice(s: seq<byte>, i: nat, j: nat)
    requires i <= j <= |s|
    ensures s[i..][j - i..] == s[j..]
  {}

  lemma AdvanceOnce(e: Endpoint, a: Acknowledged)
    requires EndpointOk(e) && Live(e) && e.tx.base < a.expected <= e.tx.next
    ensures var e' := Handle(e, EncodeAck(a.expected), a.at).0;
            && Live(e') && OnlyFlight(e, e') && a.expected - e.tx.base <= |e.tx.buf|
            && e'.tx == Sender(a.expected, e.tx.next, e.tx.buf[a.expected - e.tx.base..])
            && FlightOf(e') == AfterAdvances(FlightOf(e), a, 1)
  {
    hide WellFormed;
    AckHandled(e, a.expected, a.at);
  }

  // ---- The send loop -------------------------------------------------------

  // The offset up to which the window lets bytes go out.
  ghost function Reach(e: Endpoint): nat
    requires EndpointOk(e) && Live(e)
  {
    Min(e.tx.next, e.tx.base + Full(e) * FlightOf(e).flightPackets)
  }

  // The bytes a full packet carries, behind nine of header.
  ghost function Full(e: Endpoint): (n: nat)
    requires EndpointOk(e) && Live(e)
    ensures n >= 11
  {
    e.binding.value.mtu - 9
  }

  lemma FullIsLimit(e: Endpoint)
    requires EndpointOk(e) && Live(e)
    ensures Full(e) == PayloadLimit(e.binding.value.mtu)
  {}

  predicate NoWrap(e: Endpoint)
    requires Live(e)
  {
    e.tx.base + WindowBytes(e.binding.value.mtu, MAX_FLIGHT_PACKETS) <= MAX_U64
  }

  // Nothing has to be sent again.
  predicate NotDue(e: Endpoint, now: nat)
    requires Live(e)
  {
    var f := FlightOf(e);
    e.tx.base <= f.sendNext && (f.retransmitAt == 0 || now < f.retransmitAt)
  }

  lemma SendsOne(e: Endpoint, now: nat)
    requires EndpointOk(e) && Live(e) && NothingQueued(e, now) && NotDue(e, now) && NoWrap(e)
    ensures var (e', packet) := NextPacket(e, now);
            var f, end := FlightOf(e), Min(FlightOf(e).sendNext + Full(e), Reach(e));
            if f.sendNext < Reach(e) then
              && packet == Some(EncodeData(f.sendNext, e.tx.buf[f.sendNext - e.tx.base..end - e.tx.base]))
              && Live(e') && OnlyFlight(e, e') && e'.tx == e.tx
              && FlightOf(e') == AfterBurst(f, e.tx.base, end, now)
            else packet == None && e' == e
  {
    hide EndpointOk, EncodeData, WindowBytes, PayloadLimit, SendData, Prepared, AfterBurst, Reach;
    var b := e.binding.value;
    WindowUnwrapped(e);
    PreparedIsSame(e, now);
    CountBelowThree(e);
    FullIsLimit(e);
    SendDataIs(e.tx, b.mtu, b.flight, Reach(e), now);
  }

  lemma PreparedIsSame(e: Endpoint, now: nat)
    requires EndpointOk(e) && Live(e) && NotDue(e, now)
    ensures Prepared(e.tx, FlightOf(e), now) == FlightOf(e)
    ensures Reach(e) <= e.tx.next && e.tx.base <= FlightOf(e).sendNext
  {
    hide WellFormed, WindowBytes;
  }

  lemma SendDataIs(tx: Sender, mtu: nat, f: Flight, limit: nat, now: nat)
    requires limit == WindowLimit(tx, mtu, f.flightPackets) && limit <= tx.next && tx.base <= tx.next && |tx.buf| == tx.next - tx.base
    requires tx.base <= f.sendNext
    ensures var (g, packet) := SendData(tx, mtu, f, now);
            var end := Min(f.sendNext + PayloadLimit(mtu), limit);
            if f.sendNext < limit then
              && packet == Some(EncodeData(f.sendNext, tx.buf[f.sendNext - tx.base..end - tx.base]))
              && g == AfterBurst(f, tx.base, end, now)
            else packet == None && g == f
  {
    hide EncodeData, PayloadLimit, WindowLimit;
    SomePayload(mtu);
  }

  lemma SomePayload(mtu: nat)
    ensures PayloadLimit(mtu) >= 1
  {}

  lemma WindowUnwrapped(e: Endpoint)
    requires EndpointOk(e) && Live(e) && NoWrap(e)
    ensures WindowLimit(e.tx, e.binding.value.mtu, FlightOf(e).flightPackets) == Reach(e)
    ensures AtLeastInitial(FlightOf(e).flightPackets) == FlightOf(e).flightPackets
  {
    hide PayloadLimit, WellFormed;
    FullIsLimit(e);
    ProductMonotone(PayloadLimit(e.binding.value.mtu), FlightOf(e).flightPackets, MAX_FLIGHT_PACKETS);
  }

  // How far n packets of a size get from an offset to a limit.
  function Edge(start: nat, size: nat, limit: nat, n: nat): nat {
    if n == 0 then start
    else
      var p := Edge(start, size, limit, n - 1);
      if p < limit then Min(p + size, limit) else p
  }

  lemma {:induction false} EdgeReaches(start: nat, size: nat, limit: nat, n: nat)
    requires start <= limit && size >= 1
    ensures start <= Edge(start, size, limit, n) <= limit
    ensures Edge(start, size, limit, n) >= Min(limit, start + n)
    decreases n
  {
    if n > 0 { EdgeReaches(start, size, limit, n - 1); }
  }

  // The flight once all up to an offset has gone.
  function AfterBurst(f: Flight, base: nat, from: nat, now: nat): Flight {
    Flight(from, if from > f.sendNext && f.sendNext == base && f.retransmitAt == 0 then now + RETRANSMIT_INTERVAL else f.retransmitAt,
           f.duplicateACK, f.flightPackets)
  }

  lemma BurstInTwo(f: Flight, base: nat, mid: nat, to: nat, now: nat)
    requires base <= f.sendNext <= mid <= to
    ensures AfterBurst(AfterBurst(f, base, mid, now), base, to, now) == AfterBurst(f, base, to, now)
  {}

  // With nothing else to send and nothing to send again, the loop sends what the
  // window allows, in order, each packet full but perhaps the last, and then nothing;
  // the timer is armed by the first packet that leaves from the base, and by no other.
  lemma {:induction false} WindowGoesOut(e: Endpoint, now: nat, n: nat)
    requires EndpointOk(e) && Live(e) && NothingQueued(e, now) && NotDue(e, now) && NoWrap(e)
    ensures var e', f, size := After(e, now, n), FlightOf(e), Full(e);
            var from, to := Edge(f.sendNext, size, Reach(e), n), Edge(f.sendNext, size, Reach(e), n + 1);
            && Live(e') && OnlyFlight(e, e') && e'.tx == e.tx && EndpointOk(e')
            && FlightOf(e') == AfterBurst(f, e.tx.base, from, now)
            && e.tx.base <= f.sendNext <= from <= to
            && (if from < to then to <= e.tx.next && Nth(e, now, n) == Some(EncodeData(from, e.tx.buf[from - e.tx.base..to - e.tx.base]))
                else from >= Reach(e) && Nth(e, now, n) == None)
    decreases n
  {
    hide EndpointOk, EncodeData, WindowBytes, PayloadLimit, NextPacket, OnlyFlight, Nth;
    CountBelowThree(e);
    if n > 0 {
      WindowGoesOut(e, now, n - 1);
      var m := After(e, now, n - 1);
      StillQuiet(e, m, now);
      OnlyFlightLive(e, m);
      SendsOne(m, now);
      NextPacketKeeps(m, now);
      OnlyFlightTwice(e, m, After(e, now, n));
      var size := Full(e);
      assert Full(m) == size;
      BurstInTwo(FlightOf(e), e.tx.base, Edge(FlightOf(e).sendNext, size, Reach(e), n - 1), Edge(FlightOf(e).sendNext, size, Reach(e), n), now);
    } else {
      assert OnlyFlight(e, e) by { SameIsOnlyFlight(e); }
    }
    var m := After(e, now, n);
    StillQuiet(e, m, now);
    OnlyFlightLive(e, m);
    SendsOne(m, now);
    NthIs(e, now, n);
  }

  lemma SameIsOnlyFlight(e: Endpoint)
    requires Live(e)
    ensures OnlyFlight(e, e)
  {}

  lemma NthIs(e: Endpoint, now: nat, n: nat)
    requires Live(e)
    ensures Nth(e, now, n) == NextPacket(After(e, now, n), now).1
  {}

  lemma StillQuiet(e: Endpoint, m: Endpoint, now: nat)
    requires OnlyFlight(e, m) && m.tx == e.tx && NothingQueued(e, now) && NoWrap(e) && EndpointOk(e) && EndpointOk(m)
    ensures Live(m) && NothingQueued(m, now) && NoWrap(m) && Full(m) == Full(e)
    ensures FlightOf(m).flightPackets == FlightOf(e).flightPackets ==> Reach(m) == Reach(e)
  {}

  // When the timer is out the oldest bytes go again, the timer starts again, and the
  // window is halved.
  lemma TimeoutResends(e: Endpoint, now: nat)
    requires EndpointOk(e) && Live(e) && NothingQueued(e, now) && NoWrap(e)
    requires var f := FlightOf(e); f.sendNext > e.tx.base && now >= f.retransmitAt
    ensures var (e', packet) := NextPacket(e, now);
            var f, size := FlightOf(e), Min(PayloadLimit(e.binding.value.mtu), e.tx.next - e.tx.base);
            && packet == Some(EncodeData(e.tx.base, e.tx.buf[..size]))
            && Live(e') && OnlyFlight(e, e') && e'.tx == e.tx
            && FlightOf(e') == Flight(e.tx.base + size, now + RETRANSMIT_INTERVAL, 0, Max(8, f.flightPackets / 2))
  {
    hide WellFormed, EncodeData, WindowBytes, PayloadLimit;
    var f := FlightOf(e);
    var g := Flight(e.tx.base, now + RETRANSMIT_INTERVAL, 0, Max(8, f.flightPackets / 2));
    StartsAgain(e, e.(binding := Some(e.binding.value.(flight := g))), now);
  }

  // A position left behind by a HELLO that moved the base starts over at it, with a
  // fresh timer and the same window.
  lemma StrayPositionStartsOver(e: Endpoint, now: nat)
    requires EndpointOk(e) && Live(e) && NothingQueued(e, now) && NoWrap(e)
    requires FlightOf(e).sendNext < e.tx.base < e.tx.next
    ensures var (e', packet) := NextPacket(e, now);
            var size := Min(PayloadLimit(e.binding.value.mtu), e.tx.next - e.tx.base);
            && packet == Some(EncodeData(e.tx.base, e.tx.buf[..size]))
            && Live(e') && OnlyFlight(e, e') && e'.tx == e.tx
            && FlightOf(e') == Flight(e.tx.base + size, now + RETRANSMIT_INTERVAL, 0, FlightOf(e).flightPackets)
  {
    hide WellFormed, EncodeData, WindowBytes, PayloadLimit;
    var g := Flight(e.tx.base, 0, 0, FlightOf(e).flightPackets);
    StartsAgain(e, e.(binding := Some(e.binding.value.(flight := g))), now);
  }

  // Sending from m, an end like e but for a flight at the base.
  lemma StartsAgain(e: Endpoint, m: Endpoint, now: nat)
    requires EndpointOk(e) && Live(e) && Live(m) && NothingQueued(e, now) && NoWrap(e) && e.tx.base < e.tx.next
    requires m == e.(binding := Some(e.binding.value.(flight := Prepared(e.tx, FlightOf(e), now))))
    requires FlightOf(m).sendNext == e.tx.base && (FlightOf(m).retransmitAt == 0 || now < FlightOf(m).retransmitAt)
    ensures var (e', packet) := NextPacket(e, now);
            var g, size := FlightOf(m), Min(PayloadLimit(e.binding.value.mtu), e.tx.next - e.tx.base);
            && packet == Some(EncodeData(e.tx.base, e.tx.buf[..size]))
            && Live(e') && OnlyFlight(e, e') && e'.tx == e.tx
            && FlightOf(e') == Flight(e.tx.base + size, if g.retransmitAt == 0 then now + RETRANSMIT_INTERVAL else g.retransmitAt,
                                      g.duplicateACK, g.flightPackets)
  {
    hide WellFormed, EncodeData, WindowBytes, PayloadLimit, NextPacket, OnlyFlight, Prepared;
    PreparedKeeps(e.tx, e.binding.value, now);
    assert EndpointOk(m);
    assert OnlyFlight(e, m) by { FlightChanged(e, m); }
    StillQuiet(e, m, now);
    SendsOne(m, now);
    OnlyFlightTwice(e, m, NextPacket(m, now).0);
    ReachesOne(m);
    FullIsLimit(m);
    FirstBytes(e.tx.buf, Min(PayloadLimit(e.binding.value.mtu), e.tx.next - e.tx.base));
    SomePayload(e.binding.value.mtu);
    assert NextPacket(e, now) == NextPacket(m, now) by { SamePacket(e, m, now); }
  }

  lemma FlightChanged(e: Endpoint, m: Endpoint)
    requires Live(e) && Live(m) && m == e.(binding := Some(e.binding.value.(flight := FlightOf(m))))
    ensures OnlyFlight(e, m)
  {}

  lemma SamePacket(e: Endpoint, m: Endpoint, now: nat)
    requires Live(e) && Live(m) && NothingQueued(e, now)
    requires m == e.(binding := Some(e.binding.value.(flight := Prepared(e.tx, FlightOf(e), now))))
    requires FlightOf(m).sendNext == e.tx.base && (FlightOf(m).retransmitAt == 0 || now < FlightOf(m).retransmitAt)
    requires e.tx.base <= e.tx.next
    ensures NextPacket(e, now) == NextPacket(m, now)
  {
    hide SendData;
    assert Prepared(m.tx, FlightOf(m), now) == FlightOf(m);
  }

  lemma FirstBytes(s: seq<byte>, n: nat)
    ensures n <= |s| ==> s[0..n] == s[..n]
  {}

  lemma ReachesOne(e: Endpoint)
    requires EndpointOk(e) && Live(e)
    ensures Reach(e) >= Min(e.tx.next, e.tx.base + PayloadLimit(e.binding.value.mtu))
  {
    hide PayloadLimit, WellFormed;
    FullIsLimit(e);
    WindowAtLeastOnePacket(PayloadLimit(e.binding.value.mtu), FlightOf(e).flightPackets);
  }

  // So the third acknowledgement in a row has the oldest bytes sent again, at once and
  // long before the timer is out.
  lemma FastRetransmission(e: Endpoint, acks: seq<Acknowledged>, now: nat)
    requires EndpointOk(e) && Live(e) && FlightOf(e).sendNext > e.tx.base && FlightOf(e).duplicateACK == 0
    requires AllRepeat(acks, e.tx.base) && |acks| == 3 && NothingQueued(e, now) && NoWrap(e)
    requires acks[2].at <= now < acks[2].at + RETRANSMIT_INTERVAL
    ensures var e', size := Acks(e, acks), Min(PayloadLimit(e.binding.value.mtu), e.tx.next - e.tx.base);
            && Live(e')
            && var (after, packet) := NextPacket(e', now);
               && packet == Some(EncodeData(e.tx.base, e.tx.buf[..size])) && Live(after)
               && FlightOf(after) == Flight(e.tx.base + size, acks[2].at + RETRANSMIT_INTERVAL, 0, Max(8, FlightOf(e).flightPackets / 2))
  {
    hide EndpointOk, EncodeData, WindowBytes, PayloadLimit, NextPacket, Acks, OnlyFlight, Parse, AllRepeat;
    RepeatedAcks(e, acks);
    CountBelowThree(e);
    var e' := Acks(e, acks);
    StillQuiet(e, e', now);
    OnlyFlightLive(e, e');
    SendsOne(e', now);
    ReachesOne(e');
    FullIsLimit(e');
    FirstBytes(e.tx.buf, Min(PayloadLimit(e.binding.value.mtu), e.tx.next - e.tx.base));
    SomePayload(e.binding.value.mtu);
  }

  // With fewer, the next packet is what it would have been without them: it starts
  // where the flight has got to.
  lemma NoHastyRetransmission(e: Endpoint, acks: seq<Acknowledged>, now: nat)
    requires EndpointOk(e) && Live(e) && FlightOf(e).sendNext > e.tx.base && FlightOf(e).duplicateACK == 0
    requires AllRepeat(acks, e.tx.base) && |acks| < 3 && NothingQueued(e, now) && NoWrap(e)
    requires now < FlightOf(e).retransmitAt
    ensures var e' := Acks(e, acks);
            && Live(e')
            && var packet := NextPacket(e', now).1;
               && packet == NextPacket(e, now).1
               && (packet.Some? ==> Parse(packet.value).Data? && Parse(packet.value).start == FlightOf(e).sendNext)
  {
    hide EndpointOk, EncodeData, WindowBytes, PayloadLimit, NextPacket, Acks, OnlyFlight, Parse, AllRepeat;
    RepeatedAcks(e, acks);
    CountBelowThree(e);
    var e' := Acks(e, acks);
    StillQuiet(e, e', now);
    OnlyFlightLive(e, e');
    SendsOne(e', now);
    SendsOne(e, now);
    var f, end := FlightOf(e), Min(FlightOf(e).sendNext + Full(e), Reach(e));
    if f.sendNext < Reach(e) {
      SomePayload(e.binding.value.mtu);
      DataRoundTrip(f.sendNext, e.tx.buf[f.sendNext - e.tx.base..end - e.tx.base]);
    }
  }

  // ---- What the application may write --------------------------------------

  // The most that may be written and not yet acknowledged: the replay window, and no
  // more than 64 KiB while bound.
  function WriteLimit(e: Endpoint): nat {
    if e.binding.Some? then Min(e.config.replayWindow, 64 * 1024) else e.config.replayWindow
  }

  // A write takes everything, or fills what is left of that and waits for the rest;
  // when there is already more, it takes nothing.
  lemma WriteFills(e: Endpoint, size: nat)
    ensures var n := WriteSize(e, size);
            && n <= size && (n < size ==> |e.tx.buf| + n >= WriteLimit(e))
            && (n > 0 ==> |e.tx.buf| + n <= WriteLimit(e))
  {}

  // So over every run of one end the bytes kept for replay fit the replay window.
  lemma {:induction false} ReplayFits(s: End, events: seq<Event>)
    requires EndOk(s) && |s.e.tx.buf| <= s.e.config.replayWindow
    ensures var e := RunEnd(s, events).e; |e.tx.buf| <= e.config.replayWindow
    decreases |events|
  {
    hide EndOk, Occur;
    if events != [] {
      var before := events[..|events| - 1];
      EndOverRuns(s, before);
      ReplayFits(s, before);
      ReplayFitsOnce(RunEnd(s, before), events[|events| - 1]);
    }
  }

  lemma ReplayFitsOnce(s: End, ev: Event)
    requires EndOk(s) && |s.e.tx.buf| <= s.e.config.replayWindow
    ensures var e := Occur(s, ev).e; |e.tx.buf| <= e.config.replayWindow
  {
    hide WellFormed, FlightOk, SenderOk, Parse, Accept, SendData, Prepared, EncodeHelloAck, NormalizeMTU, AckAfter, AfterAdvance, AfterDuplicate;
    if ev.Put? { WriteFills(s.e, |ev.p|); }
  }
}
