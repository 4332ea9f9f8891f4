// The link is never stuck: from every reachable state with both ends bound and
// the reader caught up, one undisturbed round trip acknowledges new bytes, and enough
// of them deliver everything that was written. Either end may be the sender.
module LinkProgress {
  import opened Bytes
  import opened Fragments
  import opened Reassembly
  import opened TrueSlices
  import opened LinkPackets
  import opened LinkEndpoint
  import opened LinkInvariants
  import opened LinkSystem
  import opened LinkEnd
  import Heartbeat

  lemma {:induction false} RunAppend(y: System, a: seq<Action>, b: seq<Action>)
    ensures Run(y, a + b) == Run(Run(y, a), b)
    decreases |b|
  {
    hide Step;
    if b == [] {
      assert a + b == a;
    } else {
      assert (a + b)[..|a + b| - 1] == a + b[..|b| - 1];
      RunAppend(y, a, b[..|b| - 1]);
    }
  }

  lemma {:induction false} RunKeepsInv(y: System, actions: seq<Action>)
    requires Inv(y)
    ensures Inv(Run(y, actions))
    decreases |actions|
  {
    hide Inv, Step;
    if actions != [] {
      RunKeepsInv(y, actions[..|actions| - 1]);
      StepKeepsInv(Run(y, actions[..|actions| - 1]), actions[|actions| - 1]);
    }
  }

  // ---- The two ends by side ------------------------------------------------

  function Other(side: Side): Side {
    if side == Client then Server else Client
  }

  function At(y: System, side: Side): Node {
    if side == Client then y.c else y.s
  }

  // Packets under way from an end, and the tag of those it sends.
  function Sent(y: System, side: Side): set<Tagged> {
    if side == Client then y.toServer else y.toClient
  }

  function Tag(y: System, side: Side): nat {
    if side == Client then y.attempt else y.replyFor
  }

  lemma Sides(y: System, side: Side)
    requires Inv(y)
    ensures var x, z := At(y, side), At(y, Other(side));
            && NodeOk(x, z.written, z.e.rx.next) && NetHonest(Sent(y, side), x)
            && x.e.tx.base <= z.e.rx.next <= x.e.tx.next == |x.written| <= MAX_U64
  {
    hide EndpointOk, Faithful, Honest, NetHonest;
    Parts(y.c.e);
    Parts(y.s.e);
    assert SenderOk(y.c.e.tx) && SenderOk(y.s.e.tx) by { SendersOk(y); }
  }

  lemma SendersOk(y: System)
    requires Inv(y)
    ensures SenderOk(y.c.e.tx) && SenderOk(y.s.e.tx)
  {
    hide Faithful, Honest, NetHonest;
  }

  // ---- Emissions -----------------------------------------------------------

  function Emits(side: Side, now: nat, n: nat): seq<Action> {
    seq(n, i => Emit(side, now))
  }

  lemma {:induction false} AfterKeeps(e: Endpoint, now: nat, n: nat)
    requires Live(e)
    ensures var e' := After(e, now, n);
            && e'.tx == e.tx && e'.rx == e.rx && e'.config == e.config
            && e'.binding.value.mtu == e.binding.value.mtu
  {
    hide SendData, Prepared, EncodeAck;
    if n > 0 { AfterKeeps(e, now, n - 1); }
  }

  lemma EmitMany(y: System, side: Side, now: nat, n: nat)
    requires Live(At(y, side).e)
    ensures var y' := Run(y, Emits(side, now, n));
            && At(y', side) == At(y, side).(e := After(At(y, side).e, now, n))
            && At(y', Other(side)) == At(y, Other(side))
            && Tag(y', side) == Tag(y, side)
  {
    hide NextPacket, Step;
    if n == 0 {
      assert Run(y, Emits(side, now, 0)) == y;
    } else {
      EmitMany(y, side, now, n - 1);
      assert Emits(side, now, n)[..n - 1] == Emits(side, now, n - 1);
      EmitOnce(Run(y, Emits(side, now, n - 1)), side, now);
    }
  }

  lemma EmitOnce(y: System, side: Side, now: nat)
    requires Live(At(y, side).e)
    ensures var y' := Step(y, Emit(side, now));
            && At(y', side) == At(y, side).(e := NextPacket(At(y, side).e, now).0)
            && At(y', Other(side)) == At(y, Other(side)) && Tag(y', side) == Tag(y, side)
  {
    hide NextPacket;
  }

  // The n-th packet of the send loop is on the network after n+1 emissions.
  lemma EmitNth(y: System, side: Side, now: nat, n: nat)
    requires Live(At(y, side).e)
    ensures var y', packet := Run(y, Emits(side, now, n + 1)), Nth(At(y, side).e, now, n);
            packet.Some? ==> Tagged(Tag(y, side), packet.value) in Sent(y', side)
  {
    hide NextPacket;
    EmitMany(y, side, now, n);
    assert Emits(side, now, n + 1)[..n] == Emits(side, now, n);
    var x := Run(y, Emits(side, now, n));
    assert Run(y, Emits(side, now, n + 1)) == Step(x, Emit(side, now));
  }

  lemma RunOne(y: System, a: Action)
    ensures Run(y, [a]) == Step(y, a)
  {
    assert Run(y, []) == y;
  }

  // The oldest outstanding bytes arrive: the receiver is past the sender's base
  // and owes an acknowledgement.
  lemma OldestArrives(x: Node, incoming: seq<byte>, acked: nat, start: nat, payload: seq<byte>, now: nat)
    requires NodeOk(x, incoming, acked) && Live(x.e) && x.e.rx.buf == []
    requires IsSlice(incoming, start, payload) && |incoming| <= MAX_U64
    requires start <= x.e.rx.next && 0 < |payload| <= x.e.config.replayWindow
    ensures var e' := Handle(x.e, EncodeData(start, payload), now).0;
            && Live(e') && e'.rx.next > start && e'.ack.dirty && e'.config == x.e.config
            && e'.ack.deadline <= Max(x.e.ack.deadline, now + ACK_MAX_DELAY)
  {
    hide EndpointOk, Faithful, Accept, EncodeData;
    DataRoundTrip(start, payload);
    var h := Heard(x.e, now);
    EncodedNotEmpty(start, payload);
    Parts(x.e);
    var (rx, v) := Accept(h.rx, h.config.replayWindow, start, payload);
    SliceAdvances(incoming, h.rx, h.config.replayWindow, start, payload);
    RefusalChangesNothing(h.rx, h.config.replayWindow, start, payload);
  }

  lemma EncodedNotEmpty(start: nat, payload: seq<byte>)
    ensures EncodeData(start, payload) != []
  {}

  lemma SliceAdvances(stream: seq<byte>, r: Receiver, window: nat, start: nat, payload: seq<byte>)
    requires WellFormed(r, window) && Faithful(stream, r) && IsSlice(stream, start, payload) && r.buf == []
    requires start <= r.next && 0 < |payload| <= window && |stream| <= MAX_U64
    ensures var (q, v) := Accept(r, window, start, payload);
            q.next > start && !v.Conflict? && !v.SequenceExhausted?
  {
    hide AcceptNext, AcceptAhead, Orderly, Total;
    var end := start + |payload|;
    if end > r.next {
      AcceptDeliversStream(stream, r, window, start, payload);
      UnseenSlice(stream, r.next, start, payload);
      SlicesAgree(stream, r.pending, r.next, Unseen(r.next, start, payload));
      NoHeadOfLineDeadlock(r, window, start, payload);
    }
  }

  // ---- The round trip ------------------------------------------------------

  // The bytes of the next packet from the base.
  function Oldest(e: Endpoint): seq<byte>
    requires Live(e)
  {
    e.tx.buf[..Min(PayloadLimit(e.binding.value.mtu), |e.tx.buf|)]
  }

  // An end sends n packets at t1, one of them arrives, the other end sends m at
  // t2, and one of those arrives.
  function RoundTrip(side: Side, t1: nat, n: nat, data: Tagged, t2: nat, m: nat, ack: Tagged): seq<Action> {
    Outbound(side, t1, n, data) + (Emits(Other(side), t2, m) + [Deliver(side, ack, t2)])
  }

  function Outbound(side: Side, t1: nat, n: nat, data: Tagged): seq<Action> {
    Emits(side, t1, n) + [Deliver(Other(side), data, t1)]
  }

  // Both ends are still bound, the sender at the same packet size and with nothing
  // more written, the receiver with the same limits.
  predicate SameBindings(y: System, y': System, side: Side) {
    var x, z, x', z' := At(y, side), At(y, Other(side)), At(y', side), At(y', Other(side));
    && Live(x.e) && Live(z.e) && Live(x'.e) && Live(z'.e)
    && x'.e.binding.value.mtu == x.e.binding.value.mtu && x'.written == x.written && z'.e.config == z.e.config
  }

  // With bytes outstanding, the timer out, the reader caught up and a packet that
  // fits its window, a round trip of at most four packets out and three back is
  // enough: the oldest bytes go out and arrive, the cumulative acknowledgement of
  // what has been received goes back and arrives, and the sender is that far.
  lemma RoundTripAcknowledges(y: System, side: Side, t1: nat, t2: nat)
    returns (n: nat, data: Tagged, m: nat, ack: Tagged)
    requires Inv(y) && Live(At(y, side).e) && Live(At(y, Other(side)).e)
    requires var e := At(y, side).e;
             && e.tx.base < e.tx.next && RetransmitDue(e, t1) && e.tx.base + FlightBytes(e, t1) <= MAX_U64
             && |Oldest(e)| <= At(y, Other(side)).e.config.replayWindow
    requires At(y, Other(side)).e.rx.buf == []
    requires t2 >= Max(At(y, Other(side)).e.ack.deadline, t1 + ACK_MAX_DELAY)
    ensures var e := At(y, side).e;
            var reached := At(Run(y, Outbound(side, t1, n, data)), Other(side)).e.rx.next;
            && n <= 4 && m <= 3
            && data in Sent(Run(y, Emits(side, t1, n)), side) && data.raw == EncodeData(e.tx.base, Oldest(e))
            && ack.raw == EncodeAck(reached) && reached > e.tx.base
            && At(Run(y, RoundTrip(side, t1, n, data, t2, m, ack)), side).e.tx.base >= reached
            && SameBindings(y, Run(y, RoundTrip(side, t1, n, data, t2, m, ack)), side)
  {
    hide Inv, Step, NodeOk, EncodeData, EncodeAck, Handle, After, Nth, Run;
    var sends := DataGoes(y, side, t1);
    n, data := sends.0, sends.1;
    var y1 := Run(y, Emits(side, t1, n));
    assert Inv(y1) by { RunKeepsInv(y, Emits(side, t1, n)); }
    var y2 := Run(y1, [Deliver(Other(side), data, t1)]);
    DataArrives(y1, side, data, Oldest(At(y, side).e), t1);
    assert Inv(y2) by { RunKeepsInv(y1, [Deliver(Other(side), data, t1)]); }
    RunAppend(y, Emits(side, t1, n), [Deliver(Other(side), data, t1)]);
    m, ack := AckGoes(y2, side, t2);
    var y3 := Run(y2, Emits(Other(side), t2, m));
    assert Inv(y3) by { RunKeepsInv(y2, Emits(Other(side), t2, m)); }
    AckArrives(y3, side, ack, t2);
    RunAppend(y2, Emits(Other(side), t2, m), [Deliver(side, ack, t2)]);
    RunAppend(y, Outbound(side, t1, n, data), Emits(Other(side), t2, m) + [Deliver(side, ack, t2)]);
  }

  // The oldest bytes are among the next four packets.
  lemma DataGoes(y: System, side: Side, now: nat) returns (sends: (nat, Tagged))
    requires Inv(y) && Live(At(y, side).e)
    requires var e := At(y, side).e;
             && e.tx.base < e.tx.next && RetransmitDue(e, now) && e.tx.base + FlightBytes(e, now) <= MAX_U64
    ensures var e, y' := At(y, side).e, Run(y, Emits(side, now, sends.0));
            && sends.0 <= 4 && sends.1.raw == EncodeData(e.tx.base, Oldest(e)) && sends.1 in Sent(y', side)
            && Live(At(y', side).e) && At(y', side).e.tx == e.tx && At(y', side).written == At(y, side).written
            && At(y', side).e.binding.value.mtu == e.binding.value.mtu
            && At(y', Other(side)) == At(y, Other(side))
            && 0 < |Oldest(e)| && IsSlice(At(y, side).written, e.tx.base, Oldest(e))
  {
    hide EncodeData, After, Nth, FlightOk, WellFormed, Run, Honest, Receives, NetHonest;
    var x := At(y, side);
    var e := x.e;
    EndsOk(y, side);
    OutstandingIsResent(e, now);
    var n := Ahead(e) + (if AckDue(e.ack, now) then 1 else 0);
    sends := (n + 1, Tagged(Tag(y, side), EncodeData(e.tx.base, Oldest(e))));
    EmitMany(y, side, now, n + 1);
    EmitNth(y, side, now, n);
    AfterKeeps(e, now, n + 1);
    SubSlice(x.written, e.tx.base, e.tx.buf, 0, |Oldest(e)|);
  }

  lemma EndsOk(y: System, side: Side)
    requires Inv(y)
    ensures var x, z := At(y, side), At(y, Other(side));
            EndpointOk(x.e) && Retains(x, z.e.rx.next) && SenderOk(x.e.tx)
  {
    hide Faithful, Honest, NetHonest;
  }

  lemma DataArrives(y: System, side: Side, data: Tagged, payload: seq<byte>, now: nat)
    requires Inv(y) && Live(At(y, Other(side)).e) && At(y, Other(side)).e.rx.buf == []
    requires data in Sent(y, side) && data.raw == EncodeData(At(y, side).e.tx.base, payload)
    requires 0 < |payload| <= At(y, Other(side)).e.config.replayWindow
    requires IsSlice(At(y, side).written, At(y, side).e.tx.base, payload)
    ensures var y' := Run(y, [Deliver(Other(side), data, now)]);
            var z, z' := At(y, Other(side)), At(y', Other(side));
            && At(y', side) == At(y, side) && Live(z'.e) && z'.e.rx.next > At(y, side).e.tx.base && z'.e.ack.dirty
            && z'.e.ack.deadline <= Max(z.e.ack.deadline, now + ACK_MAX_DELAY) && z'.e.config == z.e.config
  {
    hide NodeOk, EncodeData, Handle, IsSlice, Run, NetHonest;
    RunOne(y, Deliver(Other(side), data, now));
    Sides(y, side);
    Sides(y, Other(side));
    OldestArrives(At(y, Other(side)), At(y, side).written, At(y, side).e.rx.next, At(y, side).e.tx.base, payload, now);
  }

  // The acknowledgement is among the next three packets.
  lemma AckGoes(y: System, side: Side, now: nat) returns (m: nat, ack: Tagged)
    requires Inv(y) && Live(At(y, Other(side)).e)
    requires At(y, Other(side)).e.ack.dirty && now >= At(y, Other(side)).e.ack.deadline
    ensures var z, y' := At(y, Other(side)), Run(y, Emits(Other(side), now, m));
            && m <= 3 && ack.raw == EncodeAck(z.e.rx.next) && ack in Sent(y', Other(side))
            && At(y', side) == At(y, side) && At(y', Other(side)).e.rx == z.e.rx
            && Live(At(y', Other(side)).e) && At(y', Other(side)).e.config == z.e.config
  {
    hide NodeOk, EncodeAck, After, Run, NetHonest;
    var z := At(y, Other(side));
    m := Ahead(z.e) + 1;
    AfterAhead(z.e, now);
    ack := Tagged(Tag(y, Other(side)), EncodeAck(z.e.rx.next));
    EmitMany(y, Other(side), now, m);
    EmitNth(y, Other(side), now, m - 1);
    AfterKeeps(z.e, now, m);
  }

  lemma AckArrives(y: System, side: Side, ack: Tagged, now: nat)
    requires Inv(y) && Live(At(y, side).e) && ack in Sent(y, Other(side))
    requires ack.raw == EncodeAck(At(y, Other(side)).e.rx.next)
    ensures var y' := Run(y, [Deliver(side, ack, now)]);
            && At(y', side).e.tx.base >= At(y, Other(side)).e.rx.next && At(y', Other(side)) == At(y, Other(side))
            && Live(At(y', side).e) && At(y', side).written == At(y, side).written
            && At(y', side).e.binding.value.mtu == At(y, side).e.binding.value.mtu
  {
    hide NodeOk, EncodeAck, LinkEndpoint.HandleAck, Honest, NetHonest, Run;
    RunOne(y, Deliver(side, ack, now));
    Sides(y, side);
    var x, reached := At(y, side), At(y, Other(side)).e.rx.next;
    AckRoundTrip(reached);
    EncodedAckNotEmpty(reached);
    var h := x.(e := Heard(x.e, now));
    HeardNodeOk(x, At(y, Other(side)).written, reached, now);
    AckNodeOk(h, At(y, Other(side)).written, reached, reached, now);
  }

  lemma EncodedAckNotEmpty(expected: nat)
    ensures EncodeAck(expected) != []
  {}

  lemma HeardNodeOk(x: Node, incoming: seq<byte>, acked: nat, now: nat)
    requires NodeOk(x, incoming, acked) && Live(x.e)
    ensures NodeOk(x.(e := Heard(x.e, now)), incoming, acked)
  {
    hide Honest, Faithful;
    HeardOk(x.e, now);
  }

  // ---- Everything that was written -----------------------------------------

  // A run in which the ends only send what is due, packets arrive, and the reader
  // reads: nothing is written, detached, attached or closed.
  predicate Undisturbed(actions: seq<Action>) {
    forall i :: 0 <= i < |actions| ==> actions[i].Emit? || actions[i].Deliver? || actions[i].Read?
  }

  // Times in a run do not run backwards.
  predicate InOrder(actions: seq<Action>, from: nat, to: nat) {
    && (forall i :: 0 <= i < |actions| && !actions[i].Read? ==> from <= TimeOf(actions[i]) <= to)
    && (forall i, j :: 0 <= i < j < |actions| && !actions[i].Read? && !actions[j].Read? ==>
          TimeOf(actions[i]) <= TimeOf(actions[j]))
  }

  function TimeOf(a: Action): nat {
    if a.Emit? || a.Deliver? then a.now else 0
  }

  lemma InOrderAppend(a: seq<Action>, b: seq<Action>, from: nat, mid: nat, to: nat)
    requires InOrder(a, from, mid) && InOrder(b, mid, to) && from <= mid <= to
    ensures InOrder(a + b, from, to)
  {}

  // A read of all that has arrived, then the round trip.
  lemma Round(y: System, side: Side, now: nat) returns (actions: seq<Action>, later: nat)
    requires Inv(y) && Live(At(y, side).e) && Live(At(y, Other(side)).e)
    requires var e := At(y, side).e;
             && e.tx.base < e.tx.next && e.tx.next + WindowBytes(e.binding.value.mtu, MAX_FLIGHT_PACKETS) <= MAX_U64
             && |Oldest(e)| <= At(y, Other(side)).e.config.replayWindow
    ensures var q := Run(y, actions);
            && Undisturbed(actions) && now <= later && InOrder(actions, now, later) && |actions| <= 10
            && Inv(q) && SameBindings(y, q, side) && At(q, side).e.tx.base > At(y, side).e.tx.base
  {
    hide Inv, Step, Run;
    var x, z := At(y, side), At(y, Other(side));
    var read := [Read(Other(side), |z.e.rx.buf|)];
    var y1 := Run(y, read);
    assert Inv(y1) by { RunKeepsInv(y, read); }
    ReadAll(y, side);
    var t1 := Max(now, x.e.binding.value.flight.retransmitAt);
    WindowFits(y, side, t1);
    later := Max(At(y1, Other(side)).e.ack.deadline, t1 + ACK_MAX_DELAY);
    var n, data, m, ack := RoundTripAcknowledges(y1, side, t1, later);
    var trip := RoundTrip(side, t1, n, data, later, m, ack);
    actions := read + trip;
    assert Inv(Run(y1, trip)) by { RunKeepsInv(y1, trip); }
    RunAppend(y, read, trip);
  }

  lemma ReadAll(y: System, side: Side)
    ensures var z := At(y, Other(side)).e;
            var y' := Run(y, [Read(Other(side), |z.rx.buf|)]);
            && At(y', side) == At(y, side)
            && At(y', Other(side)).e == z.(rx := z.rx.(buf := []))
            && At(y', Other(side)).written == At(y, Other(side)).written
            && At(y', Other(side)).read == At(y, Other(side)).read + z.rx.buf
  {
    RunOne(y, Read(Other(side), |At(y, Other(side)).e.rx.buf|));
    var buf := At(y, Other(side)).e.rx.buf;
    assert buf[..|buf|] == buf && buf[|buf|..] == [];
  }

  lemma WindowFits(y: System, side: Side, now: nat)
    requires Inv(y) && Live(At(y, side).e)
    ensures var e := At(y, side).e; e.tx.base <= e.tx.next && FlightBytes(e, now) <= WindowBytes(e.binding.value.mtu, MAX_FLIGHT_PACKETS)
  {
    hide Prepared, PayloadLimit, Inv;
    EndsOk(y, side);
    var e := At(y, side).e;
    PreparedKeeps(e.tx, e.binding.value, now);
    LargerWindow(e.binding.value.mtu, Prepared(e.tx, e.binding.value.flight, now).flightPackets);
  }

  lemma LargerWindow(mtu: nat, flightPackets: nat)
    requires flightPackets <= MAX_FLIGHT_PACKETS
    ensures WindowBytes(mtu, flightPackets) <= WindowBytes(mtu, MAX_FLIGHT_PACKETS)
  {
    hide PayloadLimit;
    assert PayloadLimit(mtu) * flightPackets + PayloadLimit(mtu) * (MAX_FLIGHT_PACKETS - flightPackets)
        == PayloadLimit(mtu) * MAX_FLIGHT_PACKETS;
  }

  // Whatever has been lost so far: once both ends are bound and the oldest packet
  // fits the peer's window, everything written arrives, is read and is acknowledged,
  // in a run of at most ten actions for each byte and one more.
  lemma {:induction false} EverythingArrives(y: System, side: Side, now: nat) returns (actions: seq<Action>, later: nat)
    requires Inv(y) && Live(At(y, side).e) && Live(At(y, Other(side)).e)
    requires var e := At(y, side).e;
             && e.tx.next + WindowBytes(e.binding.value.mtu, MAX_FLIGHT_PACKETS) <= MAX_U64
             && |Oldest(e)| <= At(y, Other(side)).e.config.replayWindow
    ensures var q := Run(y, actions);
            && Undisturbed(actions) && now <= later && InOrder(actions, now, later)
            && |actions| <= 10 * |At(y, side).e.tx.buf| + 1
            && At(q, side).written == At(y, side).written == At(q, Other(side)).read
            && At(q, side).e.tx.base == At(q, side).e.tx.next == |At(q, side).written|
    decreases |At(y, side).e.tx.buf|
  {
    hide Inv, Step, Run;
    var x := At(y, side);
    EndOfBuffer(y, side);
    if x.e.tx.base == x.e.tx.next {
      later, actions := now, [Read(Other(side), |At(y, Other(side)).e.rx.buf|)];
      ReadAll(y, side);
      AllReceived(y, side);
    } else {
      var first, mid := Round(y, side, now);
      var y1 := Run(y, first);
      EndOfBuffer(y1, side);
      var rest;
      rest, later := EverythingArrives(y1, side, mid);
      actions := first + rest;
      InOrderAppend(first, rest, now, mid, later);
      RunAppend(y, first, rest);
    }
  }

  lemma EndOfBuffer(y: System, side: Side)
    requires Inv(y)
    ensures var x := At(y, side); x.e.tx.base <= x.e.tx.next == |x.written| && |x.e.tx.buf| == x.e.tx.next - x.e.tx.base
  {
    EndsOk(y, side);
  }

  lemma AllReceived(y: System, side: Side)
    requires Inv(y) && At(y, side).e.tx.base == At(y, side).e.tx.next
    ensures var z := At(y, Other(side)); z.read + z.e.rx.buf == At(y, side).written
  {
    hide EndpointOk, Faithful, Honest, NetHonest;
    var x := At(y, side);
    assert x.written[..|x.written|] == x.written;
  }

  // ---- Probes are answered -------------------------------------------------

  // A PING is answered by the next packet but a queued handshake reply.
  lemma PingIsAnswered(e: Endpoint, now: nat, later: nat)
    requires Live(e)
    ensures var e' := Handle(e, [PING], now).0;
            && Live(e') && e'.helloReply == e.helloReply
            && Nth(e', later, if e.helloReply != [] then 1 else 0) == Some([PONG])
  {
    hide SendData, Prepared, EncodeAck;
    var e' := Handle(e, [PING], now).0;
    assert Parse([PING]) == Ping;
    assert After(e', later, 0) == e';
    assert e.helloReply != [] ==> After(e', later, 1) == e'.(helloReply := []);
  }

  lemma PongRevives(e: Endpoint, now: nat)
    requires Live(e)
    ensures var e' := Handle(e, [PONG], now).0;
            Live(e') && e'.binding.value.pulse == Pulse(now, false, e.binding.value.pulse.sentAt, 0)
  {
    assert Parse([PONG]) == Pong;
  }

  // The probe, its delivery, the answer within two packets, and its delivery.
  function Probing(side: Side, t0: nat, ping: Tagged, t1: nat, t2: nat, k: nat, pong: Tagged, t3: nat): seq<Action> {
    [Beat(side, t0)] + ([Deliver(Other(side), ping, t1)] + (Emits(Other(side), t2, k) + [Deliver(side, pong, t3)]))
  }

  // When the periodic check of a bound end orders a probe and the network carries it
  // and its answer, nothing is held against the binding any more and the next probe is
  // three seconds after the last.
  lemma ProbeClears(y: System, side: Side, t0: nat, t1: nat, t2: nat, t3: nat) returns (k: nat, ping: Tagged, pong: Tagged)
    requires Live(At(y, side).e) && Live(At(y, Other(side)).e)
    requires Heartbeat.Check(At(y, side).e.binding.value.pulse, t0).1 == Heartbeat.Probe
    ensures k <= 2 && ping.raw == [PING] && pong.raw == [PONG]
    ensures ping in Sent(Run(y, [Beat(side, t0)]), side)
    ensures pong in Sent(Run(y, [Beat(side, t0)] + ([Deliver(Other(side), ping, t1)] + Emits(Other(side), t2, k))), Other(side))
    ensures var e := At(Run(y, Probing(side, t0, ping, t1, t2, k, pong, t3)), side).e;
            Live(e) && e.binding.value.pulse == Pulse(t3, false, t0, 0)
  {
    hide Step, Run, Handle, After, Nth;
    ping := Tagged(Tag(y, side), [PING]);
    var y1 := Run(y, [Beat(side, t0)]);
    BeatSends(y, side, t0);
    var y2 := Run(y1, [Deliver(Other(side), ping, t1)]);
    DeliverOne(y1, Other(side), ping, t1);
    var z := At(y1, Other(side)).e;
    PingIsAnswered(z, t1, t2);
    var before := if z.helloReply != [] then 1 else 0;
    k, pong := before + 1, Tagged(Tag(y2, Other(side)), [PONG]);
    EmitMany(y2, Other(side), t2, k);
    EmitNth(y2, Other(side), t2, before);
    var y3 := Run(y2, Emits(Other(side), t2, k));
    DeliverOne(y3, side, pong, t3);
    PongRevives(At(y3, side).e, t3);
    RunAppend(y2, Emits(Other(side), t2, k), [Deliver(side, pong, t3)]);
    RunAppend(y1, [Deliver(Other(side), ping, t1)], Emits(Other(side), t2, k));
    RunAppend(y1, [Deliver(Other(side), ping, t1)], Emits(Other(side), t2, k) + [Deliver(side, pong, t3)]);
    RunAppend(y, [Beat(side, t0)], [Deliver(Other(side), ping, t1)] + Emits(Other(side), t2, k));
    RunAppend(y, [Beat(side, t0)], [Deliver(Other(side), ping, t1)] + (Emits(Other(side), t2, k) + [Deliver(side, pong, t3)]));
  }

  lemma BeatSends(y: System, side: Side, now: nat)
    requires Live(At(y, side).e) && Heartbeat.Check(At(y, side).e.binding.value.pulse, now).1 == Heartbeat.Probe
    ensures var y' := Run(y, [Beat(side, now)]);
            && Tagged(Tag(y, side), [PING]) in Sent(y', side) && At(y', Other(side)) == At(y, Other(side))
            && Live(At(y', side).e) && At(y', side).e.binding.value.pulse.sentAt == now
  {
    RunOne(y, Beat(side, now));
  }

  lemma DeliverOne(y: System, side: Side, m: Tagged, now: nat)
    requires m in Sent(y, Other(side))
    ensures var y' := Run(y, [Deliver(side, m, now)]);
            && At(y', side) == At(y, side).(e := Handle(At(y, side).e, m.raw, now).0) && At(y', Other(side)) == At(y, Other(side))
  {
    hide Handle;
    RunOne(y, Deliver(side, m, now));
  }
}
