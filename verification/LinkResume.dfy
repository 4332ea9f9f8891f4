// Resuming: offsets exchanged while the client is unbound are never refused,
// in-flight acknowledgements never are, and when a refusal can still happen.
module LinkResume {
  import opened Bytes
  import opened TrueSlices
  import opened LinkPackets
  import opened LinkEndpoint
  import opened LinkInvariants
  import opened LinkSystem
  import Heartbeat

  // A reply with this attempt's tag asks for a byte the client still has.
  predicate ReplyCovers(raw: seq<byte>, base: nat) {
    DecodeHelloAck(raw).Ok? ==> base <= DecodeHelloAck(raw).value.expected
  }

  predicate HelloAsks(raw: seq<byte>, reached: nat) {
    Parse(raw).Hello? ==> Parse(raw).offer.expected == reached
  }

  ghost predicate TagsUpTo(net: set<Tagged>, attempt: nat) {
    forall m :: m in net ==> m.attempt <= attempt
  }

  ghost predicate Waiting(y: System) {
    && y.c.e.binding.None?
    && (forall m :: m in y.toServer && m.attempt == y.attempt ==> HelloAsks(m.raw, y.c.e.rx.next))
    && (forall m :: m in y.toClient && m.attempt == y.attempt ==> ReplyCovers(m.raw, y.c.e.tx.base))
    && (y.replyFor == y.attempt ==> ReplyCovers(y.s.e.helloReply, y.c.e.tx.base))
  }

  ghost predicate HandshakeInv(y: System) {
    && TagsUpTo(y.toServer, y.attempt) && TagsUpTo(y.toClient, y.attempt) && y.replyFor <= y.attempt
    && (y.waiting ==> Waiting(y))
  }

  // While the client is unbound only its application touches it.
  lemma UnboundClientRests(y: System, a: Action)
    requires y.c.e.binding.None? && (a.Write? || a.Read? || a.Emit? || a.Deliver? || a.Beat? || a.Probed? || a.DetachSide? || a.CloseSide?)
    ensures var c := Step(y, a).c.e;
            c.binding.None? && c.rx.next == y.c.e.rx.next && c.tx.base == y.c.e.tx.base
    ensures OnClient(a) ==> Step(y, a).toServer == y.toServer && Step(y, a).toClient == y.toClient
                            && Step(y, a).s == y.s && Step(y, a).replyFor == y.replyFor
  {}

  lemma StepKeepsHandshake(y: System, a: Action)
    requires Inv(y) && HandshakeInv(y)
    ensures HandshakeInv(Step(y, a))
  {
    hide NodeOk, ReplyCovers, HelloAsks, NetHonest, NextPacket, Handle, Welcome, Resume, EncodeHello, EncodeHelloID;
    match a
    case SayHello(connMTU) => HelloOpens(y, connMTU);
    case WelcomeHello(m, connMTU) => WelcomeCovers(y, m, connMTU);
    case ResumeReply(m, compression, connMTU) =>
    case AttachSide(side, connMTU, mtu, now) =>
    case Emit(side, now) => if side == Server { ServerEmitCovers(y, now); } else { ClientEmitTags(y, now); }
    case Beat(side, now) => BeatTags(y, side, now);
    case Deliver(side, m, now) => if side == Server { ServerDeliverCovers(y, m, now); } else { ClientDelivers(y, m, now); }
    case _ => if y.waiting { UnboundClientRests(y, a); }
  }

  lemma ClientEmitTags(y: System, now: nat)
    requires HandshakeInv(y)
    ensures HandshakeInv(StepEmit(y, Client, now))
  {
    hide NextPacket, ReplyCovers, HelloAsks;
  }

  lemma BeatTags(y: System, side: Side, now: nat)
    requires HandshakeInv(y)
    ensures HandshakeInv(StepBeat(y, side, now))
  {
    hide Heartbeat.Check;
    assert DecodeHelloAck([PING]).Err? && !Parse([PING]).Hello?;
  }

  lemma ClientDelivers(y: System, m: Tagged, now: nat)
    requires HandshakeInv(y)
    ensures HandshakeInv(StepDeliver(y, Client, m, now))
  {
    hide HandleParsed, ReplyCovers, HelloAsks;
  }

  lemma HelloOpens(y: System, connMTU: int)
    requires Inv(y) && HandshakeInv(y)
    ensures HandshakeInv(StepHello(y, connMTU))
  {
    hide EncodeHello, EncodeHelloID, ReplyCovers;
    HelloIDRoundTrip(y.c.e.id);
    Parts(y.c.e);
    HelloRoundTrip(y.c.e.rx.next, y.c.e.config, connMTU);
  }

  lemma WelcomeCovers(y: System, m: Tagged, connMTU: int)
    requires Inv(y) && HandshakeInv(y)
    ensures HandshakeInv(StepWelcome(y, m, connMTU))
  {
    hide Welcome, NodeOk, Parse, Honest, HelloAsks, DecodeHelloAck;
    match Parse(m.raw)
    case Hello(offer, known) =>
      if m in y.toServer && known && Usable(offer) {
        HelloPromise(m.raw, y.c.written, y.c.e.rx.next);
        WelcomeNodeOk(y.s, y.c.written, y.c.e.rx.next, y.c.e.id, offer, connMTU);
        BaseReached(y);
        WelcomeKeepsReply(y.s.e, y.c.e.id, offer, connMTU);
      }
    case _ =>
  }

  lemma WelcomeKeepsReply(e: Endpoint, id: SessionID, offer: Offer, connMTU: int)
    ensures Welcome(e, id, offer, connMTU).Ok? ==> Welcome(e, id, offer, connMTU).value.0.helloReply == e.helloReply
  {}

  // The server has reached at least every offset the client may forget.
  lemma BaseReached(y: System)
    requires Inv(y)
    ensures y.c.e.tx.base <= y.s.e.rx.next <= y.c.e.tx.next
    ensures y.s.e.tx.base <= y.c.e.rx.next <= y.s.e.tx.next
  {}

  lemma ServerEmitCovers(y: System, now: nat)
    requires HandshakeInv(y)
    ensures HandshakeInv(StepEmit(y, Server, now))
  {
    hide DecodeHelloAck, SendData, Prepared, EncodeAck, HelloAsks;
    if Live(y.s.e) { EmittedReply(y.s.e, now); }
    NoReply([]);
  }

  lemma EmittedReply(e: Endpoint, now: nat)
    requires Live(e)
    ensures var (e', packet) := NextPacket(e, now);
            && (packet.Some? ==> packet.value == e.helloReply || DecodeHelloAck(packet.value).Err?)
            && (e'.helloReply == e.helloReply || e'.helloReply == [])
  {
    hide Prepared, WindowLimit, PayloadLimit, BigEndian;
  }

  lemma NoReply(raw: seq<byte>)
    requires raw == []
    ensures DecodeHelloAck(raw).Err?
  {}

  lemma ServerDeliverCovers(y: System, m: Tagged, now: nat)
    requires Inv(y) && HandshakeInv(y)
    ensures HandshakeInv(StepDeliver(y, Server, m, now))
  {
    hide Handle, NodeOk, DecodeHelloAck, HelloAsks;
    if m in y.toServer {
      AnswerReaches(y.s.e, m.raw, now, y.c.written, y.c.e.rx.next, y.s);
      BaseReached(y);
    }
  }

  // A reply is queued only by a HELLO, and names the offset reached.
  lemma AnswerReaches(e: Endpoint, raw: seq<byte>, now: nat, incoming: seq<byte>, acked: nat, x: Node)
    requires x.e == e && NodeOk(x, incoming, acked)
    ensures var e' := Handle(e, raw, now).0;
            if Answered(e, e') then DecodeHelloAck(e'.helloReply).Ok? && DecodeHelloAck(e'.helloReply).value.expected == e.rx.next
            else e'.helloReply == e.helloReply
  {
    hide NodeOk, Parse, HandleData, LinkEndpoint.HandleAck, Reconcile, EncodeHelloAck, DecodeHelloAck, Negotiate, NormalizeMTU;
    if raw != [] && Live(e) {
      var h := Heard(e, now);
      match Parse(raw)
      case Hello(offer, known) =>
        var mtu := Min(h.binding.value.mtu, NormalizeMTU(offer.mtu));
        ReplyHonest(x, offer, mtu, incoming, acked);
      case Data(start, payload) => DataKeepsHello(h, start, payload, now);
      case _ =>
    }
  }

  lemma DataKeepsHello(e: Endpoint, start: nat, payload: seq<byte>, now: nat)
    ensures var e' := HandleData(e, start, payload, now).0;
            e'.helloReply == e.helloReply && e'.pendingHello == e.pendingHello
  {}

  // ---- Resume is safe ------------------------------------------------------

  // A HELLO or a reply of the current attempt, exchanged while the client is
  // unbound, always names an offset the other end still retains.
  lemma ResumeIsNeverRefused(y: System, m: Tagged)
    requires Inv(y) && HandshakeInv(y) && y.waiting && m.attempt == y.attempt
    ensures m in y.toServer && Parse(m.raw).Hello? ==> Reconcile(y.s.e.tx, Parse(m.raw).offer.expected).Ok?
    ensures m in y.toClient && DecodeHelloAck(m.raw).Ok? ==>
              Reconcile(y.c.e.tx, DecodeHelloAck(m.raw).value.expected).Ok?
  {
    hide DecodeHelloAck, Parse, EndpointOk, Faithful;
    BaseReached(y);
    if m in y.toClient && DecodeHelloAck(m.raw).Ok? {
      ReplyPromise(m.raw);
      assert Honest(m.raw, y.s.written, y.s.e.rx.next);
    }
  }

  // Acknowledgements still on their way are accepted whenever they arrive.
  lemma AcksAreNeverRefused(y: System, m: Tagged, f: Flight, now: nat)
    requires Inv(y)
    ensures m in y.toClient && Parse(m.raw).Ack? ==>
              LinkEndpoint.HandleAck(y.c.e.tx, f, Parse(m.raw).expected, now).Ok?
    ensures m in y.toServer && Parse(m.raw).Ack? ==>
              LinkEndpoint.HandleAck(y.s.e.tx, f, Parse(m.raw).expected, now).Ok?
  {
    hide DecodeHelloAck, EndpointOk, Faithful, AfterAdvance, AfterDuplicate;
    if m in y.toClient { assert Honest(m.raw, y.s.written, y.s.e.rx.next); }
    if m in y.toServer { assert Honest(m.raw, y.c.written, y.c.e.rx.next); }
  }

  // DATA still on its way never conflicts.
  lemma ReplayNeverConflicts(y: System, m: Tagged, now: nat)
    requires Inv(y)
    ensures m in y.toServer && Parse(m.raw).Data? ==>
              HandleData(y.s.e, Parse(m.raw).start, Parse(m.raw).payload, now).1 != Some(ErrConflictingReplay)
    ensures m in y.toClient && Parse(m.raw).Data? ==>
              HandleData(y.c.e, Parse(m.raw).start, Parse(m.raw).payload, now).1 != Some(ErrConflictingReplay)
  {
    hide HandleData, EndpointOk, Promise, Parse, NodeOk;
    if Parse(m.raw).Data? {
      if m in y.toServer {
        assert Honest(m.raw, y.c.written, y.c.e.rx.next);
        DataNodeOk(y.s, y.c.written, y.c.e.rx.next, Parse(m.raw).start, Parse(m.raw).payload, now);
      }
      if m in y.toClient {
        assert Honest(m.raw, y.s.written, y.s.e.rx.next);
        DataNodeOk(y.c, y.s.written, y.s.e.rx.next, Parse(m.raw).start, Parse(m.raw).payload, now);
      }
    }
  }

  lemma {:induction false} HandshakeOverRuns(id: SessionID, client: Config, server: Config, actions: seq<Action>)
    requires ConfigOk(client) && ConfigOk(server)
    ensures var y := Run(Start(id, client, server), actions); Inv(y) && HandshakeInv(y)
    decreases |actions|
  {
    hide Inv, Step;
    ExactlyOnceInOrder(id, client, server, actions);
    if actions == [] {
    } else {
      HandshakeOverRuns(id, client, server, actions[..|actions| - 1]);
      StepKeepsHandshake(Run(Start(id, client, server), actions[..|actions| - 1]), actions[|actions| - 1]);
    }
  }

}
