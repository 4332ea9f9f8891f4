// Two ends joined by a network that may lose, duplicate, delay and reorder
// packets, across any detachments and re-attachments. The theorem: in each
// direction the pair behaves as one FIFO byte queue.
module LinkSystem {
  import opened Bytes
  import opened Reassembly
  import opened TrueSlices
  import opened LinkPackets
  import opened LinkEndpoint
  import opened LinkInvariants
  import Heartbeat

  // An end with its history: all bytes the application wrote and read.
  datatype Node = Node(e: Endpoint, written: seq<byte>, read: seq<byte>)

  // ---- What each end keeps about the other ---------------------------------

  // The replay buffer is exactly the bytes written and not acknowledged, and
  // nothing past `acked`, the peer's contiguous offset, was dropped from it.
  predicate Retains(x: Node, acked: nat) {
    && x.e.tx.next == |x.written|
    && x.e.tx.base <= x.e.tx.next
    && x.e.tx.buf == x.written[x.e.tx.base..]
    && x.e.tx.base <= acked <= x.e.tx.next
  }

  // Bytes read and bytes ready to be read are the start of the peer's stream.
  ghost predicate Receives(y: Node, incoming: seq<byte>) {
    && Faithful(incoming, y.e.rx)
    && y.read + y.e.rx.buf == incoming[..y.e.rx.next]
  }

  // A packet from x tells the truth: DATA is a slice of what x wrote, and an
  // offset it asks for is one x has reached.
  function Promise(raw: seq<byte>): Option<nat> {
    match Parse(raw)
    case Ack(expected) => Some(expected)
    case Hello(offer, _) => Some(offer.expected)
    case _ =>
      match DecodeHelloAck(raw)
      case Ok(offer) => Some(offer.expected)
      case Err(_) => None
  }

  predicate Honest(raw: seq<byte>, written: seq<byte>, reached: nat) {
    && (Parse(raw).Data? ==> IsSlice(written, Parse(raw).start, Parse(raw).payload))
    && (Promise(raw).Some? ==> Promise(raw).value <= reached)
  }

  ghost predicate NodeOk(x: Node, incoming: seq<byte>, acked: nat) {
    && EndpointOk(x.e)
    && Retains(x, acked)
    && Receives(x, incoming)
    && Honest(x.e.helloReply, x.written, x.e.rx.next)
  }

  // A step of x only extends its history.
  predicate Grows(x: Node, x': Node) {
    && x.written <= x'.written
    && x.read <= x'.read
    && x.e.rx.next <= x'.e.rx.next
    && x.e.tx.base <= x'.e.tx.base
  }

  lemma HonestGrows(raw: seq<byte>, written: seq<byte>, reached: nat, written': seq<byte>, reached': nat)
    requires Honest(raw, written, reached) && written <= written' && reached <= reached'
    ensures Honest(raw, written', reached')
  {
    hide Promise;
    if Parse(raw).Data? {
      SliceOfLonger(written, written'[|written|..], Parse(raw).start, Parse(raw).payload);
      assert written' == written + written'[|written|..];
    }
  }

  // The other end stands still while x moves on.
  lemma PeerUnaffected(y: Node, x: Node, x': Node)
    requires NodeOk(y, x.written, x.e.rx.next) && NodeOk(x, y.written, y.e.rx.next)
    requires Grows(x, x') && Retains(x', y.e.rx.next) && Receives(x', y.written)
    ensures NodeOk(y, x'.written, x'.e.rx.next)
  {
    hide EndpointOk, Honest, AllSlices;
    var more := x'.written[|x.written|..];
    assert x'.written == x.written + more;
    LongerStream(x.written, more, y.e.rx);
    assert x'.written[..y.e.rx.next] == x.written[..y.e.rx.next];
  }

  // ---- The steps of one end ------------------------------------------------

  function WriteNode(x: Node, p: seq<byte>): Node {
    var n := WriteSize(x.e, |p|);
    if x.e.closed || n > MAX_U64 - x.e.tx.next then x
    else Node(x.e.(tx := Append(x.e.tx, p[..n])), x.written + p[..n], x.read)
  }

  function ReadNode(x: Node, size: nat): Node {
    var n := Min(size, |x.e.rx.buf|);
    Node(Take(x.e, n), x.written, x.read + x.e.rx.buf[..n])
  }

  lemma WriteNodeOk(x: Node, incoming: seq<byte>, acked: nat, p: seq<byte>)
    requires NodeOk(x, incoming, acked)
    ensures NodeOk(WriteNode(x, p), incoming, acked) && Grows(x, WriteNode(x, p))
  {
    hide EndpointOk, Faithful, Honest;
    var x' := WriteNode(x, p);
    if x' != x {
      var q := p[..WriteSize(x.e, |p|)];
      WriteKeeps(x.e, q);
      assert (x.written + q)[x.e.tx.base..] == x.written[x.e.tx.base..] + q;
      HonestGrows(x.e.helloReply, x.written, x.e.rx.next, x.written + q, x.e.rx.next);
    }
  }

  lemma ReadNodeOk(x: Node, incoming: seq<byte>, acked: nat, size: nat)
    requires NodeOk(x, incoming, acked)
    ensures NodeOk(ReadNode(x, size), incoming, acked) && Grows(x, ReadNode(x, size))
  {
    hide EndpointOk, Honest;
    TakeKeeps(x.e, Min(size, |x.e.rx.buf|));
    var n := Min(size, |x.e.rx.buf|);
    assert x.read + x.e.rx.buf[..n] + x.e.rx.buf[n..] == x.read + x.e.rx.buf;
  }

  lemma ReconcileNodeOk(x: Node, incoming: seq<byte>, acked: nat, expected: nat)
    requires NodeOk(x, incoming, acked) && expected <= acked
    ensures var r := Reconcile(x.e.tx, expected);
            (r.Ok? <==> expected >= x.e.tx.base)
            && (r.Ok? ==> r.value.base == expected && Retains(x.(e := x.e.(tx := r.value)), acked))
  {
    hide EndpointOk, Faithful, Honest;
  }

  // Delivery of an honest packet.
  lemma HandleNodeOk(x: Node, incoming: seq<byte>, acked: nat, raw: seq<byte>, now: nat)
    requires NodeOk(x, incoming, acked) && Honest(raw, incoming, acked)
    ensures var x' := x.(e := Handle(x.e, raw, now).0);
            NodeOk(x', incoming, acked) && Grows(x, x')
  {
    hide EndpointOk, Faithful, HandleParsed, Honest, Parse;
    HandleKeeps(x.e, raw, now);
    if raw != [] && Live(x.e) {
      HeardOk(x.e, now);
      var h := x.(e := Heard(x.e, now));
      HandleParsedNodeOk(h, incoming, acked, raw, now);
    }
  }

  lemma HandleParsedNodeOk(x: Node, incoming: seq<byte>, acked: nat, raw: seq<byte>, now: nat)
    requires NodeOk(x, incoming, acked) && Honest(raw, incoming, acked) && Live(x.e)
    ensures var x' := x.(e := HandleParsed(x.e, Parse(raw), now).0);
            && Retains(x', acked) && Receives(x', incoming) && Grows(x, x')
            && Honest(x'.e.helloReply, x'.written, x'.e.rx.next)
  {
    hide EndpointOk, Faithful, Parse, HandleData, LinkEndpoint.HandleAck, HandleHello, IsSlice, DecodeHelloAck;
    match Parse(raw)
    case Data(start, payload) => DataNodeOk(x, incoming, acked, start, payload, now);
    case Ack(expected) => AckNodeOk(x, incoming, acked, expected, now);
    case Hello(offer, known) => HelloNodeOk(x, incoming, acked, offer, known);
    case _ =>
  }

  lemma DataNodeOk(x: Node, incoming: seq<byte>, acked: nat, start: nat, payload: seq<byte>, now: nat)
    requires NodeOk(x, incoming, acked) && IsSlice(incoming, start, payload)
    ensures var (e, error) := HandleData(x.e, start, payload, now);
            var x' := x.(e := e);
            && error != Some(ErrConflictingReplay)
            && Retains(x', acked) && Receives(x', incoming) && Grows(x, x')
            && Honest(x'.e.helloReply, x'.written, x'.e.rx.next)
  {
    hide Accept, Honest, Faithful, WellFormed, AckAfter;
    AcceptDeliversStream(incoming, x.e.rx, x.e.config.replayWindow, start, payload);
    var rx := Accept(x.e.rx, x.e.config.replayWindow, start, payload).0;
    FaithfulReach(incoming, x.e.rx);
    FaithfulReach(incoming, rx);
    assert incoming[..rx.next] == incoming[..x.e.rx.next] + incoming[x.e.rx.next..rx.next];
    HonestGrows(x.e.helloReply, x.written, x.e.rx.next, x.written, rx.next);
  }

  lemma FaithfulReach(stream: seq<byte>, r: Receiver)
    requires Faithful(stream, r)
    ensures r.next <= |stream|
  {}

  lemma AckNodeOk(x: Node, incoming: seq<byte>, acked: nat, expected: nat, now: nat)
    requires NodeOk(x, incoming, acked) && Live(x.e) && expected <= acked
    ensures var r := LinkEndpoint.HandleAck(x.e.tx, x.e.binding.value.flight, expected, now);
            r.Ok? && Retains(x.(e := x.e.(tx := r.value.0)), acked) && r.value.0.base >= x.e.tx.base
            && r.value.0.base >= expected
  {
    hide EndpointOk, Faithful, Honest, AfterAdvance, AfterDuplicate;
  }

  lemma HelloNodeOk(x: Node, incoming: seq<byte>, acked: nat, offer: Offer, known: bool)
    requires NodeOk(x, incoming, acked) && Live(x.e) && offer.expected <= acked
    ensures var x' := x.(e := HandleHello(x.e, offer, known).0);
            && Retains(x', acked) && Receives(x', incoming) && Grows(x, x')
            && Honest(x'.e.helloReply, x'.written, x'.e.rx.next)
  {
    hide EndpointOk, Faithful, Reconcile, EncodeHelloAck, Honest, Negotiate, NormalizeMTU;
    ReconcileNodeOk(x, incoming, acked, offer.expected);
    ReplyHonest(x, offer, Min(x.e.binding.value.mtu, NormalizeMTU(offer.mtu)), incoming, acked);
  }

  // The reply a negotiation produces.
  lemma ReplyHonest(x: Node, offer: Offer, mtu: int, incoming: seq<byte>, acked: nat)
    requires NodeOk(x, incoming, acked)
    ensures var raw := EncodeHelloAck(x.e.rx.next, Negotiate(x.e.config, offer), mtu);
            && Honest(raw, x.written, x.e.rx.next)
            && DecodeHelloAck(raw).Ok? && DecodeHelloAck(raw).value.expected == x.e.rx.next
  {
    hide Faithful, Retains;
    HelloAckRoundTrip(x.e.rx.next, Negotiate(x.e.config, offer), mtu);
  }

  // What the send loop emits is honest.
  lemma EmitNodeOk(x: Node, incoming: seq<byte>, acked: nat, now: nat)
    requires NodeOk(x, incoming, acked) && Live(x.e)
    ensures var (e, packet) := NextPacket(x.e, now);
            var x' := x.(e := e);
            && NodeOk(x', incoming, acked) && Grows(x, x')
            && (packet.Some? ==> Honest(packet.value, x.written, x.e.rx.next))
  {
    hide EndpointOk, Faithful, SendData, Prepared, Honest, EncodeAck;
    NextPacketKeeps(x.e, now);
    SimpleHonest(x.written, x.e.rx.next);
    AckHonest(x, incoming, acked);
    EmitDataHonest(x, incoming, acked, now);
  }

  lemma SimpleHonest(written: seq<byte>, reached: nat)
    ensures Honest([], written, reached) && Honest([PONG], written, reached) && Honest([PING], written, reached)
  {}

  lemma AckHonest(x: Node, incoming: seq<byte>, acked: nat)
    requires NodeOk(x, incoming, acked)
    ensures Honest(EncodeAck(x.e.rx.next), x.written, x.e.rx.next)
  {
    hide Faithful, Retains;
    AckRoundTrip(x.e.rx.next);
  }

  lemma EmitDataHonest(x: Node, incoming: seq<byte>, acked: nat, now: nat)
    requires NodeOk(x, incoming, acked) && Live(x.e)
    ensures var b := x.e.binding.value;
            var packet := SendData(x.e.tx, b.mtu, Prepared(x.e.tx, b.flight, now), now).1;
            packet.Some? ==> Honest(packet.value, x.written, x.e.rx.next)
  {
    hide Faithful, SendData, Prepared, FlightOk, WindowBytes, EncodeData, WellFormed;
    var b := x.e.binding.value;
    PreparedKeeps(x.e.tx, b, now);
    var f := Prepared(x.e.tx, b.flight, now);
    SendDataKeeps(x.e.tx, b.(flight := f), now);
    var (f', packet) := SendData(x.e.tx, b.mtu, f, now);
    if packet.Some? {
      var payload := x.e.tx.buf[f.sendNext - x.e.tx.base..f'.sendNext - x.e.tx.base];
      DataPacketHonest(x, f.sendNext, payload);
    }
  }

  lemma DataPacketHonest(x: Node, start: nat, payload: seq<byte>)
    requires x.e.tx.base <= start && start + |payload| <= x.e.tx.next <= MAX_U64 && payload != []
    requires x.e.tx.next == |x.written| && x.e.tx.buf == x.written[x.e.tx.base..]
    requires payload == x.e.tx.buf[start - x.e.tx.base..start - x.e.tx.base + |payload|]
    ensures Honest(EncodeData(start, payload), x.written, x.e.rx.next)
  {
    DataRoundTrip(start, payload);
    SubSlice(x.written, x.e.tx.base, x.e.tx.buf, start - x.e.tx.base, start - x.e.tx.base + |payload|);
  }

  // Attaching drops only what the sender will replay.
  lemma AttachNodeOk(x: Node, incoming: seq<byte>, acked: nat, connMTU: int, mtu: int, now: nat)
    requires NodeOk(x, incoming, acked)
    ensures var x' := x.(e := Attach(x.e, connMTU, mtu, now));
            NodeOk(x', incoming, acked) && Grows(x, x')
  {
    hide EndpointOk, Honest, NormalizeMTU;
    AttachKeeps(x.e, connMTU, mtu, now);
  }

  lemma DetachNodeOk(x: Node, incoming: seq<byte>, acked: nat)
    requires NodeOk(x, incoming, acked)
    ensures NodeOk(x.(e := Detach(x.e)), incoming, acked) && Grows(x, x.(e := Detach(x.e)))
    ensures NodeOk(x.(e := Shut(x.e)), incoming, acked) && Grows(x, x.(e := Shut(x.e)))
  {}

  lemma WelcomeNodeOk(x: Node, incoming: seq<byte>, acked: nat, id: SessionID, offer: Offer, connMTU: int)
    requires NodeOk(x, incoming, acked) && offer.expected <= acked
    ensures var r := Welcome(x.e, id, offer, connMTU);
            && (id == x.e.id && offer.compression == x.e.config.compression && !x.e.closed ==>
                  (r.Ok? <==> offer.expected >= x.e.tx.base))
            && (r.Ok? ==> var x' := x.(e := r.value.0);
                  NodeOk(x', incoming, acked) && Grows(x, x') && x'.e.rx == x.e.rx
                  && Honest(r.value.1, x.written, x.e.rx.next)
                  && DecodeHelloAck(r.value.1).Ok? && DecodeHelloAck(r.value.1).value.expected == x.e.rx.next)
  {
    hide Faithful, Reconcile, EncodeHelloAck, Honest, NormalizeMTU, FlightOk, WellFormed;
    ReconcileNodeOk(x, incoming, acked, offer.expected);
    if x.e.binding.Some? { ReconcileKeeps(x.e.tx, offer.expected, x.e.binding.value.flight); }
    else { ReconcileKeeps(x.e.tx, offer.expected, Flight(0, 0, 0, 0)); }
    ReplyHonest(x, offer, Min(NormalizeMTU(connMTU), NormalizeMTU(offer.mtu)), incoming, acked);
  }

  lemma ResumeNodeOk(x: Node, incoming: seq<byte>, acked: nat, compression: bool, offer: Offer, connMTU: int)
    requires NodeOk(x, incoming, acked) && offer.expected <= acked
    ensures var r := Resume(x.e, compression, offer, connMTU);
            && (r == Err(ErrSessionState) ==> offer.expected < x.e.tx.base)
            && (r.Ok? ==> var x' := x.(e := r.value.0); NodeOk(x', incoming, acked) && Grows(x, x'))
  {
    hide Faithful, Reconcile, Honest, NormalizeMTU, FlightOk, WellFormed;
    ReconcileNodeOk(x, incoming, acked, offer.expected);
    if x.e.binding.Some? { ReconcileKeeps(x.e.tx, offer.expected, x.e.binding.value.flight); }
    else { ReconcileKeeps(x.e.tx, offer.expected, Flight(0, 0, 0, 0)); }
  }

  // ---- The pair and its network --------------------------------------------

  datatype Side = Client | Server

  // A packet on its way, tagged with the client's connection attempt it
  // belongs to. Packets stay available for ever: delivering one twice is
  // duplication, never delivering it is loss.
  datatype Tagged = Tagged(attempt: nat, raw: seq<byte>)

  // `waiting` holds while the client, unbound since it said HELLO in the
  // current attempt, has not yet reconciled the reply. `replyFor` is the attempt
  // whose HELLO the server's queued reply answers.
  datatype System = System(c: Node, s: Node, toServer: set<Tagged>, toClient: set<Tagged>,
                           attempt: nat, waiting: bool, replyFor: nat)

  datatype Action =
    | Write(side: Side, p: seq<byte>)
    | Read(side: Side, size: nat)
    | Emit(side: Side, now: nat)
    | Beat(side: Side, now: nat)
    | Probed(side: Side, started: nat, now: nat, outcome: Heartbeat.SendOutcome)
    | Deliver(side: Side, m: Tagged, now: nat)
    | AttachSide(side: Side, connMTU: int, mtu: int, now: nat)
    | DetachSide(side: Side)
    | CloseSide(side: Side)
    | SayHello(connMTU: int)
    | WelcomeHello(m: Tagged, connMTU: int)
    | ResumeReply(m: Tagged, compression: bool, connMTU: int)

  ghost function Step(y: System, a: Action): System {
    match a
    case Write(Client, p) => y.(c := WriteNode(y.c, p))
    case Write(Server, p) => y.(s := WriteNode(y.s, p))
    case Read(Client, size) => y.(c := ReadNode(y.c, size))
    case Read(Server, size) => y.(s := ReadNode(y.s, size))
    case Emit(side, now) => StepEmit(y, side, now)
    case Beat(side, now) => StepBeat(y, side, now)
    case Probed(side, started, now, outcome) => StepProbed(y, side, started, now, outcome)
    case Deliver(side, m, now) => StepDeliver(y, side, m, now)
    case AttachSide(Client, connMTU, mtu, now) =>
      y.(c := y.c.(e := Attach(y.c.e, connMTU, mtu, now)), waiting := false)
    case AttachSide(Server, connMTU, mtu, now) => y.(s := y.s.(e := Attach(y.s.e, connMTU, mtu, now)))
    case DetachSide(Client) => y.(c := y.c.(e := Detach(y.c.e)))
    case DetachSide(Server) => y.(s := y.s.(e := Detach(y.s.e)))
    case CloseSide(Client) => y.(c := y.c.(e := Shut(y.c.e)))
    case CloseSide(Server) => y.(s := y.s.(e := Shut(y.s.e)))
    case SayHello(connMTU) => StepHello(y, connMTU)
    case WelcomeHello(m, connMTU) => StepWelcome(y, m, connMTU)
    case ResumeReply(m, compression, connMTU) => StepResume(y, m, compression, connMTU)
  }

  function StepEmit(y: System, side: Side, now: nat): System {
    if side == Client then
      if !Live(y.c.e) then y else
      var (e, packet) := NextPacket(y.c.e, now);
      y.(c := y.c.(e := e),
         toServer := if packet.Some? then y.toServer + {Tagged(y.attempt, packet.value)} else y.toServer)
    else
      if !Live(y.s.e) then y else
      var (e, packet) := NextPacket(y.s.e, now);
      y.(s := y.s.(e := e),
         toClient := if packet.Some? then y.toClient + {Tagged(y.replyFor, packet.value)} else y.toClient)
  }

  // The periodic check, and whether it sends a PING.
  function Checked(e: Endpoint, now: nat): (Endpoint, bool)
    requires Live(e)
  {
    var b := e.binding.value;
    var (p, order) := Heartbeat.Check(b.pulse, now);
    var e' := e.(binding := Some(b.(pulse := p)));
    (if order == Heartbeat.Detach then Detach(e') else e', order == Heartbeat.Probe)
  }

  function StepBeat(y: System, side: Side, now: nat): System {
    if side == Client then
      if !Live(y.c.e) then y else
      var (e, ping) := Checked(y.c.e, now);
      y.(c := y.c.(e := e), toServer := if ping then y.toServer + {Tagged(y.attempt, [PING])} else y.toServer)
    else
      if !Live(y.s.e) then y else
      var (e, ping) := Checked(y.s.e, now);
      y.(s := y.s.(e := e), toClient := if ping then y.toClient + {Tagged(y.replyFor, [PING])} else y.toClient)
  }

  // What becomes of the PING's sending.
  function Reported(e: Endpoint, started: nat, now: nat, outcome: Heartbeat.SendOutcome): Endpoint
    requires Live(e)
  {
    var b := e.binding.value;
    var (p, detach) := Heartbeat.SendResult(b.pulse, started, now, outcome);
    var e' := e.(binding := Some(b.(pulse := p)));
    if detach then Detach(e') else e'
  }

  function StepProbed(y: System, side: Side, started: nat, now: nat, outcome: Heartbeat.SendOutcome): System {
    if side == Client then
      if !Live(y.c.e) then y else y.(c := y.c.(e := Reported(y.c.e, started, now, outcome)))
    else
      if !Live(y.s.e) then y else y.(s := y.s.(e := Reported(y.s.e, started, now, outcome)))
  }

  // A HELLO was taken and its reply queued.
  predicate Answered(e: Endpoint, e': Endpoint) {
    e.pendingHello.Some? && e'.pendingHello.None?
  }

  ghost function StepDeliver(y: System, side: Side, m: Tagged, now: nat): System {
    if side == Client then
      if m !in y.toClient then y else y.(c := y.c.(e := Handle(y.c.e, m.raw, now).0))
    else
      if m !in y.toServer then y else
      var e := Handle(y.s.e, m.raw, now).0;
      y.(s := y.s.(e := e), replyFor := if Answered(y.s.e, e) then m.attempt else y.replyFor)
  }

  // BindClient up to sending its two packets on a new connection.
  function StepHello(y: System, connMTU: int): System {
    if y.c.e.closed then y else
    y.(attempt := y.attempt + 1, waiting := y.c.e.binding.None?,
       toServer := y.toServer + {Tagged(y.attempt + 1, EncodeHelloID(y.c.e.id)),
                                 Tagged(y.attempt + 1, EncodeHello(y.c.e.rx.next, y.c.e.config, connMTU))})
  }

  // BindServer on a HELLO read from a new connection, up to sending its reply.
  function StepWelcome(y: System, m: Tagged, connMTU: int): System {
    match Parse(m.raw)
    case Hello(offer, known) =>
      if m in y.toServer && known && Usable(offer) then
        match Welcome(y.s.e, y.c.e.id, offer, connMTU)
        case Ok((e, reply, mtu)) =>
          y.(s := y.s.(e := e), toClient := y.toClient + {Tagged(m.attempt, reply)})
        case Err(_) => y
      else y
    case _ => y
  }

  // BindClient on the reply, up to attaching. Any copy of the compression setting
  // made before the HELLO will do.
  function StepResume(y: System, m: Tagged, compression: bool, connMTU: int): System {
    match DecodeHelloAck(m.raw)
    case Ok(offer) =>
      if m in y.toClient then
        match Resume(y.c.e, compression, offer, connMTU)
        case Ok((e, mtu)) => y.(c := y.c.(e := e), waiting := false)
        case Err(_) => y
      else y
    case Err(_) => y
  }

  ghost function Run(y: System, actions: seq<Action>): System {
    if actions == [] then y else Step(Run(y, actions[..|actions| - 1]), actions[|actions| - 1])
  }

  // ---- The invariant -------------------------------------------------------

  ghost predicate NetHonest(net: set<Tagged>, x: Node) {
    forall m :: m in net ==> Honest(m.raw, x.written, x.e.rx.next)
  }

  ghost predicate Inv(y: System) {
    && NodeOk(y.c, y.s.written, y.s.e.rx.next)
    && NodeOk(y.s, y.c.written, y.c.e.rx.next)
    && NetHonest(y.toServer, y.c)
    && NetHonest(y.toClient, y.s)
  }

  function Start(id: SessionID, client: Config, server: Config): System {
    System(Node(NewEndpoint(id, client), [], []), Node(NewEndpoint(id, server), [], []), {}, {}, 0, false, 0)
  }

  lemma StartInv(id: SessionID, client: Config, server: Config)
    requires ConfigOk(client) && ConfigOk(server)
    ensures Inv(Start(id, client, server))
  {
    NewEndpointOk(id, client);
    NewEndpointOk(id, server);
    SimpleHonest([], 0);
  }

  lemma NetGrows(net: set<Tagged>, x: Node, x': Node)
    requires NetHonest(net, x) && Grows(x, x')
    ensures NetHonest(net, x')
  {
    hide Honest;
    forall m | m in net ensures Honest(m.raw, x'.written, x'.e.rx.next) {
      HonestGrows(m.raw, x.written, x.e.rx.next, x'.written, x'.e.rx.next);
    }
  }

  lemma ClientMoves(y: System, x': Node)
    requires Inv(y) && NodeOk(x', y.s.written, y.s.e.rx.next) && Grows(y.c, x')
    ensures NodeOk(y.s, x'.written, x'.e.rx.next) && NetHonest(y.toServer, x')
  {
    hide EndpointOk, Honest, Retains, Receives, Grows;
    PeerUnaffected(y.s, y.c, x');
    NetGrows(y.toServer, y.c, x');
  }

  lemma ServerMoves(y: System, x': Node)
    requires Inv(y) && NodeOk(x', y.c.written, y.c.e.rx.next) && Grows(y.s, x')
    ensures NodeOk(y.c, x'.written, x'.e.rx.next) && NetHonest(y.toClient, x')
  {
    hide EndpointOk, Honest, Retains, Receives, Grows;
    PeerUnaffected(y.c, y.s, x');
    NetGrows(y.toClient, y.s, x');
  }

  // Every step keeps the invariant and only extends both histories.
  lemma StepKeepsInv(y: System, a: Action)
    requires Inv(y)
    ensures Inv(Step(y, a)) && Grows(y.c, Step(y, a).c) && Grows(y.s, Step(y, a).s)
  {
    if OnClient(a) { ClientStep(y, a); } else { ServerStep(y, a); }
  }

  predicate OnClient(a: Action) {
    match a
    case SayHello(_) => true
    case ResumeReply(_, _, _) => true
    case WelcomeHello(_, _) => false
    case _ => a.side == Client
  }

  lemma ClientStep(y: System, a: Action)
    requires Inv(y) && OnClient(a)
    ensures Inv(Step(y, a)) && Grows(y.c, Step(y, a).c) && Step(y, a).s == y.s
  {
    hide NodeOk, Honest, NextPacket, Handle, Attach, Resume, EncodeHello, EncodeHelloID, DecodeHelloAck, Detach, Shut;
    var incoming, acked := y.s.written, y.s.e.rx.next;
    match a
    case Write(_, p) => WriteNodeOk(y.c, incoming, acked, p); ClientMoves(y, WriteNode(y.c, p));
    case Read(_, size) => ReadNodeOk(y.c, incoming, acked, size); ClientMoves(y, ReadNode(y.c, size));
    case Emit(_, now) => ClientEmits(y, now);
    case Beat(_, now) => BeatOk(y, Client, now);
    case Probed(_, started, now, outcome) => ProbedOk(y, Client, started, now, outcome);
    case Deliver(_, m, now) =>
      if m in y.toClient {
        HandleNodeOk(y.c, incoming, acked, m.raw, now);
        ClientMoves(y, y.c.(e := Handle(y.c.e, m.raw, now).0));
      } else { assert Grows(y.c, y.c); }
    case AttachSide(_, connMTU, mtu, now) =>
      AttachNodeOk(y.c, incoming, acked, connMTU, mtu, now);
      ClientMoves(y, y.c.(e := Attach(y.c.e, connMTU, mtu, now)));
    case DetachSide(_) => DetachNodeOk(y.c, incoming, acked); ClientMoves(y, y.c.(e := Detach(y.c.e)));
    case CloseSide(_) => DetachNodeOk(y.c, incoming, acked); ClientMoves(y, y.c.(e := Shut(y.c.e)));
    case SayHello(connMTU) => HelloHonest(y.c, incoming, acked, connMTU);
    case ResumeReply(m, compression, connMTU) => ClientResumes(y, m, compression, connMTU);
  }

  lemma ClientEmits(y: System, now: nat)
    requires Inv(y)
    ensures Inv(StepEmit(y, Client, now)) && Grows(y.c, StepEmit(y, Client, now).c)
  {
    hide NodeOk, Honest, NextPacket;
    if Live(y.c.e) {
      EmitNodeOk(y.c, y.s.written, y.s.e.rx.next, now);
      var (e, packet) := NextPacket(y.c.e, now);
      ClientMoves(y, y.c.(e := e));
      if packet.Some? {
        HonestGrows(packet.value, y.c.written, y.c.e.rx.next, y.c.written, e.rx.next);
      }
    }
  }

  // Another pulse, or none, changes nothing the ends owe each other.
  lemma PulseNodeOk(x: Node, incoming: seq<byte>, acked: nat, p: Pulse)
    requires NodeOk(x, incoming, acked) && Live(x.e)
    ensures var e := x.e.(binding := Some(x.e.binding.value.(pulse := p)));
            && NodeOk(x.(e := e), incoming, acked) && Grows(x, x.(e := e))
            && NodeOk(x.(e := Detach(e)), incoming, acked) && Grows(x, x.(e := Detach(e)))
  {
    hide Faithful, Honest, WellFormed, SenderOk, FlightOk;
  }

  lemma BeatOk(y: System, side: Side, now: nat)
    requires Inv(y)
    ensures var y' := StepBeat(y, side, now);
            Inv(y') && Grows(y.c, y'.c) && Grows(y.s, y'.s) && if side == Client then y'.s == y.s else y'.c == y.c
  {
    hide NodeOk, Honest;
    SimpleHonest(y.c.written, y.c.e.rx.next);
    SimpleHonest(y.s.written, y.s.e.rx.next);
    var x := if side == Client then y.c else y.s;
    if Live(x.e) {
      var p := Heartbeat.Check(x.e.binding.value.pulse, now).0;
      if side == Client {
        PulseNodeOk(x, y.s.written, y.s.e.rx.next, p);
        ClientMoves(y, x.(e := Checked(x.e, now).0));
      } else {
        PulseNodeOk(x, y.c.written, y.c.e.rx.next, p);
        ServerMoves(y, x.(e := Checked(x.e, now).0));
      }
    }
  }

  lemma ProbedOk(y: System, side: Side, started: nat, now: nat, outcome: Heartbeat.SendOutcome)
    requires Inv(y)
    ensures var y' := StepProbed(y, side, started, now, outcome);
            Inv(y') && Grows(y.c, y'.c) && Grows(y.s, y'.s) && if side == Client then y'.s == y.s else y'.c == y.c
  {
    hide NodeOk, Honest;
    var x := if side == Client then y.c else y.s;
    if Live(x.e) {
      var p := Heartbeat.SendResult(x.e.binding.value.pulse, started, now, outcome).0;
      if side == Client {
        PulseNodeOk(x, y.s.written, y.s.e.rx.next, p);
        ClientMoves(y, x.(e := Reported(x.e, started, now, outcome)));
      } else {
        PulseNodeOk(x, y.c.written, y.c.e.rx.next, p);
        ServerMoves(y, x.(e := Reported(x.e, started, now, outcome)));
      }
    }
  }

  lemma HelloHonest(x: Node, incoming: seq<byte>, acked: nat, connMTU: int)
    requires NodeOk(x, incoming, acked)
    ensures Honest(EncodeHelloID(x.e.id), x.written, x.e.rx.next)
    ensures Honest(EncodeHello(x.e.rx.next, x.e.config, connMTU), x.written, x.e.rx.next)
  {
    hide Retains, Faithful, EncodeHello, EncodeOffer;
    HelloIDRoundTrip(x.e.id);
    HelloRoundTrip(x.e.rx.next, x.e.config, connMTU);
  }

  lemma ClientResumes(y: System, m: Tagged, compression: bool, connMTU: int)
    requires Inv(y)
    ensures Inv(StepResume(y, m, compression, connMTU)) && Grows(y.c, StepResume(y, m, compression, connMTU).c)
  {
    hide NodeOk, Resume, IsSlice;
    match DecodeHelloAck(m.raw)
    case Ok(offer) =>
      if m in y.toClient {
        ReplyPromise(m.raw);
        assert Honest(m.raw, y.s.written, y.s.e.rx.next);
        ResumeNodeOk(y.c, y.s.written, y.s.e.rx.next, compression, offer, connMTU);
        match Resume(y.c.e, compression, offer, connMTU)
        case Ok((e, mtu)) => ClientMoves(y, y.c.(e := e));
        case Err(_) =>
      }
    case Err(_) =>
  }

  lemma ReplyPromise(raw: seq<byte>)
    ensures DecodeHelloAck(raw).Ok? ==> Promise(raw) == Some(DecodeHelloAck(raw).value.expected)
  {}

  lemma ServerStep(y: System, a: Action)
    requires Inv(y) && !OnClient(a)
    ensures Inv(Step(y, a)) && Grows(y.s, Step(y, a).s) && Step(y, a).c == y.c
  {
    hide NodeOk, Honest, NextPacket, Handle, Attach, Welcome, Parse, Detach, Shut, Answered;
    var incoming, acked := y.c.written, y.c.e.rx.next;
    match a
    case Write(_, p) => WriteNodeOk(y.s, incoming, acked, p); ServerMoves(y, WriteNode(y.s, p));
    case Read(_, size) => ReadNodeOk(y.s, incoming, acked, size); ServerMoves(y, ReadNode(y.s, size));
    case Emit(_, now) => ServerEmits(y, now);
    case Beat(_, now) => BeatOk(y, Server, now);
    case Probed(_, started, now, outcome) => ProbedOk(y, Server, started, now, outcome);
    case Deliver(_, m, now) =>
      if m in y.toServer {
        HandleNodeOk(y.s, incoming, acked, m.raw, now);
        ServerMoves(y, y.s.(e := Handle(y.s.e, m.raw, now).0));
      } else { assert Grows(y.s, y.s); }
    case AttachSide(_, connMTU, mtu, now) =>
      AttachNodeOk(y.s, incoming, acked, connMTU, mtu, now);
      ServerMoves(y, y.s.(e := Attach(y.s.e, connMTU, mtu, now)));
    case DetachSide(_) => DetachNodeOk(y.s, incoming, acked); ServerMoves(y, y.s.(e := Detach(y.s.e)));
    case CloseSide(_) => DetachNodeOk(y.s, incoming, acked); ServerMoves(y, y.s.(e := Shut(y.s.e)));
    case WelcomeHello(m, connMTU) => ServerWelcomes(y, m, connMTU);
  }

  lemma ServerEmits(y: System, now: nat)
    requires Inv(y)
    ensures Inv(StepEmit(y, Server, now)) && Grows(y.s, StepEmit(y, Server, now).s)
  {
    hide NodeOk, Honest, NextPacket;
    if Live(y.s.e) {
      EmitNodeOk(y.s, y.c.written, y.c.e.rx.next, now);
      var (e, packet) := NextPacket(y.s.e, now);
      ServerMoves(y, y.s.(e := e));
      if packet.Some? {
        HonestGrows(packet.value, y.s.written, y.s.e.rx.next, y.s.written, e.rx.next);
      }
    }
  }

  lemma ServerWelcomes(y: System, m: Tagged, connMTU: int)
    requires Inv(y)
    ensures Inv(StepWelcome(y, m, connMTU)) && Grows(y.s, StepWelcome(y, m, connMTU).s)
  {
    hide NodeOk, Welcome, IsSlice, DecodeHelloAck, Parse, Honest;
    match Parse(m.raw)
    case Hello(offer, known) =>
      if m in y.toServer && known && Usable(offer) {
        HelloPromise(m.raw, y.c.written, y.c.e.rx.next);
        WelcomeNodeOk(y.s, y.c.written, y.c.e.rx.next, y.c.e.id, offer, connMTU);
        match Welcome(y.s.e, y.c.e.id, offer, connMTU)
        case Ok((e, reply, mtu)) => ServerMoves(y, y.s.(e := e));
        case Err(_) =>
      }
    case _ =>
  }

  lemma HelloPromise(raw: seq<byte>, written: seq<byte>, reached: nat)
    requires Honest(raw, written, reached)
    ensures Parse(raw).Hello? ==> Parse(raw).offer.expected <= reached
  {}

  // ---- Refinement of a FIFO byte queue -------------------------------------

  // The bytes written by x that y has not read yet.
  function Queue(x: Node, y: Node): seq<byte>
    requires |y.read| <= |x.written|
  {
    x.written[|y.read|..]
  }

  lemma ReadIsPrefix(x: Node, y: Node)
    requires NodeOk(y, x.written, x.e.rx.next)
    ensures y.read <= x.written && |y.read| + |y.e.rx.buf| == y.e.rx.next
  {
    var got := x.written[..y.e.rx.next];
    assert y.read == got[..|y.read|];
  }

  // One step of either direction: what goes in at the tail and out at the head
  // of the queue. Only Write puts, only Read gets.
  ghost predicate FifoStep(x: Node, y: Node, x': Node, y': Node, put: seq<byte>, got: seq<byte>) {
    && x'.written == x.written + put
    && y'.read == y.read + got
    && |y.read| <= |x.written| && |y'.read| <= |x'.written|
    && Queue(x, y) + put == got + Queue(x', y')
  }

  lemma FifoFromPrefix(x: Node, y: Node, x': Node, y': Node)
    requires y.read <= x.written && y'.read <= x'.written && x.written <= x'.written && y.read <= y'.read
    ensures FifoStep(x, y, x', y', x'.written[|x.written|..], y'.read[|y.read|..])
  {
    var put, got := x'.written[|x.written|..], y'.read[|y.read|..];
    assert x'.written == x.written + put && y'.read == y.read + got;
    assert Queue(x, y) + put == x'.written[|y.read|..];
    assert x'.written[|y.read|..] == got + Queue(x', y');
  }

  function Written(a: Action, side: Side): seq<byte> {
    if a.Write? && a.side == side then a.p else []
  }

  // Each step of the pair is a step of two FIFO queues: a Write appends a
  // prefix of its argument, a Read removes from the front, and all sending,
  // loss, duplication, reordering, detaching and attaching changes nothing.
  lemma StepRefinesFifo(y: System, a: Action)
    requires Inv(y)
    ensures var y' := Step(y, a);
            && y.s.read <= y.c.written && y.c.read <= y.s.written
            && y'.s.read <= y'.c.written && y'.c.read <= y'.s.written
            && exists put, got, put', got' :: Moves(y, y', a, put, got, put', got')
  {
    hide NodeOk, Grows;
    var y' := Step(y, a);
    StepKeepsInv(y, a);
    ReadIsPrefix(y.c, y.s);
    ReadIsPrefix(y.s, y.c);
    ReadIsPrefix(y'.c, y'.s);
    ReadIsPrefix(y'.s, y'.c);
    GrowsHistory(y.c, y'.c);
    GrowsHistory(y.s, y'.s);
    FifoFromPrefix(y.c, y.s, y'.c, y'.s);
    FifoFromPrefix(y.s, y.c, y'.s, y'.c);
    HistoryOnlyBy(y, a);
    assert Moves(y, y', a, y'.c.written[|y.c.written|..], y'.s.read[|y.s.read|..],
                 y'.s.written[|y.s.written|..], y'.c.read[|y.c.read|..]);
  }

  // put/got for the client-to-server queue, put'/got' for the other.
  ghost predicate Moves(y: System, y': System, a: Action, put: seq<byte>, got: seq<byte>, put': seq<byte>, got': seq<byte>) {
    && FifoStep(y.c, y.s, y'.c, y'.s, put, got)
    && FifoStep(y.s, y.c, y'.s, y'.c, put', got')
    && put <= Written(a, Client) && put' <= Written(a, Server)
    && (got != [] ==> a.Read? && a.side == Server && |got| <= a.size)
    && (got' != [] ==> a.Read? && a.side == Client && |got'| <= a.size)
  }

  lemma GrowsHistory(x: Node, x': Node)
    requires Grows(x, x')
    ensures x.written <= x'.written && x.read <= x'.read
  {}

  lemma HistoryOnlyBy(y: System, a: Action)
    ensures var y' := Step(y, a);
            && y.c.written <= y'.c.written && y'.c.written[|y.c.written|..] <= Written(a, Client)
            && y.s.written <= y'.s.written && y'.s.written[|y.s.written|..] <= Written(a, Server)
            && (y'.s.read == y.s.read || (a.Read? && a.side == Server && |y'.s.read| <= |y.s.read| + a.size))
            && (y'.c.read == y.c.read || (a.Read? && a.side == Client && |y'.c.read| <= |y.c.read| + a.size))
  {
    hide NextPacket, Handle, Attach, Welcome, Resume, Parse, DecodeHelloAck;
    if a.Write? {
      assert (y.c.written + a.p)[|y.c.written|..] == a.p;
      assert (y.s.written + a.p)[|y.s.written|..] == a.p;
    }
  }

  // Over every run, whatever the network and the bindings do: the invariant
  // holds, and each end has read a prefix of what the other has written.
  lemma {:induction false} ExactlyOnceInOrder(id: SessionID, client: Config, server: Config, actions: seq<Action>)
    requires ConfigOk(client) && ConfigOk(server)
    ensures var y := Run(Start(id, client, server), actions);
            Inv(y) && y.s.read <= y.c.written && y.c.read <= y.s.written
    decreases |actions|
  {
    hide NodeOk, Step;
    var y := Run(Start(id, client, server), actions);
    if actions == [] {
      StartInv(id, client, server);
    } else {
      ExactlyOnceInOrder(id, client, server, actions[..|actions| - 1]);
      StepKeepsInv(Run(Start(id, client, server), actions[..|actions| - 1]), actions[|actions| - 1]);
    }
    ReadIsPrefix(y.c, y.s);
    ReadIsPrefix(y.s, y.c);
  }

}
