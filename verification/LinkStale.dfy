// A handshake reply queued on one binding outlives it: the binding that follows
// sends it first, with an offset the client may have left behind.
module LinkStale {
  import opened Bytes
  import opened Fragments
  import opened Reassembly
  import opened LinkPackets
  import opened LinkEndpoint
  import opened LinkInvariants
  import opened LinkSystem
  import opened LinkResume
  import opened LinkProgress

  // Attaching keeps a queued reply, and the new binding sends it before all else.
  lemma ReplySurvivesAttach(e: Endpoint, connMTU: int, mtu: int, now: nat, later: nat)
    requires !e.closed && e.helloReply != []
    ensures Live(Attach(Detach(e), connMTU, mtu, now))
    ensures NextPacket(Attach(Detach(e), connMTU, mtu, now), later).1 == Some(e.helloReply)
  {}

  // When a reply is refused, for every reachable state and every reply on its way
  // or queued: exactly if the client has released the byte it names.
  lemma ReplyRefusedIffReleased(y: System, raw: seq<byte>, compression: bool, connMTU: int)
    requires Inv(y) && DecodeHelloAck(raw).Ok?
    requires raw == y.s.e.helloReply || exists m :: m in y.toClient && m.raw == raw
    requires DecodeHelloAck(raw).value.compression == compression
    ensures Resume(y.c.e, compression, DecodeHelloAck(raw).value, connMTU) == Err(ErrSessionState)
            <==> DecodeHelloAck(raw).value.expected < y.c.e.tx.base
    ensures Resume(y.c.e, compression, DecodeHelloAck(raw).value, connMTU).Ok?
            <==> DecodeHelloAck(raw).value.expected >= y.c.e.tx.base
  {
    hide DecodeHelloAck, EndpointOk, Receives, Parse;
    ReplyPromise(raw);
    BaseReached(y);
    assert Honest(raw, y.s.written, y.s.e.rx.next);
  }

  // ---- It happens ----------------------------------------------------------

  // Two equal configurations, and one byte to send.
  const CFG: Config := Config(1000 * MILLISECOND, 1, 1, false)

  function Mtu(): int { 244 }

  function Asks(): seq<byte> { EncodeHello(0, CFG, Mtu()) }

  function Reply(reached: nat): seq<byte> { EncodeHelloAck(reached, CFG, Mtu()) }

  function Bound(sendNext: nat, at: nat): Option<BindingState> {
    Some(BindingState(244, Pulse(1, false, 1, 0), Flight(sendNext, at, 0, INITIAL_FLIGHT_PACKETS)))
  }

  function ClientEnd(id: SessionID, tx: Sender, binding: Option<BindingState>): Endpoint {
    Endpoint(id, CFG, tx, Receiver(0, [], map[], 0, 0), AckState(false, 0, 0), false, [], None, binding, false)
  }

  function ServerEnd(id: SessionID, rx: Receiver, ack: AckState, reply: seq<byte>, heard: Option<SessionID>): Endpoint {
    Endpoint(id, CFG, Sender(0, 0, []), rx, ack, false, reply, heard, Bound(0, 0), false)
  }

  function Greeting(id: SessionID, attempt: nat): set<Tagged> {
    {Tagged(attempt, EncodeHelloID(id)), Tagged(attempt, Asks())}
  }

  const NOTHING: Receiver := Receiver(0, [], map[], 0, 0)
  const QUIET: AckState := AckState(false, 0, 0)
  const ONE: seq<byte> := [7]

  // Both ends bound.
  function Connected(id: SessionID): System {
    System(Node(ClientEnd(id, Sender(0, 0, []), Bound(0, 0)), [], []),
           Node(ServerEnd(id, NOTHING, QUIET, [], None), [], []),
           Greeting(id, 1), {Tagged(1, Reply(0))}, 1, false, 0)
  }

  // The greeting has come a second time, and its answer waits to be sent.
  function Repeated(id: SessionID): System {
    var y := Connected(id);
    y.(s := Node(ServerEnd(id, NOTHING, QUIET, Reply(0), None), [], []), replyFor := 1)
  }

  // One byte has gone from client to server.
  function Delivered(id: SessionID): System {
    System(Node(ClientEnd(id, Sender(0, 1, ONE), Bound(1, 1 + RETRANSMIT_INTERVAL)), ONE, []),
           Node(ServerEnd(id, Receiver(1, ONE, map[], 0, 1), AckState(true, 1, 1 + ACK_MAX_DELAY), Reply(0), None), [], []),
           Greeting(id, 1) + {Tagged(1, EncodeData(0, ONE))}, {Tagged(1, Reply(0))}, 1, false, 1)
  }

  // The client has bound again, and learned that the byte arrived.
  function Resumed(id: SessionID): System {
    var y := Delivered(id);
    y.(c := Node(ClientEnd(id, Sender(1, 1, []), Bound(1, 0)), ONE, []),
       toServer := y.toServer + Greeting(id, 2), toClient := y.toClient + {Tagged(2, Reply(1))}, attempt := 2)
  }

  // The client is binding for the third time; the server has attached.
  function Again(id: SessionID): System {
    var y := Resumed(id);
    y.(c := Node(ClientEnd(id, Sender(1, 1, []), None), ONE, []),
       s := Node(ServerEnd(id, Receiver(1, ONE, map[], 0, 1), AckState(true, 1, 1), Reply(0), None), [], []),
       toServer := y.toServer + Greeting(id, 3), toClient := y.toClient + {Tagged(3, Reply(1))},
       attempt := 3, waiting := true)
  }

  // Connect; repeat the greeting; send a byte; bind again; start to bind again.
  function Connecting(): seq<Action> {
    [SayHello(Mtu()), WelcomeHello(Tagged(1, Asks()), Mtu()), AttachSide(Server, Mtu(), Mtu(), 1),
     ResumeReply(Tagged(1, Reply(0)), CFG.compression, Mtu()), AttachSide(Client, Mtu(), Mtu(), 1)]
  }

  function Repeating(id: SessionID): seq<Action> {
    [Deliver(Server, Tagged(1, EncodeHelloID(id)), 1), Deliver(Server, Tagged(1, Asks()), 1)]
  }

  function Sending(): seq<Action> {
    [Write(Client, ONE), Emit(Client, 1), Deliver(Server, Tagged(1, EncodeData(0, ONE)), 1)]
  }

  function Resuming(): seq<Action> {
    [DetachSide(Client), SayHello(Mtu()), WelcomeHello(Tagged(2, Asks()), Mtu()),
     ResumeReply(Tagged(2, Reply(1)), CFG.compression, Mtu()), AttachSide(Client, Mtu(), Mtu(), 1)]
  }

  function Restarting(): seq<Action> {
    [DetachSide(Client), SayHello(Mtu()), WelcomeHello(Tagged(3, Asks()), Mtu()), AttachSide(Server, Mtu(), Mtu(), 1)]
  }

  function Actions(id: SessionID): seq<Action> {
    Connecting() + (Repeating(id) + (Sending() + (Resuming() + Restarting())))
  }

  lemma TwoSteps(y: System, a: seq<Action>, y1: System, y2: System)
    requires |a| == 2 && Step(y, a[0]) == y1 && Step(y1, a[1]) == y2
    ensures Run(y, a) == y2
  {
    hide Step;
    assert a[..1][..0] == [];
    assert Run(y, a[..1]) == y1;
  }

  lemma ThreeSteps(y: System, a: seq<Action>, y1: System, y2: System, y3: System)
    requires |a| == 3 && Step(y, a[0]) == y1 && Step(y1, a[1]) == y2 && Step(y2, a[2]) == y3
    ensures Run(y, a) == y3
  {
    hide Step;
    TwoSteps(y, a[..2], y1, y2);
  }

  lemma FiveSteps(y: System, a: seq<Action>, y1: System, y2: System, y3: System, y4: System, y5: System)
    requires |a| == 5 && Step(y, a[0]) == y1 && Step(y1, a[1]) == y2 && Step(y2, a[2]) == y3
    requires Step(y3, a[3]) == y4 && Step(y4, a[4]) == y5
    ensures Run(y, a) == y5
  {
    hide Step, Run;
    ThreeSteps(y, a[..3], y1, y2, y3);
    TwoSteps(y3, a[3..], y4, y5);
    RunAppend(y, a[..3], a[3..]);
    assert a[..3] + a[3..] == a;
  }

  lemma Meanings(id: SessionID)
    ensures Parse(Asks()) == Hello(Announced(0, CFG, Mtu()), true) && Parse(EncodeHelloID(id)) == HelloID(id)
    ensures DecodeHelloAck(Reply(0)) == Ok(Announced(0, CFG, Mtu())) && DecodeHelloAck(Reply(1)) == Ok(Announced(1, CFG, Mtu()))
    ensures Parse(EncodeData(0, ONE)) == Data(0, ONE)
    ensures Asks() != [] && EncodeHelloID(id) != [] && EncodeData(0, ONE) != [] && Reply(0) != []
    ensures forall n: nat :: Announced(n, CFG, Mtu()) == Offer(n, 1000 * MILLISECOND, 1, 244, false)
  {
    hide EncodeOffer, BigEndian, Parse, DecodeHelloAck;
    HelloRoundTrip(0, CFG, Mtu());
    HelloIDRoundTrip(id);
    HelloAckRoundTrip(0, CFG, Mtu());
    HelloAckRoundTrip(1, CFG, Mtu());
    DataRoundTrip(0, ONE);
  }

  lemma StepsToConnected(id: SessionID)
    ensures Run(Start(id, CFG, CFG), Connecting()) == Connected(id)
  {
    Meanings(id);
    hide EncodeHello, EncodeHelloAck, EncodeHelloID, EncodeData, Parse, DecodeHelloAck, Announced, Handle;
    var y0 := Start(id, CFG, CFG);
    var y1 := y0.(attempt := 1, waiting := true, toServer := Greeting(id, 1));
    assert Step(y0, SayHello(Mtu())) == y1;
    var y2 := y1.(toClient := {Tagged(1, Reply(0))});
    assert Step(y1, WelcomeHello(Tagged(1, Asks()), Mtu())) == y2;
    var y3 := y2.(s := Node(ServerEnd(id, NOTHING, QUIET, [], None), [], []));
    assert Step(y2, AttachSide(Server, Mtu(), Mtu(), 1)) == y3;
    var y4 := y3.(waiting := false);
    assert Step(y3, ResumeReply(Tagged(1, Reply(0)), CFG.compression, Mtu())) == y4;
    assert Step(y4, AttachSide(Client, Mtu(), Mtu(), 1)) == Connected(id);
    FiveSteps(y0, Connecting(), y1, y2, y3, y4, Connected(id));
  }

  lemma StepsToRepeated(id: SessionID)
    ensures Run(Connected(id), Repeating(id)) == Repeated(id)
  {
    Meanings(id);
    hide EncodeHello, EncodeHelloAck, EncodeHelloID, EncodeData, Parse, DecodeHelloAck, Announced;
    var y := Connected(id);
    var y1 := y.(s := Node(ServerEnd(id, NOTHING, QUIET, [], Some(id)), [], []));
    assert Step(y, Deliver(Server, Tagged(1, EncodeHelloID(id)), 1)) == y1;
    assert Step(y1, Deliver(Server, Tagged(1, Asks()), 1)) == Repeated(id);
    TwoSteps(y, Repeating(id), y1, Repeated(id));
  }

  lemma FirstByteGoes()
    ensures var f := Flight(0, 0, 0, INITIAL_FLIGHT_PACKETS);
            Prepared(Sender(0, 1, ONE), f, 1) == f
            && SendData(Sender(0, 1, ONE), 244, f, 1)
               == (Flight(1, 1 + RETRANSMIT_INTERVAL, 0, INITIAL_FLIGHT_PACKETS), Some(EncodeData(0, ONE)))
  {
    hide EncodeData;
    assert WindowLimit(Sender(0, 1, ONE), 244, INITIAL_FLIGHT_PACKETS) == 1;
    assert ONE[0..1] == ONE;
  }

  lemma FirstByteArrives()
    ensures Accept(NOTHING, 1, 0, ONE) == (Receiver(1, ONE, map[], 0, 1), Advanced(1))
  {
    var none: Store := map[];
    assert Clip(none, 1) == none && Total(none) == 0 && Beyond(none, 1) == none;
    assert !Conflicting(none, 0, ONE);
    assert Overlap(none, 1) == 0 && [] + ONE == ONE;
    hide Conflicting, Overlap, Clip, Beyond, Total;
    var r := Receiver(1, ONE, none, 0, 1);
    assert Filled(NOTHING, 1, ONE) == r;
    hide Filled;
    assert Drain(r, 1) == (r, 1);
    assert AcceptNext(NOTHING, 1, ONE) == (r, Advanced(1));
  }

  lemma StepsToDelivered(id: SessionID)
    ensures Run(Repeated(id), Sending()) == Delivered(id)
  {
    Meanings(id);
    FirstByteGoes();
    hide EncodeHello, EncodeHelloAck, EncodeHelloID, EncodeData, Parse, DecodeHelloAck, Announced, SendData, Prepared;
    var y := Repeated(id);
    var y1 := y.(c := Node(ClientEnd(id, Sender(0, 1, ONE), Bound(0, 0)), ONE, []));
    assert Step(y, Write(Client, ONE)) == y1;
    var y2 := y1.(c := Delivered(id).c, toServer := Delivered(id).toServer);
    assert Step(y1, Emit(Client, 1)) == y2;
    FirstByteArrives();
    hide Accept;
    assert Step(y2, Deliver(Server, Tagged(1, EncodeData(0, ONE)), 1)) == Delivered(id);
    ThreeSteps(y, Sending(), y1, y2, Delivered(id));
  }

  lemma StepsToResumed(id: SessionID)
    ensures Run(Delivered(id), Resuming()) == Resumed(id)
  {
    Meanings(id);
    hide EncodeHello, EncodeHelloAck, EncodeHelloID, EncodeData, Parse, DecodeHelloAck, Announced, Handle;
    var y := Delivered(id);
    var y1 := y.(c := Node(ClientEnd(id, Sender(0, 1, ONE), None), ONE, []));
    assert Step(y, DetachSide(Client)) == y1;
    var y2 := y1.(attempt := 2, waiting := true, toServer := y.toServer + Greeting(id, 2));
    assert Step(y1, SayHello(Mtu())) == y2;
    var y3 := y2.(toClient := y.toClient + {Tagged(2, Reply(1))});
    assert Step(y2, WelcomeHello(Tagged(2, Asks()), Mtu())) == y3;
    var y4 := y3.(c := Node(ClientEnd(id, Sender(1, 1, []), None), ONE, []), waiting := false);
    assert ONE[1..] == [];
    assert Step(y3, ResumeReply(Tagged(2, Reply(1)), CFG.compression, Mtu())) == y4;
    assert Step(y4, AttachSide(Client, Mtu(), Mtu(), 1)) == Resumed(id);
    FiveSteps(y, Resuming(), y1, y2, y3, y4, Resumed(id));
  }

  lemma StepsToAgain(id: SessionID)
    ensures Run(Resumed(id), Restarting()) == Again(id)
  {
    Meanings(id);
    hide EncodeHello, EncodeHelloAck, EncodeHelloID, EncodeData, Parse, DecodeHelloAck, Announced, Handle;
    var y := Resumed(id);
    var y1 := y.(c := Node(ClientEnd(id, Sender(1, 1, []), None), ONE, []));
    assert Step(y, DetachSide(Client)) == y1;
    var y2 := y1.(attempt := 3, waiting := true, toServer := y.toServer + Greeting(id, 3));
    assert Step(y1, SayHello(Mtu())) == y2;
    var y3 := y2.(toClient := y.toClient + {Tagged(3, Reply(1))});
    assert Step(y2, WelcomeHello(Tagged(3, Asks()), Mtu())) == y3;
    assert Step(y3, AttachSide(Server, Mtu(), Mtu(), 1)) == Again(id);
    TwoSteps(y2, Restarting()[2..], y3, Again(id));
    TwoSteps(y, Restarting()[..2], y1, y2);
    RunAppend(y, Restarting()[..2], Restarting()[2..]);
    assert Restarting()[..2] + Restarting()[2..] == Restarting();
  }

  lemma TheRun(id: SessionID)
    ensures Run(Start(id, CFG, CFG), Actions(id)) == Again(id)
  {
    hide Step, Start, Connected, Repeated, Delivered, Resumed, Again, Connecting, Repeating, Sending, Resuming, Restarting;
    var y0 := Start(id, CFG, CFG);
    hide Run;
    var tail4 := Resuming() + Restarting();
    var tail3 := Sending() + tail4;
    var tail2 := Repeating(id) + tail3;
    StepsToConnected(id); RunAppend(y0, Connecting(), tail2);
    StepsToRepeated(id); RunAppend(Connected(id), Repeating(id), tail3);
    StepsToDelivered(id); RunAppend(Repeated(id), Sending(), tail4);
    StepsToResumed(id); RunAppend(Delivered(id), Resuming(), Restarting());
    StepsToAgain(id);
  }

  // While the client waits for the answer to its third greeting, the server's new
  // binding sends the answer to the first, and the client refuses it for good.
  lemma StaleReplyIsRefused(id: SessionID)
    ensures var y := Run(Start(id, CFG, CFG), Actions(id));
            && Inv(y) && y.waiting && Live(y.s.e) && y.replyFor != y.attempt
            && NextPacket(y.s.e, 1).1 == Some(Reply(0))
            && DecodeHelloAck(Reply(0)).Ok?
            && Resume(y.c.e, CFG.compression, DecodeHelloAck(Reply(0)).value, Mtu()) == Err(ErrSessionState)
  {
    Meanings(id);
    hide Run, EncodeHello, EncodeHelloAck, EncodeHelloID, EncodeData, Announced, DecodeHelloAck, Inv;
    TheRun(id);
    ExactlyOnceInOrder(id, CFG, CFG, Actions(id));
  }
}
