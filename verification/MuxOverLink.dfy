// The mux over the lossy link: frames are bytes written to one end of the link and
// read at the other, in pieces of any size, while packets are lost, duplicated and
// reordered and the radio comes and goes. The theorem: every run of this whole stack
// is a run of two sessions joined by perfect frame queues.
module MuxOverLink {
  import opened Bytes
  import opened Frames
  import opened MuxStream
  import opened MuxSession
  import opened MuxOpening
  import opened MuxSelectors
  import Link = LinkSystem
  import LinkPackets
  import LinkInvariants
  import Services

  // One direction: the frames the writer has taken from its session, what of the
  // last one the link has not taken yet, what the reader has of a frame, and how
  // many frames it has handled.
  datatype Channel = Channel(sent: seq<Frame>, unsent: seq<byte>, inbuf: seq<byte>, handled: nat)

  // The client's session is `a` and sends `up`.
  datatype Stack = Stack(link: Link.System, a: Half, b: Half, up: Channel, down: Channel)

  datatype Event =
    | Mux(onA: bool, op: Op)
    | Net(action: Link.Action)
    | Take(toA: bool)

  // ---- Steps ---------------------------------------------------------------

  // The writer takes a frame from its session only when the last one is out.
  predicate Blocked(op: Op, ch: Channel) {
    (op.PickOp? || op.FlushOp?) && ch.unsent != []
  }

  function Send(ch: Channel, out: seq<Frame>): Channel {
    ch.(sent := ch.sent + out, unsent := ch.unsent + EncodeAll(out))
  }

  // What is new in a history that has grown.
  function Added(was: seq<byte>, now: seq<byte>): seq<byte> {
    if |was| <= |now| then now[|was|..] else []
  }

  // A step of the link: x takes bytes from its writer, y hands bytes to its reader.
  function Carry(ch: Channel, x: Link.Node, x': Link.Node, y: Link.Node, y': Link.Node): Channel {
    var n := |Added(x.written, x'.written)|;
    ch.(unsent := if n <= |ch.unsent| then ch.unsent[n..] else [], inbuf := ch.inbuf + Added(y.read, y'.read))
  }

  // Only the mux writes to the link.
  predicate Allowed(s: Stack, action: Link.Action) {
    action.Write? ==> action.p == if action.side == Link.Client then s.up.unsent else s.down.unsent
  }

  predicate Waits(error: FrameError) {
    error == EndOfStream || error == UnexpectedEnd
  }

  // The reader handles a frame that is complete; one it cannot accept ends its
  // session.
  function TakeFrame(h: Half, ch: Channel): (Half, Channel) {
    match Decode(ch.inbuf)
    case Got(f, rest) => (MuxSession.HandleFrame(h, f), ch.(inbuf := rest, handled := ch.handled + 1))
    case Broken(error) => (if Waits(error) then h else Do(h, FailOp).0, ch)
  }

  ghost function Next(s: Stack, event: Event): Stack {
    match event
    case Mux(true, op) =>
      if Blocked(op, s.up) then s else var (h, out) := Do(s.a, op); s.(a := h, up := Send(s.up, out))
    case Mux(false, op) =>
      if Blocked(op, s.down) then s else var (h, out) := Do(s.b, op); s.(b := h, down := Send(s.down, out))
    case Net(action) =>
      if !Allowed(s, action) then s
      else
        var y, y' := s.link, Link.Step(s.link, action);
        s.(link := y', up := Carry(s.up, y.c, y'.c, y.s, y'.s), down := Carry(s.down, y.s, y'.s, y.c, y'.c))
    case Take(true) => var (h, ch) := TakeFrame(s.a, s.down); s.(a := h, down := ch)
    case Take(false) => var (h, ch) := TakeFrame(s.b, s.up); s.(b := h, up := ch)
  }

  ghost function RunStack(s: Stack, events: seq<Event>): Stack
    decreases |events|
  {
    if events == [] then s else RunStack(Next(s, events[0]), events[1..])
  }

  // ---- The same as a step of two sessions joined by frame queues -----------

  function Abs(s: Stack): Pair {
    Pair(s.a, s.b, Pending(s.up), Pending(s.down))
  }

  function Pending(ch: Channel): seq<Frame> {
    if ch.handled <= |ch.sent| then ch.sent[ch.handled..] else []
  }

  function MovesOf(s: Stack, event: Event): seq<Move> {
    match event
    case Mux(onA, op) => if Blocked(op, if onA then s.up else s.down) then [] else [Act(onA, op)]
    case Net(_) => []
    case Take(toA) =>
      match Decode((if toA then s.down else s.up).inbuf)
      case Got(_, _) => [Deliver(toA)]
      case Broken(error) => if Waits(error) then [] else [Act(toA, FailOp)]
  }

  ghost function Moves(s: Stack, events: seq<Event>): seq<Move>
    decreases |events|
  {
    if events == [] then [] else MovesOf(s, events[0]) + Moves(Next(s, events[0]), events[1..])
  }

  // ---- Every frame a session sends is valid --------------------------------

  predicate Sendable(f: Frame) {
    Validate(f) == Valid && |f.payload| < 0x1_0000_0000
  }

  predicate AllSendable(frames: seq<Frame>) {
    forall f :: f in frames ==> Sendable(f)
  }

  predicate SendsValid(h: Half) {
    AllSendable(h.control) && forall id :: id in h.streams ==> AllSendable(h.streams[id].s.outbound)
  }

  lemma SendKeepsValid()
    ensures forall h, f :: SendsValid(h) && Sendable(f) ==> SendsValid(SendControl(h, f))
  {
    hide Sendable;
  }

  lemma PlainFrames(id: Word, selector: seq<byte>)
    requires id != 0 && |selector| <= MAX_SELECTOR
    ensures Sendable(Frame(OPEN, id, selector)) && Sendable(Frame(OPEN_OK, id, [])) && Sendable(Frame(OPEN_ERROR, id, []))
    ensures Sendable(Frame(FIN, id, [])) && Sendable(ResetFrame(id))
  {}

  lemma RetireValid(h: Half, id: Word, s: Stream)
    requires SendsValid(h) && id in h.streams && AllSendable(s.outbound)
    ensures SendsValid(Put(h, id, s)) && SendsValid(Retire(h, id, s))
  {
    hide Sendable;
  }

  lemma EntryValid(h: Half, id: Word, e: Entry)
    requires SendsValid(h) && id in h.streams && AllSendable(e.s.outbound)
    ensures SendsValid(h.(streams := h.streams[id := e]))
  {
    hide Sendable;
  }

  lemma WriteValid(s: Stream, id: Word, p: seq<byte>)
    requires id != 0 && AllSendable(s.outbound)
    ensures AllSendable(Write(s, id, p).outbound)
  {
    hide Chunks;
    ChunksCarry(id, p[..Taken(s, |p|)]);
  }

  lemma StreamOpValid(h: Half, op: Op)
    requires Tidy(h) && SendsValid(h) && OnStream(op) && op.id in h.streams
    ensures SendsValid(StreamOp(h, op).0) && AllSendable(StreamOp(h, op).1)
  {
    hide Close, Read, Write, Tidy, Sendable, SendControl, Retire, Put, SendsValid;
    SendKeepsValid();
    var id, e := op.id, h.streams[op.id];
    assert id != 0 by { OddIds(h); assert Known(h, id); }
    assert AllSendable(e.s.outbound) by { QueueValid(h, id); }
    PlainFrames(id, []);
    match op
    case WriteOp(_, p) =>
      WriteValid(e.s, id, p);
      EntryValid(h, id, e.(s := Write(e.s, id, p), written := e.written + p[..Taken(e.s, |p|)]));
    case ReadOp(_, size) =>
      ReadOutbound(e.s, size);
      EntryValid(h, id, e.(s := Read(e.s, size).0, read := e.read + Read(e.s, size).1));
      var update := Read(e.s, size).2;
      if 0 < update < 0x1_0000_0000 { UpdateValid(id, update); }
    case CloseWriteOp(_) => RetireValid(h, id, CloseWrite(e.s, id));
    case CloseReadOp(_) => RetireValid(h, id, CloseRead(e.s));
    case CloseOp(_) => CloseOutbound(e.s); RetireValid(h, id, Close(e.s).0);
    case ResetOp(_) => RetireValid(h, id, Reset(e.s));
    case ApproveOp(_) => RetireValid(h, id, e.s.(isOpen := true));
    case RejectOp(_) => RetireValid(h, id, e.s.(closed := true));
    case PickOp(_) => RetireValid(h, id, NextOutbound(e.s).0);
  }

  lemma QueueValid(h: Half, id: Word)
    requires SendsValid(h) && id in h.streams
    ensures AllSendable(h.streams[id].s.outbound) && AllSendable(h.control)
  {}

  lemma UpdateValid(id: Word, amount: Word)
    requires id != 0 && amount != 0
    ensures Sendable(WindowUpdate(id, amount))
  {
    Widths();
    WindowUpdateCarriesAmount(id, amount);
  }

  lemma DoValid(h: Half, op: Op)
    requires Tidy(h) && SendsValid(h)
    ensures SendsValid(Do(h, op).0) && AllSendable(Do(h, op).1)
  {
    hide Sendable, SendControl, StreamOp;
    SendKeepsValid();
    if !h.down && OnStream(op) && op.id in h.streams {
      StreamOpValid(h, op);
    } else if op.OpenOp? {
      if h.nextID != 0 && h.nextID <= MAX_WORD && |op.selector| <= Services.MAX_SERVICE_NAME { PlainFrames(h.nextID, op.selector); }
    }
  }

  lemma HandleValid(h: Half, f: Frame)
    requires Tidy(h) && SendsValid(h) && Sendable(f)
    ensures SendsValid(MuxSession.HandleFrame(h, f))
  {
    hide SendControl, Tidy, Retire, Put, SendsValid, Sendable;
    SendKeepsValid();
    assert SendsValid(Shutdown(h)) by { ShutdownValid(h); }
    NamesStream(f);
    if f.kind == SERVICE_LIST {
    } else {
      PlainFrames(f.stream, []);
      if f.kind == OPEN {
        HandleOpenValid(h, f);
      } else if f.stream in h.streams {
        StreamFrameValid(h, f);
      }
    }
  }

  lemma NamesStream(f: Frame)
    requires Sendable(f)
    ensures f.kind != SERVICE_LIST ==> f.stream != 0
  {}

  lemma ShutdownValid(h: Half)
    requires SendsValid(h)
    ensures SendsValid(Shutdown(h))
  {}

  lemma HandleOpenValid(h: Half, f: Frame)
    requires SendsValid(h) && f.stream != 0
    ensures SendsValid(HandleOpen(h, f))
  {
    hide SendControl, Sendable;
    SendKeepsValid();
    PlainFrames(f.stream, []);
  }

  lemma StreamFrameValid(h: Half, f: Frame)
    requires SendsValid(h) && f.stream in h.streams && f.stream != 0
    ensures SendsValid(HandleStreamFrame(h, f))
  {
    hide SendControl, Retire, Put, SendsValid, Sendable;
    SendKeepsValid();
    PlainFrames(f.stream, []);
    var id, s := f.stream, h.streams[f.stream].s;
    QueueValid(h, id);
    ShutdownValid(h);
    RetireValid(h, id, MarkOpened(s, true));
    RetireValid(h, id, MarkOpened(s, false));
    RetireValid(h, id, Reset(s));
    RetireValid(h, id, ReceiveReset(s));
    RetireValid(h, id, ReceiveFIN(s));
    if ReceiveData(s, f.payload).Some? { RetireValid(h, id, ReceiveData(s, f.payload).value); }
    if UpdateSendWindow(s, WindowAmount(f)).Some? { RetireValid(h, id, UpdateSendWindow(s, WindowAmount(f)).value); }
  }

  // ---- What the reader can make of part of the stream ----------------------

  // The start of one frame's encoding and what follows it: too short, a list that is
  // too long to be read, or the frame and the rest.
  lemma DecodePrefix(f: Frame, more: seq<byte>, buf: seq<byte>)
    requires Sendable(f) && buf <= Encode(f) + more
    ensures Decode(buf)
            == if |buf| < HEADER_SIZE then Broken(Shortage(|buf|))
               else if |f.payload| > MAX_DATA_PAYLOAD then Broken(ErrFrameTooLarge)
               else if |buf| < HEADER_SIZE + |f.payload| then Broken(Shortage(|buf| - HEADER_SIZE))
               else Got(f, buf[HEADER_SIZE + |f.payload|..])
  {
    hide Validate;
    Widths();
    if |buf| >= HEADER_SIZE {
      var s := Encode(f) + more;
      assert buf == s[..|buf|];
      assert buf[1..5] == s[1..5] == BigEndian(f.stream, 4);
      assert buf[5..9] == s[5..9] == BigEndian(|f.payload|, 4);
      DecodeInvertsEncode(f.stream, 4);
      DecodeInvertsEncode(|f.payload|, 4);
      if |f.payload| <= MAX_DATA_PAYLOAD && |buf| >= HEADER_SIZE + |f.payload| {
        assert buf[9..9 + |f.payload|] == s[9..9 + |f.payload|] == f.payload;
        assert Validate(f) == Valid;
      }
    }
  }

  // ---- The invariant -------------------------------------------------------

  // What the writer's end of the link has been given, and what the reader's end has
  // given out, are the encodings of the same frames.
  predicate ChannelOk(ch: Channel, written: seq<byte>, read: seq<byte>) {
    && ch.handled <= |ch.sent| && AllSendable(ch.sent)
    && written + ch.unsent == EncodeAll(ch.sent)
    && read == EncodeAll(ch.sent[..ch.handled]) + ch.inbuf
  }

  ghost predicate StackOk(s: Stack) {
    && Link.Inv(s.link)
    && ChannelOk(s.up, s.link.c.written, s.link.s.read) && ChannelOk(s.down, s.link.s.written, s.link.c.read)
    && Tidy(s.a) && Tidy(s.b) && SendsValid(s.a) && SendsValid(s.b)
  }

  lemma {:induction false} EncodeAppend(a: seq<Frame>, b: seq<Frame>)
    ensures EncodeAll(a + b) == EncodeAll(a) + EncodeAll(b)
  {
    hide Encode;
    if a == [] {
      assert a + b == b;
    } else {
      assert (a + b)[1..] == a[1..] + b;
      EncodeAppend(a[1..], b);
    }
  }

  // What the reader holds is the start of the frames it has not handled.
  lemma InbufIsPrefix(ch: Channel, written: seq<byte>, read: seq<byte>)
    requires ChannelOk(ch, written, read) && read <= written
    ensures ch.inbuf <= EncodeAll(Pending(ch))
    ensures Pending(ch) != [] ==> EncodeAll(Pending(ch)) == Encode(Pending(ch)[0]) + EncodeAll(Pending(ch)[1..])
  {
    hide Encode, EncodeAll, Sendable;
    var done := ch.sent[..ch.handled];
    assert ch.sent == done + Pending(ch);
    EncodeAppend(done, Pending(ch));
    var all := EncodeAll(done) + EncodeAll(Pending(ch));
    assert read <= all;
    assert ch.inbuf == read[|EncodeAll(done)|..] == all[|EncodeAll(done)|..|read|];
    UnfoldPending(ch);
  }

  lemma UnfoldPending(ch: Channel)
    ensures Pending(ch) != [] ==> EncodeAll(Pending(ch)) == Encode(Pending(ch)[0]) + EncodeAll(Pending(ch)[1..])
    ensures Pending(ch) == [] ==> EncodeAll(Pending(ch)) == []
  {}

  // A reader gets exactly the next frame, waits for the rest of it, or, exactly if
  // the next frame is a service list of more than 16 KiB, has to give up.
  lemma NextFrameIsRead(ch: Channel, written: seq<byte>, read: seq<byte>)
    requires ChannelOk(ch, written, read) && read <= written
    ensures match Decode(ch.inbuf)
            case Got(f, rest) =>
              Pending(ch) != [] && f == Pending(ch)[0] && ch.inbuf == Encode(f) + rest
            case Broken(error) =>
              !Waits(error) <==> Pending(ch) != [] && |Pending(ch)[0].payload| > MAX_DATA_PAYLOAD && |ch.inbuf| >= HEADER_SIZE
  {
    hide Decode, Encode, EncodeAll, Sendable;
    InbufIsPrefix(ch, written, read);
    UnfoldPending(ch);
    if Pending(ch) == [] {
      NothingToDecode(ch.inbuf);
    } else {
      var f := Pending(ch)[0];
      assert f in ch.sent;
      DecodePrefix(f, EncodeAll(Pending(ch)[1..]), ch.inbuf);
      if Decode(ch.inbuf).Got? { EncodeDecode(ch.inbuf); }
    }
  }

  lemma NothingToDecode(s: seq<byte>)
    requires s == []
    ensures Decode(s) == Broken(EndOfStream)
  {}

  // ---- Every step refines a step of the pair -------------------------------

  lemma SendOk(ch: Channel, out: seq<Frame>, written: seq<byte>, read: seq<byte>)
    requires ChannelOk(ch, written, read) && AllSendable(out)
    ensures ChannelOk(Send(ch, out), written, read) && Pending(Send(ch, out)) == Pending(ch) + out
  {
    hide Sendable, EncodeAll;
    EncodeAppend(ch.sent, out);
    assert written + (ch.unsent + EncodeAll(out)) == written + ch.unsent + EncodeAll(out);
    assert (ch.sent + out)[..ch.handled] == ch.sent[..ch.handled];
  }

  lemma CarryOk(ch: Channel, x: Link.Node, x': Link.Node, y: Link.Node, y': Link.Node)
    requires ChannelOk(ch, x.written, y.read) && x.written <= x'.written && y.read <= y'.read
    requires Added(x.written, x'.written) <= ch.unsent
    ensures ChannelOk(Carry(ch, x, x', y, y'), x'.written, y'.read) && Pending(Carry(ch, x, x', y, y')) == Pending(ch)
  {
    hide Sendable, EncodeAll;
    var given, got := Added(x.written, x'.written), Added(y.read, y'.read);
    assert x'.written == x.written + given && y'.read == y.read + got;
    assert ch.unsent == given + ch.unsent[|given|..];
    assert x'.written + ch.unsent[|given|..] == x.written + ch.unsent;
    assert EncodeAll(ch.sent[..ch.handled]) + (ch.inbuf + got) == y.read + got;
  }

  lemma NetRefines(s: Stack, action: Link.Action)
    requires StackOk(s)
    ensures StackOk(Next(s, Net(action))) && Abs(Next(s, Net(action))) == Abs(s)
  {
    hide ChannelOk, Tidy, SendsValid, Link.Inv, Link.Step;
    if Allowed(s, action) {
      var y, y' := s.link, Link.Step(s.link, action);
      Link.StepKeepsInv(y, action);
      Link.HistoryOnlyBy(y, action);
      ReadsGrow(y, action);
      CarryOk(s.up, y.c, y'.c, y.s, y'.s);
      CarryOk(s.down, y.s, y'.s, y.c, y'.c);
    }
  }

  lemma ReadsGrow(y: Link.System, action: Link.Action)
    requires Link.Inv(y)
    ensures var y' := Link.Step(y, action); y.c.read <= y'.c.read && y.s.read <= y'.s.read
  {
    hide Link.Inv, Link.Step;
    Link.StepKeepsInv(y, action);
  }

  lemma ReadIsWritten(y: Link.System)
    requires Link.Inv(y)
    ensures y.s.read <= y.c.written && y.c.read <= y.s.written
  {
    hide Link.NodeOk;
    Link.ReadIsPrefix(y.c, y.s);
    Link.ReadIsPrefix(y.s, y.c);
  }

  lemma TakeRefines(h: Half, ch: Channel, written: seq<byte>, read: seq<byte>)
    requires ChannelOk(ch, written, read) && read <= written && Tidy(h) && SendsValid(h)
    ensures var (h', ch') := TakeFrame(h, ch);
            && ChannelOk(ch', written, read) && Tidy(h') && SendsValid(h')
            && (Decode(ch.inbuf).Got? ==>
                  && Pending(ch) != [] && h' == MuxSession.HandleFrame(h, Pending(ch)[0]) && Pending(ch') == Pending(ch)[1..])
            && (Decode(ch.inbuf).Broken? ==> ch' == ch)
  {
    hide Decode, Encode, EncodeAll, Tidy, SendsValid, MuxSession.HandleFrame, Do, Sendable;
    NextFrameIsRead(ch, written, read);
    match Decode(ch.inbuf)
    case Got(f, rest) =>
      assert f in ch.sent;
      HandleValid(h, f);
      HandleKeepsTidy(h, f);
      var done := ch.sent[..ch.handled];
      assert ch.sent[..ch.handled + 1] == done + [f];
      EncodeAppend(done, [f]);
      EncodeOne(f);
      assert EncodeAll(done) + ch.inbuf == EncodeAll(done) + Encode(f) + rest;
    case Broken(error) =>
      DoValid(h, FailOp);
      DoKeepsTidy(h, FailOp);
  }

  lemma EncodeOne(f: Frame)
    ensures EncodeAll([f]) == Encode(f)
  {
    assert [f][1..] == [];
    assert Encode(f) + [] == Encode(f);
  }

  lemma StepRefinesPair(s: Stack, event: Event)
    requires StackOk(s)
    ensures StackOk(Next(s, event)) && Abs(Next(s, event)) == RunPair(Abs(s), MovesOf(s, event))
  {
    hide ChannelOk, Tidy, SendsValid, Link.Inv, Link.Step, Do, MuxSession.HandleFrame, TakeFrame, Decode, Send, Carry;
    OneMove(Abs(s));
    match event
    case Mux(true, op) =>
      if !Blocked(op, s.up) {
        DoValid(s.a, op);
        DoKeepsTidy(s.a, op);
        SendOk(s.up, Do(s.a, op).1, s.link.c.written, s.link.s.read);
      }
    case Mux(false, op) =>
      if !Blocked(op, s.down) {
        DoValid(s.b, op);
        DoKeepsTidy(s.b, op);
        SendOk(s.down, Do(s.b, op).1, s.link.s.written, s.link.c.read);
      }
    case Net(action) => NetRefines(s, action);
    case Take(true) =>
      ReadIsWritten(s.link);
      TakeRefines(s.a, s.down, s.link.s.written, s.link.c.read);
      FailsAs(s.a, s.down);
    case Take(false) =>
      ReadIsWritten(s.link);
      TakeRefines(s.b, s.up, s.link.c.written, s.link.s.read);
      FailsAs(s.b, s.up);
  }

  lemma OneMove(p: Pair)
    ensures RunPair(p, []) == p && forall m :: RunPair(p, [m]) == StepPair(p, m)
  {
    hide StepPair;
    forall m ensures RunPair(p, [m]) == StepPair(p, m) {
      assert [m][1..] == [];
    }
  }

  lemma FailsAs(h: Half, ch: Channel)
    ensures match Decode(ch.inbuf)
            case Got(_, _) => true
            case Broken(error) => TakeFrame(h, ch).0 == (if Waits(error) then h else Do(h, FailOp).0) && Do(h, FailOp).1 == []
  {}

  lemma {:induction false} RunRefinesPair(s: Stack, events: seq<Event>)
    requires StackOk(s)
    ensures StackOk(RunStack(s, events)) && Abs(RunStack(s, events)) == RunPair(Abs(s), Moves(s, events))
    decreases |events|
  {
    hide StackOk, Next, MovesOf, Abs;
    if events != [] {
      StepRefinesPair(s, events[0]);
      RunRefinesPair(Next(s, events[0]), events[1..]);
      RunPairAppend(Abs(s), MovesOf(s, events[0]), Moves(Next(s, events[0]), events[1..]));
    }
  }

  // ---- From the start ------------------------------------------------------

  function NewStack(id: LinkPackets.SessionID, client: LinkPackets.Config, server: LinkPackets.Config,
                    clientMax: nat, serverMax: nat, services: Option<seq<Services.Service>>): Stack
  {
    var p := NewPair(clientMax, serverMax, services);
    var silent := Channel([], [], [], 0);
    Stack(Link.Start(id, client, server), p.a, p.b, silent, silent)
  }

  lemma NewStackOk(id: LinkPackets.SessionID, client: LinkPackets.Config, server: LinkPackets.Config,
                   clientMax: nat, serverMax: nat, services: Option<seq<Services.Service>>)
    requires LinkInvariants.ConfigOk(client) && LinkInvariants.ConfigOk(server)
    requires services.Some? ==> |Services.Encode(services.value)| < 0x1_0000_0000
    ensures var s := NewStack(id, client, server, clientMax, serverMax, services);
            StackOk(s) && Abs(s) == NewPair(clientMax, serverMax, services)
  {
    hide Link.Inv, Tidy;
    Link.StartInv(id, client, server);
    NewTidy(clientMax, serverMax, services);
    if services.Some? { Widths(); }
  }

  // Over every run of the whole stack from its start, whatever the network does to
  // packets and however often the radio goes and comes back: the two sessions are as
  // after a run over perfect queues, and a stream that nobody gives up in it delivers
  // at each end a prefix of what was written at the other, and all of it at the end.
  lemma ExactOverTheLink(id: LinkPackets.SessionID, client: LinkPackets.Config, server: LinkPackets.Config,
                         clientMax: nat, serverMax: nat, services: Option<seq<Services.Service>>,
                         events: seq<Event>, stream: Word)
    requires LinkInvariants.ConfigOk(client) && LinkInvariants.ConfigOk(server)
    requires services.Some? ==> |Services.Encode(services.value)| < 0x1_0000_0000
    ensures var s := NewStack(id, client, server, clientMax, serverMax, services);
            var q, p, moves := Abs(RunStack(s, events)), NewPair(clientMax, serverMax, services), Moves(s, events);
            && q == RunPair(p, moves)
            && (KeptThroughout(p, moves, stream) && BothAlive(q, stream) ==> Exact(q, stream))
  {
    hide StackOk, Next, NewStack, Abs, KeptThroughout, BothAlive;
    var s, p := NewStack(id, client, server, clientMax, serverMax, services), NewPair(clientMax, serverMax, services);
    NewStackOk(id, client, server, clientMax, serverMax, services);
    RunRefinesPair(s, events);
    if KeptThroughout(p, Moves(s, events), stream) {
      StreamsFromTheStart(clientMax, serverMax, services, Moves(s, events), stream);
    }
  }

  // And every stream the server knows is for the service asked for at the client.
  lemma SelectorsOverTheLink(id: LinkPackets.SessionID, client: LinkPackets.Config, server: LinkPackets.Config,
                             clientMax: nat, serverMax: nat, services: Option<seq<Services.Service>>,
                             events: seq<Event>, stream: Word)
    requires LinkInvariants.ConfigOk(client) && LinkInvariants.ConfigOk(server)
    requires services.Some? ==> |Services.Encode(services.value)| < 0x1_0000_0000
    ensures var s := NewStack(id, client, server, clientMax, serverMax, services);
            var b, asked := RunStack(s, events).b, Asked(NewPair(clientMax, serverMax, services), Moves(s, events), map[]);
            Known(b, stream) ==> stream in asked && EntryAt(b, stream).selector == asked[stream]
  {
    hide StackOk, Next, NewStack;
    var s := NewStack(id, client, server, clientMax, serverMax, services);
    NewStackOk(id, client, server, clientMax, serverMax, services);
    RunRefinesPair(s, events);
    SelectorsArrive(clientMax, serverMax, services, Moves(s, events), stream);
  }
}
