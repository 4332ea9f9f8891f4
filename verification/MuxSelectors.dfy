// A stream is for the service its opener asked for: the name travels from the call at
// the client to the stream the server's application accepts.
module MuxSelectors {
  import opened Bytes
  import opened Frames
  import opened MuxStream
  import opened MuxSession
  import opened MuxOpening
  import MuxCredit
  import Services

  // What was asked for, by identifier, over a run: each call that got one.
  type Requests = map<Word, seq<byte>>

  function Request(p: Pair, m: Move, asked: Requests): Requests {
    if m.Act? && m.onA && m.op.OpenOp? && 0 < p.a.nextID <= MAX_WORD && Do(p.a, m.op).0.nextID != p.a.nextID
    then asked[p.a.nextID := m.op.selector] else asked
  }

  function Asked(p: Pair, moves: seq<Move>, asked: Requests): Requests
    decreases |moves|
  {
    if moves == [] then asked else Asked(StepPair(p, moves[0]), moves[1..], Request(p, moves[0], asked))
  }

  // ---- The invariant -------------------------------------------------------

  // Every stream known is for what was asked.
  predicate AsAsked(h: Half, asked: Requests) {
    && (forall id :: id in h.streams ==> id in asked && h.streams[id].selector == asked[id])
    && (forall id :: id in h.gone ==> id in asked && h.gone[id].selector == asked[id])
  }

  // Every announcement says what was asked.
  predicate Truthful(frames: seq<Frame>, asked: Requests) {
    forall f :: f in frames && f.kind == OPEN ==> f.stream in asked && f.payload == asked[f.stream]
  }

  predicate NoAnnouncement(frames: seq<Frame>) {
    forall f :: f in frames ==> f.kind != OPEN
  }

  predicate QueuesPlain(h: Half) {
    forall id :: id in h.streams ==> NoAnnouncement(h.streams[id].s.outbound)
  }

  // The next identifier has not been asked for.
  predicate NextIsNew(h: Half, asked: Requests) {
    h.nextID != 0 ==> forall id :: id in asked ==> id < h.nextID
  }

  predicate ClientHonest(h: Half, asked: Requests) {
    h.client && AsAsked(h, asked) && Truthful(h.control, asked) && QueuesPlain(h) && NextIsNew(h, asked)
  }

  predicate Matched(p: Pair, asked: Requests) {
    && ClientHonest(p.a, asked) && Truthful(p.ab, asked)
    && !p.b.client && AsAsked(p.b, asked)
  }

  // ---- What changes a session ----------------------------------------------

  lemma SendKeeps(asked: Requests)
    ensures forall h, f :: AsAsked(h, asked) ==> AsAsked(SendControl(h, f), asked)
    ensures forall h, f: Frame :: ClientHonest(h, asked) && f.kind != OPEN ==> ClientHonest(SendControl(h, f), asked)
  {}

  lemma ShutdownKeeps(h: Half, asked: Requests)
    ensures AsAsked(h, asked) ==> AsAsked(Shutdown(h), asked)
    ensures ClientHonest(h, asked) ==> ClientHonest(Shutdown(h), asked)
  {}

  lemma EntryKeeps(h: Half, id: Word, e: Entry, asked: Requests)
    requires id in h.streams && e.selector == h.streams[id].selector
    ensures AsAsked(h, asked) ==> AsAsked(h.(streams := h.streams[id := e]), asked)
    ensures ClientHonest(h, asked) && NoAnnouncement(e.s.outbound) ==> ClientHonest(h.(streams := h.streams[id := e]), asked)
  {}

  lemma RetireKeeps(h: Half, id: Word, s: Stream, asked: Requests)
    requires id in h.streams
    ensures AsAsked(h, asked) ==> AsAsked(Put(h, id, s), asked) && AsAsked(Retire(h, id, s), asked)
    ensures ClientHonest(h, asked) && NoAnnouncement(s.outbound) ==> ClientHonest(Put(h, id, s), asked) && ClientHonest(Retire(h, id, s), asked)
  {
    EntryKeeps(h, id, h.streams[id].(s := s), asked);
    RemoveKeeps(Put(h, id, s), id, asked);
  }

  lemma RemoveKeeps(h: Half, id: Word, asked: Requests)
    ensures AsAsked(h, asked) ==> AsAsked(MuxSession.Remove(h, id), asked)
    ensures ClientHonest(h, asked) ==> ClientHonest(MuxSession.Remove(h, id), asked)
  {}

  // ---- Operations ----------------------------------------------------------

  lemma OutboundPlain(h: Half, op: Op)
    requires QueuesPlain(h) && OnStream(op) && op.id in h.streams
    ensures var s := h.streams[op.id].s;
            && (op.WriteOp? ==> NoAnnouncement(Write(s, op.id, op.p).outbound))
            && (op.ReadOp? ==> NoAnnouncement(Read(s, op.size).0.outbound))
            && NoAnnouncement(CloseWrite(s, op.id).outbound) && NoAnnouncement(CloseRead(s).outbound)
            && NoAnnouncement(Close(s).0.outbound) && NoAnnouncement(Reset(s).outbound)
            && NoAnnouncement(NextOutbound(s).0.outbound)
            && (s.outbound != [] ==> s.outbound[0].kind != OPEN)
  {
    hide Chunks;
    var s := h.streams[op.id].s;
    assert NoAnnouncement(s.outbound);
    if op.WriteOp? { ChunksCarry(op.id, op.p[..Taken(s, |op.p|)]); }
  }

  lemma StreamOpKeeps(h: Half, op: Op, asked: Requests)
    requires OnStream(op) && op.id in h.streams
    ensures AsAsked(h, asked) ==> AsAsked(StreamOp(h, op).0, asked)
    ensures ClientHonest(h, asked) ==> ClientHonest(StreamOp(h, op).0, asked) && NoAnnouncement(StreamOp(h, op).1)
  {
    hide AsAsked, ClientHonest, SendControl, Put, Retire, Write, Read, Close, CloseWrite, CloseRead, Reset, NextOutbound, NoAnnouncement;
    SendKeeps(asked);
    var id, e := op.id, h.streams[op.id];
    if ClientHonest(h, asked) {
      assert QueuesPlain(h) && NoAnnouncement(e.s.outbound) by { HonestQueues(h, id, asked); }
      OutboundPlain(h, op);
    }
    match op
    case WriteOp(_, p) => EntryKeeps(h, id, e.(s := Write(e.s, id, p), written := e.written + p[..Taken(e.s, |p|)]), asked); NothingSent();
    case ReadOp(_, size) => EntryKeeps(h, id, e.(s := Read(e.s, size).0, read := e.read + Read(e.s, size).1), asked); NothingSent();
    case CloseWriteOp(_) => RetireKeeps(h, id, CloseWrite(e.s, id), asked); NothingSent();
    case CloseReadOp(_) => RetireKeeps(h, id, CloseRead(e.s), asked); NothingSent();
    case CloseOp(_) => RetireKeeps(h, id, Close(e.s).0, asked); NothingSent();
    case ResetOp(_) => RetireKeeps(h, id, Reset(e.s), asked); NothingSent();
    case ApproveOp(_) => RetireKeeps(h, id, e.s.(isOpen := true), asked); NothingSent();
    case RejectOp(_) => RetireKeeps(h, id, e.s.(closed := true), asked); NothingSent();
    case PickOp(_) => RetireKeeps(h, id, NextOutbound(e.s).0, asked); PickedIsPlain(e.s);
  }

  lemma NothingSent()
    ensures NoAnnouncement([])
  {}

  lemma PickedIsPlain(s: Stream)
    ensures var out := NextOutbound(s).1;
            (s.outbound != [] ==> s.outbound[0].kind != OPEN) ==>
              NoAnnouncement(if out.frame.Some? then [out.frame.value] else [])
  {}

  lemma HonestQueues(h: Half, id: Word, asked: Requests)
    requires ClientHonest(h, asked) && id in h.streams
    ensures QueuesPlain(h) && NoAnnouncement(h.streams[id].s.outbound)
  {}

  // A call at the client that gets an identifier announces what it asks for.
  lemma OpenKeeps(h: Half, selector: seq<byte>, asked: Requests)
    requires ClientHonest(h, asked) && !h.down
    ensures var h' := Open(h, selector);
            ClientHonest(h', if 0 < h.nextID <= MAX_WORD && h'.nextID != h.nextID then asked[h.nextID := selector] else asked)
  {
    hide Truthful;
    if |selector| <= Services.MAX_SERVICE_NAME && |h.streams| < h.maxStreams && Allocate(h.nextID).0.Some? {
      var id, next: nat := Allocate(h.nextID).0.value, Allocate(h.nextID).1;
      var more := asked[id := selector];
      assert id !in asked;
      assert Truthful(h.control + [Frame(OPEN, id, selector)], more) by { TruthGrows(h.control, id, selector, asked); }
      assert Truthful(h.control, more) by { TruthGrows(h.control, id, selector, asked); }
      var h' := h.(nextID := next, lastID := id, streams := h.streams[id := Entry(New(), [], [], selector)]);
      assert AsAsked(h', more) && QueuesPlain(h') && NextIsNew(h', more);
    }
  }

  lemma TruthGrows(frames: seq<Frame>, id: Word, selector: seq<byte>, asked: Requests)
    requires Truthful(frames, asked) && id !in asked
    ensures Truthful(frames, asked[id := selector]) && Truthful(frames + [Frame(OPEN, id, selector)], asked[id := selector])
  {}

  lemma ClientDoes(h: Half, op: Op, asked: Requests)
    requires ClientHonest(h, asked)
    ensures var (h', out) := Do(h, op);
            var more := if op.OpenOp? && 0 < h.nextID <= MAX_WORD && h'.nextID != h.nextID then asked[h.nextID := op.selector] else asked;
            && ClientHonest(h', more) && Truthful(out, more)
  {
    hide StreamOp, Open;
    if !h.down {
      if OnStream(op) {
        if op.id in h.streams { StreamOpKeeps(h, op, asked); }
      } else if op.OpenOp? {
        OpenKeeps(h, op.selector, asked);
      } else {
        ShutdownKeeps(h, asked);
      }
    }
  }

  lemma ServerDoes(h: Half, op: Op, asked: Requests)
    requires AsAsked(h, asked) && !h.client
    ensures AsAsked(Do(h, op).0, asked)
  {
    hide StreamOp;
    if !h.down {
      if OnStream(op) {
        if op.id in h.streams { StreamOpKeeps(h, op, asked); }
      } else {
        ShutdownKeeps(h, asked);
      }
    }
  }

  // ---- Frames --------------------------------------------------------------

  lemma ReceivedQueues(h: Half, f: Frame, asked: Requests)
    requires ClientHonest(h, asked) && f.stream in h.streams
    ensures var s := h.streams[f.stream].s;
            && NoAnnouncement(MuxCredit.HandleFrame(s, f).outbound)
  {
    var s := h.streams[f.stream].s;
    assert NoAnnouncement(s.outbound);
  }

  lemma HandleKeeps(h: Half, f: Frame, asked: Requests)
    ensures ClientHonest(h, asked) ==> ClientHonest(MuxSession.HandleFrame(h, f), asked)
    ensures AsAsked(h, asked) && Truthful([f], asked) && !h.client ==> AsAsked(MuxSession.HandleFrame(h, f), asked)
  {
    hide AsAsked, ClientHonest, SendControl, HandleStreamFrame, HandleOpen;
    SendKeeps(asked);
    ShutdownKeeps(h, asked);
    if f.kind == OPEN {
      HandleOpenKeeps(h, f, asked);
    } else if f.stream in h.streams && f.kind != SERVICE_LIST {
      HandleShape(h, f);
      RetireKeeps(h, f.stream, MuxCredit.HandleFrame(h.streams[f.stream].s, f), asked);
      if ClientHonest(h, asked) { ReceivedQueues(h, f, asked); }
    }
  }

  // The server's stream is for what the announcement says; a client takes none.
  lemma HandleOpenKeeps(h: Half, f: Frame, asked: Requests)
    requires f.kind == OPEN
    ensures ClientHonest(h, asked) ==> ClientHonest(HandleOpen(h, f), asked)
    ensures AsAsked(h, asked) && Truthful([f], asked) && !h.client ==> AsAsked(HandleOpen(h, f), asked)
  {
    hide SendControl, Truthful;
    SendKeeps(asked);
    ShutdownKeeps(h, asked);
    if Truthful([f], asked) { FirstIsTrue(f, asked); }
  }

  lemma FirstIsTrue(f: Frame, asked: Requests)
    requires Truthful([f], asked) && f.kind == OPEN
    ensures f.stream in asked && f.payload == asked[f.stream]
  {
    assert f in [f];
  }

  // ---- Over runs -----------------------------------------------------------

  lemma TruthAppend(a: seq<Frame>, b: seq<Frame>, asked: Requests)
    ensures Truthful(a + b, asked) <==> Truthful(a, asked) && Truthful(b, asked)
  {
    assert forall f :: f in a ==> f in a + b;
    assert forall f :: f in b ==> f in a + b;
  }

  lemma StillAsked(p: Pair, m: Move, asked: Requests)
    requires Matched(p, asked)
    ensures Truthful(p.ab, Request(p, m, asked)) && AsAsked(p.b, Request(p, m, asked))
  {
    hide Do;
    if Request(p, m, asked) != asked { assert p.a.nextID !in asked; }
  }

  lemma StepMatched(p: Pair, m: Move, asked: Requests)
    requires Matched(p, asked)
    ensures Matched(StepPair(p, m), Request(p, m, asked))
  {
    hide Do, MuxSession.HandleFrame, AsAsked, ClientHonest, Truthful;
    var more := Request(p, m, asked);
    StillAsked(p, m, asked);
    RolesStay(p, m);
    match m
    case Act(true, op) => ClientDoes(p.a, op, asked); TruthAppend(p.ab, Do(p.a, op).1, more);
    case Act(false, op) => ServerDoes(p.b, op, asked);
    case Deliver(true) => if p.ba != [] { HandleKeeps(p.a, p.ba[0], asked); }
    case Deliver(false) =>
      if p.ab != [] {
        assert p.ab == [p.ab[0]] + p.ab[1..];
        TruthAppend([p.ab[0]], p.ab[1..], asked);
        HandleKeeps(p.b, p.ab[0], asked);
      }
  }

  lemma {:induction false} RunMatched(p: Pair, moves: seq<Move>, asked: Requests)
    requires Matched(p, asked)
    ensures Matched(RunPair(p, moves), Asked(p, moves, asked))
    decreases |moves|
  {
    hide StepPair, Matched, Request;
    if moves != [] {
      StepMatched(p, moves[0], asked);
      RunMatched(StepPair(p, moves[0]), moves[1..], Request(p, moves[0], asked));
    }
  }

  // Over every run of two sessions from their creation: every stream the server knows
  // has exactly the selector given to the call that opened it at the client.
  lemma SelectorsArrive(clientMax: nat, serverMax: nat, services: Option<seq<Services.Service>>, moves: seq<Move>, id: Word)
    ensures var p := NewPair(clientMax, serverMax, services);
            var q, asked := RunPair(p, moves), Asked(p, moves, map[]);
            Known(q.b, id) ==> id in asked && EntryAt(q.b, id).selector == asked[id]
  {
    var p := NewPair(clientMax, serverMax, services);
    assert Matched(p, map[]);
    RunMatched(p, moves, map[]);
  }
}
