// What a session owes its peer: the one answer each frame gets, the violations that
// end the session, the limits it keeps under any peer, and the announcement of every
// stream given up.
module MuxAnswers {
  import opened Bytes
  import opened Frames
  import opened MuxStream
  import opened MuxSession
  import MuxCredit
  import Services

  // ---- One answer to each frame --------------------------------------------

  // What a peer must never send.
  predicate Violation(h: Half, f: Frame) {
    if f.kind == SERVICE_LIST then !h.client || f.stream != 0 || Services.Decode(f.payload).Refused?
    else if f.kind == OPEN then h.client || f.stream % 2 == 0 || f.stream in h.streams
    else f.stream in h.streams && (f.kind < 1 || f.kind > 8 || (f.kind == OPEN_OK && !h.client))
  }

  // Data that no open reader expects, or beyond the window it was given; credit of
  // nothing, or beyond the initial window.
  predicate Excess(s: Stream, f: Frame) {
    if f.kind == DATA then s.closed || s.remoteWriteClosed || !s.isOpen || |f.payload| > s.receiveWindow
    else f.kind == WINDOW_UPDATE && (WindowAmount(f) == 0 || WindowAmount(f) > INITIAL_WINDOW - s.sendWindow)
  }

  // A stream that has been, or an answer itself, gets none.
  predicate Late(h: Half, f: Frame) {
    f.stream !in h.streams && ((f.stream % 2 == 1 && f.stream <= h.lastID) || f.kind == RESET || f.kind == OPEN_ERROR)
  }

  function Answer(h: Half, f: Frame): Option<Frame> {
    if h.down || f.kind == SERVICE_LIST || Violation(h, f) then None
    else if f.kind == OPEN then
      if |h.streams| >= h.maxStreams || h.accepting >= 2 * h.maxStreams then Some(Frame(OPEN_ERROR, f.stream, [])) else None
    else if f.stream !in h.streams then if Late(h, f) then None else Some(ResetFrame(f.stream))
    else if Excess(h.streams[f.stream].s, f) && !h.streams[f.stream].s.closed then Some(ResetFrame(f.stream))
    else None
  }

  // The streams a frame takes away, and those it adds.
  predicate Ends(h: Half, f: Frame, id: Word) {
    id == f.stream && id in h.streams
    && (f.kind == RESET || f.kind == OPEN_ERROR || (Excess(h.streams[id].s, f) && !h.streams[id].s.closed))
  }

  predicate Begins(h: Half, f: Frame, id: Word) {
    f.kind == OPEN && id == f.stream && Answer(h, f).None?
  }

  // For every frame whatever: the session ends exactly at a violation, or for want of
  // room for its answer; otherwise exactly the answer is queued, and exactly the
  // streams are added and taken away that the frame is about.
  lemma FramesAreAnswered(h: Half, f: Frame)
    requires !h.down
    ensures var h', answer := MuxSession.HandleFrame(h, f), Answer(h, f);
            && (h'.down <==> Violation(h, f) || (answer.Some? && |h.control| >= 8 * h.maxStreams))
            && (!h'.down ==>
                  && h'.control == (if answer.Some? then h.control + [answer.value] else h.control)
                  && (forall id: Word :: id in h'.streams <==> (id in h.streams && !Ends(h, f, id)) || Begins(h, f, id))
                  && h'.accepting == h.accepting + if f.kind == OPEN && answer.None? then 1 else 0)
            && (h'.down ==> h'.streams == map[])
  {
    hide ReceiveFIN, ReceiveReset, MarkOpened, Reset, Services.Decode, HandleStreamFrame;
    if f.kind != SERVICE_LIST && f.kind != OPEN && f.stream in h.streams { StreamFrameAnswered(h, f); }
  }

  lemma StreamFrameAnswered(h: Half, f: Frame)
    requires !h.down && f.kind != SERVICE_LIST && f.kind != OPEN && f.stream in h.streams
    ensures var h', answer := HandleStreamFrame(h, f), Answer(h, f);
            && (h'.down <==> Violation(h, f) || (answer.Some? && |h.control| >= 8 * h.maxStreams))
            && (!h'.down ==>
                  && h'.control == (if answer.Some? then h.control + [answer.value] else h.control)
                  && (forall id: Word :: id in h'.streams <==> id in h.streams && !Ends(h, f, id))
                  && h'.accepting == h.accepting)
            && (h'.down ==> h'.streams == map[])
  {
    hide ReceiveFIN, ReceiveReset, MarkOpened, Reset, WindowAmount;
    var s := h.streams[f.stream].s;
    assert f.kind == DATA ==> (ReceiveData(s, f.payload).None? <==> Excess(s, f));
    assert f.kind == WINDOW_UPDATE ==> (UpdateSendWindow(s, WindowAmount(f)).None? <==> Excess(s, f));
    hide ReceiveData, UpdateSendWindow, Excess;
  }

  // A call at the application gets a stream exactly at the client of a session that is
  // up, for a name of at most 64 bytes, below the limit of streams, while identifiers
  // last; it announces the stream as its last control frame, unless that queue is full
  // and the session ends. Otherwise nothing changes.
  lemma OpensExactly(h: Half, selector: seq<byte>)
    requires h.nextID <= MAX_WORD && h.nextID !in h.streams
    ensures var h' := Open(h, selector);
            if h.client && !h.down && |selector| <= 64 && |h.streams| < h.maxStreams && h.nextID != 0 then
              && h'.lastID == h.nextID
              && (h'.down <==> |h.control| >= 8 * h.maxStreams)
              && (!h'.down ==> h'.streams.Keys == h.streams.Keys + {h.nextID} && h'.control == h.control + [Frame(OPEN, h.nextID, selector)])
            else h' == h
  {
    hide SendControl;
    if h.client && !h.down && |selector| <= 64 && |h.streams| < h.maxStreams && h.nextID != 0 {
      var id, next: nat := h.nextID, Allocate(h.nextID).1;
      var more := h.(nextID := next, lastID := id, streams := h.streams[id := Entry(New(), [], [], selector)]);
      assert more.streams.Keys == h.streams.Keys + {id};
      Queueing(more, Frame(OPEN, id, selector));
    }
  }

  lemma Queueing(h: Half, f: Frame)
    requires !h.down
    ensures var h' := SendControl(h, f);
            && h'.lastID == h.lastID && (h'.down <==> |h.control| >= 8 * h.maxStreams)
            && (!h'.down ==> h'.streams == h.streams && h'.control == h.control + [f])
  {}

  // ---- Limits under any peer -----------------------------------------------

  // What one stream may cost: unread bytes within its window, credit within its own.
  predicate StreamWithin(s: Stream) {
    s.receiveWindow + |s.inbound| <= INITIAL_WINDOW && s.sendWindow <= INITIAL_WINDOW
  }

  predicate Within(h: Half) {
    && |h.streams| <= h.maxStreams && |h.control| <= 8 * h.maxStreams && h.accepting <= 2 * h.maxStreams
    && forall id :: id in h.streams ==> StreamWithin(h.streams[id].s)
  }

  datatype Happening = Operation(op: Op) | Arrival(f: Frame)

  function Happens(h: Half, e: Happening): Half {
    match e
    case Operation(op) => Do(h, op).0
    case Arrival(f) => MuxSession.HandleFrame(h, f)
  }

  function Run(h: Half, happenings: seq<Happening>): Half
    decreases |happenings|
  {
    if happenings == [] then h else Run(Happens(h, happenings[0]), happenings[1..])
  }

  // Streams begun by the peer, and streams taken by the application, in a run.
  function Begun(h: Half, happenings: seq<Happening>): nat
    decreases |happenings|
  {
    if happenings == [] then 0
    else
      (match happenings[0]
       case Arrival(f) => if f.kind == OPEN && !h.down && !Violation(h, f) && Answer(h, f).None? then 1 else 0
       case Operation(_) => 0)
      + Begun(Happens(h, happenings[0]), happenings[1..])
  }

  function Accepted(h: Half, happenings: seq<Happening>): nat
    decreases |happenings|
  {
    if happenings == [] then 0
    else
      (if happenings[0] == Operation(AcceptOp) && !h.down && h.accepting > 0 then 1 else 0)
      + Accepted(Happens(h, happenings[0]), happenings[1..])
  }

  // Over every run that leaves the session up, the streams waiting to be accepted are
  // those begun less those accepted.
  lemma {:induction false} BacklogIsCounted(h: Half, happenings: seq<Happening>)
    ensures var r := Run(h, happenings);
            !r.down ==> r.accepting + Accepted(h, happenings) == h.accepting + Begun(h, happenings)
    decreases |happenings|
  {
    if happenings != [] {
      hide Happens, Violation, Answer;
      BacklogStep(h, happenings[0]);
      BacklogIsCounted(Happens(h, happenings[0]), happenings[1..]);
      if Happens(h, happenings[0]).down { StaysDown(Happens(h, happenings[0]), happenings[1..]); }
    }
  }

  lemma BacklogStep(h: Half, e: Happening)
    ensures var h' := Happens(h, e);
            && (h.down ==> h'.down)
            && (!h'.down ==>
                  h'.accepting + (if e == Operation(AcceptOp) && !h.down && h.accepting > 0 then 1 else 0)
                  == h.accepting + if e.Arrival? && e.f.kind == OPEN && !h.down && !Violation(h, e.f) && Answer(h, e.f).None? then 1 else 0)
  {
    hide Violation, Answer, MuxSession.HandleFrame, StreamOp, Do;
    match e
    case Arrival(f) => if !h.down { FramesAreAnswered(h, f); } else { DownStays(h, AcceptOp, f); }
    case Operation(op) => DoBacklog(h, op);
  }

  lemma DownStays(h: Half, op: Op, f: Frame)
    requires h.down
    ensures Do(h, op).0 == h && MuxSession.HandleFrame(h, f) == h
  {}

  lemma DoBacklog(h: Half, op: Op)
    ensures var h' := Do(h, op).0;
            && (h.down ==> h'.down)
            && (!h'.down ==> h'.accepting == if op.AcceptOp? && h.accepting > 0 then h.accepting - 1 else h.accepting)
  {
    hide Write, Read, Close, CloseWrite, CloseRead, Reset, NextOutbound;
  }

  lemma {:induction false} StaysDown(h: Half, happenings: seq<Happening>)
    requires h.down
    ensures Run(h, happenings).down
    decreases |happenings|
  {
    if happenings != [] {
      DownStays(h, if happenings[0].Operation? then happenings[0].op else AcceptOp, if happenings[0].Arrival? then happenings[0].f else ResetFrame(1));
      StaysDown(Happens(h, happenings[0]), happenings[1..]);
    }
  }

  lemma SendWithin()
    ensures forall h, f :: Within(h) ==> Within(SendControl(h, f))
  {}

  lemma ShutdownWithin(h: Half)
    ensures Within(h) ==> Within(Shutdown(h))
  {}

  lemma PutWithin(h: Half, id: Word, e: Entry)
    requires Within(h) && id in h.streams && StreamWithin(e.s)
    ensures Within(h.(streams := h.streams[id := e]))
  {
    assert h.streams[id := e].Keys == h.streams.Keys;
  }

  lemma RetireWithin(h: Half, id: Word, s: Stream)
    requires Within(h) && id in h.streams && StreamWithin(s)
    ensures Within(Put(h, id, s)) && Within(Retire(h, id, s))
  {
    PutWithin(h, id, h.streams[id].(s := s));
    SubsetSize(Retire(h, id, s).streams.Keys, h.streams.Keys);
  }

  lemma StreamOpWithin(h: Half, op: Op)
    requires Within(h) && OnStream(op) && op.id in h.streams
    ensures Within(StreamOp(h, op).0)
  {
    hide Within, StreamWithin, SendControl, Put, Retire, Write, Read, Close, CloseWrite, CloseRead, Reset, NextOutbound;
    SendWithin();
    var id, e := op.id, h.streams[op.id];
    StreamIsWithin(h, id);
    LocalWithin(e.s, id, if op.WriteOp? then op.p else [], if op.ReadOp? then op.size else 0);
    match op
    case WriteOp(_, p) => PutWithin(h, id, e.(s := Write(e.s, id, p), written := e.written + p[..Taken(e.s, |p|)]));
    case ReadOp(_, size) => PutWithin(h, id, e.(s := Read(e.s, size).0, read := e.read + Read(e.s, size).1));
    case CloseWriteOp(_) => RetireWithin(h, id, CloseWrite(e.s, id));
    case CloseReadOp(_) => RetireWithin(h, id, CloseRead(e.s));
    case CloseOp(_) => RetireWithin(h, id, Close(e.s).0);
    case ResetOp(_) => RetireWithin(h, id, Reset(e.s));
    case ApproveOp(_) => RetireWithin(h, id, e.s.(isOpen := true));
    case RejectOp(_) => RetireWithin(h, id, e.s.(closed := true));
    case PickOp(_) => RetireWithin(h, id, NextOutbound(e.s).0);
  }

  lemma LocalWithin(s: Stream, id: Word, p: seq<byte>, size: nat)
    requires StreamWithin(s)
    ensures StreamWithin(Write(s, id, p)) && StreamWithin(Read(s, size).0) && StreamWithin(CloseWrite(s, id))
    ensures StreamWithin(CloseRead(s)) && StreamWithin(Close(s).0) && StreamWithin(Reset(s))
    ensures StreamWithin(NextOutbound(s).0) && StreamWithin(s.(isOpen := true)) && StreamWithin(s.(closed := true))
  {
    hide Write, CloseWrite, Read;
    WriteWithin(s, id, p);
    ReadWithin(s, size);
  }

  lemma ReadWithin(s: Stream, size: nat)
    requires StreamWithin(s)
    ensures StreamWithin(Read(s, size).0)
  {}

  lemma WriteWithin(s: Stream, id: Word, p: seq<byte>)
    requires StreamWithin(s)
    ensures StreamWithin(Write(s, id, p)) && StreamWithin(CloseWrite(s, id))
  {
    hide Chunks;
    var n := Taken(s, |p|);
    var frames := Chunks(id, p[..n]);
    assert Write(s, id, p) == Enqueue(s.(sendWindow := s.sendWindow - n), frames);
  }

  lemma StreamIsWithin(h: Half, id: Word)
    requires Within(h) && id in h.streams
    ensures StreamWithin(h.streams[id].s)
  {}

  lemma DoWithin(h: Half, op: Op)
    requires Within(h)
    ensures Within(Do(h, op).0)
  {
    hide StreamOp, SendControl;
    SendWithin();
    ShutdownWithin(h);
    if !h.down && OnStream(op) && op.id in h.streams {
      StreamOpWithin(h, op);
    } else if op.OpenOp? && Allocate(h.nextID).0.Some? && |h.streams| < h.maxStreams {
      NewWithin(h, Allocate(h.nextID).0.value, op.selector);
    }
  }

  lemma NewWithin(h: Half, id: Word, selector: seq<byte>)
    requires Within(h) && |h.streams| < h.maxStreams
    ensures Within(h.(streams := h.streams[id := Entry(New(), [], [], selector)]))
  {
    assert h.streams[id := Entry(New(), [], [], selector)].Keys == h.streams.Keys + {id};
  }

  lemma HandleWithin(h: Half, f: Frame)
    requires Within(h)
    ensures Within(MuxSession.HandleFrame(h, f))
  {
    hide SendControl, Put, Retire, Within, HandleStreamFrame, HandleOpen;
    SendWithin();
    ShutdownWithin(h);
    if f.kind == OPEN {
      OpenWithin(h, f);
    } else if f.stream in h.streams {
      HandleShape(h, f);
      ReceivedWithin(h, f);
      RetireWithin(h, f.stream, MuxCredit.HandleFrame(h.streams[f.stream].s, f));
    }
  }

  lemma ReceivedWithin(h: Half, f: Frame)
    requires Within(h) && f.stream in h.streams
    ensures StreamWithin(MuxCredit.HandleFrame(h.streams[f.stream].s, f))
  {
    hide ReceiveData, UpdateSendWindow, Reset, ReceiveFIN, ReceiveReset, MarkOpened, WindowAmount, StreamWithin, Within;
    StreamIsWithin(h, f.stream);
    PeerWithin(h.streams[f.stream].s, f.payload, WindowAmount(f));
  }

  lemma PeerWithin(s: Stream, data: seq<byte>, amount: nat)
    requires StreamWithin(s)
    ensures ReceiveData(s, data).Some? ==> StreamWithin(ReceiveData(s, data).value)
    ensures UpdateSendWindow(s, amount).Some? ==> StreamWithin(UpdateSendWindow(s, amount).value)
    ensures StreamWithin(Reset(s)) && StreamWithin(ReceiveFIN(s)) && StreamWithin(ReceiveReset(s))
    ensures StreamWithin(MarkOpened(s, true)) && StreamWithin(MarkOpened(s, false))
  {}

  lemma OpenWithin(h: Half, f: Frame)
    requires Within(h)
    ensures Within(HandleOpen(h, f))
  {
    hide SendControl;
    SendWithin();
    ShutdownWithin(h);
    if |h.streams| < h.maxStreams { NewWithin(h, f.stream, f.payload); }
  }

  // Whatever the peer sends and the application does, a session has no more streams,
  // control frames and streams to be accepted than its limits say, and no stream holds
  // more unread bytes or more credit than 64 KiB.
  lemma {:induction false} LimitsOverRuns(h: Half, happenings: seq<Happening>)
    requires Within(h)
    ensures Within(Run(h, happenings))
    decreases |happenings|
  {
    hide Within, Happens;
    if happenings != [] {
      match happenings[0] {
        case Operation(op) => DoWithin(h, op); HappensIs(h, happenings[0]);
        case Arrival(f) => HandleWithin(h, f); HappensIs(h, happenings[0]);
      }
      LimitsOverRuns(Happens(h, happenings[0]), happenings[1..]);
    }
  }

  lemma HappensIs(h: Half, e: Happening)
    ensures Happens(h, e) == match e case Operation(op) => Do(h, op).0 case Arrival(f) => MuxSession.HandleFrame(h, f)
  {}

  lemma LimitsFromTheStart(client: bool, limit: int, happenings: seq<Happening>)
    ensures Within(Run(NewHalf(client, if limit <= 0 then 1 else limit), happenings))
  {
    LimitsOverRuns(NewHalf(client, if limit <= 0 then 1 else limit), happenings);
  }

  // ---- A stream given up ---------------------------------------------------

  // The application gives a stream up: resets it, closes it before both directions
  // have ended, or rejects it.
  predicate GivesUp(h: Half, op: Op) {
    && !h.down && OnStream(op) && op.id in h.streams && !h.streams[op.id].s.closed
    && var s := h.streams[op.id].s;
       op.ResetOp? || op.RejectOp? || (op.CloseOp? && !(s.localWriteClosed && s.remoteWriteClosed))
  }

  function Farewell(op: Op): Frame
    requires OnStream(op)
  {
    Frame(if op.RejectOp? then OPEN_ERROR else RESET, op.id, [])
  }

  // It is gone at once, closed, and one frame tells the peer, unless there is no room
  // for it, which ends the session; when that frame arrives the stream is gone and
  // closed there too, and no answer comes back.
  lemma GivingUpReachesPeer(h: Half, op: Op, peer: Half)
    requires GivesUp(h, op)
    ensures var h' := Do(h, op).0;
            && op.id !in h'.streams
            && (h'.down <==> |h.control| >= 8 * h.maxStreams)
            && (!h'.down ==> h'.control == h.control + [Farewell(op)] && op.id in h'.gone && h'.gone[op.id].s.closed)
    ensures !peer.down && op.id in peer.streams ==>
              var p' := MuxSession.HandleFrame(peer, Farewell(op));
              && op.id !in p'.streams && op.id in p'.gone && p'.gone[op.id].s.closed
              && p'.control == peer.control && !p'.down
  {
    hide NextOutbound, Write, Read, CloseWrite, CloseRead;
  }

  // A stream reset sends nothing of what it had queued.
  lemma ResetSendsNothingMore(h: Half, id: Word)
    requires !h.down && id in h.streams && !h.streams[id].s.closed && !Do(h, ResetOp(id)).0.down
    ensures var h' := Do(h, ResetOp(id)).0;
            && h'.gone[id].s.outbound == [] && !h'.gone[id].s.scheduled
            && Do(h', PickOp(id)) == (h', []) && Write(h'.gone[id].s, id, [0]) == h'.gone[id].s
  {
    assert [0][..0] == [];
  }

  // Turns of the writer one after the other.
  function Picks(s: Stream, n: nat): (Stream, seq<Outgoing>)
    decreases n
  {
    if n == 0 then (s, [])
    else
      var (t, outs) := Picks(s, n - 1);
      var (u, out) := NextOutbound(t);
      (u, outs + [out])
  }

  // Each turn gives up the oldest frame; the stream asks for another turn exactly if
  // it has more, keeps its mark until then, and is done with the last frame exactly if
  // it was closed gracefully.
  lemma {:induction false} TurnsEmptyTheQueue(s: Stream, n: nat)
    requires n <= |s.outbound|
    ensures var (t, outs) := Picks(s, n);
            && |outs| == n && t.outbound == s.outbound[n..]
            && (t.scheduled <==> s.scheduled && (n == 0 || n < |s.outbound|)) && t.closeAfterDrain == s.closeAfterDrain
            && forall i :: 0 <= i < n ==>
                 outs[i] == Outgoing(Some(s.outbound[i]), i + 1 < |s.outbound|, i + 1 == |s.outbound| && s.closeAfterDrain)
    decreases n
  {
    if n > 0 { TurnsEmptyTheQueue(s, n - 1); }
  }

  // ---- Credit --------------------------------------------------------------

  // Reads of given sizes one after the other: what is left, and the credit handed
  // back each time.
  function Reads(s: Stream, sizes: seq<nat>): (Stream, seq<nat>)
    decreases |sizes|
  {
    if sizes == [] then (s, [])
    else
      var (t, updates) := Reads(s, sizes[..|sizes| - 1]);
      var (u, _, update) := Read(t, sizes[|sizes| - 1]);
      (u, updates + [update])
  }

  function Sum(ns: seq<nat>): nat {
    if ns == [] then 0 else Sum(ns[..|ns| - 1]) + ns[|ns| - 1]
  }

  // However an application reads: credit goes back in batches of at least 8 KiB or not
  // at all, all that has been read is handed back but for less than a batch, and
  // reading takes nothing from the peer's part of the window.
  lemma {:induction false} CreditComesInBatches(s: Stream, sizes: seq<nat>)
    requires s.pendingWindowUpdate < 8192
    ensures var (t, updates) := Reads(s, sizes);
            && |updates| == |sizes|
            && (forall i :: 0 <= i < |updates| ==> updates[i] == 0 || updates[i] >= 8192)
            && |t.inbound| <= |s.inbound|
            && Sum(updates) + t.pendingWindowUpdate == s.pendingWindowUpdate + (|s.inbound| - |t.inbound|)
            && t.pendingWindowUpdate < 8192
            && t.receiveWindow + |t.inbound| == s.receiveWindow + |s.inbound|
            && s.inbound[|s.inbound| - |t.inbound|..] == t.inbound
    decreases |sizes|
  {
    if sizes != [] {
      var (t, updates) := Reads(s, sizes[..|sizes| - 1]);
      CreditComesInBatches(s, sizes[..|sizes| - 1]);
      var update := Read(t, sizes[|sizes| - 1]).2;
      assert (updates + [update])[..|updates|] == updates;
    }
  }

  // A write stops short only when the credit is used up, the stream is not open, or
  // its write side has ended.
  lemma WritesWhileThereIsCredit(s: Stream, id: Word, p: seq<byte>)
    ensures var t, n := Write(s, id, p), Taken(s, |p|);
            && n <= |p| && n <= s.sendWindow && t.sendWindow == s.sendWindow - n
            && (n < |p| ==> t.sendWindow == 0 || !s.isOpen || s.closed || s.localWriteClosed)
            && (n > 0 ==> s.isOpen && !s.closed && !s.localWriteClosed)
            && Payloads(t.outbound) == Payloads(s.outbound) + p[..n]
  {
    var n := Taken(s, |p|);
    ChunksCarry(id, p[..n]);
    PayloadsAppend(s.outbound, Chunks(id, p[..n]));
    assert Payloads(s.outbound) + [] == Payloads(s.outbound);
  }
}
