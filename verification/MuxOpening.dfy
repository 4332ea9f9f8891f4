// How a stream comes to be open at both ends, over all runs of two sessions from
// their creation: the client announces it, the server approves it, and the client's
// stream opens exactly if the approval comes before the stream's first data.
module MuxOpening {
  import opened Bytes
  import opened Frames
  import opened MuxStream
  import opened MuxCredit
  import opened MuxSession
  import Services

  // ---- A stream on its way to being open -----------------------------------

  // Frames that carry the stream's traffic, leaving out those that set it up.
  function Strip(frames: seq<Frame>): seq<Frame> {
    if frames == [] then []
    else (if frames[0].kind == OPEN_OK then [] else [frames[0]]) + Strip(frames[1..])
  }

  // How many approvals there are among them.
  function Approvals(frames: seq<Frame>): nat {
    if frames == [] then 0 else (if frames[0].kind == OPEN_OK then 1 else 0) + Approvals(frames[1..])
  }

  lemma {:induction false} StripAppend(a: seq<Frame>, b: seq<Frame>)
    ensures Strip(a + b) == Strip(a) + Strip(b) && Approvals(a + b) == Approvals(a) + Approvals(b)
  {
    if a == [] {
      assert a + b == b;
    } else {
      assert (a + b)[1..] == a[1..] + b;
      StripAppend(a[1..], b);
    }
  }

  lemma StripOne(f: Frame)
    ensures Strip([f]) == if f.kind == OPEN_OK then [] else [f]
    ensures Approvals([f]) == if f.kind == OPEN_OK then 1 else 0
  {
    assert [f][1..] == [];
  }

  lemma {:induction false} StripPlain(frames: seq<Frame>)
    requires Approvals(frames) == 0
    ensures Strip(frames) == frames
  {
    if frames != [] { StripPlain(frames[1..]); }
  }

  // An end as it will be once the stream is open and its approval handled.
  function Seen(x: End): End {
    x.(s := x.s.(isOpen := true), control := Strip(x.control), wire := Strip(x.wire))
  }

  function SeenLane(p: Pair, id: Word): Lane
    requires Known(p.a, id) && Known(p.b, id)
  {
    Lane(id, Seen(EndOf(p.a, p.ab, id)), Seen(EndOf(p.b, p.ba, id)))
  }

  // The client waits for the answer; its application has no handle on the stream.
  predicate ClientWaits(p: Pair, id: Word) {
    && p.a.client && !p.b.client && !p.a.down && !p.b.down
    && id in p.a.streams
    && p.a.streams[id].written == [] && p.a.streams[id].read == []
    && p.a.streams[id].s == New().(remoteWriteClosed := p.a.streams[id].s.remoteWriteClosed)
  }

  // Not yet allocated, and unheard of.
  predicate Unborn(p: Pair, id: Word) {
    && p.a.client && !p.b.client && !p.a.down && !p.b.down
    && PartOf(p.a, p.ab, id) == Part(None, false, [], []) && PartOf(p.b, p.ba, id) == Part(None, false, [], [])
  }

  // The announcement is under way.
  predicate Announced(p: Pair, id: Word) {
    && ClientWaits(p, id) && !p.a.streams[id].s.remoteWriteClosed
    && PartOf(p.b, p.ba, id) == Part(None, false, [], [])
    && var frames := Of(p.ab, id) + Of(p.a.control, id);
       |frames| == 1 && frames[0].kind == OPEN
  }

  predicate ServerFrame(f: Frame) {
    f.kind == OPEN_OK || f.kind == DATA || f.kind == FIN
  }

  // The server has the stream. One approval is under way exactly if it has
  // approved; all else is as in a lane of the open stream.
  predicate Offered(p: Pair, id: Word) {
    && ClientWaits(p, id) && Of(p.ab, id) == [] && Of(p.a.control, id) == []
    && id in p.b.streams
    && (var s := p.b.streams[id].s;
        !s.closed && !s.remoteWriteClosed && s.inbound == [] && (!s.isOpen ==> p.b.streams[id].written == [])
        && Approvals(Of(p.ba, id) + Of(p.b.control, id)) == if s.isOpen then 1 else 0)
    && (forall f :: f in Of(p.ba, id) ==> ServerFrame(f))
    && (forall f :: f in Of(p.b.control, id) ==> f.kind == OPEN_OK)
    && LaneOk(SeenLane(p, id))
  }

  predicate Healthy(p: Pair, id: Word) {
    && p.a.client && !p.b.client && BothAlive(p, id) && LaneOk(LaneOf(p, id))
  }

  // One end has lost the stream before it was open at both.
  predicate GivenUp(p: Pair, id: Word) {
    || id !in p.a.streams
    || (id !in p.b.streams && forall f :: f in Of(p.ab, id) + Of(p.a.control, id) ==> f.kind != OPEN)
  }

  // What the applications do before the stream is open: the client's has no handle,
  // and the server's does not give up reading a stream it may yet approve.
  predicate Proper(m: Move, id: Word) {
    m.Act? ==>
      && (m.onA && OnStream(m.op) && m.op.id == id ==> m.op.ResetOp?)
      && m.op != CloseReadOp(id)
  }

  // ---- Steps of the server's end -------------------------------------------

  // The server's end before and after: as one would see it once open, nothing has
  // changed or one step of the lane has been taken; and an approval is sent with the
  // opening, and only then.
  ghost predicate ServerMoved(e: End, e': End, id: Word) {
    && !e'.s.closed && !e'.s.remoteWriteClosed && e'.s.inbound == []
    && (Seen(e') == Seen(e) || exists act :: Seen(e') == Local(Seen(e), id, act))
    && (e'.s.isOpen == e.s.isOpen ==>
          && Approvals(e'.wire) == Approvals(e.wire) && e'.control == e.control
          && (!e.s.isOpen ==> e'.written == e.written)
          && (e'.wire == e.wire || exists f: Frame :: e'.wire == e.wire + [f] && (f.kind == DATA || f.kind == FIN)))
    && (e'.s.isOpen != e.s.isOpen ==>
          e'.s.isOpen && e'.wire == e.wire && e'.control == e.control + [Frame(OPEN_OK, id, [])] && e'.written == e.written)
  }

  ghost predicate ServerReady(h: Half, id: Word) {
    && !h.down && id in h.streams
    && (var s := h.streams[id].s; !s.closed && !s.closeAfterDrain && !s.remoteWriteClosed && s.inbound == [])
    && forall f :: f in h.streams[id].s.outbound ==> f.stream == id && (f.kind == DATA || f.kind == FIN)
  }

  // An operation of the server's application on the stream moves its end, or gives
  // the stream up.
  lemma ServerOp(h: Half, wire: seq<Frame>, op: Op, id: Word)
    requires ServerReady(h, id) && OnStream(op) && op.id == id && op != CloseReadOp(id)
    ensures var (h', out) := StreamOp(h, op);
            !h'.down && id in h'.streams ==> ServerMoved(EndOf(h, wire, id), EndOf(h', wire + out, id), id)
  {
    hide StreamOp, ServerMoved, Of;
    match op
    case WriteOp(_, p) => ServerWrite(h, wire, p, id);
    case ReadOp(_, size) => ServerReads(h, wire, size, id);
    case CloseWriteOp(_) => ServerEnds(h, wire, id);
    case PickOp(_) => ServerPick(h, wire, id);
    case ApproveOp(_) => ServerApproves(h, wire, id);
    case _ => ServerAborts(h, op, id);
  }

  lemma ServerWrite(h: Half, wire: seq<Frame>, p: seq<byte>, id: Word)
    requires ServerReady(h, id)
    ensures var (h', out) := StreamOp(h, WriteOp(id, p));
            id in h'.streams && ServerMoved(EndOf(h, wire, id), EndOf(h', wire + out, id), id)
  {
    hide Of, Strip, Approvals;
    assert wire + [] == wire;
    var e := EndOf(h, wire, id);
    var e' := EndOf(StreamOp(h, WriteOp(id, p)).0, wire, id);
    if e.s.isOpen { assert Seen(e') == Local(Seen(e), id, DoWrite(p)); }
    else {
      NoWriteYet(e.s, id, p);
      assert e.written + p[..0] == e.written;
      assert e' == e;
    }
  }

  lemma ServerReads(h: Half, wire: seq<Frame>, size: nat, id: Word)
    requires ServerReady(h, id)
    ensures var (h', out) := StreamOp(h, ReadOp(id, size));
            id in h'.streams && ServerMoved(EndOf(h, wire, id), EndOf(h', wire + out, id), id)
  {
    hide Of, Strip, Approvals;
    assert wire + [] == wire && h.streams[id].read + [] == h.streams[id].read;
  }

  lemma ServerEnds(h: Half, wire: seq<Frame>, id: Word)
    requires ServerReady(h, id)
    ensures var (h', out) := StreamOp(h, CloseWriteOp(id));
            id in h'.streams && ServerMoved(EndOf(h, wire, id), EndOf(h', wire + out, id), id)
  {
    hide Of, Strip, Approvals;
    assert wire + [] == wire;
    var e := EndOf(h, wire, id);
    assert Seen(EndOf(StreamOp(h, CloseWriteOp(id)).0, wire, id)) == Local(Seen(e), id, DoCloseWrite);
  }

  lemma ServerApproves(h: Half, wire: seq<Frame>, id: Word)
    requires ServerReady(h, id)
    ensures var (h', out) := StreamOp(h, ApproveOp(id));
            !h'.down ==> id in h'.streams && ServerMoved(EndOf(h, wire, id), EndOf(h', wire + out, id), id)
  {
    hide Of, Strip, Approvals;
    assert wire + [] == wire;
    if !h.streams[id].s.isOpen && !StreamOp(h, ApproveOp(id)).0.down {
      ServerApprove(h, wire, id);
      ApproveKeeps(h, id);
    }
  }

  lemma ApproveKeeps(h: Half, id: Word)
    requires ServerReady(h, id) && !h.streams[id].s.isOpen && !StreamOp(h, ApproveOp(id)).0.down
    ensures var h' := StreamOp(h, ApproveOp(id)).0; id in h'.streams && h'.streams[id].s == h.streams[id].s.(isOpen := true)
  {}

  lemma ServerAborts(h: Half, op: Op, id: Word)
    requires ServerReady(h, id) && (op.CloseOp? || op.ResetOp? || op.RejectOp?) && op.id == id
    ensures var h' := StreamOp(h, op).0; h'.down || id !in h'.streams
  {}

  lemma NoWriteYet(s: Stream, id: Word, p: seq<byte>)
    requires !s.isOpen
    ensures Taken(s, |p|) == 0 && Write(s, id, p) == s
  {
    assert p[..0] == [];
  }

  lemma ServerPick(h: Half, wire: seq<Frame>, id: Word)
    requires ServerReady(h, id)
    ensures var (h', out) := StreamOp(h, PickOp(id));
            id in h'.streams && ServerMoved(EndOf(h, wire, id), EndOf(h', wire + out, id), id)
  {
    hide Strip, Approvals, Seen, StreamOp, Of;
    PickIsLocal(h, wire, id);
    SeenPick(EndOf(h, wire, id), id);
  }

  lemma PickIsLocal(h: Half, wire: seq<Frame>, id: Word)
    requires id in h.streams && !h.streams[id].s.closeAfterDrain
    requires forall f :: f in h.streams[id].s.outbound ==> f.stream == id
    ensures var (h', out) := StreamOp(h, PickOp(id));
            id in h'.streams && EndOf(h', wire + out, id) == Local(EndOf(h, wire, id), id, Pick)
  {
    hide Of;
    assert wire + [] == wire;
    if h.streams[id].s.outbound != [] { OfOne(wire, h.streams[id].s.outbound[0], id); }
  }

  lemma SeenPick(x: End, id: Word)
    requires !x.gone && forall f :: f in x.s.outbound ==> f.kind == DATA || f.kind == FIN
    ensures var x' := Local(x, id, Pick);
            && Seen(x') == Local(Seen(x), id, Pick) && Approvals(x'.wire) == Approvals(x.wire) && x'.control == x.control
            && (x'.wire == x.wire || exists f: Frame :: x'.wire == x.wire + [f] && (f.kind == DATA || f.kind == FIN))
  {
    if x.s.outbound != [] {
      StripAppend(x.wire, [x.s.outbound[0]]);
      StripOne(x.s.outbound[0]);
      assert x.s.outbound[0] in x.s.outbound;
    }
  }

  lemma ServerApprove(h: Half, wire: seq<Frame>, id: Word)
    requires id in h.streams && !h.streams[id].s.closed && !h.streams[id].s.isOpen
    ensures var (h', out) := StreamOp(h, ApproveOp(id));
            !h'.down ==>
              && id in h'.streams && out == []
              && var e, e' := EndOf(h, wire, id), EndOf(h', wire + out, id);
                 && Seen(e') == Seen(e) && e'.s.isOpen && e'.wire == e.wire && e'.written == e.written
                 && e'.control == e.control + [Frame(OPEN_OK, id, [])]
  {
    hide Of;
    assert wire + [] == wire;
    var ok := Frame(OPEN_OK, id, []);
    SendControlKeeps(Put(h, id, h.streams[id].s.(isOpen := true)), ok, id);
    StripAppend(Of(h.control, id), [ok]);
    StripOne(ok);
    assert Strip(Of(h.control, id)) + [] == Strip(Of(h.control, id));
  }

  // ---- Before the stream exists --------------------------------------------

  lemma FlushOfNone(h: Half, wire: seq<Frame>, id: Word)
    requires Of(h.control, id) == []
    ensures var (h', out) := Do(h, FlushOp); PartOf(h', wire + out, id) == PartOf(h, wire, id)
  {
    hide Of;
    assert wire + [] == wire;
    if !h.down && h.control != [] {
      OfHead(h.control, id);
      OfOne(wire, h.control[0], id);
    }
  }

  // An operation where the stream is not known, or which names another.
  lemma DoElsewhere(h: Half, wire: seq<Frame>, op: Op, id: Word)
    requires Tidy(h) && !Do(h, op).0.down
    requires op.FlushOp? ==> Of(h.control, id) == []
    requires OnStream(op) && op.id == id ==> id !in h.streams
    requires op.OpenOp? ==> Known(h, id) || h.nextID != id || !h.client
    ensures var (h', out) := Do(h, op); PartOf(h', wire + out, id) == PartOf(h, wire, id)
  {
    hide Of, StreamOp, Open, SendControl;
    assert wire + [] == wire;
    if op.FlushOp? {
      FlushOfNone(h, wire, id);
    } else if OnStream(op) && op.id == id {
    } else if op.OpenOp? && !h.client {
      ServerOpensNothing(h, op.selector);
    } else {
      ElsewhereProjects(h, wire, op, id);
    }
  }

  lemma ServerOpensNothing(h: Half, selector: seq<byte>)
    requires !h.client
    ensures Open(h, selector) == h
  {}

  lemma DoKeepsRole(h: Half, op: Op)
    ensures Do(h, op).0.client == h.client
  {
    hide Write, Read, Close, CloseWrite, NextOutbound;
  }

  lemma HandleKeepsRole(h: Half, f: Frame)
    ensures MuxSession.HandleFrame(h, f).client == h.client
  {
    hide ReceiveData, UpdateSendWindow, HandleStreamFrame;
    if f.stream in h.streams {
      hide SendControl;
      HandleShape(h, f);
      assert SendControl(Retire(h, f.stream, MuxCredit.HandleFrame(h.streams[f.stream].s, f)), ResetFrame(f.stream)).client == h.client by {
        SendKeepsRole(Retire(h, f.stream, MuxCredit.HandleFrame(h.streams[f.stream].s, f)), ResetFrame(f.stream));
      }
      SendKeepsRole(h.(lastID := Max(h.lastID, f.stream)), Frame(OPEN_ERROR, f.stream, []));
    }
  }

  lemma SendKeepsRole(h: Half, f: Frame)
    ensures SendControl(h, f).client == h.client
  {}

  lemma RolesStay(p: Pair, m: Move)
    ensures StepPair(p, m).a.client == p.a.client && StepPair(p, m).b.client == p.b.client
  {
    hide Do, MuxSession.HandleFrame;
    match m
    case Act(true, op) => DoKeepsRole(p.a, op);
    case Act(false, op) => DoKeepsRole(p.b, op);
    case Deliver(true) => if p.ba != [] { HandleKeepsRole(p.a, p.ba[0]); }
    case Deliver(false) => if p.ab != [] { HandleKeepsRole(p.b, p.ab[0]); }
  }

  lemma UnbornStep(p: Pair, m: Move, id: Word)
    requires Unborn(p, id) && Tidy(p.a) && Tidy(p.b)
    requires !StepPair(p, m).a.down && !StepPair(p, m).b.down
    ensures Unborn(StepPair(p, m), id) || Announced(StepPair(p, m), id)
  {
    hide Of, Do, MuxSession.HandleFrame, Tidy;
    RolesStay(p, m);
    match m
    case Act(true, op) =>
      if op.OpenOp? && p.a.nextID == id { Announces(p, op.selector, id); } else { DoElsewhere(p.a, p.ab, op, id); }
    case Act(false, op) => DoElsewhere(p.b, p.ba, op, id);
    case Deliver(true) =>
      if p.ba != [] {
        OfHead(p.ba, id);
        HandleElsewhere(p.a, p.ba[0], p.ab, id);
      }
    case Deliver(false) =>
      if p.ab != [] {
        OfHead(p.ab, id);
        HandleElsewhere(p.b, p.ab[0], p.ba, id);
      }
  }

  lemma Announces(p: Pair, selector: seq<byte>, id: Word)
    requires Unborn(p, id) && p.a.nextID == id && !Do(p.a, OpenOp(selector)).0.down
    ensures var p' := StepPair(p, Act(true, OpenOp(selector))); Unborn(p', id) || Announced(p', id)
  {
    hide Of;
    assert p.ab + [] == p.ab;
    OfOne(p.a.control, Frame(OPEN, id, selector), id);
    assert [] + [Frame(OPEN, id, selector)] == [Frame(OPEN, id, selector)];
  }

  // ---- Announced -----------------------------------------------------------

  lemma SameClient(p: Pair, p': Pair, id: Word)
    requires ClientWaits(p, id) && PartOf(p'.a, p'.ab, id) == PartOf(p.a, p.ab, id)
    requires p'.a.client && !p'.b.client && !p'.a.down && !p'.b.down
    ensures ClientWaits(p', id) && p'.a.streams[id] == p.a.streams[id]
    ensures Of(p'.ab, id) == Of(p.ab, id) && Of(p'.a.control, id) == Of(p.a.control, id)
  {}

  lemma AnnouncedStep(p: Pair, m: Move, id: Word)
    requires Announced(p, id) && Tidy(p.a) && Tidy(p.b) && Proper(m, id)
    requires !StepPair(p, m).a.down && !StepPair(p, m).b.down
    ensures var p' := StepPair(p, m); Announced(p', id) || Offered(p', id) || GivenUp(p', id)
  {
    hide Of, Do, MuxSession.HandleFrame, Tidy, Offered;
    RolesStay(p, m);
    match m
    case Act(true, op) =>
      if OnStream(op) && op.id == id { ClientResets(p, id); }
      else if op.FlushOp? { AnnouncementFlushes(p, id); }
      else { DoElsewhere(p.a, p.ab, op, id); SameClient(p, StepPair(p, m), id); }
    case Act(false, op) => DoElsewhere(p.b, p.ba, op, id);
    case Deliver(true) =>
      if p.ba != [] {
        OfHead(p.ba, id);
        HandleElsewhere(p.a, p.ba[0], p.ab, id);
        SameClient(p, StepPair(p, m), id);
      }
    case Deliver(false) =>
      if p.ab != [] {
        OfHead(p.ab, id);
        if p.ab[0].stream == id { AnnouncementArrives(p, id); }
        else { HandleElsewhere(p.b, p.ab[0], p.ba, id); }
      }
  }

  lemma ClientResets(p: Pair, id: Word)
    requires ClientWaits(p, id) && !Do(p.a, ResetOp(id)).0.down
    ensures id !in Do(p.a, ResetOp(id)).0.streams
  {}

  lemma AnnouncementFlushes(p: Pair, id: Word)
    requires Announced(p, id)
    ensures Announced(StepPair(p, Act(true, FlushOp)), id)
  {
    hide Of;
    assert p.ab + [] == p.ab;
    if p.a.control != [] {
      var f := p.a.control[0];
      OfHead(p.a.control, id);
      OfOne(p.ab, f, id);
      if f.stream == id {
        assert Of(p.ab, id) + [f] + Of(p.a.control[1..], id) == Of(p.ab, id) + Of(p.a.control, id);
      }
    }
  }

  lemma AnnouncementArrives(p: Pair, id: Word)
    requires Announced(p, id) && Tidy(p.a) && p.ab != [] && p.ab[0].stream == id && Of(p.ab, id) == [p.ab[0]] + Of(p.ab[1..], id)
    requires !StepPair(p, Deliver(false)).b.down
    ensures var p' := StepPair(p, Deliver(false)); Offered(p', id) || GivenUp(p', id)
  {
    hide Of;
    var f, p' := p.ab[0], StepPair(p, Deliver(false));
    assert (Of(p.ab, id) + Of(p.a.control, id))[0] == f;
    assert Of(p.ab[1..], id) == [] && Of(p.a.control, id) == [];
    assert id % 2 == 1;
    assert f.kind == OPEN && p'.b == HandleOpen(p.b, f);
    SendControlKeeps(p.b.(lastID := Max(p.b.lastID, id)), Frame(OPEN_ERROR, id, []), id);
    if id in p'.b.streams {
      hide LaneOk, SendControl;
      assert p'.b.streams[id] == Entry(New(), [], [], f.payload);
      assert SeenLane(p', id) == Lane(id, Opened(), Opened());
      OpenedLaneOk(id);
    }
  }

  // ---- Offered -------------------------------------------------------------

  lemma LaneStepKeeps(l: Lane, x: End, act: MuxCredit.Act)
    requires LaneOk(l) && x == Local(l.b, l.id, act)
    ensures LaneOk(l.(b := x))
  {
    hide LaneOk, Local;
    if act.Receive? { assert x == l.b by { LocalIsNotReceive(l.b, l.id, act); } }
    else { StepKeepsLane(l, false, act); }
  }

  // The server's end of an offered stream after a step of its own.
  lemma OfferedAgain(p: Pair, p': Pair, id: Word)
    requires Offered(p, id) && p'.a == p.a && p'.ab == p.ab && !p'.b.client && !p'.b.down && id in p'.b.streams
    requires var e, e' := EndOf(p.b, p.ba, id), EndOf(p'.b, p'.ba, id);
             && !e'.s.closed && !e'.s.remoteWriteClosed && e'.s.inbound == []
             && (Seen(e') == Seen(e) || exists act :: Seen(e') == Local(Seen(e), id, act))
             && (!e'.s.isOpen ==> e'.written == [])
             && Approvals(e'.wire + e'.control) == (if e'.s.isOpen then 1 else 0)
             && (forall f :: f in e'.wire ==> ServerFrame(f)) && (forall f :: f in e'.control ==> f.kind == OPEN_OK)
    ensures Offered(p', id)
  {
    hide Of, LaneOk, Local, Seen;
    var e, e' := EndOf(p.b, p.ba, id), EndOf(p'.b, p'.ba, id);
    if Seen(e') != Seen(e) {
      var act :| Seen(e') == Local(Seen(e), id, act);
      LaneStepKeeps(SeenLane(p, id), Seen(e'), act);
    }
  }

  lemma OfferedServerOp(p: Pair, op: Op, id: Word)
    requires Offered(p, id) && Tidy(p.b) && OnStream(op) && op.id == id && op != CloseReadOp(id)
    requires !Do(p.b, op).0.down
    ensures var p' := StepPair(p, Act(false, op)); Offered(p', id) || GivenUp(p', id)
  {
    hide Of, LaneOk, StreamOp, Strip, Approvals;
    var h, p' := p.b, StepPair(p, Act(false, op));
    var s := h.streams[id].s;
    RolesStay(p, Act(false, op));
    OwnQueue(h, id);
    LaneServerEnd(SeenLane(p, id));
    ServerOp(h, p.ba, op, id);
    if id in p'.b.streams {
      var e, e' := EndOf(h, p.ba, id), EndOf(p'.b, p'.ba, id);
      StripAppend(e.wire, e.control);
      StripAppend(e'.wire, e'.control);
      if e'.s.isOpen != e.s.isOpen {
        StripAppend(e.control, [Frame(OPEN_OK, id, [])]);
        StripOne(Frame(OPEN_OK, id, []));
      }
      OfferedAgain(p, p', id);
    }
  }

  lemma LaneServerEnd(l: Lane)
    requires LaneOk(l)
    ensures !l.b.s.closed ==> !l.b.s.closeAfterDrain
    ensures forall f :: f in l.b.s.outbound ==> f.kind == DATA || f.kind == FIN
  {}

  lemma OfferedFlush(p: Pair, id: Word)
    requires Offered(p, id)
    ensures Offered(StepPair(p, Act(false, FlushOp)), id)
  {
    hide Of, LaneOk;
    assert p.ba + [] == p.ba;
    var p' := StepPair(p, Act(false, FlushOp));
    if p.b.control != [] {
      var f, rest := p.b.control[0], p.b.control[1..];
      OfHead(p.b.control, id);
      OfOne(p.ba, f, id);
      if f.stream == id {
        var control := Of(p.b.control, id);
        assert control == [f] + Of(rest, id) && f in control;
        StripAppend(Of(p.ba, id), [f]);
        StripAppend([f], Of(rest, id));
        StripOne(f);
        assert Of(p.ba, id) + [f] + Of(rest, id) == Of(p.ba, id) + control;
        assert Strip(Of(p.ba, id)) + [] == Strip(Of(p.ba, id)) && [] + Strip(Of(rest, id)) == Strip(Of(rest, id));
      }
    }
    OfferedAgain(p, p', id);
  }

  // The next frame of the stream that reaches the client decides. Its approval opens
  // the stream, and from then on both ends have a lane in order; its data before the
  // approval loses it; its end alone leaves it waiting.
  lemma FirstFrameDecides(p: Pair, id: Word)
    requires Offered(p, id) && Tidy(p.a) && p.ba != [] && p.ba[0].stream == id
    requires !StepPair(p, Deliver(true)).a.down
    ensures var f, p' := p.ba[0], StepPair(p, Deliver(true));
            && ServerFrame(f)
            && (f.kind == OPEN_OK ==> Healthy(p', id) && id in p'.a.streams)
            && (f.kind == DATA ==> id in p'.a.gone && id !in p'.a.streams && p'.a.gone[id].s.closed && !p'.a.gone[id].s.isOpen)
            && (f.kind == FIN ==> Offered(p', id))
  {
    hide Of, LaneOk;
    var f, rest, p' := p.ba[0], p.ba[1..], StepPair(p, Deliver(true));
    OfHead(p.ba, id);
    assert f in Of(p.ba, id);
    if f.kind == OPEN_OK {
      ApprovalArrives(p, id);
    } else if f.kind == FIN {
      EndArrivesEarly(p, id);
    }
  }

  lemma ApprovalMeansOpen(f: Frame, rest: seq<Frame>, control: seq<Frame>)
    requires f.kind == OPEN_OK
    ensures Approvals([f] + rest + control) > 0
  {
    assert ([f] + rest + control)[0] == f;
  }

  lemma OnlyApproval(f: Frame, rest: seq<Frame>, control: seq<Frame>)
    requires f.kind == OPEN_OK && Approvals([f] + rest + control) == 1
    ensures Strip([f] + rest) == rest == Strip(rest) && Strip(control) == control
  {
    StripAppend([f], rest);
    StripAppend([f] + rest, control);
    StripOne(f);
    assert [] + Strip(rest) == Strip(rest);
    StripPlain(rest);
    StripPlain(control);
  }

  lemma ApprovalArrives(p: Pair, id: Word)
    requires Offered(p, id) && p.ba != [] && p.ba[0].stream == id && p.ba[0].kind == OPEN_OK
    ensures var p' := StepPair(p, Deliver(true)); Healthy(p', id) && id in p'.a.streams
  {
    hide Of, LaneOk;
    var f, rest, p' := p.ba[0], p.ba[1..], StepPair(p, Deliver(true));
    OfHead(p.ba, id);
    assert p.b.streams[id].s.isOpen by { ApprovalMeansOpen(f, Of(rest, id), Of(p.b.control, id)); }
    OnlyApproval(f, Of(rest, id), Of(p.b.control, id));
    hide Strip, Approvals;
    assert Strip([]) == [] by { StripPlain([]); }
    LaneDirections(SeenLane(p, id));
    UsableIsGood(Seen(EndOf(p.b, p.ba, id)));
    assert Alive(p'.a, id) && Alive(p'.b, id);
    assert LaneOf(p', id) == SeenLane(p, id);
  }

  lemma EndArrivesEarly(p: Pair, id: Word)
    requires Offered(p, id) && p.ba != [] && p.ba[0].stream == id && p.ba[0].kind == FIN
    ensures Offered(StepPair(p, Deliver(true)), id)
  {
    hide Of, LaneOk, Strip, Approvals;
    var f, rest, p' := p.ba[0], p.ba[1..], StepPair(p, Deliver(true));
    OfHead(p.ba, id);
    StripAppend([f], Of(rest, id));
    StripAppend([f], Of(rest, id) + Of(p.b.control, id));
    StripOne(f);
    assert [f] + Of(rest, id) + Of(p.b.control, id) == [f] + (Of(rest, id) + Of(p.b.control, id));
    var l := SeenLane(p, id);
    assert l.b.wire == [f] + Strip(Of(rest, id));
    StepKeepsLane(l, true, Receive);
    assert SeenLane(p', id) == Step(l, true, Receive);
  }

  // What neither touches the stream at the client nor brings it a frame leaves the
  // offer standing, unless the server gives it up.
  lemma OfferStays(p: Pair, m: Move, id: Word)
    requires Offered(p, id) && Tidy(p.a) && Tidy(p.b) && (m.Act? ==> m.op != CloseReadOp(id))
    requires m.Act? && m.onA && OnStream(m.op) ==> m.op.id != id
    requires m == Deliver(true) && p.ba != [] ==> p.ba[0].stream != id
    requires !StepPair(p, m).a.down && !StepPair(p, m).b.down
    ensures var p' := StepPair(p, m);
            id in p'.a.streams && (Offered(p', id) || (m.Act? && GivenUp(p', id) && id !in p'.b.streams))
  {
    hide Of, Do, MuxSession.HandleFrame, Tidy, LaneOk;
    RolesStay(p, m);
    var p' := StepPair(p, m);
    match m
    case Act(true, op) => DoElsewhere(p.a, p.ab, op, id); SameOffer(p, p', id);
    case Act(false, op) =>
      if OnStream(op) && op.id == id { OfferedServerOp(p, op, id); }
      else if op.FlushOp? { OfferedFlush(p, id); }
      else { DoElsewhere(p.b, p.ba, op, id); SameOffer(p, p', id); }
    case Deliver(true) =>
      if p.ba != [] { OfHead(p.ba, id); HandleElsewhere(p.a, p.ba[0], p.ab, id); SameOffer(p, p', id); }
    case Deliver(false) =>
      if p.ab != [] {
        OfHead(p.ab, id);
        HandleElsewhere(p.b, p.ab[0], p.ba, id);
        SameOffer(p, p', id);
      }
  }

  lemma OfferedKnown(p: Pair, id: Word)
    requires Offered(p, id)
    ensures ClientWaits(p, id) && p.a.client && id in p.a.streams && Known(p.a, id)
  {}

  lemma OfferedStep(p: Pair, m: Move, id: Word)
    requires Offered(p, id) && Tidy(p.a) && Tidy(p.b) && Proper(m, id)
    requires !StepPair(p, m).a.down && !StepPair(p, m).b.down
    ensures var p' := StepPair(p, m); Offered(p', id) || Healthy(p', id) || GivenUp(p', id)
  {
    hide Of, Do, MuxSession.HandleFrame, Tidy, LaneOk, Offered;
    if m.Act? && m.onA && OnStream(m.op) && m.op.id == id { OfferedKnown(p, id); ClientResets(p, id); }
    else if m == Deliver(true) && p.ba != [] && p.ba[0].stream == id { FirstFrameDecides(p, id); }
    else { OfferStays(p, m, id); }
  }

  lemma SameOffer(p: Pair, p': Pair, id: Word)
    requires Offered(p, id) && PartOf(p'.a, p'.ab, id) == PartOf(p.a, p.ab, id) && PartOf(p'.b, p'.ba, id) == PartOf(p.b, p.ba, id)
    requires p'.a.client && !p'.b.client && !p'.a.down && !p'.b.down
    ensures Offered(p', id)
  {
    hide Of, LaneOk;
    assert SeenLane(p', id) == SeenLane(p, id);
  }

  // ---- Over runs from the creation of both sessions ------------------------

  predicate Sound(p: Pair, id: Word) {
    Unborn(p, id) || Announced(p, id) || Offered(p, id) || Healthy(p, id)
  }

  // A move under which the stream is not lost: no session fails, a stream alive at
  // both ends stays alive, and before that nobody gives it up.
  predicate Keeps(p: Pair, m: Move, id: Word) {
    var p' := StepPair(p, m);
    && !p'.a.down && !p'.b.down && (m.Act? ==> m.op != CloseReadOp(id))
    && if BothAlive(p, id) then BothAlive(p', id)
       else Proper(m, id) && (Known(p'.a, id) ==> !GivenUp(p', id))
  }

  predicate KeptThroughout(p: Pair, moves: seq<Move>, id: Word)
    decreases |moves|
  {
    moves != [] ==> Keeps(p, moves[0], id) && KeptThroughout(StepPair(p, moves[0]), moves[1..], id)
  }

  lemma NotYetAlive(p: Pair, id: Word)
    requires Unborn(p, id) || Announced(p, id) || Offered(p, id)
    ensures !BothAlive(p, id)
  {
    hide Of, LaneOk;
  }

  lemma StepSound(p: Pair, m: Move, id: Word)
    requires Sound(p, id) && Tidy(p.a) && Tidy(p.b) && Keeps(p, m, id)
    ensures Sound(StepPair(p, m), id)
  {
    hide StepPair, Unborn, Announced, Offered, BothAlive, Tidy, LaneOk;
    if Unborn(p, id) { NotYetAlive(p, id); UnbornStep(p, m, id); }
    else if Announced(p, id) { NotYetAlive(p, id); AnnouncedStep(p, m, id); ClientKnown(StepPair(p, m), id); AnnouncedStays(p, m, id); }
    else if Offered(p, id) { NotYetAlive(p, id); OfferedStep(p, m, id); AnnouncedStays(p, m, id); }
    else { RolesStay(p, m); OpenStreamsStayHealthy(p, m, id); }
  }

  lemma ClientKnown(p: Pair, id: Word)
    ensures ClientWaits(p, id) ==> Known(p.a, id)
  {}

  // A stream once known to a session remains so.
  lemma AnnouncedStays(p: Pair, m: Move, id: Word)
    requires Known(p.a, id) || Announced(p, id) || Offered(p, id)
    requires !StepPair(p, m).a.down
    ensures Known(StepPair(p, m).a, id)
  {
    hide Of, LaneOk, Do, MuxSession.HandleFrame;
    match m
    case Act(true, op) => DoKeepsKnown(p.a, op, id);
    case Deliver(true) => if p.ba != [] { HandleKeepsKnown(p.a, p.ba[0], id); }
    case _ =>
  }

  lemma DoKeepsKnown(h: Half, op: Op, id: Word)
    requires Known(h, id) && !Do(h, op).0.down
    ensures Known(Do(h, op).0, id)
  {
    hide Write, Read, Close, CloseWrite, NextOutbound;
  }

  lemma HandleKeepsKnown(h: Half, f: Frame, id: Word)
    requires Known(h, id) && !MuxSession.HandleFrame(h, f).down
    ensures Known(MuxSession.HandleFrame(h, f), id)
  {
    hide ReceiveData, UpdateSendWindow, HandleStreamFrame;
    if f.stream in h.streams { HandleShape(h, f); }
  }

  lemma {:induction false} RunSound(p: Pair, moves: seq<Move>, id: Word)
    requires Sound(p, id) && Tidy(p.a) && Tidy(p.b) && KeptThroughout(p, moves, id)
    ensures Sound(RunPair(p, moves), id)
    decreases |moves|
  {
    hide StepPair, Sound, Keeps, Tidy;
    if moves != [] {
      StepSound(p, moves[0], id);
      StepKeepsTidy(p, moves[0]);
      RunSound(StepPair(p, moves[0]), moves[1..], id);
    }
  }

  // From two new sessions, whether or not the server announces its services, over
  // every run in which the stream is not lost, whatever else goes on: whenever it is
  // alive at both ends its lane is in order, and each reader has a prefix of what its
  // peer wrote, and all of it at the end. Identifier 0 is never a stream.
  lemma StreamsFromTheStart(clientMax: nat, serverMax: nat, services: Option<seq<Services.Service>>, moves: seq<Move>, id: Word)
    requires KeptThroughout(NewPair(clientMax, serverMax, services), moves, id)
    ensures var q := RunPair(NewPair(clientMax, serverMax, services), moves);
            && (if id == 0 then !Known(q.a, id) && !Known(q.b, id) else Sound(q, id))
            && (BothAlive(q, id) ==> LaneOk(LaneOf(q, id)) && Exact(q, id))
  {
    hide LaneOk, KeptThroughout, BothAlive, Unborn, Announced, Offered, NewPair, Tidy;
    var p := NewPair(clientMax, serverMax, services);
    NewTidy(clientMax, serverMax, services);
    var q := RunPair(p, moves);
    if id == 0 {
      RunKeepsTidy(p, moves);
      OddIds(q.a);
      OddIds(q.b);
      if BothAlive(q, id) { AliveKnown(q, id); }
    } else {
      assert Unborn(p, id) by { NewUnborn(clientMax, serverMax, services, id); }
      RunSound(p, moves, id);
      if BothAlive(q, id) {
        if Unborn(q, id) || Announced(q, id) || Offered(q, id) { NotYetAlive(q, id); }
        HealthyIsExact(q, id);
      }
    }
  }

  lemma OddIds(h: Half)
    requires Tidy(h)
    ensures forall id :: Known(h, id) ==> id % 2 == 1
  {}

  lemma AliveKnown(p: Pair, id: Word)
    requires BothAlive(p, id)
    ensures Known(p.a, id) && Known(p.b, id)
  {}

  lemma NewUnborn(clientMax: nat, serverMax: nat, services: Option<seq<Services.Service>>, id: Word)
    requires id != 0
    ensures Unborn(NewPair(clientMax, serverMax, services), id)
  {
    var control := NewPair(clientMax, serverMax, services).b.control;
    if services.Some? { assert control[1..] == []; }
    assert Of(control, id) == [];
  }

  lemma HealthyIsExact(q: Pair, id: Word)
    requires Healthy(q, id)
    ensures Exact(q, id)
  {
    hide LaneOk, Direction, GoodEnd;
    var l := LaneOf(q, id);
    LaneDirections(l);
    EndIsExact(l.a, l.b);
    EndIsExact(l.b, l.a);
  }

  // ---- Lost for good -------------------------------------------------------

  // A client never takes up again a stream it has forgotten, and leaves it as it was.
  lemma {:induction false} GoneForGood(p: Pair, moves: seq<Move>, id: Word)
    requires p.a.client && OwnIds(p.a) && Tidy(p.a) && Tidy(p.b) && Known(p.a, id) && id !in p.a.streams
    ensures var q := RunPair(p, moves);
            id !in q.a.streams && Known(q.a, id) && EntryAt(q.a, id) == EntryAt(p.a, id)
    decreases |moves|
  {
    hide StepPair, Tidy;
    if moves != [] {
      StepKeepsTidy(p, moves[0]);
      RolesStay(p, moves[0]);
      StaysGone(p, moves[0], id);
      assert OwnIds(StepPair(p, moves[0]).a) by { TidyIds(StepPair(p, moves[0]).a); }
      GoneForGood(StepPair(p, moves[0]), moves[1..], id);
    }
  }

  lemma TidyIds(h: Half)
    requires Tidy(h)
    ensures OwnIds(h)
  {}

  lemma StaysGone(p: Pair, m: Move, id: Word)
    requires p.a.client && OwnIds(p.a) && Known(p.a, id) && id !in p.a.streams
    ensures var h := StepPair(p, m).a; Known(h, id) && id !in h.streams && EntryAt(h, id) == EntryAt(p.a, id)
  {
    hide Do, MuxSession.HandleFrame, OwnIds;
    match m
    case Act(true, op) => DoStaysGone(p.a, op, id);
    case Deliver(true) => if p.ba != [] { HandleStaysGone(p.a, p.ba[0], id); }
    case _ =>
  }

  lemma DoStaysGone(h: Half, op: Op, id: Word)
    requires OwnIds(h) && Known(h, id) && id !in h.streams
    ensures var h' := Do(h, op).0; Known(h', id) && id !in h'.streams && EntryAt(h', id) == EntryAt(h, id)
  {
    hide Write, Read, Close, CloseWrite, NextOutbound;
  }

  lemma HandleStaysGone(h: Half, f: Frame, id: Word)
    requires h.client && Known(h, id) && id !in h.streams
    ensures var h' := MuxSession.HandleFrame(h, f); Known(h', id) && id !in h'.streams && EntryAt(h', id) == EntryAt(h, id)
  {
    hide ReceiveData, UpdateSendWindow, HandleStreamFrame;
    if f.stream in h.streams { HandleShape(h, f); }
  }

  // ---- Exactly when a stream opens -----------------------------------------

  // The first frame of a stream that decides: its approval or its data.
  function FirstOf(frames: seq<Frame>): Option<byte> {
    if frames == [] then None
    else if frames[0].kind == OPEN_OK || frames[0].kind == DATA then Some(frames[0].kind)
    else FirstOf(frames[1..])
  }

  // The frames of a stream that reach the client in a run.
  function Heard(p: Pair, moves: seq<Move>, id: Word): seq<Frame>
    decreases |moves|
  {
    if moves == [] then []
    else
      (if moves[0] == Deliver(true) && p.ba != [] && p.ba[0].stream == id then [p.ba[0]] else [])
      + Heard(StepPair(p, moves[0]), moves[1..], id)
  }

  // A move after which both still want the stream: no session fails; once both have
  // it open, no application gives it up; while the client waits for the answer, its
  // application leaves it alone, and the server does not give it up.
  predicate Wanted(p: Pair, m: Move, id: Word) {
    var p' := StepPair(p, m);
    && !p'.a.down && !p'.b.down
    && (m.Act? ==> m.op != CloseReadOp(id) && (BothAlive(p, id) ==> BothAlive(p', id)))
    && (id in p.a.streams && !p.a.streams[id].s.isOpen && m.Act? ==>
          (m.onA && OnStream(m.op) ==> m.op.id != id) && id in p'.b.streams)
  }

  predicate WantedThroughout(p: Pair, moves: seq<Move>, id: Word)
    decreases |moves|
  {
    moves != [] ==> Wanted(p, moves[0], id) && WantedThroughout(StepPair(p, moves[0]), moves[1..], id)
  }

  // Over every run in which both want the stream, whatever else the two sessions do
  // meanwhile: the client keeps and opens it exactly if its approval reaches the
  // client before its first data, and has lost it exactly if data comes first; until
  // either comes, it waits.
  lemma {:induction false} OpensIffApprovalFirst(p: Pair, moves: seq<Move>, id: Word)
    requires Offered(p, id) && Tidy(p.a) && Tidy(p.b) && WantedThroughout(p, moves, id)
    ensures var q := RunPair(p, moves);
            match FirstOf(Heard(p, moves, id))
            case None => Offered(q, id)
            case Some(kind) =>
              && (kind == OPEN_OK <==> Healthy(q, id))
              && (kind == DATA <==> id !in q.a.streams && !Alive(q.a, id))
    decreases |moves|
  {
    hide Offered, Healthy, Tidy, StepPair, Wanted, Alive;
    if moves != [] {
      var m, p' := moves[0], StepPair(p, moves[0]);
      StepKeepsTidy(p, m);
      assert !p'.a.down && !p'.b.down by { WantedStaysUp(p, m, id); }
      if m == Deliver(true) && p.ba != [] && p.ba[0].stream == id {
        FirstFrameDecides(p, id);
        var f, later := p.ba[0], Heard(p', moves[1..], id);
        assert ([f] + later)[0] == f && ([f] + later)[1..] == later;
        if f.kind == OPEN_OK {
          HealthyRun(p', moves[1..], id);
        } else if f.kind == DATA {
          OfferedKnown(p, id);
          RolesStay(p, m);
          LostForGood(p', moves[1..], id);
        } else {
          OpensIffApprovalFirst(p', moves[1..], id);
        }
      } else {
        WantedOffer(p, m, id);
        assert [] + Heard(p', moves[1..], id) == Heard(p', moves[1..], id);
        OpensIffApprovalFirst(p', moves[1..], id);
      }
    }
  }

  lemma WantedStaysUp(p: Pair, m: Move, id: Word)
    requires Wanted(p, m, id)
    ensures !StepPair(p, m).a.down && !StepPair(p, m).b.down
  {}

  lemma WantedOffer(p: Pair, m: Move, id: Word)
    requires Offered(p, id) && Tidy(p.a) && Tidy(p.b) && Wanted(p, m, id)
    requires m == Deliver(true) && p.ba != [] ==> p.ba[0].stream != id
    ensures Offered(StepPair(p, m), id)
  {
    hide LaneOk, Of, Offered, StepPair, Tidy, BothAlive;
    OfferedKnown(p, id);
    OfferStays(p, m, id);
  }

  // The client resets what gets data too early, and never takes it up again.
  lemma LostForGood(p: Pair, moves: seq<Move>, id: Word)
    requires p.a.client && Tidy(p.a) && Tidy(p.b)
    requires id in p.a.gone && id !in p.a.streams && p.a.gone[id].s.closed && !p.a.gone[id].s.isOpen
    ensures var q := RunPair(p, moves); id !in q.a.streams && !Alive(q.a, id) && !Healthy(q, id)
  {
    hide LaneOk, Of, StepPair, Tidy;
    TidyIds(p.a);
    GoneForGood(p, moves, id);
  }

  // Nothing an open stream receives is refused, so it stays.
  lemma {:induction false} HealthyRun(p: Pair, moves: seq<Move>, id: Word)
    requires Healthy(p, id) && Tidy(p.a) && Tidy(p.b) && WantedThroughout(p, moves, id)
    ensures var q := RunPair(p, moves); Healthy(q, id) && Alive(q.a, id)
    decreases |moves|
  {
    hide Tidy, StepPair, LaneOk, Of;
    if moves != [] {
      hide Healthy;
      StepKeepsTidy(p, moves[0]);
      HealthyStep(p, moves[0], id);
      HealthyRun(StepPair(p, moves[0]), moves[1..], id);
    }
  }

  lemma HealthyStep(p: Pair, m: Move, id: Word)
    requires Healthy(p, id) && Tidy(p.a) && Tidy(p.b) && Wanted(p, m, id)
    ensures Healthy(StepPair(p, m), id)
  {
    hide Of, LaneOk, Tidy, StepPair;
    RolesStay(p, m);
    if m.Deliver? { DeliveryKeepsAlive(p, m.toA, id); }
    OpenStreamsStayHealthy(p, m, id);
  }

  lemma DeliveryKeepsAlive(p: Pair, toA: bool, id: Word)
    requires Healthy(p, id) && Tidy(p.a) && Tidy(p.b)
    requires !StepPair(p, Deliver(toA)).a.down && !StepPair(p, Deliver(toA)).b.down
    ensures BothAlive(StepPair(p, Deliver(toA)), id)
  {
    hide Of, LaneOk, Tidy, MuxSession.HandleFrame, GoodEnd, Direction, Usable;
    var l := LaneOf(p, id);
    LaneDirections(l);
    if toA {
      if p.ba != [] {
        OfHead(p.ba, id);
        AliveAfter(p.a, p.ab, p.ba[0], l.b, id);
      }
    } else if p.ab != [] {
      OfHead(p.ab, id);
      AliveAfter(p.b, p.ba, p.ab[0], l.a, id);
    }
  }

  // A frame of the peer x does not end an open stream, or unsettle another.
  lemma AliveAfter(h: Half, wire: seq<Frame>, f: Frame, x: End, id: Word)
    requires Alive(h, id) && Tidy(h) && !MuxSession.HandleFrame(h, f).down
    requires var y := EndOf(h, wire, id); Usable(x) && Usable(y) && Direction(x, y) && Direction(y, x)
    requires f.stream == id ==> x.wire != [] && x.wire[0] == f
    ensures Alive(MuxSession.HandleFrame(h, f), id)
  {
    hide Of, Direction, Tidy, LaneOk;
    if f.stream != id {
      hide MuxSession.HandleFrame, GoodEnd, Usable;
      HandleElsewhere(h, f, wire, id);
    } else {
      NothingIsRefused(x, EndOf(h, wire, id));
      assert f in x.wire && Plain(f);
      if id !in h.streams { TidyIds(h); }
    }
  }

  // ---- It happens ----------------------------------------------------------

  // From two new sessions: the client opens a stream, the server takes and approves
  // it, and its application writes a byte at once.
  function Approving(selector: seq<byte>, b: byte): seq<Move> {
    [Act(true, OpenOp(selector)), Act(true, FlushOp), Deliver(false), Act(false, AcceptOp),
     Act(false, ApproveOp(1)), Act(false, WriteOp(1, [b]))]
  }

  // The writer may take the byte before the approval, though control frames are
  // meant to go first; the client then resets a stream that both ends wanted, with
  // the approval still to come.
  lemma DataMayOvertakeOpenOk(clientMax: nat, serverMax: nat, selector: seq<byte>, b: byte)
    requires clientMax > 0 && serverMax > 0 && |selector| <= Services.MAX_SERVICE_NAME
    ensures var q := RunPair(NewPair(clientMax, serverMax, None), Approving(selector, b) + [Act(false, PickOp(1)), Deliver(true)]);
            && 1 in q.b.streams && q.b.streams[1].s.isOpen && Frame(OPEN_OK, 1, []) in q.b.control
            && 1 !in q.a.streams && q.a.control == [ResetFrame(1)]
  {
    hide StepPair;
    var p, moves := Approved(clientMax, serverMax, selector, b), [Act(false, PickOp(1)), Deliver(true)];
    ApprovedRun(clientMax, serverMax, selector, b);
    RunPairAppend(NewPair(clientMax, serverMax, None), Approving(selector, b), moves);
    var p1 := StepPair(p, moves[0]);
    assert moves[1..] == [moves[1]] && moves[1..][1..] == [];
    assert RunPair(p, moves) == StepPair(p1, moves[1]);
    DataGoesFirst(clientMax, serverMax, selector, b);
  }

  // The pair once the server's application has written.
  function Approved(clientMax: nat, serverMax: nat, selector: seq<byte>, b: byte): Pair {
    Pair(NewHalf(true, clientMax).(streams := map[1 := Entry(New(), [], [], selector)], nextID := 3, lastID := 1),
         NewHalf(false, serverMax).(
           streams := map[1 := Entry(New().(isOpen := true, sendWindow := INITIAL_WINDOW - 1,
                                            outbound := [Frame(DATA, 1, [b])], scheduled := true), [b], [], selector)],
           lastID := 1, control := [Frame(OPEN_OK, 1, [])]),
         [], [])
  }

  lemma DataGoesFirst(clientMax: nat, serverMax: nat, selector: seq<byte>, b: byte)
    requires clientMax > 0 && serverMax > 0
    ensures var q := StepPair(StepPair(Approved(clientMax, serverMax, selector, b), Act(false, PickOp(1))), Deliver(true));
            && 1 in q.b.streams && q.b.streams[1].s.isOpen && Frame(OPEN_OK, 1, []) in q.b.control
            && 1 !in q.a.streams && q.a.control == [ResetFrame(1)]
  {
    var p1 := StepPair(Approved(clientMax, serverMax, selector, b), Act(false, PickOp(1)));
    assert p1.ba == [] + [Frame(DATA, 1, [b])] == [Frame(DATA, 1, [b])];
    assert p1.b.control[0] == Frame(OPEN_OK, 1, []);
  }

  lemma ApprovedRun(clientMax: nat, serverMax: nat, selector: seq<byte>, b: byte)
    requires clientMax > 0 && serverMax > 0 && |selector| <= Services.MAX_SERVICE_NAME
    ensures RunPair(NewPair(clientMax, serverMax, None), Approving(selector, b)) == Approved(clientMax, serverMax, selector, b)
  {
    hide StepPair;
    var moves := Approving(selector, b);
    var p0 := NewPair(clientMax, serverMax, None);
    var p3 := ThreeMoves(p0, moves);
    assert p3 == Accepting(clientMax, serverMax, selector) by { TakenRun(clientMax, serverMax, selector); }
    assert moves[3..] == [Act(false, AcceptOp), Act(false, ApproveOp(1)), Act(false, WriteOp(1, [b]))];
    ThreeMovesRun(p0, moves);
    ThreeMovesRun(p3, moves[3..]);
    assert moves[3..][3..] == [];
    WrittenRun(clientMax, serverMax, selector, b);
  }

  function ThreeMoves(p: Pair, moves: seq<Move>): Pair
    requires |moves| >= 3
  {
    StepPair(StepPair(StepPair(p, moves[0]), moves[1]), moves[2])
  }

  lemma ThreeMovesRun(p: Pair, moves: seq<Move>)
    requires |moves| >= 3
    ensures RunPair(p, moves) == RunPair(ThreeMoves(p, moves), moves[3..])
  {
    hide StepPair;
    assert moves[1..][1..] == moves[2..] && moves[2..][1..] == moves[3..];
    var p1 := StepPair(p, moves[0]);
    assert RunPair(p1, moves[1..]) == RunPair(StepPair(p1, moves[1]), moves[2..]);
  }

  // The pair once the server has taken the stream.
  function Accepting(clientMax: nat, serverMax: nat, selector: seq<byte>): Pair {
    Pair(NewHalf(true, clientMax).(streams := map[1 := Entry(New(), [], [], selector)], nextID := 3, lastID := 1),
         NewHalf(false, serverMax).(streams := map[1 := Entry(New(), [], [], selector)], lastID := 1, accepting := 1), [], [])
  }

  lemma TakenRun(clientMax: nat, serverMax: nat, selector: seq<byte>)
    requires clientMax > 0 && serverMax > 0 && |selector| <= Services.MAX_SERVICE_NAME
    ensures StepPair(StepPair(StepPair(NewPair(clientMax, serverMax, None), Act(true, OpenOp(selector))), Act(true, FlushOp)), Deliver(false))
            == Accepting(clientMax, serverMax, selector)
  {
    var f := Frame(OPEN, 1, selector);
    var p1 := StepPair(NewPair(clientMax, serverMax, None), Act(true, OpenOp(selector)));
    assert p1.a.control == [] + [f] == [f];
    var p2 := StepPair(p1, Act(true, FlushOp));
    assert p2.ab == [] + [f] == [f];
  }

  lemma WrittenRun(clientMax: nat, serverMax: nat, selector: seq<byte>, b: byte)
    requires clientMax > 0 && serverMax > 0
    ensures StepPair(StepPair(StepPair(Accepting(clientMax, serverMax, selector), Act(false, AcceptOp)), Act(false, ApproveOp(1))), Act(false, WriteOp(1, [b])))
            == Approved(clientMax, serverMax, selector, b)
  {
    var p1 := StepPair(Accepting(clientMax, serverMax, selector), Act(false, AcceptOp));
    var p2 := StepPair(p1, Act(false, ApproveOp(1)));
    assert p2.b.control == [] + [Frame(OPEN_OK, 1, [])] == [Frame(OPEN_OK, 1, [])];
    WholeChunk(1, [b]);
    var f := Frame(DATA, 1, [b]);
    assert [] + [b] == [b] && [] + [f] == [f];
    var s := New().(isOpen := true);
    assert p2.b.streams[1] == Entry(s, [], [], selector);
    assert Write(s, 1, [b]) == s.(sendWindow := INITIAL_WINDOW - 1, outbound := [f], scheduled := true);
    assert StepPair(p2, Act(false, WriteOp(1, [b]))).b.streams
           == map[1 := Entry(s.(sendWindow := INITIAL_WINDOW - 1, outbound := [f], scheduled := true), [b], [], selector)];
  }

  lemma WholeChunk(id: Word, p: seq<byte>)
    requires |p| == 1
    ensures Chunks(id, p) == [Frame(DATA, id, p)] && p[..1] == p
  {
    assert p[..1] == p && p[1..] == [];
    assert Chunks(id, p[1..]) == [];
  }

  lemma {:induction false} RunPairAppend(p: Pair, a: seq<Move>, b: seq<Move>)
    ensures RunPair(p, a + b) == RunPair(RunPair(p, a), b)
    decreases |a|
  {
    hide StepPair;
    if a == [] {
      assert a + b == b;
    } else {
      assert (a + b)[1..] == a[1..] + b;
      RunPairAppend(StepPair(p, a[0]), a[1..], b);
    }
  }
}
