// Two multiplexing sessions sharing one ordered byte stream each way. Whatever
// the other streams do, the frames of one open stream form a lane of their own.
module MuxSession {
  import opened Bytes
  import opened Frames
  import opened MuxStream
  import opened MuxCredit
  import Services

  // A live stream with the bytes its application has written and read, and the service
  // it is for: the one asked for at the client, the one announced at the server.
  datatype Entry = Entry(s: Stream, written: seq<byte>, read: seq<byte>, selector: seq<byte>)

  // `gone` keeps the streams the session has forgotten, as they were last.
  datatype Half = Half(
    client: bool,
    maxStreams: nat,
    streams: map<Word, Entry>,
    gone: map<Word, Entry>,
    nextID: nat,
    lastID: nat,
    control: seq<Frame>,
    accepting: nat,
    down: bool)

  const MAX_WORD: nat := 0xFFFF_FFFF
  const CONTROL_FACTOR: nat := 8
  const ACCEPT_FACTOR: nat := 2

  // ---- The shared parts of a session ---------------------------------------

  // All streams are dropped when the session fails.
  function Shutdown(h: Half): Half {
    h.(down := true, streams := map[])
  }

  // A full control queue means the writer makes no progress.
  function SendControl(h: Half, f: Frame): Half {
    if h.down then h
    else if |h.control| >= h.maxStreams * CONTROL_FACTOR then Shutdown(h)
    else h.(control := h.control + [f])
  }

  function Remove(h: Half, id: Word): Half {
    h.(streams := map j | j in h.streams && j != id :: h.streams[j],
       gone := if id in h.streams then h.gone[id := h.streams[id]] else h.gone)
  }

  // A stream changes once more and is forgotten.
  function Retire(h: Half, id: Word, s: Stream): Half
    requires id in h.streams
  {
    Remove(Put(h, id, s), id)
  }

  function Put(h: Half, id: Word, s: Stream): Half
    requires id in h.streams
  {
    h.(streams := h.streams[id := h.streams[id].(s := s)])
  }

  function ResetFrame(id: Word): Frame {
    Frame(RESET, id, [])
  }

  function ResetStream(h: Half, id: Word): Half
    requires id in h.streams
  {
    if h.streams[id].s.closed then h else SendControl(Retire(h, id, Reset(h.streams[id].s)), ResetFrame(id))
  }

  // ---- Stream identifiers --------------------------------------------------

  // The identifier for the next stream, and what follows it; an identifier is
  // never used twice, and after the last one there are none.
  function Allocate(nextID: nat): (Option<Word>, nat) {
    if nextID == 0 || nextID > MAX_WORD then (None, nextID)
    else if nextID == MAX_WORD then (Some(nextID), 0)
    else (Some(nextID), nextID + 2)
  }

  // What n allocations hand out.
  function Allocated(nextID: nat, n: nat): seq<Word>
    decreases n
  {
    if n == 0 then []
    else
      var (id, next) := Allocate(nextID);
      (if id.Some? then [id.value] else []) + Allocated(next, n - 1)
  }

  lemma {:induction false} NoneAfterLast(n: nat)
    ensures Allocated(0, n) == []
  {
    if n > 0 { NoneAfterLast(n - 1); }
  }

  // Identifiers are odd, never repeat, and never wrap around.
  lemma {:induction false} IdsNeverRepeat(nextID: nat, n: nat)
    requires nextID % 2 == 1 && nextID <= MAX_WORD
    ensures var ids := Allocated(nextID, n);
            && |ids| == Min(n, (MAX_WORD - nextID) / 2 + 1)
            && forall i :: 0 <= i < |ids| ==> ids[i] == nextID + 2 * i
    decreases n
  {
    if n > 0 {
      if nextID == MAX_WORD {
        NoneAfterLast(n - 1);
      } else {
        IdsNeverRepeat(nextID + 2, n - 1);
      }
    }
  }

  function Open(h: Half, selector: seq<byte>): Half {
    if !h.client || h.down || |selector| > Services.MAX_SERVICE_NAME || |h.streams| >= h.maxStreams then h
    else
      match Allocate(h.nextID)
      case (None, _) => h
      case (Some(id), next) =>
        var h' := h.(nextID := next, lastID := id, streams := h.streams[id := Entry(New(), [], [], selector)]);
        SendControl(h', Frame(OPEN, id, selector))
  }

  function HandleOpen(h: Half, f: Frame): Half {
    if h.client || f.stream % 2 == 0 || f.stream in h.streams then Shutdown(h)
    else
      var h' := h.(lastID := Max(h.lastID, f.stream));
      if |h.streams| >= h.maxStreams then SendControl(h', Frame(OPEN_ERROR, f.stream, []))
      else if h.accepting >= h.maxStreams * ACCEPT_FACTOR then SendControl(h', Frame(OPEN_ERROR, f.stream, []))
      else h'.(streams := h.streams[f.stream := Entry(New(), [], [], f.payload)], accepting := h.accepting + 1)
  }

  // ---- Frames from the peer ------------------------------------------------

  function HandleFrame(h: Half, f: Frame): Half {
    if h.down then h
    else if f.kind == SERVICE_LIST then
      if !h.client || f.stream != 0 || Services.Decode(f.payload).Refused? then Shutdown(h) else h
    else if f.kind == OPEN then HandleOpen(h, f)
    else if f.stream !in h.streams then
      // Late frames of a retired stream are dropped without an answer.
      if (f.stream % 2 == 1 && f.stream <= h.lastID) || f.kind == RESET || f.kind == OPEN_ERROR then h
      else SendControl(h, ResetFrame(f.stream))
    else HandleStreamFrame(h, f)
  }

  function HandleStreamFrame(h: Half, f: Frame): Half
    requires f.stream in h.streams
  {
    var id, s := f.stream, h.streams[f.stream].s;
    if f.kind == OPEN_OK then if h.client then Put(h, id, MarkOpened(s, true)) else Shutdown(h)
    else if f.kind == OPEN_ERROR then Retire(h, id, MarkOpened(s, false))
    else if f.kind == DATA then
      var r := ReceiveData(s, f.payload); if r.Some? then Put(h, id, r.value) else ResetStream(h, id)
    else if f.kind == WINDOW_UPDATE then
      var r := UpdateSendWindow(s, WindowAmount(f)); if r.Some? then Put(h, id, r.value) else ResetStream(h, id)
    else if f.kind == FIN then Put(h, id, ReceiveFIN(s))
    else if f.kind == RESET then Retire(h, id, ReceiveReset(s))
    else Shutdown(h)
  }

  // ---- What the applications and the writer do -----------------------------

  datatype Op =
    | WriteOp(id: Word, p: seq<byte>)
    | ReadOp(id: Word, size: nat)
    | CloseWriteOp(id: Word)
    | CloseReadOp(id: Word)
    | CloseOp(id: Word)
    | ResetOp(id: Word)
    | ApproveOp(id: Word)
    | RejectOp(id: Word)
    | PickOp(id: Word)
    | FlushOp
    | OpenOp(selector: seq<byte>)
    | AcceptOp
    | FailOp

  function StreamOp(h: Half, op: Op): (Half, seq<Frame>)
    requires !op.FlushOp? && !op.OpenOp? && !op.AcceptOp? && !op.FailOp? && op.id in h.streams
  {
    var id, e := op.id, h.streams[op.id];
    match op
    case WriteOp(_, p) =>
      (h.(streams := h.streams[id := e.(s := Write(e.s, id, p), written := e.written + p[..Taken(e.s, |p|)])]), [])
    case ReadOp(_, size) =>
      var (s, got, update) := Read(e.s, size);
      var h' := h.(streams := h.streams[id := e.(s := s, read := e.read + got)]);
      (if 0 < update < 0x1_0000_0000 then SendControl(h', WindowUpdate(id, update)) else h', [])
    case CloseWriteOp(_) => (Put(h, id, CloseWrite(e.s, id)), [])
    case CloseReadOp(_) => (Put(h, id, CloseRead(e.s)), [])
    case CloseOp(_) =>
      var (s, ending) := Close(e.s);
      (match ending
       case Keep => Put(h, id, s)
       case Remove => Retire(h, id, s)
       case RemoveAndReset => SendControl(Retire(h, id, s), ResetFrame(id)), [])
    case ResetOp(_) => (ResetStream(h, id), [])
    case ApproveOp(_) =>
      (if e.s.closed || e.s.isOpen then h
       else SendControl(Put(h, id, e.s.(isOpen := true)), Frame(OPEN_OK, id, [])), [])
    case RejectOp(_) =>
      (if e.s.closed then h else SendControl(Retire(h, id, e.s.(closed := true)), Frame(OPEN_ERROR, id, [])), [])
    case PickOp(_) =>
      var (s, out) := NextOutbound(e.s);
      (if out.remove then Retire(h, id, s) else Put(h, id, s), if out.frame.Some? then [out.frame.value] else [])
  }

  // One step of a session, and the frames it puts on the wire.
  function Do(h: Half, op: Op): (Half, seq<Frame>) {
    if h.down then (h, [])
    else
      match op
      case FlushOp => if h.control == [] then (h, []) else (h.(control := h.control[1..]), [h.control[0]])
      case OpenOp(selector) => (Open(h, selector), [])
      case AcceptOp => (if h.accepting > 0 then h.(accepting := h.accepting - 1) else h, [])
      case FailOp => (Shutdown(h), [])
      case _ => if op.id !in h.streams then (h, []) else StreamOp(h, op)
  }

  // ---- The pair ------------------------------------------------------------

  datatype Pair = Pair(a: Half, b: Half, ab: seq<Frame>, ba: seq<Frame>)

  datatype Move = Act(onA: bool, op: Op) | Deliver(toA: bool)

  function StepPair(p: Pair, m: Move): Pair {
    match m
    case Act(true, op) => var (h, out) := Do(p.a, op); p.(a := h, ab := p.ab + out)
    case Act(false, op) => var (h, out) := Do(p.b, op); p.(b := h, ba := p.ba + out)
    case Deliver(true) => if p.ba == [] then p else p.(a := HandleFrame(p.a, p.ba[0]), ba := p.ba[1..])
    case Deliver(false) => if p.ab == [] then p else p.(b := HandleFrame(p.b, p.ab[0]), ab := p.ab[1..])
  }

  // ---- One stream of the pair ----------------------------------------------

  function Of(frames: seq<Frame>, id: Word): seq<Frame> {
    if frames == [] then []
    else (if frames[0].stream == id then [frames[0]] else []) + Of(frames[1..], id)
  }

  lemma {:induction false} OfAppend(x: seq<Frame>, y: seq<Frame>, id: Word)
    ensures Of(x + y, id) == Of(x, id) + Of(y, id)
  {
    if x == [] {
      assert x + y == y;
    } else {
      assert (x + y)[1..] == x[1..] + y;
      OfAppend(x[1..], y, id);
    }
  }

  lemma OfOne(x: seq<Frame>, f: Frame, id: Word)
    ensures Of(x + [f], id) == if f.stream == id then Of(x, id) + [f] else Of(x, id)
  {
    OfAppend(x, [f], id);
    assert [f][1..] == [];
    assert Of(x, id) + [] == Of(x, id);
  }

  predicate Known(h: Half, id: Word) {
    id in h.streams || id in h.gone
  }

  function EntryAt(h: Half, id: Word): Entry
    requires Known(h, id)
  {
    if id in h.streams then h.streams[id] else h.gone[id]
  }

  // Open, or closed gracefully and draining or drained.
  predicate Alive(h: Half, id: Word) {
    !h.down && Known(h, id) && GoodEnd(EntryAt(h, id).s, id !in h.streams)
  }

  function EndOf(h: Half, wire: seq<Frame>, id: Word): End
    requires Known(h, id)
  {
    var e := EntryAt(h, id);
    End(e.s, Of(h.control, id), Of(wire, id), e.written, e.read, id !in h.streams)
  }

  // What a session holds of a stream, known or not.
  datatype Part = Part(entry: Option<Entry>, live: bool, control: seq<Frame>, wire: seq<Frame>)

  function PartOf(h: Half, wire: seq<Frame>, id: Word): Part {
    Part(if Known(h, id) then Some(EntryAt(h, id)) else None, id in h.streams, Of(h.control, id), Of(wire, id))
  }

  lemma SamePartSameEnd(h: Half, wire: seq<Frame>, h': Half, wire': seq<Frame>, id: Word)
    requires PartOf(h, wire, id) == PartOf(h', wire', id)
    ensures Known(h, id) <==> Known(h', id)
    ensures Known(h, id) ==> EndOf(h, wire, id) == EndOf(h', wire', id)
  {}

  predicate BothAlive(p: Pair, id: Word) {
    Alive(p.a, id) && Alive(p.b, id)
  }

  function LaneOf(p: Pair, id: Word): Lane
    requires BothAlive(p, id)
  {
    Lane(id, EndOf(p.a, p.ab, id), EndOf(p.b, p.ba, id))
  }

  // Queued frames carry their own stream's identifier; identifiers are odd and no
  // later than the last one seen, and a client's next one is later still.
  predicate OwnFrames(h: Half) {
    forall id, f :: id in h.streams && f in h.streams[id].s.outbound ==> f.stream == id
  }

  predicate OwnIds(h: Half) {
    && (forall id :: id in h.streams ==> id % 2 == 1 && id <= h.lastID)
    && (forall id :: id in h.gone ==> id % 2 == 1 && id <= h.lastID)
    && (h.client && h.nextID != 0 ==> h.nextID % 2 == 1 && h.lastID < h.nextID <= MAX_WORD)
  }

  predicate Tidy(h: Half) {
    OwnFrames(h) && OwnIds(h)
  }

  lemma SendControlKeeps(h: Half, f: Frame, id: Word)
    ensures var h' := SendControl(h, f);
            !h'.down ==>
              && h'.streams == h.streams && h'.gone == h.gone
              && Of(h'.control, id) == if f.stream == id then Of(h.control, id) + [f] else Of(h.control, id)
  {
    OfOne(h.control, f, id);
  }

  // A step of one session is, for each stream alive before and after, a step of
  // that stream's lane or none at all.
  lemma DoProjects(h: Half, wire: seq<Frame>, op: Op, id: Word)
    requires Alive(h, id) && Alive(Do(h, op).0, id) && op != CloseReadOp(id) && Tidy(h)
    ensures var (h', out) := Do(h, op);
            var e, e' := EndOf(h, wire, id), EndOf(h', wire + out, id);
            e' == e || exists act :: e' == Local(e, id, act)
  {
    hide Of, Write, Read, CloseWrite, NextOutbound, Local, SendControl, GoodEnd;
    assert wire + [] == wire;
    if op.FlushOp? {
      FlushProjects(h, wire, id);
    } else if op != CloseReadOp(id) && (OnStream(op) ==> op.id != id) {
      ElsewhereProjects(h, wire, op, id);
      SamePartSameEnd(h, wire, Do(h, op).0, wire + Do(h, op).1, id);
    } else if op.id in h.streams {
      OwnProjects(h, wire, op, id);
    }
  }

  // An operation on one stream.
  predicate OnStream(op: Op) {
    !op.FlushOp? && !op.OpenOp? && !op.AcceptOp? && !op.FailOp?
  }

  // An operation that is not about the stream does not show in it.
  lemma ElsewhereProjects(h: Half, wire: seq<Frame>, op: Op, id: Word)
    requires Tidy(h) && !op.FlushOp? && (OnStream(op) ==> op.id != id) && !Do(h, op).0.down
    requires op.OpenOp? ==> Known(h, id) || h.nextID != id
    ensures var (h', out) := Do(h, op); PartOf(h', wire + out, id) == PartOf(h, wire, id)
  {
    hide Of, Write, Read, CloseWrite, NextOutbound, SendControl;
    assert wire + [] == wire;
    if op.OpenOp? {
      OpenProjects(h, wire, op.selector, id);
    } else if OnStream(op) && op.id in h.streams {
      OtherProjects(h, wire, op, id);
    }
  }

  lemma FlushProjects(h: Half, wire: seq<Frame>, id: Word)
    requires Alive(h, id)
    ensures var (h', out) := Do(h, FlushOp);
            var e, e' := EndOf(h, wire, id), EndOf(h', wire + out, id);
            e' == e || e' == Local(e, id, Flush)
  {
    hide Of;
    assert wire + [] == wire;
    if h.control != [] {
      OfOne(wire, h.control[0], id);
      OfHead(h.control, id);
    }
  }

  lemma OfHead(x: seq<Frame>, id: Word)
    requires x != []
    ensures Of(x, id) == if x[0].stream == id then [x[0]] + Of(x[1..], id) else Of(x[1..], id)
  {
    assert [] + Of(x[1..], id) == Of(x[1..], id);
  }

  lemma OpenProjects(h: Half, wire: seq<Frame>, selector: seq<byte>, id: Word)
    requires OwnIds(h) && !Open(h, selector).down && (Known(h, id) || h.nextID != id)
    ensures PartOf(Open(h, selector), wire, id) == PartOf(h, wire, id)
  {
    hide Of;
    if h.client && !h.down && |selector| <= Services.MAX_SERVICE_NAME && |h.streams| < h.maxStreams && Allocate(h.nextID).0.Some? {
      var (opt, next) := Allocate(h.nextID);
      var added := opt.value;
      var h' := h.(nextID := next, lastID := added, streams := h.streams[added := Entry(New(), [], [], selector)]);
      SendControlKeeps(h', Frame(OPEN, added, selector), id);
    }
  }

  // An operation on another stream does not show.
  lemma OtherProjects(h: Half, wire: seq<Frame>, op: Op, id: Word)
    requires !op.FlushOp? && !op.OpenOp? && !op.AcceptOp? && !op.FailOp?
    requires op.id in h.streams && op.id != id && OwnFrames(h) && !StreamOp(h, op).0.down
    ensures var (h', out) := StreamOp(h, op); PartOf(h', wire + out, id) == PartOf(h, wire, id)
  {
    hide Of, Write, Read, CloseWrite, Close, SendControl;
    assert wire + [] == wire;
    var j, e := op.id, h.streams[op.id];
    match op
    case ReadOp(_, size) =>
      var (s, got, update) := Read(e.s, size);
      var h' := h.(streams := h.streams[j := e.(s := s, read := e.read + got)]);
      if 0 < update < 0x1_0000_0000 { SendControlKeeps(h', WindowUpdate(j, update), id); }
    case CloseOp(_) => SendControlKeeps(Retire(h, j, Close(e.s).0), ResetFrame(j), id);
    case ResetOp(_) => SendControlKeeps(Retire(h, j, Reset(e.s)), ResetFrame(j), id);
    case ApproveOp(_) => SendControlKeeps(Put(h, j, e.s.(isOpen := true)), Frame(OPEN_OK, j, []), id);
    case RejectOp(_) => SendControlKeeps(Retire(h, j, e.s.(closed := true)), Frame(OPEN_ERROR, j, []), id);
    case PickOp(_) => if e.s.outbound != [] { OfOne(wire, e.s.outbound[0], id); }
    case _ =>
  }

  lemma OwnProjects(h: Half, wire: seq<Frame>, op: Op, id: Word)
    requires Alive(h, id) && !op.FlushOp? && !op.OpenOp? && !op.AcceptOp? && !op.FailOp? && !op.CloseReadOp?
    requires op.id == id && id in h.streams && OwnFrames(h) && Alive(StreamOp(h, op).0, id)
    ensures var (h', out) := StreamOp(h, op);
            var e, e' := EndOf(h, wire, id), EndOf(h', wire + out, id);
            e' == e || exists act :: e' == Local(e, id, act)
  {
    hide Of, Write, Read, CloseWrite, SendControl;
    assert wire + [] == wire;
    var e := EndOf(h, wire, id);
    match op
    case WriteOp(_, p) => assert EndOf(StreamOp(h, op).0, wire, id) == Local(e, id, DoWrite(p));
    case ReadOp(_, size) =>
      var (s, got, update) := Read(e.s, size);
      var h' := h.(streams := h.streams[id := h.streams[id].(s := s, read := e.read + got)]);
      if 0 < update < 0x1_0000_0000 { SendControlKeeps(h', WindowUpdate(id, update), id); }
      assert EndOf(StreamOp(h, op).0, wire, id) == Local(e, id, DoRead(size));
    case CloseWriteOp(_) => assert EndOf(StreamOp(h, op).0, wire, id) == Local(e, id, DoCloseWrite);
    case PickOp(_) =>
      if e.s.outbound != [] { OfOne(wire, e.s.outbound[0], id); }
      assert EndOf(StreamOp(h, op).0, wire + StreamOp(h, op).1, id) == Local(e, id, Pick);
    case CloseOp(_) =>
      SendControlKeeps(Retire(h, id, Close(e.s).0), ResetFrame(id), id);
      assert EndOf(StreamOp(h, op).0, wire, id) == Local(e, id, DoClose);
    case ResetOp(_) => SendControlKeeps(Retire(h, id, Reset(e.s)), ResetFrame(id), id);
    case RejectOp(_) => SendControlKeeps(Retire(h, id, e.s.(closed := true)), Frame(OPEN_ERROR, id, []), id);
    case ApproveOp(_) =>
  }

  // Handling a frame touches its own stream only, as the lane says.
  lemma HandleProjects(h: Half, f: Frame, wire: seq<Frame>, id: Word)
    requires Alive(h, id) && Alive(HandleFrame(h, f), id) && OwnIds(h)
    requires f.kind == OPEN ==> f.stream != id
    ensures EndOf(HandleFrame(h, f), wire, id)
            == if f.stream == id then HandleEnd(EndOf(h, wire, id), f) else EndOf(h, wire, id)
  {
    hide Of, SendControl, ReceiveData, UpdateSendWindow;
    if f.stream != id {
      HandleElsewhere(h, f, wire, id);
      SamePartSameEnd(h, wire, HandleFrame(h, f), wire, id);
    } else if f.stream in h.streams && f.kind != SERVICE_LIST {
      HandleOwn(h, f, wire, id);
    }
  }

  // A frame of another stream does not show.
  lemma HandleElsewhere(h: Half, f: Frame, wire: seq<Frame>, id: Word)
    requires f.stream != id && !HandleFrame(h, f).down
    ensures PartOf(HandleFrame(h, f), wire, id) == PartOf(h, wire, id)
  {
    hide Of, SendControl;
    if f.kind == OPEN {
      SendControlKeeps(h.(lastID := Max(h.lastID, f.stream)), Frame(OPEN_ERROR, f.stream, []), id);
    } else if f.stream !in h.streams {
      SendControlKeeps(h, ResetFrame(f.stream), id);
    } else if f.kind != SERVICE_LIST && !h.down {
      HandleOther(h, f, wire, id);
    }
  }

  lemma HandleOwn(h: Half, f: Frame, wire: seq<Frame>, id: Word)
    requires Alive(h, id) && f.stream == id && id in h.streams && Alive(HandleStreamFrame(h, f), id)
    ensures EndOf(HandleStreamFrame(h, f), wire, id) == HandleEnd(EndOf(h, wire, id), f)
  {
    hide Of, SendControl, ReceiveData, UpdateSendWindow;
    SendControlKeeps(Retire(h, id, Reset(h.streams[id].s)), ResetFrame(id), id);
  }

  // What becomes of the session: the stream changes as its lane says, and stays or
  // goes.
  lemma HandleShape(h: Half, f: Frame)
    requires f.stream in h.streams
    ensures var s, h' := MuxCredit.HandleFrame(h.streams[f.stream].s, f), HandleStreamFrame(h, f);
            || h' == h || h' == Shutdown(h) || h' == Put(h, f.stream, s) || h' == Retire(h, f.stream, s)
            || h' == SendControl(Retire(h, f.stream, s), ResetFrame(f.stream))
  {
    hide SendControl, ReceiveData, UpdateSendWindow, MarkOpened, Reset, ReceiveFIN, ReceiveReset, Put, Retire, Shutdown;
  }

  lemma HandleOther(h: Half, f: Frame, wire: seq<Frame>, id: Word)
    requires f.stream != id && f.stream in h.streams && !HandleStreamFrame(h, f).down
    ensures PartOf(HandleStreamFrame(h, f), wire, id) == PartOf(h, wire, id)
  {
    hide Of, SendControl, MuxCredit.HandleFrame, Put, Retire, HandleStreamFrame;
    var j, s := f.stream, MuxCredit.HandleFrame(h.streams[f.stream].s, f);
    HandleShape(h, f);
    OtherStays(h, j, s, wire, id);
    SendControlKeeps(Retire(h, j, s), ResetFrame(j), id);
  }

  // Changing or forgetting one stream leaves another as it was.
  lemma OtherStays(h: Half, j: Word, s: Stream, wire: seq<Frame>, id: Word)
    requires j in h.streams && j != id
    ensures PartOf(Put(h, j, s), wire, id) == PartOf(h, wire, id) == PartOf(Retire(h, j, s), wire, id)
  {}

  predicate NoOpen(frames: seq<Frame>) {
    forall f :: f in frames ==> f.kind != OPEN
  }

  // Stream isolation: for a stream alive at both ends before and after, every step
  // of the pair is a step of its own lane or leaves the lane untouched, whatever
  // the step did to other streams.
  lemma StreamsAreIsolated(p: Pair, m: Move, id: Word)
    requires BothAlive(p, id) && BothAlive(StepPair(p, m), id) && Tidy(p.a) && Tidy(p.b)
    requires NoOpen(Of(p.ab, id)) && NoOpen(Of(p.ba, id))
    requires m.Act? ==> m.op != CloseReadOp(id)
    ensures var l, l' := LaneOf(p, id), LaneOf(StepPair(p, m), id);
            l' == l || exists onA, act :: l' == Step(l, onA, act)
  {
    hide Of, Do, HandleFrame, HandleEnd, Local, GoodEnd;
    var l, l' := LaneOf(p, id), LaneOf(StepPair(p, m), id);
    match m
    case Act(true, op) =>
      DoProjects(p.a, p.ab, op, id);
      if l'.a != l.a {
        var act :| l'.a == Local(l.a, id, act);
        LocalIsNotReceive(l.a, id, act);
        assert l' == Step(l, true, act);
      }
    case Act(false, op) =>
      DoProjects(p.b, p.ba, op, id);
      if l'.b != l.b {
        var act :| l'.b == Local(l.b, id, act);
        LocalIsNotReceive(l.b, id, act);
        assert l' == Step(l, false, act);
      }
    case Deliver(true) =>
      if p.ba != [] {
        OfHead(p.ba, id);
        HandleProjects(p.a, p.ba[0], p.ab, id);
        if p.ba[0].stream == id { assert l' == Step(l, true, Receive); }
      }
    case Deliver(false) =>
      if p.ab != [] {
        OfHead(p.ab, id);
        HandleProjects(p.b, p.ab[0], p.ba, id);
        if p.ab[0].stream == id { assert l' == Step(l, false, Receive); }
      }
  }

  lemma LocalIsNotReceive(x: End, id: Word, act: MuxCredit.Act)
    ensures act.Receive? ==> Local(x, id, act) == x
  {}

  // Hence a healthy lane stays healthy: no other stream, and no error of an
  // honest peer, can spoil credit, order or half-close of a live stream.
  lemma OpenStreamsStayHealthy(p: Pair, m: Move, id: Word)
    requires BothAlive(p, id) && BothAlive(StepPair(p, m), id) && Tidy(p.a) && Tidy(p.b)
    requires m.Act? ==> m.op != CloseReadOp(id)
    requires LaneOk(LaneOf(p, id))
    ensures LaneOk(LaneOf(StepPair(p, m), id))
  {
    hide LaneOk, StepPair, Step;
    LaneHasNoOpen(LaneOf(p, id));
    StreamsAreIsolated(p, m, id);
    var l, l' := LaneOf(p, id), LaneOf(StepPair(p, m), id);
    if l' != l {
      var onA, act :| l' == Step(l, onA, act);
      StepKeepsLane(l, onA, act);
    }
  }

  lemma LaneHasNoOpen(l: Lane)
    requires LaneOk(l)
    ensures NoOpen(l.a.wire) && NoOpen(l.b.wire)
  {}

  // ---- Over runs -----------------------------------------------------------

  lemma DoKeepsTidy(h: Half, op: Op)
    requires Tidy(h)
    ensures Tidy(Do(h, op).0)
  {
    hide Chunks, SendControl;
    SendKeepsTidy();
    if !h.down && op.OpenOp? {
      OpenKeepsTidy(h, op.selector);
    } else if !h.down && !op.FlushOp? && !op.AcceptOp? && !op.FailOp? && op.id in h.streams {
      StreamOpTidy(h, op);
    } else if h.down || !op.OpenOp? {
      OthersKeepTidy(h, op);
    }
  }

  lemma OthersKeepTidy(h: Half, op: Op)
    requires Tidy(h) && (h.down || op.FlushOp? || op.AcceptOp? || op.FailOp? || (!op.OpenOp? && op.id !in h.streams))
    ensures Tidy(Do(h, op).0)
  {}

  lemma SendKeepsTidy()
    ensures forall h, f :: Tidy(h) ==> Tidy(SendControl(h, f))
  {}

  lemma OpenKeepsTidy(h: Half, selector: seq<byte>)
    requires Tidy(h)
    ensures Tidy(Open(h, selector))
  {
    hide SendControl;
    SendKeepsTidy();
  }

  lemma PutTidy(h: Half, id: Word, e: Entry)
    requires Tidy(h) && id in h.streams && forall f :: f in e.s.outbound ==> f.stream == id
    ensures Tidy(h.(streams := h.streams[id := e]))
  {}

  lemma RemoveTidy(h: Half, id: Word)
    requires Tidy(h)
    ensures Tidy(Remove(h, id))
  {}

  lemma StreamOpTidy(h: Half, op: Op)
    requires Tidy(h) && !op.FlushOp? && !op.OpenOp? && !op.AcceptOp? && !op.FailOp? && op.id in h.streams
    ensures Tidy(StreamOp(h, op).0)
  {
    hide Chunks, SendControl, Close, Read, Write, Tidy, Remove;
    SendKeepsTidy();
    var id, e := op.id, h.streams[op.id];
    assert forall f :: f in e.s.outbound ==> f.stream == id by { OwnQueue(h, id); }
    match op
    case WriteOp(_, p) =>
      WriteOutbound(h, id, p);
      PutTidy(h, id, e.(s := Write(e.s, id, p), written := e.written + p[..Taken(e.s, |p|)]));
    case ReadOp(_, size) =>
      ReadOutbound(e.s, size);
      PutTidy(h, id, e.(s := Read(e.s, size).0, read := e.read + Read(e.s, size).1));
    case CloseWriteOp(_) => PutTidy(h, id, e.(s := CloseWrite(e.s, id)));
    case CloseReadOp(_) => PutTidy(h, id, e.(s := CloseRead(e.s)));
    case CloseOp(_) => CloseOutbound(e.s); RetireTidy(h, id, Close(e.s).0);
    case ResetOp(_) => RetireTidy(h, id, Reset(e.s));
    case ApproveOp(_) => PutTidy(h, id, e.(s := e.s.(isOpen := true)));
    case RejectOp(_) => RetireTidy(h, id, e.s.(closed := true));
    case PickOp(_) => RetireTidy(h, id, NextOutbound(e.s).0);
  }

  lemma OwnQueue(h: Half, id: Word)
    requires Tidy(h) && id in h.streams
    ensures forall f :: f in h.streams[id].s.outbound ==> f.stream == id
  {}

  lemma RetireTidy(h: Half, id: Word, s: Stream)
    requires Tidy(h) && id in h.streams && forall f :: f in s.outbound ==> f.stream == id
    ensures Tidy(Put(h, id, s)) && Tidy(Retire(h, id, s))
  {
    hide Tidy, Remove;
    PutTidy(h, id, h.streams[id].(s := s));
    RemoveTidy(Put(h, id, s), id);
  }

  lemma WriteOutbound(h: Half, id: Word, p: seq<byte>)
    requires Tidy(h) && id in h.streams
    ensures forall f :: f in Write(h.streams[id].s, id, p).outbound ==> f.stream == id
  {
    hide Chunks;
    ChunksCarry(id, p[..Taken(h.streams[id].s, |p|)]);
  }

  lemma ReadOutbound(s: Stream, size: nat)
    ensures Read(s, size).0.outbound == s.outbound
  {}

  lemma CloseOutbound(s: Stream)
    ensures Close(s).0.outbound == s.outbound
  {}

  lemma HandleKeepsTidy(h: Half, f: Frame)
    requires Tidy(h)
    ensures Tidy(HandleFrame(h, f))
  {
    hide SendControl, Tidy, Remove, Retire;
    SendKeepsTidy();
    if f.kind == OPEN {
      HandleOpenTidy(h, f);
    } else if f.stream in h.streams {
      var id, s := f.stream, h.streams[f.stream].s;
      OwnQueue(h, id);
      ShutdownTidy(h);
      RetireTidy(h, id, MarkOpened(s, true));
      RetireTidy(h, id, MarkOpened(s, false));
      RetireTidy(h, id, Reset(s));
      RetireTidy(h, id, ReceiveReset(s));
      RetireTidy(h, id, ReceiveFIN(s));
      if ReceiveData(s, f.payload).Some? { RetireTidy(h, id, ReceiveData(s, f.payload).value); }
      if UpdateSendWindow(s, WindowAmount(f)).Some? { RetireTidy(h, id, UpdateSendWindow(s, WindowAmount(f)).value); }
    } else {
      ShutdownTidy(h);
    }
    ShutdownTidy(h);
  }

  lemma ShutdownTidy(h: Half)
    requires Tidy(h)
    ensures Tidy(Shutdown(h))
  {}

  lemma HandleOpenTidy(h: Half, f: Frame)
    requires Tidy(h)
    ensures Tidy(HandleOpen(h, f))
  {
    hide SendControl;
    SendKeepsTidy();
  }

  function RunPair(p: Pair, moves: seq<Move>): Pair
    decreases |moves|
  {
    if moves == [] then p else RunPair(StepPair(p, moves[0]), moves[1..])
  }

  // The stream is alive at both ends at every point of the run: neither session
  // fails, nobody resets it, a close comes when both directions have ended, and
  // neither application abandons unread bytes.
  predicate AliveThroughout(p: Pair, moves: seq<Move>, id: Word)
    decreases |moves|
  {
    && BothAlive(p, id)
    && (moves != [] ==>
          (moves[0].Act? ==> moves[0].op != CloseReadOp(id)) && AliveThroughout(StepPair(p, moves[0]), moves[1..], id))
  }

  // What each reader has got: a prefix of what the peer wrote, and at the end of
  // the stream exactly what was written before the write side closed.
  predicate Exact(p: Pair, id: Word)
    requires Known(p.a, id) && Known(p.b, id)
  {
    var a, b := EntryAt(p.a, id), EntryAt(p.b, id);
    && b.read <= a.written && a.read <= b.written
    && (b.s.remoteWriteClosed && b.s.inbound == [] ==> a.s.localWriteClosed && b.read == a.written)
    && (a.s.remoteWriteClosed && a.s.inbound == [] ==> b.s.localWriteClosed && a.read == b.written)
  }

  // Over every run of the two sessions in which the stream stays alive, among any
  // traffic, and through a graceful close of either end.
  lemma {:induction false} OpenStreamOverRuns(p: Pair, moves: seq<Move>, id: Word)
    requires AliveThroughout(p, moves, id) && Tidy(p.a) && Tidy(p.b) && LaneOk(LaneOf(p, id))
    ensures var q := RunPair(p, moves); BothAlive(q, id) && LaneOk(LaneOf(q, id)) && Exact(q, id)
    decreases |moves|
  {
    hide LaneOk, StepPair, Of, Tidy, GoodEnd;
    if moves == [] {
      var l := LaneOf(p, id);
      LaneDirections(l);
      EndIsExact(l.a, l.b);
      EndIsExact(l.b, l.a);
    } else {
      OpenStreamsStayHealthy(p, moves[0], id);
      StepKeepsTidy(p, moves[0]);
      OpenStreamOverRuns(StepPair(p, moves[0]), moves[1..], id);
    }
  }

  lemma StepKeepsTidy(p: Pair, m: Move)
    requires Tidy(p.a) && Tidy(p.b)
    ensures Tidy(StepPair(p, m).a) && Tidy(StepPair(p, m).b)
  {
    hide Tidy, Do, HandleFrame;
    match m
    case Act(true, op) => DoKeepsTidy(p.a, op);
    case Act(false, op) => DoKeepsTidy(p.b, op);
    case Deliver(true) => if p.ba != [] { HandleKeepsTidy(p.a, p.ba[0]); }
    case Deliver(false) => if p.ab != [] { HandleKeepsTidy(p.b, p.ab[0]); }
  }

  lemma {:induction false} RunKeepsTidy(p: Pair, moves: seq<Move>)
    requires Tidy(p.a) && Tidy(p.b)
    ensures Tidy(RunPair(p, moves).a) && Tidy(RunPair(p, moves).b)
    decreases |moves|
  {
    hide Tidy, StepPair;
    if moves != [] {
      StepKeepsTidy(p, moves[0]);
      RunKeepsTidy(StepPair(p, moves[0]), moves[1..]);
    }
  }

  // Two sessions as they are created.
  function NewHalf(client: bool, maxStreams: nat): Half {
    Half(client, maxStreams, map[], map[], if client then 1 else 2, 0, [], 0, false)
  }

  // A server may announce its services before anything else.
  function NewServer(maxStreams: nat, services: Option<seq<Services.Service>>): Half {
    NewHalf(false, maxStreams).(control := if services.Some? then [ServiceList(services.value)] else [])
  }

  function ServiceList(services: seq<Services.Service>): Frame {
    Frame(SERVICE_LIST, 0, Services.Encode(services))
  }

  function NewPair(clientMax: nat, serverMax: nat, services: Option<seq<Services.Service>>): Pair {
    Pair(NewHalf(true, clientMax), NewServer(serverMax, services), [], [])
  }

  lemma NewTidy(clientMax: nat, serverMax: nat, services: Option<seq<Services.Service>>)
    ensures var p := NewPair(clientMax, serverMax, services); Tidy(p.a) && Tidy(p.b)
  {}
}
