// Both ends of one open stream over the reliable link, up to and through a graceful
// close: credit is conserved, bytes arrive in order up to the end of the stream, and
// a blocked writer can always be unblocked.
module MuxCredit {
  import opened Bytes
  import opened Frames
  import opened MuxStream

  // One end of a stream: its state, its frames in the session's control queue,
  // its frames sent and not yet handled, all bytes written and read, and whether
  // the session has forgotten the stream.
  datatype End = End(s: Stream, control: seq<Frame>, wire: seq<Frame>, written: seq<byte>, read: seq<byte>, gone: bool)

  datatype Lane = Lane(id: Word, a: End, b: End)

  datatype Act =
    | DoWrite(p: seq<byte>)
    | DoRead(size: nat)
    | DoCloseWrite
    | DoClose
    | Pick
    | Flush
    | Receive

  // ---- Steps ---------------------------------------------------------------

  function ReadEnd(x: End, id: Word, size: nat): End {
    var (s, got, update) := Read(x.s, size);
    x.(s := s, read := x.read + got,
       control := if 0 < update < 0x1_0000_0000 then x.control + [WindowUpdate(id, update)] else x.control)
  }

  // Closing is graceful when both directions have ended. A stream forgotten leaves
  // only frames that are already on their way.
  function Local(x: End, id: Word, act: Act): End {
    if x.gone && !act.Flush? then x else
    match act
    case DoWrite(p) => x.(s := Write(x.s, id, p), written := x.written + p[..Taken(x.s, |p|)])
    case DoRead(size) => ReadEnd(x, id, size)
    case DoCloseWrite => x.(s := CloseWrite(x.s, id))
    case DoClose =>
      if x.s.closed || !x.s.localWriteClosed || !x.s.remoteWriteClosed then x
      else x.(s := Close(x.s).0, gone := x.s.outbound == [])
    case Pick =>
      var (s, out) := NextOutbound(x.s);
      x.(s := s, wire := if out.frame.Some? then x.wire + [out.frame.value] else x.wire, gone := out.remove)
    case Flush => if x.control == [] then x else x.(control := x.control[1..], wire := x.wire + [x.control[0]])
    case Receive => x
  }

  // A frame of an existing stream; an error resets the stream.
  function HandleFrame(s: Stream, f: Frame): Stream {
    if f.kind == OPEN_OK then MarkOpened(s, true)
    else if f.kind == DATA then
      var r := ReceiveData(s, f.payload); if r.Some? then r.value else Reset(s)
    else if f.kind == WINDOW_UPDATE then
      var r := UpdateSendWindow(s, WindowAmount(f)); if r.Some? then r.value else Reset(s)
    else if f.kind == FIN then ReceiveFIN(s)
    else if f.kind == RESET then ReceiveReset(s)
    else if f.kind == OPEN_ERROR then MarkOpened(s, false)
    else s
  }

  // Late frames of a stream forgotten are dropped.
  function HandleEnd(x: End, f: Frame): End {
    if x.gone then x else x.(s := HandleFrame(x.s, f))
  }

  function Step(l: Lane, onA: bool, act: Act): Lane {
    if onA then
      if act.Receive? then
        if l.b.wire == [] then l
        else l.(a := HandleEnd(l.a, l.b.wire[0]), b := l.b.(wire := l.b.wire[1..]))
      else l.(a := Local(l.a, l.id, act))
    else
      if act.Receive? then
        if l.a.wire == [] then l
        else l.(b := HandleEnd(l.b, l.a.wire[0]), a := l.a.(wire := l.a.wire[1..]))
      else l.(b := Local(l.b, l.id, act))
  }

  function Run(l: Lane, acts: seq<(bool, Act)>): Lane
    decreases |acts|
  {
    if acts == [] then l else Run(Step(l, acts[0].0, acts[0].1), acts[1..])
  }

  // ---- Measures ------------------------------------------------------------

  function Credits(frames: seq<Frame>): nat {
    if frames == [] then 0 else WindowAmount(frames[0]) + Credits(frames[1..])
  }

  lemma {:induction false} CreditsAppend(a: seq<Frame>, b: seq<Frame>)
    ensures Credits(a + b) == Credits(a) + Credits(b)
  {
    if a == [] {
      assert a + b == b;
    } else {
      assert (a + b)[1..] == a[1..] + b;
      CreditsAppend(a[1..], b);
    }
  }

  // The DATA and FIN frames, in order.
  function Stuff(frames: seq<Frame>): seq<Frame> {
    if frames == [] then []
    else (if frames[0].kind == DATA || frames[0].kind == FIN then [frames[0]] else []) + Stuff(frames[1..])
  }

  lemma {:induction false} StuffAppend(a: seq<Frame>, b: seq<Frame>)
    ensures Stuff(a + b) == Stuff(a) + Stuff(b)
  {
    if a == [] {
      assert a + b == b;
    } else {
      assert (a + b)[1..] == a[1..] + b;
      StuffAppend(a[1..], b);
    }
  }

  lemma One(f: Frame)
    ensures Payloads([f]) == (if f.kind == DATA then f.payload else [])
    ensures Credits([f]) == WindowAmount(f)
    ensures Stuff([f]) == if f.kind == DATA || f.kind == FIN then [f] else []
  {
    assert [f][1..] == [];
  }

  // ---- The invariant of one direction --------------------------------------

  predicate Plain(f: Frame) {
    f.kind == DATA || f.kind == FIN || (f.kind == WINDOW_UPDATE && WindowAmount(f) > 0)
  }

  // Open, or closed gracefully: then both directions have ended, and the session
  // forgets the stream exactly when its queue is empty.
  predicate GoodEnd(s: Stream, gone: bool) {
    && s.isOpen && (s.closed <==> s.closeAfterDrain)
    && (s.closed ==> s.localWriteClosed && s.remoteWriteClosed)
    && (gone <==> s.closed && s.outbound == [])
  }

  predicate Usable(x: End) {
    && GoodEnd(x.s, x.gone)
    && (forall f :: f in x.wire ==> Plain(f))
    && (forall f :: f in x.control ==> f.kind == WINDOW_UPDATE && WindowAmount(f) > 0)
    && (forall f :: f in x.s.outbound ==> f.kind == DATA || f.kind == FIN)
  }

  // Where the credit of one direction is: the writer's to use, in a DATA frame
  // queued or on the wire, unread, read but not yet announced, or in an update on
  // its way.
  function CreditOf(x: End, y: End): nat {
    x.s.sendWindow + |Payloads(x.s.outbound)| + |Payloads(x.wire)| + |y.s.inbound| + y.s.pendingWindowUpdate
    + Credits(y.control) + Credits(y.wire)
  }

  // All of it is there; only updates to a stream forgotten are lost.
  predicate CreditConserved(x: End, y: End) {
    && CreditOf(x, y) <= INITIAL_WINDOW
    && (!x.gone ==> CreditOf(x, y) == INITIAL_WINDOW)
    && y.s.receiveWindow + |y.s.inbound| == INITIAL_WINDOW
    && y.s.pendingWindowUpdate < WINDOW_UPDATE_THRESHOLD
  }

  predicate InOrder(x: End, y: End) {
    y.read + y.s.inbound + Payloads(x.wire) + Payloads(x.s.outbound) == x.written
  }

  // Only the last frame may be a FIN.
  predicate FinLast(q: seq<Frame>) {
    forall i :: 0 <= i < |q| - 1 ==> q[i].kind == DATA
  }

  predicate HasFin(q: seq<Frame>) {
    q != [] && q[|q| - 1].kind == FIN
  }

  predicate HalfClose(x: End, y: End) {
    var q := Stuff(x.wire) + x.s.outbound;
    && FinLast(q)
    && (x.s.localWriteClosed <==> HasFin(q) || y.s.remoteWriteClosed)
    && (y.s.remoteWriteClosed ==> q == [])
  }

  predicate Direction(x: End, y: End) {
    CreditConserved(x, y) && InOrder(x, y) && HalfClose(x, y)
  }

  predicate LaneOk(l: Lane) {
    Usable(l.a) && Usable(l.b) && Direction(l.a, l.b) && Direction(l.b, l.a)
  }

  function Opened(): End {
    End(New().(isOpen := true), [], [], [], [], false)
  }

  lemma OpenedLaneOk(id: Word)
    ensures LaneOk(Lane(id, Opened(), Opened()))
  {}

  // ---- One step of an end, seen from both directions -----------------------

  lemma Regroup<T>(h: seq<T>, c: seq<T>, f: seq<T>, r: seq<T>)
    ensures h + c + (f + r) == h + (c + f) + r == (h + c + f) + r
  {}

  predicate Kinds(q: seq<Frame>) {
    forall i :: 0 <= i < |q| ==> q[i].kind == DATA || q[i].kind == FIN
  }

  lemma {:induction false} StuffKinds(frames: seq<Frame>)
    ensures Kinds(Stuff(frames))
  {
    if frames != [] {
      StuffKinds(frames[1..]);
    }
  }

  lemma AppendData(q: seq<Frame>, frames: seq<Frame>)
    requires Kinds(q) && FinLast(q) && !HasFin(q) && forall f :: f in frames ==> f.kind == DATA
    ensures FinLast(q + frames) && !HasFin(q + frames)
  {}

  lemma AppendFin(q: seq<Frame>, fin: Frame)
    requires Kinds(q) && FinLast(q) && !HasFin(q) && fin.kind == FIN
    ensures FinLast(q + [fin]) && HasFin(q + [fin])
  {}

  lemma WriteKeeps(x: End, y: End, id: Word, p: seq<byte>)
    requires Usable(x) && Direction(x, y)
    ensures Usable(Local(x, id, DoWrite(p))) && Direction(Local(x, id, DoWrite(p)), y)
  {
    hide Chunks, Stuff, Payloads, Credits, FinLast, HasFin, Kinds;
    var taken := p[..Taken(x.s, |p|)];
    var frames := Chunks(id, taken);
    ChunksCarry(id, taken);
    if frames == [] {
      assert x.written + [] == x.written;
    } else {
      PayloadsAppend(x.s.outbound, frames);
      Regroup(y.read + y.s.inbound, Payloads(x.wire), Payloads(x.s.outbound), taken);
      QueueKinds(x);
      AppendData(Stuff(x.wire) + x.s.outbound, frames);
      assert Stuff(x.wire) + (x.s.outbound + frames) == (Stuff(x.wire) + x.s.outbound) + frames;
    }
  }

  lemma QueueKinds(x: End)
    requires Usable(x)
    ensures Kinds(Stuff(x.wire) + x.s.outbound)
  {
    StuffKinds(x.wire);
  }

  lemma CloseWriteKeeps(x: End, y: End, id: Word)
    requires Usable(x) && Direction(x, y)
    ensures Usable(Local(x, id, DoCloseWrite)) && Direction(Local(x, id, DoCloseWrite), y)
  {
    hide Stuff, Payloads, Credits, FinLast, HasFin, Kinds;
    if !x.s.localWriteClosed {
      var fin := Frame(FIN, id, []);
      One(fin);
      PayloadsAppend(x.s.outbound, [fin]);
      assert Payloads(x.s.outbound) + [] == Payloads(x.s.outbound);
      QueueKinds(x);
      AppendFin(Stuff(x.wire) + x.s.outbound, fin);
      assert Stuff(x.wire) + (x.s.outbound + [fin]) == (Stuff(x.wire) + x.s.outbound) + [fin];
    }
  }

  lemma PickKeeps(x: End, y: End, id: Word)
    requires Usable(x) && Direction(x, y)
    ensures Usable(Local(x, id, Pick)) && Direction(Local(x, id, Pick), y)
    ensures Credits(Local(x, id, Pick).wire) == Credits(x.wire)
  {
    hide Stuff, Payloads, Credits, FinLast, HasFin, WindowAmount;
    if x.s.outbound != [] {
      var f := x.s.outbound[0];
      var rest := x.s.outbound[1..];
      assert x.s.outbound == [f] + rest && f in x.s.outbound;
      PickMeasures(x.wire, f, rest);
      Regroup(y.read + y.s.inbound, Payloads(x.wire), Payloads([f]), Payloads(rest));
      Regroup([], Stuff(x.wire), [f], rest);
      assert [] + Stuff(x.wire) == Stuff(x.wire);
    }
  }

  lemma PickMeasures(wire: seq<Frame>, f: Frame, rest: seq<Frame>)
    requires f.kind == DATA || f.kind == FIN
    ensures Payloads([f] + rest) == Payloads([f]) + Payloads(rest)
    ensures Payloads(wire + [f]) == Payloads(wire) + Payloads([f])
    ensures Stuff(wire + [f]) == Stuff(wire) + [f]
    ensures Credits(wire + [f]) == Credits(wire)
  {
    hide Stuff, Payloads, Credits;
    One(f);
    PayloadsAppend([f], rest);
    PayloadsAppend(wire, [f]);
    StuffAppend(wire, [f]);
    CreditsAppend(wire, [f]);
  }

  lemma FlushKeeps(x: End, y: End, id: Word)
    requires Usable(x) && Direction(x, y)
    ensures Usable(Local(x, id, Flush)) && Direction(Local(x, id, Flush), y)
    ensures var x' := Local(x, id, Flush); Credits(x'.wire) + Credits(x'.control) == Credits(x.wire) + Credits(x.control)
  {
    hide Stuff, Payloads, Credits, FinLast, HasFin, WindowAmount;
    if x.control != [] {
      var f := x.control[0];
      var rest := x.control[1..];
      assert x.control == [f] + rest && f in x.control;
      One(f);
      PayloadsAppend(x.wire, [f]);
      assert Payloads(x.wire) + [] == Payloads(x.wire);
      StuffAppend(x.wire, [f]);
      assert Stuff(x.wire) + [] == Stuff(x.wire);
      CreditsAppend(x.wire, [f]);
      CreditsAppend([f], rest);
    }
  }

  // Reading hands out the oldest bytes and moves their credit on.
  lemma ReadKeeps(y: End, x: End, id: Word, size: nat)
    requires Usable(y) && Direction(x, y) && !y.gone
    ensures Usable(ReadEnd(y, id, size)) && Direction(x, ReadEnd(y, id, size))
  {
    hide Stuff, Payloads, Credits, WindowAmount;
    var (s, got, update) := Read(y.s, size);
    if update > 0 {
      WindowUpdateCarriesAmount(id, update);
      One(WindowUpdate(id, update));
      CreditsAppend(y.control, [WindowUpdate(id, update)]);
    }
    assert y.s.inbound == got + s.inbound;
    assert y.read + got + s.inbound == y.read + y.s.inbound;
  }

  lemma CloseKeeps(x: End, y: End, id: Word)
    requires Usable(x) && Direction(x, y) && Direction(y, x)
    ensures var x' := Local(x, id, DoClose); Usable(x') && Direction(x', y) && Direction(y, x')
  {
    hide Stuff, Payloads, Credits, WindowAmount;
  }

  // No frame of an honest peer is refused: DATA fits the receive window, arrives
  // before the FIN and while the stream is open, and an update never overfills the
  // send window.
  lemma NothingIsRefused(x: End, y: End)
    requires Usable(x) && Usable(y) && Direction(x, y) && Direction(y, x) && x.wire != []
    ensures var f := x.wire[0];
            && (f.kind == DATA ==> !y.gone && ReceiveData(y.s, f.payload).Some?)
            && (f.kind == FIN ==> !y.gone && !y.s.closed)
            && (f.kind == WINDOW_UPDATE && !y.gone ==> UpdateSendWindow(y.s, WindowAmount(f)).Some?)
            && HandleEnd(y, f).s.closed == y.s.closed
  {
    var f := x.wire[0];
    assert f in x.wire && Plain(f);
    assert x.wire == [f] + x.wire[1..];
    HeadMeasures(f, x.wire[1..]);
    if f.kind == DATA || f.kind == FIN {
      assert Stuff(x.wire) != [];
    }
  }

  // Handling the head of x's wire at y.
  lemma ReceiveKeeps(x: End, y: End)
    requires Usable(x) && Usable(y) && Direction(x, y) && Direction(y, x) && x.wire != []
    ensures var y' := HandleEnd(y, x.wire[0]);
            var x' := x.(wire := x.wire[1..]);
            Usable(x') && Usable(y') && Direction(x', y') && Direction(y', x')
  {
    hide Stuff, Payloads, Credits, FinLast, HasFin, WindowAmount;
    var f := x.wire[0];
    var rest := x.wire[1..];
    assert x.wire == [f] + rest && f in x.wire;
    NothingIsRefused(x, y);
    HeadMeasures(f, rest);
    if f.kind == DATA {
      DataArrives(x, y, f, rest);
    } else if f.kind == FIN {
      FinArrives(x, y, f, rest);
    } else if y.gone {
      UpdateDropped(x, y, f, rest);
    } else {
      UpdateArrives(x, y, f, rest);
    }
  }

  lemma HeadMeasures(f: Frame, rest: seq<Frame>)
    ensures Payloads([f] + rest) == (if f.kind == DATA then f.payload else []) + Payloads(rest)
    ensures Stuff([f] + rest) == (if f.kind == DATA || f.kind == FIN then [f] else []) + Stuff(rest)
    ensures Credits([f] + rest) == WindowAmount(f) + Credits(rest)
  {
    assert ([f] + rest)[1..] == rest;
  }

  lemma DataArrives(x: End, y: End, f: Frame, rest: seq<Frame>)
    requires Direction(x, y) && Direction(y, x) && f.kind == DATA && ReceiveData(y.s, f.payload).Some? && !y.gone
    requires x.wire == [f] + rest
    ensures var x', y' := x.(wire := rest), y.(s := ReceiveData(y.s, f.payload).value);
            Direction(x', y') && Direction(y', x')
  {
    hide Stuff, Payloads, Credits;
    HeadMeasures(f, rest);
    Regroup(y.read + y.s.inbound, [], f.payload, Payloads(rest));
    assert y.read + y.s.inbound + [] == y.read + y.s.inbound;
    assert y.read + (y.s.inbound + f.payload) == y.read + y.s.inbound + f.payload;
    var q := Stuff(rest) + x.s.outbound;
    Regroup([], [f], Stuff(rest), x.s.outbound);
    assert Stuff(x.wire) + x.s.outbound == [f] + q;
    DropHead(f, q);
  }

  lemma DropHead(f: Frame, q: seq<Frame>)
    requires FinLast([f] + q)
    ensures FinLast(q)
    ensures f.kind == DATA ==> (HasFin([f] + q) <==> HasFin(q))
    ensures f.kind == FIN ==> q == []
  {
    assert forall i :: 0 <= i < |q| ==> ([f] + q)[i + 1] == q[i];
    assert ([f] + q)[0] == f;
  }

  lemma FinArrives(x: End, y: End, f: Frame, rest: seq<Frame>)
    requires Direction(x, y) && Direction(y, x) && f.kind == FIN && !y.s.closed
    requires x.wire == [f] + rest
    ensures var x', y' := x.(wire := rest), y.(s := ReceiveFIN(y.s));
            Direction(x', y') && Direction(y', x')
  {
    hide Stuff, Payloads, Credits;
    HeadMeasures(f, rest);
    assert [] + Payloads(rest) == Payloads(rest);
    var q := Stuff(rest) + x.s.outbound;
    Regroup([], [f], Stuff(rest), x.s.outbound);
    assert Stuff(x.wire) + x.s.outbound == [f] + q;
    DropHead(f, q);
    assert HasFin([f] + q);
  }

  lemma UpdateArrives(x: End, y: End, f: Frame, rest: seq<Frame>)
    requires Direction(x, y) && Direction(y, x) && f.kind == WINDOW_UPDATE
    requires x.wire == [f] + rest && UpdateSendWindow(y.s, WindowAmount(f)).Some? && !y.gone
    ensures var x', y' := x.(wire := rest), y.(s := UpdateSendWindow(y.s, WindowAmount(f)).value);
            Direction(x', y') && Direction(y', x')
  {
    hide Stuff, Payloads, Credits, FinLast, HasFin, WindowAmount;
    HeadMeasures(f, rest);
    assert [] + Payloads(rest) == Payloads(rest) && [] + Stuff(rest) == Stuff(rest);
  }

  lemma UpdateDropped(x: End, y: End, f: Frame, rest: seq<Frame>)
    requires Direction(x, y) && Direction(y, x) && f.kind == WINDOW_UPDATE && y.gone
    requires x.wire == [f] + rest
    ensures var x' := x.(wire := rest); Direction(x', y) && Direction(y, x')
  {
    hide Stuff, Payloads, Credits, FinLast, HasFin, WindowAmount;
    HeadMeasures(f, rest);
    assert [] + Payloads(rest) == Payloads(rest) && [] + Stuff(rest) == Stuff(rest);
  }

  // A local step of x leaves what arrives at x from y as it was.
  lemma OtherDirection(y: End, x: End, id: Word, act: Act)
    requires Usable(x) && Direction(y, x) && !act.DoRead? && !act.DoClose?
    requires Credits(Local(x, id, act).wire) + Credits(Local(x, id, act).control) == Credits(x.wire) + Credits(x.control)
    ensures Direction(y, Local(x, id, act))
  {
    hide Stuff, Payloads, Credits, Chunks;
  }

  lemma ReadKeepsOther(x: End, y: End, id: Word, size: nat)
    requires Direction(x, y)
    ensures Direction(ReadEnd(x, id, size), y)
  {
    hide Stuff, Payloads, Credits;
  }

  lemma LocalKeeps(x: End, y: End, id: Word, act: Act)
    requires Usable(x) && Direction(x, y) && Direction(y, x)
    ensures var x' := Local(x, id, act); Usable(x') && Direction(x', y) && Direction(y, x')
  {
    hide Direction, Stuff, Payloads, Credits, Usable;
    match act
    case DoWrite(p) => WriteKeeps(x, y, id, p); OtherDirection(y, x, id, act);
    case DoRead(size) => if !x.gone { ReadKeeps(x, y, id, size); ReadKeepsOther(x, y, id, size); }
    case DoClose => CloseKeeps(x, y, id);
    case DoCloseWrite => CloseWriteKeeps(x, y, id); OtherDirection(y, x, id, act);
    case Pick => PickKeeps(x, y, id); OtherDirection(y, x, id, act);
    case Flush => FlushKeeps(x, y, id); OtherDirection(y, x, id, act);
    case Receive =>
  }

  // Every step of either end keeps both directions.
  lemma StepKeepsLane(l: Lane, onA: bool, act: Act)
    requires LaneOk(l)
    ensures LaneOk(Step(l, onA, act)) && Step(l, onA, act).id == l.id
  {
    hide Direction, Usable, HandleEnd, Local;
    if onA {
      if act.Receive? { if l.b.wire != [] { ReceiveKeeps(l.b, l.a); } } else { LocalKeeps(l.a, l.b, l.id, act); }
    } else {
      if act.Receive? { if l.a.wire != [] { ReceiveKeeps(l.a, l.b); } } else { LocalKeeps(l.b, l.a, l.id, act); }
    }
  }

  lemma {:induction false} RunKeepsLane(l: Lane, acts: seq<(bool, Act)>)
    requires LaneOk(l)
    ensures LaneOk(Run(l, acts))
    decreases |acts|
  {
    hide LaneOk, Step;
    if acts != [] {
      StepKeepsLane(l, acts[0].0, acts[0].1);
      RunKeepsLane(Step(l, acts[0].0, acts[0].1), acts[1..]);
    }
  }

  // ---- What it means -------------------------------------------------------

  // Over every run from an open stream: what has been read is a prefix of what
  // the peer wrote, and a reader at the end of the stream has read exactly what
  // was written before the write side was closed.
  lemma ReadToEndIsExact(id: Word, acts: seq<(bool, Act)>)
    ensures var l := Run(Lane(id, Opened(), Opened()), acts);
            && LaneOk(l)
            && l.b.read <= l.a.written && l.a.read <= l.b.written
            && (l.b.s.remoteWriteClosed && l.b.s.inbound == [] ==> l.a.s.localWriteClosed && l.b.read == l.a.written)
            && (l.a.s.remoteWriteClosed && l.a.s.inbound == [] ==> l.b.s.localWriteClosed && l.a.read == l.b.written)
  {
    OpenedLaneOk(id);
    RunKeepsLane(Lane(id, Opened(), Opened()), acts);
    var l := Run(Lane(id, Opened(), Opened()), acts);
    EndIsExact(l.a, l.b);
    EndIsExact(l.b, l.a);
  }

  lemma EndIsExact(x: End, y: End)
    requires Direction(x, y)
    ensures y.read <= x.written
    ensures y.s.remoteWriteClosed && y.s.inbound == [] ==> x.s.localWriteClosed && y.read == x.written
  {
    assert x.written == y.read + (y.s.inbound + Payloads(x.wire) + Payloads(x.s.outbound));
    if y.s.remoteWriteClosed {
      assert x.s.outbound == [] && Stuff(x.wire) == [];
      NoStuffNoPayload(x.wire);
    }
  }

  lemma {:induction false} NoStuffNoPayload(frames: seq<Frame>)
    requires Stuff(frames) == []
    ensures Payloads(frames) == []
  {
    if frames != [] {
      NoStuffNoPayload(frames[1..]);
    }
  }

  // A graceful close sends what is queued: the queue goes out in order behind what
  // is on the wire, and then, not before, the session forgets the stream. With
  // EndIsExact the peer still reads to the end exactly.
  lemma {:induction false} ClosedEndDrains(l: Lane) returns (acts: seq<(bool, Act)>)
    requires LaneOk(l) && l.a.s.closed && !l.a.gone
    ensures var l' := Run(l, acts);
            && LaneOk(l') && l'.a.gone && l'.a.wire == l.a.wire + l.a.s.outbound && l'.b == l.b
            && |acts| == |l.a.s.outbound|
    ensures forall k :: 0 <= k < |acts| ==> acts[k] == (true, Pick) && !Run(l, acts[..k]).a.gone
    decreases |l.a.s.outbound|
  {
    hide LaneOk, Usable, Direction;
    assert GoodEnd(l.a.s, l.a.gone) by { LaneDirections(l); UsableIsGood(l.a); }
    var next := Step(l, true, Pick);
    StepKeepsLane(l, true, Pick);
    var rest := [];
    if |l.a.s.outbound| > 1 {
      rest := ClosedEndDrains(next);
    } else {
      assert Run(next, rest) == next;
    }
    acts := [(true, Pick)] + rest;
    RunOne(l, true, Pick, rest);
    assert l.a.wire + [l.a.s.outbound[0]] + next.a.s.outbound == l.a.wire + l.a.s.outbound;
    forall k | 0 <= k < |acts| ensures acts[k] == (true, Pick) && !Run(l, acts[..k]).a.gone {
      if k > 0 {
        assert acts[..k] == [(true, Pick)] + rest[..k - 1];
        RunOne(l, true, Pick, rest[..k - 1]);
      }
    }
  }

  lemma UsableIsGood(x: End)
    requires Usable(x)
    ensures GoodEnd(x.s, x.gone)
  {}

  // Batching updates cannot starve a writer: with nothing queued or in flight
  // and the reader caught up, all but less than 8 KiB of credit is back.
  lemma QuietMeansCredit(x: End, y: End)
    requires Direction(x, y) && !x.gone
    requires x.s.outbound == [] && x.wire == [] && y.s.inbound == [] && y.control == [] && y.wire == []
    ensures x.s.sendWindow > INITIAL_WINDOW - WINDOW_UPDATE_THRESHOLD
  {}

  // The writer's side sends what is queued and handles what arrives, no more.
  predicate WriterRests(acts: seq<(bool, Act)>) {
    forall i :: 0 <= i < |acts| && acts[i].0 ==> acts[i].1.Pick? || acts[i].1.Receive?
  }

  predicate Untouched(x: End, x': End) {
    && x'.s.isOpen == x.s.isOpen && x'.s.closed == x.s.closed && x'.s.localWriteClosed == x.s.localWriteClosed
    && x'.gone == x.gone && x'.written == x.written
  }

  // And that state can always be reached with the writer at rest and its stream as
  // it was: sending what is queued, handling it, reading it, and sending and handling
  // the updates.
  lemma BlockedWriterCanResume(l: Lane) returns (acts: seq<(bool, Act)>)
    requires LaneOk(l) && !l.a.s.closed && !l.b.gone
    ensures Run(l, acts).a.s.sendWindow > INITIAL_WINDOW - WINDOW_UPDATE_THRESHOLD
    ensures WriterRests(acts) && Untouched(l.a, Run(l, acts).a)
  {
    hide LaneOk, Step, Direction, Usable;
    StillHere(l);
    var a1 := PickAll(l);
    var l1 := Run(l, a1);
    assert LaneOk(l1) by { RunKeepsLane(l, a1); }
    var a2 := HandleAllAtB(l1);
    var l2 := Run(l1, a2);
    assert LaneOk(l2) by { RunKeepsLane(l1, a2); }
    var a3 := [(false, DoRead(|l2.b.s.inbound|))];
    var l3 := Run(l2, a3);
    ReadAll(l2);
    assert LaneOk(l3) by { RunKeepsLane(l2, a3); }
    var a4 := FlushAll(l3);
    var l4 := Run(l3, a4);
    assert LaneOk(l4) by { RunKeepsLane(l3, a4); }
    var a5 := HandleAllAtA(l4);
    var l5 := Run(l4, a5);
    assert LaneOk(l5) by { RunKeepsLane(l4, a5); }
    acts := a1 + a2 + a3 + a4 + a5;
    RunAppend(l, a1, a2);
    RunAppend(l, a1 + a2, a3);
    RunAppend(l, a1 + a2 + a3, a4);
    RunAppend(l, a1 + a2 + a3 + a4, a5);
    assert Direction(l5.a, l5.b) by { LaneDirections(l5); }
    QuietMeansCredit(l5.a, l5.b);
  }

  lemma StillHere(l: Lane)
    requires LaneOk(l) && !l.a.s.closed
    ensures !l.a.gone
  {}

  // As long as the write side is open, neither end has closed.
  lemma WriterMeansOpen(l: Lane)
    requires LaneOk(l) && !l.a.s.localWriteClosed
    ensures !l.a.s.closed && !l.b.s.closed && !l.b.gone
  {}

  lemma LaneDirections(l: Lane)
    requires LaneOk(l)
    ensures Direction(l.a, l.b) && Direction(l.b, l.a) && Usable(l.a) && Usable(l.b)
  {}

  lemma {:induction false} RunAppend(l: Lane, a: seq<(bool, Act)>, b: seq<(bool, Act)>)
    ensures Run(l, a + b) == Run(Run(l, a), b)
    decreases |a|
  {
    hide Step;
    if a == [] {
      assert a + b == b;
    } else {
      assert (a + b)[1..] == a[1..] + b;
      RunAppend(Step(l, a[0].0, a[0].1), a[1..], b);
    }
  }

  lemma RunOne(l: Lane, onA: bool, act: Act, rest: seq<(bool, Act)>)
    ensures Run(l, [(onA, act)] + rest) == Run(Step(l, onA, act), rest)
  {
    hide Step;
    assert ([(onA, act)] + rest)[1..] == rest;
  }

  lemma {:induction false} PickAll(l: Lane) returns (acts: seq<(bool, Act)>)
    requires LaneOk(l) && !l.a.s.closed && !l.a.gone
    ensures Run(l, acts).a.s.outbound == [] && Run(l, acts).b == l.b
    ensures WriterRests(acts) && Untouched(l.a, Run(l, acts).a)
    decreases |l.a.s.outbound|
  {
    hide Usable, Direction;
    acts := [];
    if l.a.s.outbound != [] {
      StepKeepsLane(l, true, Pick);
      OpenPick(l);
      var rest := PickAll(Step(l, true, Pick));
      acts := [(true, Pick)] + rest;
      RunOne(l, true, Pick, rest);
    }
  }

  lemma OpenPick(l: Lane)
    requires LaneOk(l) && !l.a.s.closed && l.a.s.outbound != []
    ensures var l' := Step(l, true, Pick);
            l'.a.s.outbound == l.a.s.outbound[1..] && l'.b == l.b && Untouched(l.a, l'.a)
  {}

  lemma {:induction false} HandleAllAtB(l: Lane) returns (acts: seq<(bool, Act)>)
    requires LaneOk(l)
    ensures Run(l, acts).a == l.a.(wire := []) && Run(l, acts).b.gone == l.b.gone
    ensures WriterRests(acts)
    decreases |l.a.wire|
  {
    hide LaneOk, HandleFrame;
    acts := [];
    if l.a.wire != [] {
      StepKeepsLane(l, false, Receive);
      var rest := HandleAllAtB(Step(l, false, Receive));
      acts := [(false, Receive)] + rest;
      RunOne(l, false, Receive, rest);
    }
  }

  lemma ReadAll(l: Lane)
    requires !l.b.gone
    ensures Run(l, [(false, DoRead(|l.b.s.inbound|))]).b.s.inbound == []
    ensures Run(l, [(false, DoRead(|l.b.s.inbound|))]).a == l.a
  {
    RunOne(l, false, DoRead(|l.b.s.inbound|), []);
    assert [(false, DoRead(|l.b.s.inbound|))] + [] == [(false, DoRead(|l.b.s.inbound|))];
  }

  lemma {:induction false} FlushAll(l: Lane) returns (acts: seq<(bool, Act)>)
    ensures Run(l, acts).b.control == [] && Run(l, acts).b.s == l.b.s && Run(l, acts).a == l.a
    ensures WriterRests(acts)
    decreases |l.b.control|
  {
    acts := [];
    if l.b.control != [] {
      var rest := FlushAll(Step(l, false, Flush));
      acts := [(false, Flush)] + rest;
      RunOne(l, false, Flush, rest);
    }
  }

  // Handling frames neither queues data at the handler nor touches the sender.
  lemma {:induction false} HandleAllAtA(l: Lane) returns (acts: seq<(bool, Act)>)
    requires LaneOk(l)
    ensures var l' := Run(l, acts);
            && l'.b == l.b.(wire := []) && l'.a.wire == l.a.wire && l'.a.s.outbound == l.a.s.outbound
            && Untouched(l.a, l'.a)
    ensures WriterRests(acts)
    decreases |l.b.wire|
  {
    hide LaneOk, HandleEnd;
    acts := [];
    if l.b.wire != [] {
      HandlingLeavesQueue(l);
      StepKeepsLane(l, true, Receive);
      var rest := HandleAllAtA(Step(l, true, Receive));
      acts := [(true, Receive)] + rest;
      RunOne(l, true, Receive, rest);
    }
  }

  lemma HandlingLeavesQueue(l: Lane)
    requires LaneOk(l) && l.b.wire != []
    ensures var a' := HandleEnd(l.a, l.b.wire[0]);
            a'.s.outbound == l.a.s.outbound && a'.wire == l.a.wire && Untouched(l.a, a')
  {
    NothingIsRefused(l.b, l.a);
    assert l.b.wire[0] in l.b.wire;
  }
}
