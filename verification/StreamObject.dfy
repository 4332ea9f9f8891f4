// The stream object itself: one method per critical section, each proved
// against the functions of MuxStream.
module StreamObject {
  import opened Bytes
  import opened Frames
  import Value = MuxStream

  datatype ReadOutcome = Delivered | Blocked | EndOfFile | Failed

  datatype WriteOutcome = Written | WouldBlock | NotOpen | ClosedPipe

  class Stream {
    const id: Word
    // The service the peer asked for; empty at the client.
    const service: seq<byte>
    var isOpen: bool
    var closed: bool
    var localWriteClosed: bool
    var remoteWriteClosed: bool
    var closeAfterDrain: bool
    var sendWindow: nat
    var receiveWindow: nat
    var pendingWindowUpdate: nat
    var inbound: seq<byte>
    var outbound: seq<Frame>
    var scheduled: bool
    // What the stream was opened for, and what its application has written and read.
    ghost const selector: seq<byte>
    ghost var written: seq<byte>
    ghost var received: seq<byte>

    ghost function View(): Value.Stream
      reads this
    {
      Value.Stream(isOpen, closed, localWriteClosed, remoteWriteClosed, closeAfterDrain,
                   sendWindow, receiveWindow, pendingWindowUpdate, inbound, outbound, scheduled)
    }

    constructor (id: Word, service: seq<byte>, ghost selector: seq<byte>)
      ensures this.id == id && this.service == service && this.selector == selector && View() == Value.New() && written == [] && received == []
    {
      this.id := id;
      this.service, this.selector := service, selector;
      isOpen, closed, localWriteClosed, remoteWriteClosed, closeAfterDrain := false, false, false, false, false;
      sendWindow, receiveWindow, pendingWindowUpdate := Value.INITIAL_WINDOW, Value.INITIAL_WINDOW, 0;
      inbound, outbound, scheduled := [], [], false;
      written, received := [], [];
    }

    method MarkOpened(ok: bool)
      modifies this
      ensures View() == Value.MarkOpened(old(View()), ok)
      ensures written == old(written) && received == old(received)
    {
      if !closed {
        isOpen := ok;
        if !ok { closed := true; }
      }
    }

    method Approve() returns (done: bool)
      modifies this
      ensures done == (!old(View()).closed && !old(View()).isOpen)
      ensures View() == if done then old(View()).(isOpen := true) else old(View())
      ensures written == old(written) && received == old(received)
    {
      done := !closed && !isOpen;
      if done { isOpen := true; }
    }

    method Reject() returns (done: bool)
      modifies this
      ensures done == !old(View()).closed
      ensures View() == if done then old(View()).(closed := true) else old(View())
      ensures written == old(written) && received == old(received)
    {
      done := !closed;
      if done { closed := true; }
    }

    // Takes bytes that have arrived. `update` is the credit to hand back now, if
    // any; unread bytes are delivered before the end or an error is reported.
    method Read(size: nat) returns (p: seq<byte>, update: nat, outcome: ReadOutcome)
      modifies this
      ensures (View(), p, update) == Value.Read(old(View()), size)
      ensures written == old(written) && received == old(received) + p
      ensures outcome == Delivered <==> size == 0 || p != []
      ensures outcome == EndOfFile <==> size > 0 && old(inbound) == [] && old(remoteWriteClosed)
      ensures outcome == Failed <==> size > 0 && old(inbound) == [] && !old(remoteWriteClosed) && old(closed)
    {
      p, update := [], 0;
      if size == 0 {
        outcome := Delivered;
      } else if |inbound| > 0 {
        var n := Min(size, |inbound|);
        p, inbound := inbound[..n], inbound[n..];
        receiveWindow := receiveWindow + n;
        pendingWindowUpdate := pendingWindowUpdate + n;
        if pendingWindowUpdate >= Value.WINDOW_UPDATE_THRESHOLD {
          update, pendingWindowUpdate := pendingWindowUpdate, 0;
        }
        received := received + p;
        outcome := Delivered;
      } else {
        outcome := if remoteWriteClosed then EndOfFile else if closed then Failed else Blocked;
      }
    }

    method EnqueueLocked(frame: Frame) returns (needsSchedule: bool)
      modifies this
      ensures View() == Value.Enqueue(old(View()), [frame])
      ensures needsSchedule == !old(scheduled)
      ensures written == old(written) && received == old(received)
    {
      outbound := outbound + [frame];
      needsSchedule := !scheduled;
      scheduled := true;
    }

    // One pass of a write's loop, under the stream's lock: as much as fits in one
    // frame and the window.
    method WriteFrame(rest: seq<byte>) returns (n: nat, needsSchedule: bool)
      requires rest != [] && Value.Writable(View()) && sendWindow > 0
      modifies this
      ensures n == Min(|rest|, Min(MAX_DATA_PAYLOAD, old(sendWindow)))
      ensures View() == WithFrame(old(View()), Frame(DATA, id, rest[..n]), n)
      ensures needsSchedule == !old(scheduled)
      ensures written == old(written) + rest[..n] && received == old(received)
    {
      n := Min(|rest|, Min(MAX_DATA_PAYLOAD, sendWindow));
      var payload := rest[..n];
      sendWindow := sendWindow - n;
      needsSchedule := EnqueueLocked(Frame(DATA, id, payload));
      written := written + payload;
    }

    // Cuts a write into DATA frames while there is credit, and says how it ended
    // and whether the stream has to be put in line.
    method Write(p: seq<byte>) returns (taken: nat, needsSchedule: bool, outcome: WriteOutcome)
      modifies this
      ensures View() == Value.Write(old(View()), id, p)
      ensures taken == Value.Taken(old(View()), |p|)
      ensures needsSchedule == (taken > 0 && !old(View()).scheduled)
      ensures written == old(written) + p[..taken] && received == old(received)
      ensures outcome == Written <==> taken == |p|
      ensures taken < |p| ==> outcome == if !isOpen then NotOpen else if closed || localWriteClosed then ClosedPipe else WouldBlock
    {
      hide Progress, WithFrame, Whole, Value.Write;
      ghost var was := View();
      taken, needsSchedule, outcome := 0, false, Written;
      var rest := p;
      ProgressStarts(was, id, p);
      NoneIsWhole();
      while rest != []
        invariant outcome == Written && taken <= |p| && rest == p[taken..]
        invariant Value.Writable(was) || taken == 0
        invariant taken <= was.sendWindow && View() == Progress(was, id, p, taken)
        invariant Value.Writable(View()) == Value.Writable(was) && sendWindow == was.sendWindow - taken
        invariant isOpen == was.isOpen && scheduled == (was.scheduled || taken > 0)
        invariant needsSchedule == (taken > 0 && !was.scheduled)
        invariant rest == [] || sendWindow == 0 || Whole(taken)
        invariant written == old(written) + p[..taken] && received == old(received)
        decreases |rest|
      {
        if !isOpen { outcome := NotOpen; break; }
        if closed || localWriteClosed { outcome := ClosedPipe; break; }
        if sendWindow == 0 { outcome := WouldBlock; break; }
        var n, first := WriteFrame(rest);
        ProgressNext(was, id, p, taken, n);
        needsSchedule := needsSchedule || first;
        assert p[..taken] + rest[..n] == p[..taken + n];
        WithFrameKeeps(Progress(was, id, p, taken), Frame(DATA, id, rest[..n]), n);
        StillWhole(taken, n);
        taken, rest := taken + n, rest[n..];
      }
      ProgressEnds(was, id, p, taken);
    }

    method ReceiveData(data: seq<byte>) returns (ok: bool)
      modifies this
      ensures ok == Value.ReceiveData(old(View()), data).Some?
      ensures View() == if ok then Value.ReceiveData(old(View()), data).value else old(View())
      ensures written == old(written) && received == old(received)
    {
      ok := !closed && !remoteWriteClosed && isOpen && |data| <= receiveWindow;
      if ok {
        receiveWindow := receiveWindow - |data|;
        inbound := inbound + data;
      }
    }

    method UpdateSendWindow(amount: nat) returns (ok: bool)
      modifies this
      ensures ok == Value.UpdateSendWindow(old(View()), amount).Some?
      ensures View() == if ok then Value.UpdateSendWindow(old(View()), amount).value else old(View())
      ensures written == old(written) && received == old(received)
    {
      ok := amount != 0 && amount <= Value.INITIAL_WINDOW - sendWindow;
      if ok { sendWindow := sendWindow + amount; }
    }

    method ReceiveFIN()
      modifies this
      ensures View() == Value.ReceiveFIN(old(View()))
      ensures written == old(written) && received == old(received)
    {
      if !closed { remoteWriteClosed := true; }
    }

    method ReceiveReset()
      modifies this
      ensures View() == Value.ReceiveReset(old(View()))
      ensures written == old(written) && received == old(received)
    {
      if !closed { closed := true; }
    }

    method CloseWrite() returns (needsSchedule: bool)
      modifies this
      ensures View() == Value.CloseWrite(old(View()), id)
      ensures needsSchedule == (!old(View()).localWriteClosed && !old(View()).closed && !old(View()).scheduled)
      ensures written == old(written) && received == old(received)
    {
      needsSchedule := false;
      if !localWriteClosed && !closed {
        localWriteClosed := true;
        needsSchedule := EnqueueLocked(Frame(FIN, id, []));
      }
    }

    method CloseRead()
      modifies this
      ensures View() == Value.CloseRead(old(View()))
      ensures written == old(written) && received == old(received)
    {
      remoteWriteClosed, inbound := true, [];
    }

    method Close() returns (ending: Value.Ending)
      modifies this
      ensures (View(), ending) == Value.Close(old(View()))
      ensures written == old(written) && received == old(received)
    {
      var graceful := localWriteClosed && remoteWriteClosed;
      if closed { return Value.Keep; }
      closed, closeAfterDrain := true, graceful;
      ending := if !graceful then Value.RemoveAndReset else if outbound == [] then Value.Remove else Value.Keep;
    }

    method Reset() returns (done: bool)
      modifies this
      ensures View() == Value.Reset(old(View())) && done == !old(View()).closed
      ensures written == old(written) && received == old(received)
    {
      done := !closed;
      if done { closed, outbound, scheduled := true, [], false; }
    }

    method NextOutbound() returns (out: Value.Outgoing)
      modifies this
      ensures (View(), out) == Value.NextOutbound(old(View()))
      ensures written == old(written) && received == old(received)
    {
      if |outbound| == 0 {
        scheduled := false;
        return Value.Outgoing(Value.None, false, false);
      }
      var frame := outbound[0];
      outbound := outbound[1..];
      var requeue := |outbound| > 0;
      if !requeue { scheduled := false; }
      out := Value.Outgoing(Value.Some(frame), requeue, !requeue && closeAfterDrain);
    }
  }

  ghost function WithFrame(s: Value.Stream, f: Frame, n: nat): Value.Stream
    requires n <= s.sendWindow
  {
    s.(sendWindow := s.sendWindow - n, outbound := s.outbound + [f], scheduled := true)
  }

  lemma WithFrameKeeps(s: Value.Stream, f: Frame, n: nat)
    requires n <= s.sendWindow
    ensures var t := WithFrame(s, f, n);
            && Value.Writable(t) == Value.Writable(s) && t.isOpen == s.isOpen
            && t.sendWindow == s.sendWindow - n && t.scheduled
  {}

  // A stream after the first bytes of a write.
  ghost function Progress(s: Value.Stream, id: Word, p: seq<byte>, taken: nat): Value.Stream
    requires taken <= |p| && taken <= s.sendWindow
  {
    Value.Enqueue(s.(sendWindow := s.sendWindow - taken), Value.Chunks(id, p[..taken]))
  }

  // A number of whole frames.
  ghost predicate Whole(taken: nat) {
    taken % MAX_DATA_PAYLOAD == 0
  }

  lemma NoneIsWhole()
    ensures Whole(0)
  {}

  lemma StillWhole(taken: nat, n: nat)
    requires Whole(taken)
    ensures n == MAX_DATA_PAYLOAD ==> Whole(taken + n)
  {}

  lemma ProgressStarts(s: Value.Stream, id: Word, p: seq<byte>)
    ensures Progress(s, id, p, 0) == s
  {
    assert p[..0] == [];
  }

  lemma ProgressEnds(s: Value.Stream, id: Word, p: seq<byte>, taken: nat)
    requires taken == Value.Taken(s, |p|)
    ensures Progress(s, id, p, taken) == Value.Write(s, id, p)
  {
    hide Value.Chunks;
  }

  // One more frame: as long as only whole frames came before it, the pieces are
  // those of one write.
  lemma ProgressNext(s: Value.Stream, id: Word, p: seq<byte>, taken: nat, n: nat)
    requires taken + n <= |p| && taken + n <= s.sendWindow
    requires Whole(taken) && 0 < n <= MAX_DATA_PAYLOAD
    ensures Progress(s, id, p, taken + n) == WithFrame(Progress(s, id, p, taken), Frame(DATA, id, p[taken..][..n]), n)
  {
    var q, f := p[taken..][..n], Frame(DATA, id, p[taken..][..n]);
    assert p[..taken + n] == p[..taken] + q;
    Value.ChunksAppend(id, p[..taken], q);
    assert q[..n] == q && q[n..] == [];
    assert Value.Chunks(id, []) == [];
    assert Value.Chunks(id, q) == [f];
    var before := Value.Chunks(id, p[..taken]);
    assert s.outbound + (before + [f]) == s.outbound + before + [f];
  }
}
