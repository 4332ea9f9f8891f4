// One multiplexed stream as a value, and what each critical section of a stream
// does to it. The stream class is proved against these functions.
module MuxStream {
  import opened Bytes
  import opened Frames

  const INITIAL_WINDOW: nat := 64 * 1024
  const WINDOW_UPDATE_THRESHOLD: nat := INITIAL_WINDOW / 8

  datatype Stream = Stream(
    isOpen: bool,
    closed: bool,
    localWriteClosed: bool,
    remoteWriteClosed: bool,
    closeAfterDrain: bool,
    sendWindow: nat,
    receiveWindow: nat,
    pendingWindowUpdate: nat,
    inbound: seq<byte>,
    outbound: seq<Frame>,
    scheduled: bool)

  function New(): Stream {
    Stream(false, false, false, false, false, INITIAL_WINDOW, INITIAL_WINDOW, 0, [], [], false)
  }

  // ---- Writing -------------------------------------------------------------

  // A write as DATA frames of at most 16 KiB.
  function Chunks(id: Word, p: seq<byte>): seq<Frame>
    decreases |p|
  {
    if p == [] then []
    else
      var n := Min(|p|, MAX_DATA_PAYLOAD);
      [Frame(DATA, id, p[..n])] + Chunks(id, p[n..])
  }

  predicate Writable(s: Stream) {
    s.isOpen && !s.closed && !s.localWriteClosed
  }

  // How much of a write is taken before the stream blocks.
  function Taken(s: Stream, size: nat): nat {
    if Writable(s) then Min(size, s.sendWindow) else 0
  }

  function Enqueue(s: Stream, frames: seq<Frame>): Stream {
    if frames == [] then s else s.(outbound := s.outbound + frames, scheduled := true)
  }

  function Write(s: Stream, id: Word, p: seq<byte>): Stream {
    var n := Taken(s, |p|);
    Enqueue(s.(sendWindow := s.sendWindow - n), Chunks(id, p[..n]))
  }

  function CloseWrite(s: Stream, id: Word): Stream {
    if s.localWriteClosed || s.closed then s
    else Enqueue(s.(localWriteClosed := true), [Frame(FIN, id, [])])
  }

  // ---- Reading -------------------------------------------------------------

  // The bytes a read takes, and the window update it sends (0 for none).
  function Read(s: Stream, size: nat): (Stream, seq<byte>, nat) {
    var n := Min(size, |s.inbound|);
    if n == 0 then (s, [], 0)
    else
      var pending := s.pendingWindowUpdate + n;
      var update := if pending >= WINDOW_UPDATE_THRESHOLD then pending else 0;
      (s.(inbound := s.inbound[n..], receiveWindow := s.receiveWindow + n,
          pendingWindowUpdate := if update > 0 then 0 else pending),
       s.inbound[..n], update)
  }

  function CloseRead(s: Stream): Stream {
    s.(remoteWriteClosed := true, inbound := [])
  }

  // ---- Frames from the peer; None stands for an error that resets ----------

  datatype Option<T> = None | Some(value: T)

  function ReceiveData(s: Stream, data: seq<byte>): Option<Stream> {
    if s.closed || s.remoteWriteClosed || !s.isOpen then None
    else if |data| > s.receiveWindow then None
    else Some(s.(receiveWindow := s.receiveWindow - |data|, inbound := s.inbound + data))
  }

  function UpdateSendWindow(s: Stream, amount: nat): Option<Stream> {
    if amount == 0 || s.sendWindow + amount > INITIAL_WINDOW then None
    else Some(s.(sendWindow := s.sendWindow + amount))
  }

  function ReceiveFIN(s: Stream): Stream {
    if s.closed then s else s.(remoteWriteClosed := true)
  }

  function ReceiveReset(s: Stream): Stream {
    if s.closed then s else s.(closed := true)
  }

  function MarkOpened(s: Stream, ok: bool): Stream {
    if s.closed then s else s.(isOpen := ok, closed := !ok)
  }

  // ---- Ending a stream -----------------------------------------------------

  datatype Ending = Keep | Remove | RemoveAndReset

  function Close(s: Stream): (Stream, Ending) {
    var graceful := s.localWriteClosed && s.remoteWriteClosed;
    if s.closed then (s, Keep)
    else
      (s.(closed := true, closeAfterDrain := graceful),
       if !graceful then RemoveAndReset else if s.outbound == [] then Remove else Keep)
  }

  function Reset(s: Stream): Stream {
    if s.closed then s else s.(closed := true, outbound := [], scheduled := false)
  }

  // ---- The send side of the scheduler --------------------------------------

  // The next frame, whether the stream goes back in line, and whether it is
  // done with.
  datatype Outgoing = Outgoing(frame: Option<Frame>, requeue: bool, remove: bool)

  function NextOutbound(s: Stream): (Stream, Outgoing) {
    if s.outbound == [] then (s.(scheduled := false), Outgoing(None, false, false))
    else
      var rest := s.outbound[1..];
      (s.(outbound := rest, scheduled := if rest == [] then false else s.scheduled),
       Outgoing(Some(s.outbound[0]), rest != [], rest == [] && s.closeAfterDrain))
  }

  // ---- What ending a stream achieves ---------------------------------------

  // After the application has given up reading, nothing is read and no more data
  // is taken.
  lemma NothingAfterCloseRead(s: Stream, size: nat, data: seq<byte>)
    ensures Read(CloseRead(s), size) == (CloseRead(s), [], 0)
    ensures ReceiveData(CloseRead(s), data).None?
  {}

  // The frames the writer takes until none is left, and after which of them the
  // stream is done with.
  function Drained(s: Stream): (Stream, seq<Frame>, seq<bool>)
    decreases |s.outbound|
  {
    if s.outbound == [] then (s, [], [])
    else
      var (next, out) := NextOutbound(s);
      var (end, frames, removals) := Drained(next);
      (end, [out.frame.value] + frames, [out.remove] + removals)
  }

  // A stream finished both ways sends everything still queued, its FIN included,
  // in order, and is done with after the last frame and not before.
  lemma {:induction false} CloseDrains(s: Stream)
    requires s.closeAfterDrain
    ensures var (end, frames, removals) := Drained(s);
            && frames == s.outbound && end.outbound == [] && |removals| == |frames|
            && forall i :: 0 <= i < |removals| ==> (removals[i] <==> i == |removals| - 1)
    decreases |s.outbound|
  {
    if s.outbound != [] {
      CloseDrains(NextOutbound(s).0);
      assert s.outbound == [s.outbound[0]] + s.outbound[1..];
    }
  }

  lemma GracefulCloseDrains(s: Stream)
    requires !s.closed
    ensures var (t, ending) := Close(s);
            if s.localWriteClosed && s.remoteWriteClosed then
              && t.closed && Drained(t).1 == s.outbound
              && (ending.Remove? <==> s.outbound == []) && (ending.Keep? <==> s.outbound != [])
              && forall i :: 0 <= i < |Drained(t).2| ==> (Drained(t).2[i] <==> i == |s.outbound| - 1)
            else ending.RemoveAndReset?
  {
    CloseDrains(s.(closed := true, closeAfterDrain := true));
  }

  // ---- What a write puts on the wire ---------------------------------------

  // The application bytes carried by DATA frames.
  function Payloads(frames: seq<Frame>): seq<byte> {
    if frames == [] then []
    else (if frames[0].kind == DATA then frames[0].payload else []) + Payloads(frames[1..])
  }

  lemma {:induction false} PayloadsAppend(a: seq<Frame>, b: seq<Frame>)
    ensures Payloads(a + b) == Payloads(a) + Payloads(b)
  {
    if a == [] {
      assert a + b == b;
    } else {
      assert (a + b)[1..] == a[1..] + b;
      PayloadsAppend(a[1..], b);
    }
  }

  // Splitting a write neither loses nor reorders a byte, and every piece is a
  // valid DATA frame of its stream.
  lemma {:induction false} ChunksCarry(id: Word, p: seq<byte>)
    ensures Payloads(Chunks(id, p)) == p
    ensures forall f :: f in Chunks(id, p) ==> f.kind == DATA && f.stream == id && 0 < |f.payload| <= MAX_DATA_PAYLOAD
    ensures Chunks(id, p) == [] <==> p == []
    decreases |p|
  {
    if p != [] {
      var n := Min(|p|, MAX_DATA_PAYLOAD);
      ChunksCarry(id, p[n..]);
      assert p == p[..n] + p[n..];
      assert Chunks(id, p)[1..] == Chunks(id, p[n..]);
    }
  }

  lemma {:induction false} ChunksAppend(id: Word, p: seq<byte>, q: seq<byte>)
    requires |p| % MAX_DATA_PAYLOAD == 0
    ensures Chunks(id, p + q) == Chunks(id, p) + Chunks(id, q)
    decreases |p|
  {
    if p == [] {
      assert p + q == q;
    } else {
      assert |p| >= MAX_DATA_PAYLOAD;
      assert (p + q)[..MAX_DATA_PAYLOAD] == p[..MAX_DATA_PAYLOAD];
      assert (p + q)[MAX_DATA_PAYLOAD..] == p[MAX_DATA_PAYLOAD..] + q;
      ChunksAppend(id, p[MAX_DATA_PAYLOAD..], q);
    }
  }

}
