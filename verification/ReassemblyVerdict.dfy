// Which packets a receiver takes, said in terms of the bytes it holds, and what
// becomes of a whole batch of packets ahead of a gap.
module ReassemblyVerdict {
  import opened Bytes
  import opened Fragments
  import opened Reassembly
  import opened ReassemblyMap
  import opened TrueSlices

  // ---- How many bytes are held ---------------------------------------------

  ghost function Interval(lo: nat, hi: nat): (s: set<nat>)
    requires lo <= hi
    ensures |s| == hi - lo
    ensures forall o: nat :: o in s <==> lo <= o < hi
    decreases hi
  {
    if lo == hi then {} else Interval(lo, hi - 1) + {hi - 1}
  }

  // Disjoint fragments hold as many bytes as their lengths add up to.
  lemma {:induction false} HeldSize(p: Store)
    requires Disjoint(p)
    ensures |Held(p)| == Total(p)
    decreases |p|
  {
    hide Held, Total;
    if p == map[] {
      EmptyTotal();
      assert Held(p) == map[] by {
        forall o: nat ensures o !in Held(p) { if o in Held(p) { var k := HeldOwner(p, o); } }
      }
    } else {
      var k: nat :| k in p;
      TotalRemove(p, k);
      HeldSize(Without(p, k));
      HeldOneMore(p, k);
    }
  }

  lemma HeldOneMore(p: Store, k: nat)
    requires Disjoint(p) && k in p
    ensures |Held(p)| == |Held(Without(p, k))| + |p[k]|
  {
    hide Held, PacketMap, Disjoint;
    var rest, bytes := Without(p, k), PacketMap(0, k, p[k]);
    assert p == rest[k := p[k]];
    HeldInsert(rest, k, p[k]);
    BytesOfPacket(0, k, p[k]);
    DisjointSum(Held(rest), bytes, Held(p));
  }

  lemma DisjointSum(a: map<nat, byte>, b: map<nat, byte>, c: map<nat, byte>)
    requires c.Keys == a.Keys + b.Keys && a.Keys !! b.Keys
    ensures |c| == |a| + |b|
  {
    assert |c.Keys| == |a.Keys| + |b.Keys|;
    assert |c| == |c.Keys| && |a| == |a.Keys| && |b| == |b.Keys|;
  }

  lemma BytesOfPacket(next: nat, start: nat, payload: seq<byte>)
    requires next <= start + |payload|
    ensures PacketMap(next, start, payload).Keys == Interval(if next <= start then start else next, start + |payload|)
  {
    var keys := PacketMap(next, start, payload).Keys;
    var same := Interval(if next <= start then start else next, start + |payload|);
    forall o: nat ensures o in keys <==> o in same {
      assert Carries(next, start, payload, o) <==> o in same;
    }
  }

  // ---- The verdict ---------------------------------------------------------

  // A byte of the packet is already held, or is held with another value.
  ghost predicate Meets(held: map<nat, byte>, from: nat, to: nat) {
    exists o :: o in held && from <= o < to
  }

  ghost predicate Contradicts(held: map<nat, byte>, next: nat, start: nat, payload: seq<byte>) {
    exists o :: o in held && Carries(next, start, payload, o) && held[o] != payload[o - start]
  }

  // The verdict on every packet, from the bytes held and, ahead of a gap, the
  // number of fragments: exactly these are refused, kept, or delivered.
  lemma AcceptVerdict(r: Receiver, window: nat, start: nat, payload: seq<byte>)
    requires WellFormed(r, window) && |payload| > 0
    ensures var end, held := start + |payload|, Held(r.pending);
            var (q, v) := Accept(r, window, start, payload);
            if end > MAX_U64 then v == SequenceExhausted
            else if end <= r.next || end > r.next + window then v == Rejected
            else if start > r.next then
              v == if !Meets(held, start, end) && |r.buf| + |held| + |payload| <= window && |r.pending| < MAX_FRAGMENTS
                   then Buffered else Rejected
            else if Contradicts(held, r.next, start, payload) then v == Conflict
            else if |r.buf| + |Known(r, start, payload)| > window then v == Rejected
            else v == Advanced(1 + |FragmentsIn(Beyond(r.pending, end), end, q.next)|)
  {
    hide Held, Overlapped, Conflicting, Total, Beyond, Known, Drain, Orderly, Meets, Contradicts, FragmentsIn;
    var end := start + |payload|;
    HeldSize(r.pending) by { PendingDisjoint(r, window); }
    if end <= MAX_U64 && r.next < end <= r.next + window {
      if start > r.next {
        OverlapMeets(r.pending, start, end) by { PendingDisjoint(r, window); }
      } else {
        var unseen := Unseen(r.next, start, payload);
        ConflictContradicts(r, window, start, payload);
        RoomNeeded(r, window, start, payload);
        if AcceptNext(r, window, unseen).1.Advanced? {
          FilledDraining(r, window, unseen);
          DrainCounted(Filled(r, end, unseen), 1, window);
        }
      }
    }
  }

  lemma PendingDisjoint(r: Receiver, window: nat)
    requires WellFormed(r, window)
    ensures Disjoint(r.pending) && NoneEmpty(r.pending) && Within(r.pending, r.next, WindowEnd(r, window))
    ensures Within(r.pending, r.next, MAX_U64)
  {}

  lemma OverlapMeets(p: Store, start: nat, end: nat)
    requires Disjoint(p) && NoneEmpty(p) && start < end
    ensures Overlapped(p, start, end) <==> Meets(Held(p), start, end)
  {
    hide Held, ByteAt;
    if k: nat :| Overlapping(p, k, start, end) {
      assert Overlapping(p, k, start, end);
      var o := if k < start then start else k;
      HeldAt(p, k, o);
    }
    if o :| o in Held(p) && start <= o < end {
      assert o in Held(p);
      var k := HeldOwner(p, o);
      assert Overlapping(p, k, start, end);
    }
  }

  lemma ConflictContradicts(r: Receiver, window: nat, start: nat, payload: seq<byte>)
    requires WellFormed(r, window) && start <= r.next < start + |payload|
    ensures Conflicting(r.pending, r.next, Unseen(r.next, start, payload))
            <==> Contradicts(Held(r.pending), r.next, start, payload)
  {
    hide Held, Orderly, Disagrees;
    PendingDisjoint(r, window);
    var p, unseen := r.pending, Unseen(r.next, start, payload);
    if k: nat :| Disagrees(p, k, r.next, unseen) {
      assert Disagrees(p, k, r.next, unseen);
      var o := DifferentByte(p, r.next, start, payload, k);
    }
    if o :| o in Held(p) && Carries(r.next, start, payload, o) && Held(p)[o] != payload[o - start] {
      assert o in Held(p);
      var k := DifferentFragment(p, r.next, start, payload, o);
      assert Disagrees(p, k, r.next, unseen);
    }
  }

  lemma DifferentByte(p: Store, next: nat, start: nat, payload: seq<byte>, k: nat) returns (o: nat)
    requires Disjoint(p) && start <= next < start + |payload| && Disagrees(p, k, next, Unseen(next, start, payload))
    ensures o in Held(p) && Carries(next, start, payload, o) && Held(p)[o] != payload[o - start]
  {
    hide Held, Disjoint;
    var unseen := Unseen(next, start, payload);
    var n := Min(next + |unseen|, k + |p[k]|) - k;
    var i := FirstDifference(unseen[k - next..k - next + n], p[k][..n]);
    o := k + i;
    HeldAt(p, k, o);
  }

  lemma DifferentFragment(p: Store, next: nat, start: nat, payload: seq<byte>, o: nat) returns (k: nat)
    requires Disjoint(p) && Within(p, next, MAX_U64) && start <= next < start + |payload|
    requires o in Held(p) && Carries(next, start, payload, o) && Held(p)[o] != payload[o - start]
    ensures Disagrees(p, k, next, Unseen(next, start, payload))
  {
    hide Held, Disjoint;
    var unseen := Unseen(next, start, payload);
    k := HeldOwner(p, o);
    HeldAt(p, k, o);
    var n := Min(next + |unseen|, k + |p[k]|) - k;
    assert unseen[k - next..k - next + n][o - k] != p[k][..n][o - k];
  }

  lemma FirstDifference(a: seq<byte>, b: seq<byte>) returns (i: nat)
    requires |a| == |b| && a != b
    ensures i < |a| && a[i] != b[i]
  {
    i :| 0 <= i < |a| && a[i] != b[i];
  }

  // What a contiguous packet makes known: itself, and what is held beyond its end.
  lemma RoomNeeded(r: Receiver, window: nat, start: nat, payload: seq<byte>)
    requires WellFormed(r, window) && start <= r.next < start + |payload|
    ensures |Known(r, start, payload)|
            == r.pendingBytes + |Unseen(r.next, start, payload)| - Overlap(r.pending, start + |payload|)
  {
    hide Held, Beyond, Clip, Total, Known, Later, Orderly;
    var end := start + |payload|;
    PendingDisjoint(r, window);
    assert r.pendingBytes == Total(r.pending);
    CutConserves(r.pending, end);
    HeldFrom(r, window, end);
    assert forall o :: o in Held(r.pending) ==> o >= r.next by { HeldAhead(r, window); }
    KnownInTwo(r, start, payload);
  }

  lemma HeldFrom(r: Receiver, window: nat, end: nat)
    requires WellFormed(r, window)
    ensures |Later(Held(r.pending), end)| == Total(Beyond(r.pending, end))
  {
    hide Held, Beyond, Total, Later;
    PendingDisjoint(r, window);
    WithinFromZero(r.pending, r.next, WindowEnd(r, window));
    BeyondShape(r.pending, end, WindowEnd(r, window));
    HeldSize(Beyond(r.pending, end));
    HeldBeyond(r.pending, end);
  }

  lemma HeldAhead(r: Receiver, window: nat)
    requires WellFormed(r, window)
    ensures forall o :: o in Held(r.pending) ==> o >= r.next
  {
    hide Held, Total;
    forall o | o in Held(r.pending) ensures o >= r.next {
      var k := HeldOwner(r.pending, o);
    }
  }

  lemma KnownInTwo(r: Receiver, start: nat, payload: seq<byte>)
    requires start <= r.next < start + |payload| && forall o :: o in Held(r.pending) ==> o >= r.next
    ensures |Known(r, start, payload)| == start + |payload| - r.next + |Later(Held(r.pending), start + |payload|)|
  {
    hide Held, PacketMap;
    var packet, later := PacketMap(r.next, start, payload), Later(Held(r.pending), start + |payload|);
    BytesOfPacket(r.next, start, payload);
    assert Known(r, start, payload).Keys == packet.Keys + later.Keys;
    DisjointSum(packet, later, Known(r, start, payload));
    assert |packet| == |packet.Keys|;
  }

  lemma WithinFromZero(p: Store, lo: nat, hi: nat)
    requires Within(p, lo, hi)
    ensures Within(p, 0, hi)
  {}

  // Fragments that start in an interval.
  ghost function FragmentsIn(p: Store, from: nat, to: nat): set<nat> {
    set k | k in p && from <= k < to
  }

  // Draining counts the fragments it hands over.
  lemma {:induction false} DrainCounted(r: Receiver, packets: nat, window: nat)
    requires Draining(r, window)
    ensures var (q, n) := Drain(r, packets);
            q.next >= r.next && n == packets + |FragmentsIn(r.pending, r.next, q.next)|
    decreases |r.pending|
  {
    hide Total;
    var q := Drain(r, packets).0;
    if r.next in r.pending {
      var m := Deliver(r);
      DeliverKeepsWindow(r, window);
      DrainCounted(m, packets + 1, window);
      forall k ensures k in FragmentsIn(r.pending, r.next, q.next) <==> k == r.next || k in FragmentsIn(m.pending, m.next, q.next) {
        if k in m.pending { assert k in r.pending; }
      }
      assert FragmentsIn(r.pending, r.next, q.next) == {r.next} + FragmentsIn(m.pending, m.next, q.next);
    } else {
      assert FragmentsIn(r.pending, r.next, r.next) == {};
    }
  }

  // ---- A batch of packets ahead of a gap -----------------------------------

  datatype Slice = Slice(start: nat, payload: seq<byte>)

  ghost function AcceptAll(r: Receiver, window: nat, batch: seq<Slice>): Receiver {
    if batch == [] then r
    else
      var last := batch[|batch| - 1];
      Accept(AcceptAll(r, window, batch[..|batch| - 1]), window, last.start, last.payload).0
  }

  predicate Covers(batch: seq<Slice>, o: nat) {
    exists i :: 0 <= i < |batch| && batch[i].start <= o < batch[i].start + |batch[i].payload|
  }

  // Non-empty packets ahead of `next`, up to `limit`, no two of which overlap.
  predicate Apart(batch: seq<Slice>, next: nat, limit: nat) {
    && (forall i :: 0 <= i < |batch| ==>
          |batch[i].payload| > 0 && next < batch[i].start && batch[i].start + |batch[i].payload| <= limit)
    && (forall i, j :: 0 <= i < j < |batch| ==>
          || batch[i].start + |batch[i].payload| <= batch[j].start
          || batch[j].start + |batch[j].payload| <= batch[i].start)
  }

  // The store is the batch.
  ghost predicate Kept(p: Store, batch: seq<Slice>) {
    && |p| == |batch|
    && (forall i :: 0 <= i < |batch| ==> batch[i].start in p && p[batch[i].start] == batch[i].payload)
    && (forall k :: k in p ==> exists i :: 0 <= i < |batch| && batch[i].start == k)
  }

  lemma KeptAndOneMore(p: Store, batch: seq<Slice>)
    requires batch != [] && Kept(p, batch[..|batch| - 1]) && batch[|batch| - 1].start !in p
    ensures Kept(p[batch[|batch| - 1].start := batch[|batch| - 1].payload], batch)
  {
    var before, last := batch[..|batch| - 1], batch[|batch| - 1];
    var q := p[last.start := last.payload];
    forall k | k in q ensures exists i :: 0 <= i < |batch| && batch[i].start == k {
      if k in p {
        var i :| 0 <= i < |before| && before[i].start == k;
        assert batch[i].start == k;
      } else {
        assert batch[|batch| - 1].start == k;
      }
    }
    forall i | 0 <= i < |batch| ensures batch[i].start in q && q[batch[i].start] == batch[i].payload {
      if i < |before| { assert before[i] == batch[i]; }
    }
  }

  // With nothing retained, a batch of at most 128 packets that do not overlap and end
  // in what the unread bytes leave of the window is kept whole, in whatever order it
  // comes.
  lemma {:induction false} BatchIsKept(r: Receiver, window: nat, batch: seq<Slice>, limit: nat)
    requires WellFormed(r, window) && r.pending == map[]
    requires Apart(batch, r.next, limit) && |batch| <= MAX_FRAGMENTS
    requires |r.buf| <= window && r.next <= limit <= MAX_U64 && limit <= r.next + window - |r.buf|
    ensures var q := AcceptAll(r, window, batch);
            && WellFormed(q, window) && q.next == r.next && q.buf == r.buf
            && Within(q.pending, r.next, limit) && Kept(q.pending, batch)
    decreases |batch|
  {
    if batch != [] {
      hide Held, Total, WellFormed, Accept, Kept;
      var before := batch[..|batch| - 1];
      var m := AcceptAll(r, window, before);
      ApartBefore(batch, r.next, limit);
      BatchIsKept(r, window, before, limit);
      OneMore(m, window, batch, limit);
      KeptAndOneMore(m.pending, batch);
    } else {
      assert AcceptAll(r, window, batch) == r;
    }
  }

  lemma ApartBefore(batch: seq<Slice>, next: nat, limit: nat)
    requires batch != [] && Apart(batch, next, limit)
    ensures Apart(batch[..|batch| - 1], next, limit)
  {}

  lemma OneMore(m: Receiver, window: nat, batch: seq<Slice>, limit: nat)
    requires batch != [] && WellFormed(m, window) && Apart(batch, m.next, limit) && |batch| <= MAX_FRAGMENTS
    requires Within(m.pending, m.next, limit) && Kept(m.pending, batch[..|batch| - 1])
    requires |m.buf| <= window && m.next <= limit <= MAX_U64 && limit <= m.next + window - |m.buf|
    ensures var last := batch[|batch| - 1];
            var (q, v) := Accept(m, window, last.start, last.payload);
            && v == Buffered && last.start !in m.pending && WellFormed(q, window)
            && q.next == m.next && q.buf == m.buf && q.pending == m.pending[last.start := last.payload]
            && Within(q.pending, m.next, limit)
  {
    hide Total, Kept, Orderly, Apart, Overlapped;
    var last := batch[|batch| - 1];
    ClearOfBatch(m.pending, batch, m.next, limit);
    RoomForOne(m, window, last, limit);
    AcceptKeepsWindow(m, window, last.start, last.payload);
  }

  lemma ClearOfBatch(p: Store, batch: seq<Slice>, next: nat, limit: nat)
    requires batch != [] && Apart(batch, next, limit) && Kept(p, batch[..|batch| - 1])
    ensures var last := batch[|batch| - 1];
            && |last.payload| > 0 && next < last.start && last.start + |last.payload| <= limit
            && |p| == |batch| - 1 && !Overlapped(p, last.start, last.start + |last.payload|)
  {
    var last, before := batch[|batch| - 1], batch[..|batch| - 1];
    var end := last.start + |last.payload|;
    forall k ensures !Overlapping(p, k, last.start, end) {
      if k in p {
        var i :| 0 <= i < |before| && before[i].start == k;
        assert batch[i] == before[i];
      }
    }
  }

  lemma RoomForOne(m: Receiver, window: nat, s: Slice, limit: nat)
    requires WellFormed(m, window) && |m.pending| < MAX_FRAGMENTS && Within(m.pending, m.next, limit)
    requires |m.buf| <= window && m.next <= limit <= MAX_U64 && limit <= m.next + window - |m.buf|
    requires |s.payload| > 0 && m.next < s.start && s.start + |s.payload| <= limit
    requires !Overlapped(m.pending, s.start, s.start + |s.payload|)
    ensures s.start !in m.pending && Within(m.pending[s.start := s.payload], m.next, limit)
    ensures |m.buf| + m.pendingBytes + |s.payload| <= window
  {
    hide Total, Overlapped;
    InsertOrderly(m.pending, m.next, WindowEnd(m, window), s.start, s.payload);
    TotalInsert(m.pending, s.start, s.payload);
    Pigeonhole(m.pending[s.start := s.payload], m.next, limit);
  }

  // Then a packet that fills the gap, agreeing with the batch because all are parts of
  // one stream, delivers the stream up to the first byte nobody has sent.
  lemma GapFillDeliversAll(stream: seq<byte>, r: Receiver, window: nat, batch: seq<Slice>, gap: Slice, limit: nat, upTo: nat)
    requires WellFormed(r, window) && Faithful(stream, r) && r.pending == map[]
    requires Apart(batch, r.next, limit) && |batch| <= MAX_FRAGMENTS
    requires |r.buf| <= window && r.next <= limit <= MAX_U64 && limit <= r.next + window - |r.buf|
    requires gap.start <= r.next < gap.start + |gap.payload| <= limit
    requires IsSlice(stream, gap.start, gap.payload)
    requires forall i :: 0 <= i < |batch| ==> IsSlice(stream, batch[i].start, batch[i].payload)
    requires forall o :: gap.start + |gap.payload| <= o < upTo ==> Covers(batch, o)
    ensures var (q, v) := Accept(AcceptAll(r, window, batch), window, gap.start, gap.payload);
            && v.Advanced? && upTo <= q.next && r.next <= q.next <= |stream| && q.buf == r.buf + stream[r.next..q.next]
  {
    hide Held, Total, Orderly;
    BatchIsKept(r, window, batch, limit);
    var m := AcceptAll(r, window, batch);
    assert Faithful(stream, m) by {
      forall k | k in m.pending ensures IsSlice(stream, k, m.pending[k]) {
        var i :| 0 <= i < |batch| && batch[i].start == k;
      }
    }
    AcceptDeliversStream(stream, m, window, gap.start, gap.payload);
    AcceptRefinesMap(m, window, gap.start, gap.payload);
    AcceptVerdict(m, window, gap.start, gap.payload);
    KnownFits(m, window, gap, limit);
    AllAreKnown(m, window, batch, gap, upTo);
  }

  lemma KnownFits(m: Receiver, window: nat, gap: Slice, limit: nat)
    requires WellFormed(m, window) && Within(m.pending, m.next, limit)
    requires gap.start <= m.next < gap.start + |gap.payload| <= limit
    ensures |Known(m, gap.start, gap.payload)| <= limit - m.next
  {
    hide Held, ByteAt;
    var keys := Known(m, gap.start, gap.payload).Keys;
    forall o | o in keys ensures m.next <= o < limit {
      if o in Held(m.pending) { var k := HeldOwner(m.pending, o); }
    }
    SubsetSize(keys, Interval(m.next, limit));
    assert |Known(m, gap.start, gap.payload)| == |keys|;
  }

  lemma AllAreKnown(m: Receiver, window: nat, batch: seq<Slice>, gap: Slice, upTo: nat)
    requires WellFormed(m, window) && gap.start <= m.next < gap.start + |gap.payload|
    requires Kept(m.pending, batch)
    requires forall o :: gap.start + |gap.payload| <= o < upTo ==> Covers(batch, o)
    ensures forall o :: m.next <= o < upTo ==> o in Known(m, gap.start, gap.payload)
  {
    hide Held, ByteAt;
    PendingDisjoint(m, window);
    forall o | m.next <= o < upTo ensures o in Known(m, gap.start, gap.payload) {
      if o < gap.start + |gap.payload| {
        assert Carries(m.next, gap.start, gap.payload, o);
      } else {
        assert Covers(batch, o);
        var i :| 0 <= i < |batch| && batch[i].start <= o < batch[i].start + |batch[i].payload|;
        HeldAt(m.pending, batch[i].start, o);
      }
    }
  }
}
