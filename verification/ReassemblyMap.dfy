// Reassembly means: add the packet's bytes to a map from offsets to bytes,
// then hand over the longest contiguous run.
module ReassemblyMap {
  import opened Bytes
  import opened Fragments
  import opened Reassembly

  // Everything known about the stream from `next` on once the packet is seen.
  ghost function Known(r: Receiver, start: nat, payload: seq<byte>): map<nat, byte> {
    Held(r.pending) + PacketMap(r.next, start, payload)
  }

  ghost function PacketMap(next: nat, start: nat, payload: seq<byte>): map<nat, byte> {
    map o: nat | start <= o < start + |payload| && Carries(next, start, payload, o) :: payload[o - start]
  }

  ghost predicate Carries(next: nat, start: nat, payload: seq<byte>, o: nat) {
    next <= o && start <= o < start + |payload|
  }

  ghost predicate AllKnown(known: map<nat, byte>, from: nat, to: nat) {
    from <= to && forall o: nat :: from <= o < to ==> o in known
  }

  ghost function Run(known: map<nat, byte>, from: nat, to: nat): (s: seq<byte>)
    requires AllKnown(known, from, to)
    ensures |s| == to - from
  {
    seq(to - from, i requires 0 <= i < to - from => known[from + i])
  }

  ghost function Later(known: map<nat, byte>, from: nat): map<nat, byte> {
    map o | o in known && o >= from :: known[o]
  }

  // From r to q: the longest run of known bytes was delivered, and exactly the
  // known bytes beyond it are retained.
  ghost predicate Delivers(r: Receiver, known: map<nat, byte>, q: Receiver) {
    && AllKnown(known, r.next, q.next)
    && q.next !in known
    && q.buf == r.buf + Run(known, r.next, q.next)
    && Held(q.pending) == Later(known, q.next)
  }

  lemma DeliversInTwoSteps(r: Receiver, known: map<nat, byte>, m: Receiver, q: Receiver)
    requires AllKnown(known, r.next, m.next)
    requires m.buf == r.buf + Run(known, r.next, m.next)
    requires Delivers(m, Later(known, m.next), q)
    ensures Delivers(r, known, q)
  {
    var later := Later(known, m.next);
    assert AllKnown(later, m.next, q.next);
    forall o: nat | r.next <= o < q.next ensures o in known {
      if o >= m.next { assert o in later; }
    }
    assert Run(known, r.next, q.next) == Run(known, r.next, m.next) + Run(later, m.next, q.next);
    assert Later(known, q.next) == Later(later, q.next);
    assert q.next in known ==> q.next in later;
  }

  // Removing the fragment at `lo` leaves what is held beyond it.
  lemma HeldWithoutFirst(p: Store, lo: nat, hi: nat)
    requires Orderly(p, lo, hi) && lo in p
    ensures Held(Without(p, lo)) == Later(Held(p), lo + |p[lo]|)
    ensures AllKnown(Held(p), lo, lo + |p[lo]|) && Run(Held(p), lo, lo + |p[lo]|) == p[lo]
  {
    hide Held, ByteAt;
    var end := lo + |p[lo]|;
    var rest := Without(p, lo);
    forall o: nat ensures o in Held(rest) <==> o in Later(Held(p), end) {
      HeldWithoutFirstAt(p, lo, hi, o);
    }
    forall o: nat | o in Held(rest) ensures Held(rest)[o] == Later(Held(p), end)[o] {
      HeldWithoutFirstAt(p, lo, hi, o);
    }
    forall o: nat | lo <= o < end ensures o in Held(p) && Held(p)[o] == p[lo][o - lo] {
      HeldAt(p, lo, o);
    }
  }

  lemma HeldAt(p: Store, k: nat, o: nat)
    requires Disjoint(p) && k in p && k <= o < k + |p[k]|
    ensures o in Held(p) && Held(p)[o] == p[k][o - k]
  {
    assert Holds(p, k, o);
    OwnerUnique(p, k, o);
  }

  lemma HeldOwner(p: Store, o: nat) returns (k: nat)
    requires o in Held(p)
    ensures k in p && k <= o < k + |p[k]|
  {
    k :| Holds(p, k, o);
    assert Holds(p, k, o);
  }

  lemma HeldWithoutFirstAt(p: Store, lo: nat, hi: nat, o: nat)
    requires Orderly(p, lo, hi) && lo in p
    ensures o in Held(Without(p, lo)) <==> o in Held(p) && o >= lo + |p[lo]|
    ensures o in Held(Without(p, lo)) ==> o in Held(p) && Held(Without(p, lo))[o] == Held(p)[o]
  {
    hide Held, ByteAt;
    var rest := Without(p, lo);
    if o in Held(rest) {
      var k := HeldOwner(rest, o);
      HeldAt(rest, k, o);
      HeldAt(p, k, o);
    } else if o in Held(p) && o >= lo + |p[lo]| {
      var k := HeldOwner(p, o);
      HeldAt(rest, k, o);
    }
  }

  lemma {:induction false} DrainDelivers(r: Receiver, packets: nat, window: nat)
    requires Draining(r, window)
    ensures Delivers(r, Held(r.pending), Drain(r, packets).0)
    decreases |r.pending|
  {
    hide Held, Without, Total, Later, Run, Delivers;
    if r.next in r.pending {
      var m := Deliver(r);
      DeliverKeepsWindow(r, window);
      DrainDelivers(m, packets + 1, window);
      HeldWithoutFirst(r.pending, r.next, WindowEnd(r, window));
      DeliversInTwoSteps(r, Held(r.pending), m, Drain(r, packets).0);
    } else {
      NothingToDeliver(r, window);
    }
  }

  lemma NothingToDeliver(r: Receiver, window: nat)
    requires Draining(r, window) && r.next !in r.pending
    ensures Delivers(r, Held(r.pending), r)
  {
    hide Held, ByteAt;
    if r.next in Held(r.pending) { var k := HeldOwner(r.pending, r.next); }
    forall o: nat | o in Held(r.pending) ensures o >= r.next {
      var k := HeldOwner(r.pending, o);
    }
    assert Run(Held(r.pending), r.next, r.next) == [];
    assert Later(Held(r.pending), r.next) == Held(r.pending);
  }

  // The packet's bytes come first, and what is held beyond its end survives.
  lemma FilledKnows(r: Receiver, start: nat, payload: seq<byte>, window: nat)
    requires WellFormed(r, window) && start <= r.next < start + |payload|
    ensures var end, known := start + |payload|, Known(r, start, payload);
            && AllKnown(known, r.next, end)
            && Run(known, r.next, end) == Unseen(r.next, start, payload)
            && Held(Beyond(r.pending, end)) == Later(known, end)
  {
    hide Beyond, Held, ByteAt, Known, Later, Run;
    PacketKnown(r, start, payload);
    HeldBeyond(r.pending, start + |payload|);
  }

  lemma PacketKnown(r: Receiver, start: nat, payload: seq<byte>)
    requires start <= r.next < start + |payload|
    ensures var end, known := start + |payload|, Known(r, start, payload);
            && AllKnown(known, r.next, end)
            && Run(known, r.next, end) == Unseen(r.next, start, payload)
            && Later(Held(r.pending), end) == Later(known, end)
  {
    hide Held;
    var end, known := start + |payload|, Known(r, start, payload);
    forall o: nat | r.next <= o < end ensures o in known && known[o] == payload[o - start] {
      assert Carries(r.next, start, payload, o);
    }
    assert Run(known, r.next, end) == Unseen(r.next, start, payload);
    assert Later(Held(r.pending), end) == Later(known, end);
  }

  lemma HeldBeyond(p: Store, cut: nat)
    requires Disjoint(p)
    ensures Held(Beyond(p, cut)) == Later(Held(p), cut)
  {
    hide Beyond, ByteAt;
    forall o: nat ensures o in Held(Beyond(p, cut)) <==> o in Later(Held(p), cut) {
      BeyondHolds(p, cut, o);
    }
    forall o: nat | o in Later(Held(p), cut) ensures Held(Beyond(p, cut))[o] == Held(p)[o] {
      BeyondHolds(p, cut, o);
    }
  }

  // An accepted packet does to the receiver exactly what it does to the map;
  // nothing retained is altered by it. Any other verdict changes nothing.
  lemma AcceptRefinesMap(r: Receiver, window: nat, start: nat, payload: seq<byte>)
    requires WellFormed(r, window) && |payload| > 0
    ensures var (q, v) := Accept(r, window, start, payload);
            if v.Advanced? || v.Buffered? then
              && Delivers(r, Known(r, start, payload), q)
              && (forall o :: o in Held(r.pending) ==> Known(r, start, payload)[o] == Held(r.pending)[o])
            else q == r
  {
    hide Held, Beyond, Total, Clip, Delivers, Known, Later, Run, Drain;
    var end := start + |payload|;
    if r.next < end <= WindowEnd(r, window) {
      if start > r.next {
        AheadRefinesMap(r, window, start, payload);
      } else {
        NextRefinesMap(r, window, start, payload);
      }
    }
  }

  lemma NextRefinesMap(r: Receiver, window: nat, start: nat, payload: seq<byte>)
    requires WellFormed(r, window) && start <= r.next < start + |payload| <= WindowEnd(r, window)
    ensures var (q, v) := AcceptNext(r, window, Unseen(r.next, start, payload));
            if v.Advanced? then
              && Delivers(r, Known(r, start, payload), q)
              && (forall o :: o in Held(r.pending) ==> Known(r, start, payload)[o] == Held(r.pending)[o])
            else q == r
  {
    hide Held, Beyond, Total, Clip, Delivers, Known, Later, Run;
    var unseen := Unseen(r.next, start, payload);
    if AcceptNext(r, window, unseen).1.Advanced? {
      var m := Filled(r, start + |payload|, unseen);
      FilledDraining(r, window, unseen);
      DrainDelivers(m, 1, window);
      FilledKnows(r, start, payload, window);
      DeliversInTwoSteps(r, Known(r, start, payload), m, Drain(m, 1).0);
      AgreementKeepsHeld(r, start, payload, window);
    }
  }

  lemma AgreementKeepsHeld(r: Receiver, start: nat, payload: seq<byte>, window: nat)
    requires WellFormed(r, window) && start <= r.next < start + |payload|
    requires !Conflicting(r.pending, r.next, Unseen(r.next, start, payload))
    ensures forall o :: o in Held(r.pending) ==> Known(r, start, payload)[o] == Held(r.pending)[o]
  {
    hide Held, ByteAt, Disjoint, NoneEmpty, Total;
    var p, unseen, end := r.pending, Unseen(r.next, start, payload), start + |payload|;
    forall o: nat | o in Held(p) ensures Known(r, start, payload)[o] == Held(p)[o] {
      if o < end {
        var k := HeldOwner(p, o);
        HeldAt(p, k, o);
        assert !Disagrees(p, k, r.next, unseen);
        var n := Min(end, k + |p[k]|) - k;
        assert unseen[k - r.next..k - r.next + n][o - k] == p[k][..n][o - k];
      }
    }
  }

  lemma AheadRefinesMap(r: Receiver, window: nat, start: nat, payload: seq<byte>)
    requires WellFormed(r, window) && |payload| > 0
    requires r.next < start && start + |payload| <= WindowEnd(r, window)
    ensures var (q, v) := AcceptAhead(r, window, start, payload);
            if v.Buffered? then
              && Delivers(r, Known(r, start, payload), q)
              && (forall o :: o in Held(r.pending) ==> Known(r, start, payload)[o] == Held(r.pending)[o])
            else q == r
  {
    hide Held, ByteAt, Total, Delivers, NoneEmpty, Within, Disjoint, PacketMap;
    var p := r.pending;
    if AcceptAhead(r, window, start, payload).1.Buffered? {
      InsertOrderly(p, r.next, WindowEnd(r, window), start, payload);
      assert Disjoint(p[start := payload]);
      HeldInsert(p, start, payload);
      var q := AcceptAhead(r, window, start, payload).0;
      AheadKeepsWindow(r, window, start, payload);
      AllAhead(r.next, start, payload);
      NothingToDeliver(q, window);
      assert Delivers(r, Known(r, start, payload), q) by { DeliversNothing(r, q, Known(r, start, payload)); }
    }
  }

  lemma AllAhead(next: nat, start: nat, payload: seq<byte>)
    requires next <= start
    ensures PacketMap(next, start, payload) == PacketMap(0, start, payload)
  {
    forall o: nat ensures Carries(next, start, payload, o) <==> Carries(0, start, payload, o) {}
  }

  // Delivering nothing depends on the other fields only.
  lemma DeliversNothing(r: Receiver, q: Receiver, known: map<nat, byte>)
    requires Delivers(q, known, q) && r.next == q.next && r.buf == q.buf
    ensures Delivers(r, known, q)
  {}

  lemma HeldInsert(p: Store, start: nat, payload: seq<byte>)
    requires start !in p && Disjoint(p[start := payload])
    ensures Held(p[start := payload]) == Held(p) + PacketMap(0, start, payload)
    ensures forall o :: o in Held(p) ==> o !in PacketMap(0, start, payload)
  {
    hide Held, ByteAt, PacketMap, Disjoint;
    var q := p[start := payload];
    var bytes := PacketMap(0, start, payload);
    forall o: nat
      ensures o in Held(q) <==> o in Held(p) || o in bytes
      ensures o in Held(p) ==> o !in bytes && Held(q)[o] == Held(p)[o]
      ensures o in bytes ==> Held(q)[o] == bytes[o]
    {
      HeldInsertAt(p, start, payload, o);
    }
    assert Held(q) == Held(p) + bytes;
  }

  lemma HeldInsertAt(p: Store, start: nat, payload: seq<byte>, o: nat)
    requires start !in p && Disjoint(p[start := payload])
    ensures var q, bytes := p[start := payload], PacketMap(0, start, payload);
            && (o in Held(q) <==> o in Held(p) || o in bytes)
            && (o in Held(p) ==> o !in bytes && Held(q)[o] == Held(p)[o])
            && (o in bytes ==> Held(q)[o] == bytes[o])
  {
    hide Held, ByteAt;
    var q := p[start := payload];
    assert Disjoint(p) by {
      forall j: nat, k: nat | j in p && k in p && j < k ensures j + |p[j]| <= k {
        assert j in q && k in q;
      }
    }
    if o in Held(p) {
      var k := HeldOwner(p, o);
      HeldAt(p, k, o);
      HeldAt(q, k, o);
      assert start in q;
    } else if start <= o < start + |payload| {
      assert Carries(0, start, payload, o);
      HeldAt(q, start, o);
    } else if o in Held(q) {
      var k := HeldOwner(q, o);
      HeldAt(p, k, o);
    }
  }

}
