// What one DATA packet does to a receiver: the function the link session's
// packet acceptance is proved against, and the laws of that function.
module Reassembly {
  import opened Bytes
  import opened Fragments

  // The reordering store never holds more fragments than a full flight window.
  const MAX_FRAGMENTS: nat := 128

  // `next` is the contiguous offset reached, `buf` the bytes delivered but not
  // yet read, `pending` the fragments ahead of a gap. `pendingBytes` and
  // `dataRX` (the unique bytes received) are counters kept beside them.
  datatype Receiver = Receiver(next: nat, buf: seq<byte>, pending: Store, pendingBytes: int, dataRX: int)

  datatype Verdict =
    | Advanced(packets: nat)
    | Buffered
    | Rejected
    | SequenceExhausted
    | Conflict

  // Non-empty, pairwise disjoint fragments inside [lo, hi).
  ghost predicate Orderly(p: Store, lo: nat, hi: nat) {
    Disjoint(p) && NoneEmpty(p) && Within(p, lo, hi) && |p| <= MAX_FRAGMENTS
  }

  function WindowEnd(r: Receiver, window: nat): nat {
    if r.next + window <= MAX_U64 then r.next + window else MAX_U64
  }

  // The invariant, but for a fragment that may start exactly at `next`.
  ghost predicate Draining(r: Receiver, window: nat) {
    && r.next <= MAX_U64
    && Orderly(r.pending, r.next, WindowEnd(r, window))
    && r.pendingBytes == Total(r.pending)
    && |r.buf| + r.pendingBytes <= window
  }

  // With `next` itself missing, all fragments lie strictly beyond it.
  ghost predicate WellFormed(r: Receiver, window: nat) {
    Draining(r, window) && r.next !in r.pending
  }

  // ---- The specification ---------------------------------------------------

  ghost predicate Overlapping(p: Store, k: nat, at: nat, end: nat) {
    k in p && at < k + |p[k]| && k < end
  }

  ghost predicate Overlapped(p: Store, at: nat, end: nat) {
    exists k :: Overlapping(p, k, at, end)
  }

  // Fragment k disagrees with the packet bytes that start at `at` <= k.
  ghost predicate Disagrees(p: Store, k: nat, at: nat, unseen: seq<byte>) {
    && k in p && at <= k < at + |unseen|
    && var n := Min(at + |unseen|, k + |p[k]|) - k;
       unseen[k - at..k - at + n] != p[k][..n]
  }

  ghost predicate Conflicting(p: Store, at: nat, unseen: seq<byte>) {
    exists k :: Disagrees(p, k, at, unseen)
  }

  // Hand over the run of fragments that starts at `next`.
  ghost function Drain(r: Receiver, packets: nat): (Receiver, nat)
    decreases |r.pending|
  {
    if r.next in r.pending then
      Drain(Deliver(r), packets + 1)
    else
      (r, packets)
  }

  // Deliver the fragment at `next`.
  ghost function Deliver(r: Receiver): (q: Receiver)
    requires r.next in r.pending
    ensures |q.pending| < |r.pending|
  {
    var f := r.pending[r.next];
    Receiver(r.next + |f|, r.buf + f, Without(r.pending, r.next), r.pendingBytes - |f|, r.dataRX)
  }

  // The bytes in front of `end` that are already retained.
  ghost function Overlap(p: Store, end: nat): nat {
    Total(Clip(p, end))
  }

  // The receiver just after a contiguous packet ending at `end`, before draining.
  ghost function Filled(r: Receiver, end: nat, unseen: seq<byte>): Receiver
  {
    Receiver(end, r.buf + unseen, Beyond(r.pending, end), Total(Beyond(r.pending, end)),
             r.dataRX + |unseen| - Overlap(r.pending, end))
  }

  // The unseen bytes of a packet.
  function Unseen(next: nat, start: nat, payload: seq<byte>): seq<byte>
    requires start + |payload| >= next
  {
    if start < next then payload[next - start..] else payload
  }

  ghost function Accept(r: Receiver, window: nat, start: nat, payload: seq<byte>): (Receiver, Verdict)
  {
    var end := start + |payload|;
    if end > MAX_U64 then (r, SequenceExhausted)
    else if end <= r.next then (r, Rejected)
    else
      var unseen := Unseen(r.next, start, payload);
      if end - r.next > window then (r, Rejected)
      else if start > r.next then AcceptAhead(r, window, start, payload)
      else AcceptNext(r, window, unseen)
  }

  // A packet that starts beyond the contiguous offset.
  ghost function AcceptAhead(r: Receiver, window: nat, start: nat, payload: seq<byte>): (Receiver, Verdict)
  {
    if Overlapped(r.pending, start, start + |payload|) then (r, Rejected)
    else if |r.buf| + r.pendingBytes + |payload| > window then (r, Rejected)
    else if |r.pending| >= MAX_FRAGMENTS then (r, Rejected)
    else (r.(pending := r.pending[start := payload], pendingBytes := r.pendingBytes + |payload|,
             dataRX := r.dataRX + |payload|), Buffered)
  }

  // A packet whose unseen bytes start exactly at the contiguous offset.
  ghost function AcceptNext(r: Receiver, window: nat, unseen: seq<byte>): (Receiver, Verdict)
  {
    var end := r.next + |unseen|;
    if Conflicting(r.pending, r.next, unseen) then (r, Conflict)
    else if |r.buf| + r.pendingBytes + |unseen| - Overlap(r.pending, end) > window then (r, Rejected)
    else
      var (done, packets) := Drain(Filled(r, end, unseen), 1);
      (done, Advanced(packets))
  }

  lemma NewReceiverOk(window: nat)
    ensures WellFormed(Receiver(0, [], map[], 0, 0), window)
  {
    EmptyTotal();
  }

  // ---- The receive window is kept ------------------------------------------

  lemma RemoveOrderly(p: Store, lo: nat, hi: nat)
    requires Orderly(p, lo, hi) && lo in p
    ensures Orderly(Without(p, lo), lo + |p[lo]|, hi)
    ensures lo + |p[lo]| <= hi
  {}

  lemma DeliverKeepsWindow(r: Receiver, window: nat)
    requires Draining(r, window) && r.next in r.pending
    ensures Draining(Deliver(r), window) && r.next < Deliver(r).next
  {
    RemoveOrderly(r.pending, r.next, WindowEnd(r, window));
    TotalRemove(r.pending, r.next);
    WidenWithin(Deliver(r).pending, Deliver(r).next, WindowEnd(r, window), WindowEnd(Deliver(r), window));
  }

  lemma WidenWithin(p: Store, lo: nat, hi: nat, hi': nat)
    requires Orderly(p, lo, hi) && hi <= hi'
    ensures Orderly(p, lo, hi')
  {}

  lemma {:induction false} DrainKeepsWindow(r: Receiver, packets: nat, window: nat)
    requires Draining(r, window)
    ensures WellFormed(Drain(r, packets).0, window)
    ensures Drain(r, packets).0.next >= r.next
    decreases |r.pending|
  {
    if r.next in r.pending {
      DeliverKeepsWindow(r, window);
      DrainKeepsWindow(Deliver(r), packets + 1, window);
    }
  }

  lemma FilledDraining(r: Receiver, window: nat, unseen: seq<byte>)
    requires WellFormed(r, window) && r.next + |unseen| <= WindowEnd(r, window)
    requires |r.buf| + r.pendingBytes + |unseen| - Overlap(r.pending, r.next + |unseen|) <= window
    ensures Draining(Filled(r, r.next + |unseen|, unseen), window)
  {
    hide Total, Beyond, Clip;
    var end := r.next + |unseen|;
    CutConserves(r.pending, end);
    CutOrderly(r.pending, r.next, WindowEnd(r, window), end);
    WidenWithin(Beyond(r.pending, end), end, WindowEnd(r, window), WindowEnd(Filled(r, end, unseen), window));
  }

  lemma CutOrderly(p: Store, lo: nat, hi: nat, end: nat)
    requires Orderly(p, lo, hi)
    ensures Orderly(Beyond(p, end), end, hi)
  {
    BeyondShape(p, end, hi);
    BeyondCount(p, end);
  }

  // Every packet keeps the receive window: fragments stay non-empty, disjoint,
  // strictly ahead of `next`, inside the window and at most 128 in number, and
  // the bytes buffered and pending never exceed the window.
  lemma AcceptKeepsWindow(r: Receiver, window: nat, start: nat, payload: seq<byte>)
    requires WellFormed(r, window) && |payload| > 0
    ensures WellFormed(Accept(r, window, start, payload).0, window)
    ensures r.next <= Accept(r, window, start, payload).0.next
  {
    var end := start + |payload|;
    if r.next < end <= WindowEnd(r, window) {
      if start > r.next {
        AheadKeepsWindow(r, window, start, payload);
      } else {
        NextKeepsWindow(r, window, Unseen(r.next, start, payload));
      }
    }
  }

  lemma AheadKeepsWindow(r: Receiver, window: nat, start: nat, payload: seq<byte>)
    requires WellFormed(r, window) && |payload| > 0
    requires r.next < start && start + |payload| <= WindowEnd(r, window)
    ensures WellFormed(AcceptAhead(r, window, start, payload).0, window)
    ensures AcceptAhead(r, window, start, payload).0.next == r.next
  {
    if AcceptAhead(r, window, start, payload).1.Buffered? {
      InsertOrderly(r.pending, r.next, WindowEnd(r, window), start, payload);
      TotalInsert(r.pending, start, payload);
    }
  }

  lemma InsertOrderly(p: Store, lo: nat, hi: nat, start: nat, payload: seq<byte>)
    requires Orderly(p, lo, hi) && |p| < MAX_FRAGMENTS
    requires |payload| > 0 && lo <= start && start + |payload| <= hi
    requires !Overlapped(p, start, start + |payload|)
    ensures start !in p && Orderly(p[start := payload], lo, hi)
  {
    forall k: nat | k in p
      ensures k + |p[k]| <= start || start + |payload| <= k
    {
      assert !Overlapping(p, k, start, start + |payload|);
    }
  }

  lemma NextKeepsWindow(r: Receiver, window: nat, unseen: seq<byte>)
    requires WellFormed(r, window) && 0 < |unseen| && r.next + |unseen| <= WindowEnd(r, window)
    ensures var (q, v) := AcceptNext(r, window, unseen);
            WellFormed(q, window) && r.next <= q.next && (v.Advanced? ==> r.next + |unseen| <= q.next)
  {
    hide Total, Beyond, Clip;
    var end := r.next + |unseen|;
    if AcceptNext(r, window, unseen).1.Advanced? {
      FilledDraining(r, window, unseen);
      DrainKeepsWindow(Filled(r, end, unseen), 1, window);
    }
  }

  // A refused packet leaves the receiver as it was; an accepted one counts.
  lemma RefusalChangesNothing(r: Receiver, window: nat, start: nat, payload: seq<byte>)
    ensures var (q, v) := Accept(r, window, start, payload);
            (!v.Advanced? && !v.Buffered? ==> q == r) && (v.Advanced? ==> v.packets > 0)
  {
    hide Total, Beyond, Clip, Drain, Conflicting, Overlapped;
    var end := start + |payload|;
    if r.next < end && start <= r.next {
      DrainCounts(Filled(r, end, Unseen(r.next, start, payload)), 1);
    }
  }

  lemma {:induction false} DrainCounts(r: Receiver, packets: nat)
    ensures Drain(r, packets).1 >= packets
    decreases |r.pending|
  {
    if r.next in r.pending { DrainCounts(Deliver(r), packets + 1); }
  }

  // ---- Byte conservation ---------------------------------------------------

  // Counted bytes not yet delivered or pending, and bytes already read.
  function Unaccounted(r: Receiver): int {
    r.dataRX - (r.next + r.pendingBytes)
  }

  function AlreadyRead(r: Receiver): int {
    r.next - |r.buf|
  }

  lemma {:induction false} DrainConserves(r: Receiver, packets: nat)
    ensures Unaccounted(Drain(r, packets).0) == Unaccounted(r)
    ensures AlreadyRead(Drain(r, packets).0) == AlreadyRead(r)
    decreases |r.pending|
  {
    if r.next in r.pending {
      DrainConserves(Deliver(r), packets + 1);
    }
  }

  // Each counted byte is delivered or pending, through merges, splits and drains.
  lemma AcceptConserves(r: Receiver, window: nat, start: nat, payload: seq<byte>)
    requires WellFormed(r, window)
    ensures Unaccounted(Accept(r, window, start, payload).0) == Unaccounted(r)
    ensures AlreadyRead(Accept(r, window, start, payload).0) == AlreadyRead(r)
  {
    hide Total, Beyond, Clip;
    var end := start + |payload|;
    if r.next < end <= WindowEnd(r, window) && start <= r.next {
      var unseen := Unseen(r.next, start, payload);
        CutConserves(r.pending, end);
      DrainConserves(Filled(r, end, unseen), 1);
    }
  }

  // ---- No head-of-line deadlock --------------------------------------------

  // Once the reader has drained `buf`, nothing retained out of order can keep
  // out a non-conflicting packet that covers `next`: it is accepted, and
  // advances `next`, exactly when it ends inside the window.
  lemma NoHeadOfLineDeadlock(r: Receiver, window: nat, start: nat, payload: seq<byte>)
    requires WellFormed(r, window) && r.buf == []
    requires start <= r.next < start + |payload| <= MAX_U64
    requires !Conflicting(r.pending, r.next, Unseen(r.next, start, payload))
    ensures var (q, v) := Accept(r, window, start, payload);
            if start + |payload| <= r.next + window then v.Advanced? && q.next >= start + |payload|
            else v.Rejected? && q == r
  {
    hide Total, Beyond, Clip;
    var end := start + |payload|;
    if end <= r.next + window {
      CutConserves(r.pending, end);
      CutOrderly(r.pending, r.next, WindowEnd(r, window), end);
      Pigeonhole(Beyond(r.pending, end), end, WindowEnd(r, window));
      NextKeepsWindow(r, window, Unseen(r.next, start, payload));
    }
  }

}
