// When every packet is a true slice of one source stream, reassembly delivers
// that stream and the conflict error cannot arise.
module TrueSlices {
  import opened Bytes
  import opened Fragments
  import opened Reassembly

  predicate IsSlice(stream: seq<byte>, start: nat, payload: seq<byte>) {
    start + |payload| <= |stream| && stream[start..start + |payload|] == payload
  }

  ghost predicate AllSlices(stream: seq<byte>, p: Store) {
    forall k: nat :: k in p ==> IsSlice(stream, k, p[k])
  }

  ghost predicate Faithful(stream: seq<byte>, r: Receiver) {
    r.next <= |stream| && AllSlices(stream, r.pending)
  }

  lemma LongerStream(stream: seq<byte>, more: seq<byte>, r: Receiver)
    requires Faithful(stream, r)
    ensures Faithful(stream + more, r)
  {
    forall k: nat | k in r.pending ensures IsSlice(stream + more, k, r.pending[k]) {
      SliceOfLonger(stream, more, k, r.pending[k]);
    }
  }

  lemma SliceOfLonger(stream: seq<byte>, more: seq<byte>, start: nat, payload: seq<byte>)
    requires IsSlice(stream, start, payload)
    ensures IsSlice(stream + more, start, payload)
  {
    assert (stream + more)[start..start + |payload|] == stream[start..start + |payload|];
  }

  lemma SubSlice(stream: seq<byte>, start: nat, payload: seq<byte>, from: nat, to: nat)
    requires IsSlice(stream, start, payload) && from <= to <= |payload|
    ensures IsSlice(stream, start + from, payload[from..to])
  {
    forall i | 0 <= i < to - from ensures payload[from..to][i] == stream[start + from..start + to][i] {
      assert stream[start..start + |payload|][from + i] == stream[start + from + i];
    }
    assert payload[from..to] == stream[start + from..start + to];
  }

  lemma SlicesAgree(stream: seq<byte>, p: Store, at: nat, unseen: seq<byte>)
    requires AllSlices(stream, p) && IsSlice(stream, at, unseen)
    ensures !Conflicting(p, at, unseen)
  {
    forall k: nat | k in p && at <= k < at + |unseen| ensures !Disagrees(p, k, at, unseen) {
      var n := Min(at + |unseen|, k + |p[k]|) - k;
      assert IsSlice(stream, k, p[k]);
      SubSlice(stream, at, unseen, k - at, k - at + n);
      SubSlice(stream, k, p[k], 0, n);
    }
  }

  lemma UnseenSlice(stream: seq<byte>, next: nat, start: nat, payload: seq<byte>)
    requires IsSlice(stream, start, payload) && next <= start + |payload|
    ensures start <= next ==> IsSlice(stream, next, Unseen(next, start, payload))
  {
    if start < next { SubSlice(stream, start, payload, next - start, |payload|); }
  }

  lemma BeyondSlices(stream: seq<byte>, p: Store, cut: nat)
    requires AllSlices(stream, p) && Disjoint(p)
    ensures AllSlices(stream, Beyond(p, cut))
  {
    if k: nat :| Straddles(p, k, cut) {
      assert Straddles(p, k, cut);
      OneStraddler(p, k, k, cut);
      assert IsSlice(stream, k, p[k]);
      SubSlice(stream, k, p[k], cut - k, |p[k]|);
    }
  }

  lemma {:induction false} DrainFaithful(stream: seq<byte>, r: Receiver, packets: nat)
    requires Faithful(stream, r)
    ensures var q := Drain(r, packets).0;
            Faithful(stream, q) && r.next <= q.next && q.buf == r.buf + stream[r.next..q.next]
    decreases |r.pending|
  {
    if r.next in r.pending {
      var m := Deliver(r);
      assert IsSlice(stream, r.next, r.pending[r.next]);
      DrainFaithful(stream, m, packets + 1);
      var q := Drain(m, packets + 1).0;
      assert stream[r.next..q.next] == stream[r.next..m.next] + stream[m.next..q.next];
    } else {
      assert stream[r.next..r.next] == [];
    }
  }

  // Whatever the packet boundaries, a true slice never conflicts, and what is
  // delivered is exactly the stream from the old offset to the new one.
  lemma AcceptDeliversStream(stream: seq<byte>, r: Receiver, window: nat, start: nat, payload: seq<byte>)
    requires WellFormed(r, window) && Faithful(stream, r) && IsSlice(stream, start, payload)
    ensures var (q, v) := Accept(r, window, start, payload);
            && !v.Conflict?
            && Faithful(stream, q) && r.next <= q.next
            && q.buf == r.buf + stream[r.next..q.next]
  {
    hide Drain, Beyond, Conflicting, Overlapped, Total, Clip;
    var end := start + |payload|;
    assert stream[r.next..r.next] == [];
    if r.next < end && start <= r.next {
      var unseen := Unseen(r.next, start, payload);
      UnseenSlice(stream, r.next, start, payload);
      NextDeliversStream(stream, r, window, unseen);
    }
  }

  lemma NextDeliversStream(stream: seq<byte>, r: Receiver, window: nat, unseen: seq<byte>)
    requires WellFormed(r, window) && Faithful(stream, r) && IsSlice(stream, r.next, unseen)
    ensures var (q, v) := AcceptNext(r, window, unseen);
            && !v.Conflict?
            && Faithful(stream, q) && r.next <= q.next
            && q.buf == r.buf + stream[r.next..q.next]
  {
    hide Drain, Beyond, Conflicting, Total, Clip;
    assert stream[r.next..r.next] == [];
    SlicesAgree(stream, r.pending, r.next, unseen);
    var m := Filled(r, r.next + |unseen|, unseen);
    BeyondSlices(stream, r.pending, m.next);
    DrainFaithful(stream, m, 1);
    var q := Drain(m, 1).0;
    assert stream[r.next..q.next] == stream[r.next..m.next] + stream[m.next..q.next];
  }

}
