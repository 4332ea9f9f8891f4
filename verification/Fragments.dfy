// The out-of-order store of a receiver: fragments of the byte stream keyed by
// the offset of their first byte, and the offset-to-byte map they stand for.
module Fragments {
  import opened Bytes

  type Store = map<nat, seq<byte>>

  ghost predicate Holds(p: Store, k: nat, o: nat) {
    k in p && k <= o < k + |p[k]|
  }

  ghost predicate Disjoint(p: Store) {
    forall j: nat, k: nat :: j in p && k in p && j < k ==> j + |p[j]| <= k
  }

  ghost predicate NoneEmpty(p: Store) {
    forall k: nat :: k in p ==> |p[k]| > 0
  }

  ghost predicate Within(p: Store, lo: nat, hi: nat) {
    forall k: nat :: k in p ==> lo <= k && k + |p[k]| <= hi
  }

  ghost function Without(p: Store, k: nat): (q: Store)
    ensures k in p ==> |q| < |p|
  {
    var q := map j: nat | j in p && j != k :: p[j];
    assert q.Keys == p.Keys - {k};
    q
  }

  // ---- Sum of the fragment lengths --------------------------------------

  ghost function Total(p: Store): (n: nat)
    decreases |p|
  {
    if p == map[] then 0 else
      var k: nat :| k in p;
      |p[k]| + Total(Without(p, k))
  }

  lemma EmptyTotal()
    ensures Total(map[]) == 0
  {}

  lemma {:induction false} TotalRemove(p: Store, k: nat)
    requires k in p
    ensures Total(p) == |p[k]| + Total(Without(p, k))
    decreases |p|
  {
    var j: nat :| j in p && Total(p) == |p[j]| + Total(Without(p, j));
    if j != k {
      TotalRemove(Without(p, j), k);
      TotalRemove(Without(p, k), j);
      assert Without(Without(p, j), k) == Without(Without(p, k), j);
    }
  }

  lemma TotalInsert(p: Store, k: nat, v: seq<byte>)
    requires k !in p
    ensures Total(p[k := v]) == Total(p) + |v|
  {
    TotalRemove(p[k := v], k);
    assert Without(p[k := v], k) == p;
  }

  // ---- The set of offsets covered ------------------------------------------

  ghost function Cover(p: Store): set<nat> {
    set k: nat, o: nat | k in p && k <= o < k + |p[k]| && Holds(p, k, o) :: o
  }

  // ---- Cutting the store at an offset -------------------------------------

  // The bytes in front of `cut`.
  ghost function Clip(p: Store, cut: nat): Store {
    map k | k in p && k < cut :: p[k][..Min(|p[k]|, cut - k)]
  }

  ghost predicate Straddles(p: Store, k: nat, cut: nat) {
    k in p && k < cut < k + |p[k]|
  }

  // The bytes from `cut` on: whole fragments, and the tail of a straddling one.
  ghost function Beyond(p: Store, cut: nat): Store {
    From(p, cut) + Suffix(p, cut)
  }

  ghost function From(p: Store, cut: nat): Store {
    map k | k in p && k >= cut :: p[k]
  }

  ghost function Suffix(p: Store, cut: nat): Store {
    if exists k: nat :: Straddles(p, k, cut) then
      var k: nat :| Straddles(p, k, cut); map[cut := p[k][cut - k..]]
    else map[]
  }

  // One suffix variable is enough: disjoint fragments leave one straddler, and
  // no fragment can start at the cut it spans.
  lemma OneStraddler(p: Store, j: nat, k: nat, cut: nat)
    requires Disjoint(p) && Straddles(p, k, cut)
    ensures Straddles(p, j, cut) ==> j == k
    ensures cut !in p
    ensures Suffix(p, cut) == map[cut := p[k][cut - k..]]
  {
    var i: nat :| Straddles(p, i, cut) && Suffix(p, cut) == map[cut := p[i][cut - i..]];
    assert Straddles(p, i, cut);
  }

  lemma BeyondAt(p: Store, cut: nat, j: nat)
    requires Disjoint(p)
    ensures j in p && j >= cut ==> j in Beyond(p, cut) && Beyond(p, cut)[j] == p[j]
    ensures j in Beyond(p, cut) ==> (j in p && j >= cut && Beyond(p, cut)[j] == p[j]) || (j == cut && cut !in p)
  {
    if k: nat :| Straddles(p, k, cut) {
      assert Straddles(p, k, cut);
      OneStraddler(p, k, k, cut);
    }
  }

  lemma BeyondShape(p: Store, cut: nat, hi: nat)
    requires Disjoint(p) && NoneEmpty(p) && Within(p, 0, hi)
    ensures Disjoint(Beyond(p, cut)) && NoneEmpty(Beyond(p, cut)) && Within(Beyond(p, cut), cut, hi)
  {
    var b := Beyond(p, cut);
    if k: nat :| Straddles(p, k, cut) {
      assert Straddles(p, k, cut);
      OneStraddler(p, k, k, cut);
      assert b[cut] == p[k][cut - k..];
    }
    forall j: nat | j in b { BeyondAt(p, cut, j); }
  }

  lemma BeyondCount(p: Store, cut: nat)
    requires Disjoint(p)
    ensures |Beyond(p, cut)| <= |p|
  {
    var whole := From(p, cut).Keys;
    if k: nat :| Straddles(p, k, cut) {
      assert Straddles(p, k, cut);
      OneStraddler(p, k, k, cut);
      assert Beyond(p, cut).Keys == whole + {cut};
      SubsetSize(whole, p.Keys - {k});
    } else {
      assert Beyond(p, cut).Keys == whole;
      SubsetSize(whole, p.Keys);
    }
    assert |Beyond(p, cut)| == |Beyond(p, cut).Keys|;
  }

  lemma BeyondHolds(p: Store, cut: nat, o: nat)
    requires Disjoint(p)
    ensures o in Cover(Beyond(p, cut)) <==> o in Cover(p) && o >= cut
    ensures o in Cover(p) && o >= cut ==> ByteAt(Beyond(p, cut), o) == ByteAt(p, o)
  {
    var b := Beyond(p, cut);
    if s: nat :| Straddles(p, s, cut) {
      assert Straddles(p, s, cut); OneStraddler(p, s, s, cut); }
    if o in Cover(p) && o >= cut {
      var k: nat :| Holds(p, k, o);
      assert Holds(p, k, o);
      OwnerUnique(p, k, o);
      if k >= cut {
        assert k != cut || !exists s: nat :: Straddles(p, s, cut);
        assert k in b && b[k] == p[k];
        assert Holds(b, k, o);
        BeyondOwner(p, cut, k, o);
      } else {
        assert Straddles(p, k, cut);
        OneStraddler(p, k, k, cut);
        assert Holds(b, cut, o);
        BeyondOwner(p, cut, cut, o);
      }
    }
    if o in Cover(b) {
      var k: nat :| Holds(b, k, o);
      assert Holds(b, k, o);
      if k in p && b[k] == p[k] && k >= cut {
        assert Holds(p, k, o);
      } else {
        var s: nat :| Straddles(p, s, cut);
        assert Straddles(p, s, cut);
        OneStraddler(p, s, s, cut);
        assert Holds(p, s, o);
      }
    }
  }

  lemma BeyondOwner(p: Store, cut: nat, k: nat, o: nat)
    requires Disjoint(p) && Holds(Beyond(p, cut), k, o)
    ensures o in Cover(Beyond(p, cut))
    ensures ByteAt(Beyond(p, cut), o) == Beyond(p, cut)[k][o - k]
  {
    var b := Beyond(p, cut);
    if s: nat :| Straddles(p, s, cut) {
      assert Straddles(p, s, cut);
      OneStraddler(p, s, s, cut);
      forall j, i | j in b && i in b && j < i ensures j + |b[j]| <= i {
        if j == cut { assert s < i && s + |p[s]| <= i; }
      }
    }
    OwnerUnique(b, k, o);
  }

  // Cutting loses and invents nothing.
  lemma {:induction false} CutConserves(p: Store, cut: nat)
    requires Disjoint(p)
    ensures Total(p) == Total(Clip(p, cut)) + Total(Beyond(p, cut))
    decreases |p|
  {
    if p == map[] {
      assert Clip(p, cut) == map[] && Beyond(p, cut) == map[];
    } else {
      var k: nat :| k in p;
      var rest := Without(p, k);
      CutConserves(rest, cut);
      TotalRemove(p, k);
      CutOne(p, k, cut);
    }
  }

  // How one fragment is divided by the cut.
  lemma CutOne(p: Store, k: nat, cut: nat)
    requires Disjoint(p) && k in p
    ensures Total(Clip(p, cut)) + Total(Beyond(p, cut))
         == Total(Clip(Without(p, k), cut)) + Total(Beyond(Without(p, k), cut)) + |p[k]|
  {
    hide Total, Disjoint;
    var rest := Without(p, k);
    if k >= cut {
      assert Clip(p, cut) == Clip(rest, cut);
      BeyondWhole(p, k, cut);
      TotalInsert(Beyond(rest, cut), k, p[k]);
    } else {
      assert Clip(p, cut) == Clip(rest, cut)[k := p[k][..Min(|p[k]|, cut - k)]];
      TotalInsert(Clip(rest, cut), k, p[k][..Min(|p[k]|, cut - k)]);
      BeyondPart(p, k, cut);
      if Straddles(p, k, cut) {
        TotalInsert(Beyond(rest, cut), cut, p[k][cut - k..]);
      }
    }
  }

  lemma SameSuffix(p: Store, k: nat, cut: nat)
    requires Disjoint(p) && k in p && !Straddles(p, k, cut)
    ensures Suffix(p, cut) == Suffix(Without(p, k), cut)
  {
    var rest := Without(p, k);
    if s: nat :| Straddles(p, s, cut) {
      assert Straddles(p, s, cut);
      assert Straddles(rest, s, cut);
      OneStraddler(p, s, s, cut);
      OneStraddler(rest, s, s, cut);
    } else if s: nat :| Straddles(rest, s, cut) {
      assert Straddles(rest, s, cut);
      assert Straddles(p, s, cut);
    }
  }

  lemma BeyondWhole(p: Store, k: nat, cut: nat)
    requires Disjoint(p) && k in p && k >= cut
    ensures k !in Beyond(Without(p, k), cut)
    ensures Beyond(p, cut) == Beyond(Without(p, k), cut)[k := p[k]]
  {
    hide Total;
    var rest := Without(p, k);
    SameSuffix(p, k, cut);
    var suffix := Suffix(rest, cut);
    assert k !in suffix by {
      if s: nat :| Straddles(p, s, cut) {
        assert Straddles(p, s, cut);
        OneStraddler(p, s, s, cut);
      }
    }
    assert From(p, cut) == From(rest, cut)[k := p[k]];
    UpdateUnderUnion(From(rest, cut), suffix, k, p[k]);
  }

  lemma UnionSingleton(p: Store, k: nat, v: seq<byte>)
    ensures p + map[k := v] == p[k := v]
  {}

  lemma UpdateUnderUnion(p: Store, q: Store, k: nat, v: seq<byte>)
    requires k !in q
    ensures p[k := v] + q == (p + q)[k := v]
  {}

  lemma BeyondPart(p: Store, k: nat, cut: nat)
    requires Disjoint(p) && k in p && k < cut
    ensures !Straddles(p, k, cut) ==> Beyond(p, cut) == Beyond(Without(p, k), cut)
    ensures Straddles(p, k, cut) ==> cut !in Beyond(Without(p, k), cut)
    ensures Straddles(p, k, cut) ==> Beyond(p, cut) == Beyond(Without(p, k), cut)[cut := p[k][cut - k..]]
  {
    hide Total;
    var rest := Without(p, k);
    assert From(p, cut) == From(rest, cut);
    if Straddles(p, k, cut) {
      OneStraddler(p, k, k, cut);
      forall s: nat ensures !Straddles(rest, s, cut) {
        if Straddles(rest, s, cut) { OneStraddler(p, s, k, cut); }
      }
      assert Suffix(rest, cut) == map[];
      assert Beyond(rest, cut) == From(rest, cut) + map[] == From(rest, cut);
      UnionSingleton(From(rest, cut), cut, p[k][cut - k..]);
    } else {
      SameSuffix(p, k, cut);
    }
  }

  // Pigeonhole: disjoint fragments inside an interval hold at most its length.
  lemma {:induction false} Pigeonhole(p: Store, lo: nat, hi: nat)
    requires Disjoint(p) && Within(p, lo, hi) && lo <= hi
    ensures Total(p) <= hi - lo
    decreases |p|
  {
    if p != map[] {
      var k: nat :| k in p;
      var rest := Without(p, k);
      TotalRemove(p, k);
      CutConserves(rest, k);
      var left := Clip(rest, k);
      var right := Beyond(rest, k);
      BeyondCount(rest, k);
      assert |left.Keys| <= |rest.Keys| by { SubsetSize(left.Keys, rest.Keys); }
      CutBetween(p, k, lo, hi);
      Pigeonhole(left, lo, k);
      Pigeonhole(right, k + |p[k]|, hi);
    }
  }

  lemma CutBetween(p: Store, k: nat, lo: nat, hi: nat)
    requires Disjoint(p) && Within(p, lo, hi) && k in p
    ensures Disjoint(Clip(Without(p, k), k)) && Within(Clip(Without(p, k), k), lo, k)
    ensures Disjoint(Beyond(Without(p, k), k)) && Within(Beyond(Without(p, k), k), k + |p[k]|, hi)
  {
    var rest := Without(p, k);
    assert forall j: nat :: !Straddles(rest, j, k);
    assert Beyond(rest, k) == From(rest, k);
  }

  // ---- The offset-to-byte map a store stands for --------------------------

  ghost function ByteAt(p: Store, o: nat): byte
    requires o in Cover(p)
  {
    var k: nat :| Holds(p, k, o); p[k][o - k]
  }

  ghost function Held(p: Store): map<nat, byte> {
    map o | o in Cover(p) :: ByteAt(p, o)
  }

  lemma OwnerUnique(p: Store, k: nat, o: nat)
    requires Disjoint(p) && Holds(p, k, o)
    ensures o in Cover(p) && ByteAt(p, o) == p[k][o - k]
  {
    assert o in Cover(p);
    var j: nat :| Holds(p, j, o) && ByteAt(p, o) == p[j][o - j];
    assert Holds(p, j, o);
  }

}
