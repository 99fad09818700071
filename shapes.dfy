/**
 * Shapes of dense arrays: the product of the dimensions and the
 * column-major mapping between a multi-index and a linear offset
 * (the first index varies fastest).
 */
module Shapes {
  import opened Arith

  /** Every dimension is non-zero. */
  predicate Positive(n: seq<nat>)
  {
    forall i :: 0 <= i < |n| ==> n[i] > 0
  }

  /** Number of elements of an array of shape n. */
  function Product(n: seq<nat>): nat
  {
    if n == [] then 1 else n[0] * Product(n[1..])
  }

  lemma {:induction false} ProductPositive(n: seq<nat>)
    requires Positive(n)
    ensures Product(n) > 0
  {
    if n != [] {
      ProductPositive(n[1..]);
      MulMonotone(n[0], 1, Product(n[1..]));
    }
  }

  /** Extending a prefix of the shape by one dimension multiplies the element count by it. */
  lemma {:induction false} ProductSnoc(n: seq<nat>, j: nat)
    requires j < |n|
    ensures Product(n[..j + 1]) == Product(n[..j]) * n[j]
  {
    if j > 0 {
      ProductSnoc(n[1..], j - 1);
      assert n[..j + 1][1..] == n[1..][..j];
      assert n[..j][1..] == n[1..][..j - 1];
    } else {
      assert n[..1][1..] == [];
    }
  }

  /** Every index is below its dimension. */
  predicate InBounds(idx: seq<nat>, n: seq<nat>)
  {
    |idx| <= |n| && forall j :: 0 <= j < |idx| ==> idx[j] < n[j]
  }

  /**
   * Column-major offset of a (possibly partial) multi-index: the reference
   * definition idx[0] + n[0]*(idx[1] + n[1]*(...)).
   */
  function Offset(idx: seq<nat>, n: seq<nat>): nat
    requires |idx| <= |n|
  {
    if idx == [] then 0 else idx[0] + n[0] * Offset(idx[1..], n[1..])
  }

  /**
   * Appending index i at position |idx| adds i times the stride of that
   * position, the product of all earlier dimensions. This is the step that
   * both the accumulating index loop and the chained subscript proxy take.
   */
  lemma {:induction false} OffsetSnoc(idx: seq<nat>, i: nat, n: seq<nat>)
    requires |idx| < |n|
    ensures Offset(idx + [i], n) == Offset(idx, n) + i * Product(n[..|idx|])
  {
    if idx == [] {
      assert ([] + [i])[1..] == [];
    } else {
      var tail := idx[1..];
      assert (idx + [i])[0] == idx[0];
      assert (idx + [i])[1..] == tail + [i];
      OffsetSnoc(tail, i, n[1..]);
      assert n[..|idx|][1..] == n[1..][..|tail|];
      var p := Product(n[1..][..|tail|]);
      assert Product(n[..|idx|]) == n[0] * p;
      calc {
        Offset(idx + [i], n);
        idx[0] + n[0] * Offset(tail + [i], n[1..]);
        idx[0] + n[0] * (Offset(tail, n[1..]) + i * p);
        { MulAddRegroup(n[0], Offset(tail, n[1..]), i, p); }
        Offset(idx, n) + i * (n[0] * p);
      }
    }
  }

  /** A full in-bounds multi-index addresses an element inside the buffer. */
  lemma {:induction false} OffsetBound(idx: seq<nat>, n: seq<nat>)
    requires |idx| == |n| && InBounds(idx, n)
    ensures Offset(idx, n) < Product(n)
  {
    if idx != [] {
      var rest := Offset(idx[1..], n[1..]);
      OffsetBound(idx[1..], n[1..]);
      ColMajorBound(idx[0], rest, n[0], Product(n[1..]));
    }
  }

  /** The multi-index that addresses linear offset k (inverse of Offset). */
  function Unflatten(k: nat, n: seq<nat>): (idx: seq<nat>)
    requires Positive(n)
    ensures |idx| == |n|
    decreases |n|
  {
    if n == [] then []
    else
      var d := n[0];
      assert d > 0;
      assert Positive(n[1..]) by { forall i | 0 <= i < |n| - 1 ensures n[1..][i] > 0 { assert n[1..][i] == n[i + 1]; } }
      DivModNatural(k, d);
      var r: nat, q: nat := k % d, k / d;
      [r] + Unflatten(q, n[1..])
  }

  /** Column-major addressing is one-to-one: the offset determines the multi-index. */
  lemma {:induction false} UnflattenOffset(idx: seq<nat>, n: seq<nat>)
    requires |idx| == |n| && InBounds(idx, n) && Positive(n)
    ensures Unflatten(Offset(idx, n), n) == idx
  {
    if idx != [] {
      UnflattenOffset(idx[1..], n[1..]);
      ColMajorSplit(idx[0], Offset(idx[1..], n[1..]), n[0]);
    }
  }

  /** Column-major addressing is onto: every offset below the size is reached by an in-bounds index. */
  lemma {:induction false} OffsetUnflatten(k: nat, n: seq<nat>)
    requires Positive(n) && k < Product(n)
    ensures InBounds(Unflatten(k, n), n)
    ensures Offset(Unflatten(k, n), n) == k
    decreases |n|
  {
    if n != [] {
      var d := n[0];
      DivModNatural(k, d);
      var q: nat := k / d;
      ColMajorUnsplit(k, d, Product(n[1..]));
      assert Positive(n[1..]) by { forall i | 0 <= i < |n| - 1 ensures n[1..][i] > 0 { assert n[1..][i] == n[i + 1]; } }
      OffsetUnflatten(q, n[1..]);
      var idx := Unflatten(k, n);
      assert idx == [k % d] + Unflatten(q, n[1..]);
      assert idx[1..] == Unflatten(q, n[1..]);
      assert Offset(idx, n) == k % d + d * q;
    }
  }

  /** Element counts of rank-1 and rank-2 shapes. */
  lemma ProductPair(m: nat, c: nat)
    ensures Product([m]) == m
    ensures Product([m, c]) == m * c
  {
    assert [m][1..] == [];
    assert [m, c][1..] == [c];
    assert [c][1..] == [];
  }

  /** For a matrix of shape [m, c] the offset of (i, j) is i + m*j. */
  lemma MatrixOffset(i: nat, j: nat, m: nat, c: nat)
    ensures Offset([i, j], [m, c]) == i + m * j
  {
    assert [i, j][1..] == [j];
    assert [m, c][1..] == [c];
    assert [j][1..] == [];
    assert Offset([j], [c]) == j + c * 0 == j;
  }
}
