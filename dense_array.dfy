/**
 * The dense rank-d array container and its chained-subscript proxy.
 * The buffer is column-major: the element with multi-index idx lives at
 * Offset(idx, n).
 */
module Arrays {
  import opened Shapes

  /** All-zero buffer of the given length (what value_type() fills in). */
  function Zeros(len: nat): (z: seq<real>)
    ensures |z| == len && forall k :: 0 <= k < len ==> z[k] == 0.0
  {
    seq(len, _ => 0.0)
  }

  class DenseArray {
    /** The rank d (a template argument of the container). */
    const d: nat
    /** The dimension sizes n_[0..d). */
    var n: seq<nat>
    /** The owned buffer; null for a default-constructed array. */
    var data: array?<real>

    /**
     * A default-constructed array has all-zero sizes and no buffer; any
     * other array has positive sizes and exactly Product(n) elements.
     */
    ghost predicate Valid()
      reads this
    {
      && d >= 1 && |n| == d
      && (data == null ==> forall i :: 0 <= i < d ==> n[i] == 0)
      && (data != null ==> Positive(n) && data.Length == Product(n))
    }

    /** The element at a full in-bounds multi-index. */
    ghost function Element(idx: seq<nat>): real
      reads this, data
      requires Valid() && |idx| == d && InBounds(idx, n)
    {
      OffsetBound(idx, n);
      data[Offset(idx, n)]
    }

    /** Default constructor: all sizes zero, no buffer. */
    constructor Empty(rank: nat)
      requires rank >= 1
      ensures Valid() && d == rank && data == null
      ensures forall i :: 0 <= i < rank ==> n[i] == 0
    {
      d := rank;
      n := seq(rank, _ => 0);
      data := null;
    }

    /**
     * Size constructor: up to d sizes; missing trailing sizes repeat the
     * last one given; every element is zero.
     */
    constructor (rank: nat, sizes: seq<nat>)
      requires 1 <= |sizes| <= rank
      requires forall i :: 0 <= i < |sizes| ==> sizes[i] > 0
      ensures Valid() && d == rank && data != null && fresh(data)
      ensures forall i :: 0 <= i < rank ==> n[i] == if i < |sizes| then sizes[i] else sizes[|sizes| - 1]
      ensures data[..] == Zeros(Product(n))
    {
      d := rank;
      var last := sizes[|sizes| - 1];
      var shape: seq<nat> := [];
      var size: nat := 1;
      var i := 0;
      while i < rank
        invariant 0 <= i <= rank && |shape| == i
        invariant forall j :: 0 <= j < i ==> shape[j] == if j < |sizes| then sizes[j] else last
        invariant Positive(shape)
        invariant size == Product(shape)
      {
        var ni := if i < |sizes| then sizes[i] else last;
        ProductSnoc(shape + [ni], i);
        assert (shape + [ni])[..i + 1] == shape + [ni] && (shape + [ni])[..i] == shape;
        shape := shape + [ni];
        size := size * ni;
        i := i + 1;
      }
      var buf := new real[size];
      var k := 0;
      while k < size
        invariant 0 <= k <= size
        invariant forall j :: 0 <= j < k ==> buf[j] == 0.0
      {
        buf[k] := 0.0;
        k := k + 1;
      }
      n := shape;
      data := buf;
    }

    /** Copy constructor: same shape, element-wise equal buffer in fresh storage. */
    constructor Copy(a: DenseArray)
      requires a.Valid()
      ensures Valid() && d == a.d && n == a.n
      ensures a.data == null ==> data == null
      ensures a.data != null ==> data != null && fresh(data) && data[..] == a.data[..]
    {
      d := a.d;
      n := a.n;
      data := null;
      new;
      if a.data != null {
        var s := Size();
        var buf := new real[s];
        var i := 0;
        while i < s
          invariant 0 <= i <= s
          invariant n == a.n
          invariant forall j :: 0 <= j < i ==> buf[j] == a.data[j]
        {
          buf[i] := a.data[i];
          i := i + 1;
        }
        data := buf;
      }
    }

    /**
     * The temporary array an evaluated expression yields: the given shape
     * and buffer, in fresh storage.
     */
    constructor Of(shape: seq<nat>, buf: seq<real>)
      requires |shape| >= 1 && Positive(shape) && |buf| == Product(shape)
      ensures Valid() && d == |shape| && n == shape
      ensures data != null && fresh(data) && data[..] == buf
    {
      d := |shape|;
      n := shape;
      var store := new real[|buf|];
      var i := 0;
      while i < |buf|
        invariant 0 <= i <= |buf|
        invariant forall j :: 0 <= j < i ==> store[j] == buf[j]
      {
        store[i] := buf[i];
        i := i + 1;
      }
      data := store;
    }

    /**
     * Assignment: a deep copy of the source's shape and buffer, unless the
     * source is this very array, which is left as it is.
     */
    method Assign(a: DenseArray)
      requires Valid() && a.Valid() && a.d == d
      requires this != a ==> Positive(a.n)
      modifies this
      ensures Valid()
      ensures this == a ==> n == old(n) && data == old(data)
      ensures this != a ==> n == old(a.n) && data != null && fresh(data)
      ensures this != a ==> old(a.data) != null && data[..] == old(a.data[..])
    {
      if this != a {
        assert a.n[0] > 0;
        var s := a.Size();
        var buf := new real[s];
        var i := 0;
        while i < s
          invariant 0 <= i <= s
          invariant forall j :: 0 <= j < i ==> buf[j] == a.data[j]
        {
          buf[i] := a.data[i];
          i := i + 1;
        }
        n := a.n;
        data := buf;
      }
    }

    /** Number of elements: the product of the dimensions, none of which may be zero. */
    method Size() returns (s: nat)
      requires |n| == d && Positive(n)
      ensures s == Product(n) && s > 0
    {
      s := 1;
      var i := 0;
      while i < d
        invariant 0 <= i <= d
        invariant s == Product(n[..i])
      {
        ProductSnoc(n, i);
        s := s * n[i];
        i := i + 1;
      }
      assert n[..d] == n;
      ProductPositive(n);
    }

    /**
     * Column-major linear offset of a full multi-index: the sum of
     * indices[j] times the product of the dimensions before j.
     */
    method Index(indices: seq<nat>) returns (i: nat)
      requires Valid() && |indices| == d && InBounds(indices, n)
      ensures i == Offset(indices, n) && i < Product(n)
    {
      i := 0;
      var s: nat := 1;
      var j := 0;
      while j < d
        invariant 0 <= j <= d
        invariant i == Offset(indices[..j], n)
        invariant s == Product(n[..j])
      {
        OffsetSnoc(indices[..j], indices[j], n);
        ProductSnoc(n, j);
        assert indices[..j + 1] == indices[..j] + [indices[j]];
        i := i + s * indices[j];
        s := s * n[j];
        j := j + 1;
      }
      assert indices[..d] == indices;
      OffsetBound(indices, n);
    }

    /** Read access a(i0, ..., i_{d-1}): exactly d in-bounds indices. */
    method Get(indices: seq<nat>) returns (v: real)
      requires Valid() && |indices| == d && InBounds(indices, n)
      ensures v == Element(indices)
    {
      var k := Index(indices);
      v := data[k];
    }

    /** Write through the reference a(i0, ..., i_{d-1}): only that element changes. */
    method Set(indices: seq<nat>, v: real)
      requires Valid() && |indices| == d && InBounds(indices, n)
      modifies data
      ensures data != null && Offset(indices, n) < data.Length == Product(n)
      ensures data[..] == old(data[..])[Offset(indices, n) := v]
    {
      var k := Index(indices);
      data[k] := v;
    }
  }

  /**
   * A partially applied chained subscript a[i0][i1]...: the array it refers
   * to, how many subscripts are still missing, and the offset accumulated
   * so far. The proxy does not check bounds; `indices` records the
   * subscripts it has consumed, so that the terminal element access can
   * state when it stays inside the buffer.
   */
  class Proxy {
    const target: DenseArray
    const remaining: nat
    const offset: nat
    ghost const indices: seq<nat>

    ghost predicate Valid()
      reads target
    {
      && target.Valid()
      && 1 <= |indices| && |indices| + remaining == target.d
      && offset == Offset(indices, target.n)
      && (remaining == 0 && InBounds(indices, target.n) ==>
            target.data != null && offset < target.data.Length)
    }

    /** a[i]: the first subscript; its stride is 1. */
    constructor Start(a: DenseArray, i: nat)
      requires a.Valid()
      ensures Valid() && target == a && remaining == a.d - 1
      ensures indices == [i] && offset == i
    {
      target, remaining, offset, indices := a, a.d - 1, i, [i];
      new;
      assert [i][1..] == [];
      assert Offset([i], a.n) == i + a.n[0] * 0;
      if remaining == 0 && InBounds(indices, target.n) {
        OffsetBound(indices, target.n);
      }
    }

    /**
     * p[i]: one more subscript; adds i times the product of the dimensions
     * already consumed. With remaining == 0 afterwards this is the
     * terminal proxy that stands for a single element.
     */
    constructor Step(p: Proxy, i: nat)
      requires p.Valid() && p.remaining >= 1
      ensures Valid() && target == p.target && remaining == p.remaining - 1
      ensures indices == p.indices + [i]
      ensures offset == p.offset + i * Product(p.target.n[..|p.indices|])
    {
      var a := p.target;
      var rem := p.remaining - 1;
      var s: nat := 1;
      var j := 0;
      while j < a.d - rem - 1
        invariant 0 <= j <= a.d - rem - 1
        invariant s == Product(a.n[..j])
      {
        ProductSnoc(a.n, j);
        s := s * a.n[j];
        j := j + 1;
      }
      OffsetSnoc(p.indices, i, a.n);
      target, remaining, offset, indices := a, rem, p.offset + i * s, p.indices + [i];
      new;
      if remaining == 0 && InBounds(indices, target.n) {
        OffsetBound(indices, target.n);
      }
    }

    /** The element the terminal proxy stands for. */
    method Load() returns (v: real)
      requires Valid() && remaining == 0 && InBounds(indices, target.n)
      ensures v == target.Element(indices)
    {
      v := target.data[offset];
    }

    /** Terminal `= v`: only the addressed element changes. */
    method Store(v: real) returns (r: real)
      requires Valid() && remaining == 0 && InBounds(indices, target.n)
      modifies target.data
      ensures target.data[..] == old(target.data[..])[offset := v] && r == v
    {
      target.data[offset] := v;
      r := target.data[offset];
    }

    /** Terminal `+= v`. */
    method AddTo(v: real) returns (r: real)
      requires Valid() && remaining == 0 && InBounds(indices, target.n)
      modifies target.data
      ensures r == old(target.data[offset]) + v
      ensures target.data[..] == old(target.data[..])[offset := r]
    {
      target.data[offset] := target.data[offset] + v;
      r := target.data[offset];
    }

    /** Terminal `-= v`. */
    method SubFrom(v: real) returns (r: real)
      requires Valid() && remaining == 0 && InBounds(indices, target.n)
      modifies target.data
      ensures r == old(target.data[offset]) - v
      ensures target.data[..] == old(target.data[..])[offset := r]
    {
      target.data[offset] := target.data[offset] - v;
      r := target.data[offset];
    }

    /** Terminal `*= v`. */
    method MulBy(v: real) returns (r: real)
      requires Valid() && remaining == 0 && InBounds(indices, target.n)
      modifies target.data
      ensures r == old(target.data[offset]) * v
      ensures target.data[..] == old(target.data[..])[offset := r]
    {
      target.data[offset] := target.data[offset] * v;
      r := target.data[offset];
    }

    /** Terminal `/= v`. */
    method DivBy(v: real) returns (r: real)
      requires Valid() && remaining == 0 && InBounds(indices, target.n)
      requires v != 0.0
      modifies target.data
      ensures r == old(target.data[offset]) / v
      ensures target.data[..] == old(target.data[..])[offset := r]
    {
      target.data[offset] := target.data[offset] / v;
      r := target.data[offset];
    }
  }

  /**
   * The full chain a[i0][i1]...[i_{d-1}]: it ends in a terminal proxy whose
   * offset is the one the n-ary accessor a(i0, ..., i_{d-1}) computes.
   */
  method Chain(a: DenseArray, idx: seq<nat>) returns (p: Proxy)
    requires a.Valid() && |idx| == a.d
    ensures p.Valid() && p.target == a && p.remaining == 0
    ensures p.indices == idx && p.offset == Offset(idx, a.n)
  {
    p := new Proxy.Start(a, idx[0]);
    var k := 1;
    while k < |idx|
      invariant 1 <= k <= |idx|
      invariant p.Valid() && p.target == a && p.remaining == a.d - k
      invariant p.indices == idx[..k]
    {
      p := new Proxy.Step(p, idx[k]);
      assert idx[..k + 1] == idx[..k] + [idx[k]];
      k := k + 1;
    }
    assert idx[..|idx|] == idx;
  }
}
