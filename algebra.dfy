/**
 * The mathematical meaning of the operations over column-major buffers:
 * scaling, dot products, rows and columns of a matrix stored with m rows,
 * materialised transposes, and the matrix, matrix-vector and outer
 * products. Both the reference evaluator and the kernel contracts are
 * stated with these.
 */
module Algebra {
  import opened Arith

  /** alpha*x, element by element. */
  function Scaled(alpha: real, x: seq<real>): seq<real>
  {
    seq(|x|, k requires 0 <= k < |x| => alpha * x[k])
  }

  /** x + y, element by element. */
  function Sum(x: seq<real>, y: seq<real>): seq<real>
    requires |x| == |y|
  {
    seq(|x|, k requires 0 <= k < |x| => x[k] + y[k])
  }

  /** x - y, element by element. */
  function Difference(x: seq<real>, y: seq<real>): seq<real>
    requires |x| == |y|
  {
    seq(|x|, k requires 0 <= k < |x| => x[k] - y[k])
  }

  /** x / c, element by element. */
  function Quotient(x: seq<real>, c: real): seq<real>
    requires c != 0.0
  {
    seq(|x|, k requires 0 <= k < |x| => x[k] / c)
  }

  /** The element-wise products x[k]*y[k]. */
  function Products(x: seq<real>, y: seq<real>): (r: seq<real>)
    requires |x| == |y|
    ensures |r| == |x|
  {
    seq(|x|, k requires 0 <= k < |x| => x[k] * y[k])
  }

  /** The sum of the elements, accumulated from the first one on. */
  function Total(z: seq<real>): real
  {
    if |z| == 0 then 0.0 else Total(z[..|z| - 1]) + z[|z| - 1]
  }

  /** The inner product: the total of the element-wise products. */
  function Dot(x: seq<real>, y: seq<real>): real
    requires |x| == |y|
  {
    Total(Products(x, y))
  }

  /** Row i of the m-by-c matrix stored column-major in a. */
  function RowOf(a: seq<real>, m: nat, c: nat, i: nat): (r: seq<real>)
    requires |a| == m * c && i < m
    ensures |r| == c
  {
    seq(c, p requires 0 <= p < c => ColMajorBound(i, p, m, c); a[i + m * p])
  }

  /** Column j of the m-by-c matrix stored column-major in a. */
  function ColumnOf(a: seq<real>, m: nat, c: nat, j: nat): (r: seq<real>)
    requires |a| == m * c && j < c
    ensures |r| == m
  {
    seq(m, p requires 0 <= p < m => ColMajorBound(p, j, m, c); a[p + m * j])
  }

  /** The c-by-m transpose of the m-by-c matrix a: R(i, j) = A(j, i). */
  function TransposeData(a: seq<real>, m: nat, c: nat): (r: seq<real>)
    requires |a| == m * c
    ensures |r| == c * m
  {
    seq(c * m, q requires 0 <= q < c * m =>
      ColMajorUnsplit(q, c, m);
      ColMajorBound(q / c, q % c, m, c);
      a[q / c + m * (q % c)])
  }

  /** Entry (i, j) of a matrix product: row i of a against column j of b. */
  function Entry(a: seq<real>, b: seq<real>, m: nat, k: nat, n: nat, i: nat, j: nat): real
    requires |a| == m * k && |b| == k * n && i < m && j < n
  {
    Dot(RowOf(a, m, k, i), ColumnOf(b, k, n, j))
  }

  /** The m-by-n product of the m-by-k matrix a and the k-by-n matrix b. */
  function MatMul(a: seq<real>, b: seq<real>, m: nat, k: nat, n: nat): (r: seq<real>)
    requires |a| == m * k && |b| == k * n
    ensures |r| == m * n
  {
    seq(m * n, q requires 0 <= q < m * n =>
      ColMajorUnsplit(q, m, n);
      Entry(a, b, m, k, n, q % m, q / m))
  }

  /** The product of the m-by-c matrix a and the vector x. */
  function MatVec(a: seq<real>, m: nat, c: nat, x: seq<real>): (r: seq<real>)
    requires |a| == m * c && |x| == c
    ensures |r| == m
  {
    seq(m, i requires 0 <= i < m => Dot(RowOf(a, m, c, i), x))
  }

  /** The |x|-by-|y| outer product x*transpose(y). */
  function Outer(x: seq<real>, y: seq<real>): (r: seq<real>)
    requires |x| > 0
    ensures |r| == |x| * |y|
  {
    seq(|x| * |y|, q requires 0 <= q < |x| * |y| =>
      ColMajorUnsplit(q, |x|, |y|);
      x[q % |x|] * y[q / |x|])
  }

  // ---------------------------------------------------------------------
  // Algebraic facts

  lemma Distribute(a: real, b: real, c: real)
    ensures a * b + a * c == a * (b + c)
  {
  }

  /** Two scaled factors regrouped: (s*a)*(t*b) = (s*t)*(a*b). */
  lemma MulMul(s: real, t: real, a: real, b: real)
    ensures (s * a) * (t * b) == (s * t) * (a * b)
  {
    assert (s * a) * (t * b) == s * (a * (t * b));
    assert a * (t * b) == t * (a * b);
    assert s * (t * (a * b)) == (s * t) * (a * b);
  }

  lemma ScaledOne(x: seq<real>)
    ensures Scaled(1.0, x) == x
  {
  }

  lemma ScaledScaled(s: real, t: real, x: seq<real>)
    ensures Scaled(s, Scaled(t, x)) == Scaled(s * t, x)
  {
    forall k | 0 <= k < |x|
      ensures Scaled(s, Scaled(t, x))[k] == Scaled(s * t, x)[k]
    {
      assert s * (t * x[k]) == (s * t) * x[k];
    }
  }

  lemma ScaledPrefix(s: real, x: seq<real>, l: nat)
    requires l <= |x|
    ensures Scaled(s, x)[..l] == Scaled(s, x[..l])
  {
    forall k | 0 <= k < l
      ensures Scaled(s, x)[..l][k] == Scaled(s, x[..l])[k]
    {
    }
  }

  /** Extending both vectors by one entry adds that entry's product. */
  lemma DotSnoc(x: seq<real>, y: seq<real>, i: nat)
    requires |x| == |y| && i < |x|
    ensures Dot(x[..i + 1], y[..i + 1]) == Dot(x[..i], y[..i]) + x[i] * y[i]
  {
    var p, q := Products(x[..i + 1], y[..i + 1]), Products(x[..i], y[..i]);
    forall k | 0 <= k < i
      ensures p[k] == q[k]
    {
      assert x[..i + 1][k] == x[..i][k] && y[..i + 1][k] == y[..i][k];
    }
    assert p[..i] == q;
    assert p[i] == x[i] * y[i];
  }

  /** A scalar pulls out of a total. */
  lemma {:induction false} TotalScaled(c: real, z: seq<real>)
    ensures Total(Scaled(c, z)) == c * Total(z)
  {
    if |z| == 0 {
      assert c * 0.0 == 0.0;
    } else {
      var l := |z| - 1;
      ScaledPrefix(c, z, l);
      TotalScaled(c, z[..l]);
      Distribute(c, Total(z[..l]), z[l]);
    }
  }

  /** Scalars on both vectors scale every element-wise product by s*t. */
  lemma ProductsScaledAt(s: real, t: real, x: seq<real>, y: seq<real>, k: nat)
    requires |x| == |y| && k < |x|
    ensures Products(Scaled(s, x), Scaled(t, y))[k] == Scaled(s * t, Products(x, y))[k]
  {
    var a, b := x[k], y[k];
    assert Products(Scaled(s, x), Scaled(t, y))[k] == (s * a) * (t * b);
    assert Scaled(s * t, Products(x, y))[k] == (s * t) * (a * b);
    MulMul(s, t, a, b);
  }

  lemma ProductsScaled(s: real, t: real, x: seq<real>, y: seq<real>)
    requires |x| == |y|
    ensures Products(Scaled(s, x), Scaled(t, y)) == Scaled(s * t, Products(x, y))
  {
    forall k | 0 <= k < |x|
      ensures Products(Scaled(s, x), Scaled(t, y))[k] == Scaled(s * t, Products(x, y))[k]
    {
      ProductsScaledAt(s, t, x, y, k);
    }
  }

  /** A scalar pulls out of the left argument of a dot product. */
  lemma DotScaledLeft(s: real, x: seq<real>, y: seq<real>)
    requires |x| == |y|
    ensures Dot(Scaled(s, x), y) == s * Dot(x, y)
  {
    ProductsScaled(s, 1.0, x, y);
    ScaledOne(y);
    TotalScaled(s * 1.0, Products(x, y));
  }

  /** A scalar pulls out of the right argument of a dot product. */
  lemma DotScaledRight(t: real, x: seq<real>, y: seq<real>)
    requires |x| == |y|
    ensures Dot(x, Scaled(t, y)) == t * Dot(x, y)
  {
    ProductsScaled(1.0, t, x, y);
    ScaledOne(x);
    TotalScaled(1.0 * t, Products(x, y));
  }

  lemma RowOfScaled(s: real, a: seq<real>, m: nat, c: nat, i: nat)
    requires |a| == m * c && i < m
    ensures RowOf(Scaled(s, a), m, c, i) == Scaled(s, RowOf(a, m, c, i))
  {
    forall p | 0 <= p < c
      ensures RowOf(Scaled(s, a), m, c, i)[p] == Scaled(s, RowOf(a, m, c, i))[p]
    {
      ColMajorBound(i, p, m, c);
    }
  }

  lemma ColumnOfScaled(s: real, a: seq<real>, m: nat, c: nat, j: nat)
    requires |a| == m * c && j < c
    ensures ColumnOf(Scaled(s, a), m, c, j) == Scaled(s, ColumnOf(a, m, c, j))
  {
    forall p | 0 <= p < m
      ensures ColumnOf(Scaled(s, a), m, c, j)[p] == Scaled(s, ColumnOf(a, m, c, j))[p]
    {
      ColMajorBound(p, j, m, c);
    }
  }

  /** Transposing twice gives back the matrix. */
  lemma TransposeInvolution(a: seq<real>, m: nat, c: nat)
    requires |a| == m * c
    ensures TransposeData(TransposeData(a, m, c), c, m) == a
  {
    var t := TransposeData(a, m, c);
    var tt := TransposeData(t, c, m);
    forall q | 0 <= q < m * c
      ensures tt[q] == a[q]
    {
      ColMajorUnsplit(q, m, c);
      var i, j := q % m, q / m;
      ColMajorBound(j, i, c, m);
      ColMajorSplit(j, i, c);
    }
  }

  /** Transposition commutes with scaling. */
  lemma TransposeScaledAt(s: real, a: seq<real>, m: nat, c: nat, q: nat)
    requires |a| == m * c && q < c * m
    ensures TransposeData(Scaled(s, a), m, c)[q] == Scaled(s, TransposeData(a, m, c))[q]
  {
    ColMajorUnsplit(q, c, m);
    ColMajorBound(q / c, q % c, m, c);
  }

  lemma TransposeScaled(s: real, a: seq<real>, m: nat, c: nat)
    requires |a| == m * c
    ensures TransposeData(Scaled(s, a), m, c) == Scaled(s, TransposeData(a, m, c))
  {
    forall q | 0 <= q < c * m
      ensures TransposeData(Scaled(s, a), m, c)[q] == Scaled(s, TransposeData(a, m, c))[q]
    {
      TransposeScaledAt(s, a, m, c, q);
    }
  }

  /** The entry (i, j) of a product is the dot product of row i and column j. */
  lemma MatMulAt(a: seq<real>, b: seq<real>, m: nat, k: nat, n: nat, i: nat, j: nat)
    requires |a| == m * k && |b| == k * n && i < m && j < n
    ensures i + m * j < m * n
    ensures MatMul(a, b, m, k, n)[i + m * j] == Dot(RowOf(a, m, k, i), ColumnOf(b, k, n, j))
  {
    ColMajorBound(i, j, m, n);
    ColMajorSplit(i, j, m);
  }

  /** The entry (i, j) of an outer product is x[i]*y[j]. */
  lemma OuterAt(x: seq<real>, y: seq<real>, i: nat, j: nat)
    requires i < |x| && j < |y|
    ensures i + |x| * j < |Outer(x, y)|
    ensures Outer(x, y)[i + |x| * j] == x[i] * y[j]
  {
    ColMajorBound(i, j, |x|, |y|);
    ColMajorSplit(i, j, |x|);
  }

  /** The entry (i, j) of a materialised transpose is the entry (j, i) of the original. */
  lemma TransposeAt(a: seq<real>, m: nat, c: nat, i: nat, j: nat)
    requires |a| == m * c && i < c && j < m
    ensures i + c * j < c * m && j + m * i < m * c
    ensures TransposeData(a, m, c)[i + c * j] == a[j + m * i]
  {
    ColMajorBound(i, j, c, m);
    ColMajorBound(j, i, m, c);
    ColMajorSplit(i, j, c);
  }

  lemma EntryScaledLeft(s: real, a: seq<real>, b: seq<real>, m: nat, k: nat, n: nat, i: nat, j: nat)
    requires |a| == m * k && |b| == k * n && i < m && j < n
    ensures Entry(Scaled(s, a), b, m, k, n, i, j) == s * Entry(a, b, m, k, n, i, j)
  {
    RowOfScaled(s, a, m, k, i);
    DotScaledLeft(s, RowOf(a, m, k, i), ColumnOf(b, k, n, j));
  }

  lemma EntryScaledRight(t: real, a: seq<real>, b: seq<real>, m: nat, k: nat, n: nat, i: nat, j: nat)
    requires |a| == m * k && |b| == k * n && i < m && j < n
    ensures Entry(a, Scaled(t, b), m, k, n, i, j) == t * Entry(a, b, m, k, n, i, j)
  {
    ColumnOfScaled(t, b, k, n, j);
    DotScaledRight(t, RowOf(a, m, k, i), ColumnOf(b, k, n, j));
  }

  lemma MatMulScaledLeftAt(s: real, a: seq<real>, b: seq<real>, m: nat, k: nat, n: nat, q: nat)
    requires |a| == m * k && |b| == k * n && q < m * n
    ensures MatMul(Scaled(s, a), b, m, k, n)[q] == Scaled(s, MatMul(a, b, m, k, n))[q]
  {
    ColMajorUnsplit(q, m, n);
    EntryScaledLeft(s, a, b, m, k, n, q % m, q / m);
  }

  /** A scalar on the left factor pulls out of a matrix product. */
  lemma MatMulScaledLeft(s: real, a: seq<real>, b: seq<real>, m: nat, k: nat, n: nat)
    requires |a| == m * k && |b| == k * n
    ensures MatMul(Scaled(s, a), b, m, k, n) == Scaled(s, MatMul(a, b, m, k, n))
  {
    var lhs, prod := MatMul(Scaled(s, a), b, m, k, n), MatMul(a, b, m, k, n);
    forall q | 0 <= q < m * n
      ensures lhs[q] == Scaled(s, prod)[q]
    {
      MatMulScaledLeftAt(s, a, b, m, k, n, q);
    }
  }

  lemma MatMulScaledRightAt(t: real, a: seq<real>, b: seq<real>, m: nat, k: nat, n: nat, q: nat)
    requires |a| == m * k && |b| == k * n && q < m * n
    ensures MatMul(a, Scaled(t, b), m, k, n)[q] == Scaled(t, MatMul(a, b, m, k, n))[q]
  {
    ColMajorUnsplit(q, m, n);
    EntryScaledRight(t, a, b, m, k, n, q % m, q / m);
  }

  /** A scalar on the right factor pulls out of a matrix product. */
  lemma MatMulScaledRight(t: real, a: seq<real>, b: seq<real>, m: nat, k: nat, n: nat)
    requires |a| == m * k && |b| == k * n
    ensures MatMul(a, Scaled(t, b), m, k, n) == Scaled(t, MatMul(a, b, m, k, n))
  {
    var lhs, prod := MatMul(a, Scaled(t, b), m, k, n), MatMul(a, b, m, k, n);
    forall q | 0 <= q < m * n
      ensures lhs[q] == Scaled(t, prod)[q]
    {
      MatMulScaledRightAt(t, a, b, m, k, n, q);
    }
  }

  /** A scalar on the matrix pulls out of a matrix-vector product. */
  lemma MatVecScaledLeft(s: real, a: seq<real>, m: nat, c: nat, x: seq<real>)
    requires |a| == m * c && |x| == c
    ensures MatVec(Scaled(s, a), m, c, x) == Scaled(s, MatVec(a, m, c, x))
  {
    var lhs, mv := MatVec(Scaled(s, a), m, c, x), MatVec(a, m, c, x);
    forall i | 0 <= i < m
      ensures lhs[i] == Scaled(s, mv)[i]
    {
      RowOfScaled(s, a, m, c, i);
      DotScaledLeft(s, RowOf(a, m, c, i), x);
    }
  }

  /** A scalar on the vector pulls out of a matrix-vector product. */
  lemma MatVecScaledRight(t: real, a: seq<real>, m: nat, c: nat, x: seq<real>)
    requires |a| == m * c && |x| == c
    ensures MatVec(a, m, c, Scaled(t, x)) == Scaled(t, MatVec(a, m, c, x))
  {
    var lhs, mv := MatVec(a, m, c, Scaled(t, x)), MatVec(a, m, c, x);
    forall i | 0 <= i < m
      ensures lhs[i] == Scaled(t, mv)[i]
    {
      DotScaledRight(t, RowOf(a, m, c, i), x);
    }
  }

  lemma OuterScaledAt(s: real, t: real, x: seq<real>, y: seq<real>, q: nat)
    requires |x| > 0 && q < |x| * |y|
    ensures Outer(Scaled(s, x), Scaled(t, y))[q] == Scaled(s * t, Outer(x, y))[q]
  {
    ColMajorUnsplit(q, |x|, |y|);
    var i, j := q % |x|, q / |x|;
    var a, b := x[i], y[j];
    assert Outer(x, y)[q] == a * b;
    assert Scaled(s * t, Outer(x, y))[q] == (s * t) * (a * b);
    assert Outer(Scaled(s, x), Scaled(t, y))[q] == (s * a) * (t * b);
    MulMul(s, t, a, b);
  }

  /** Scalars pull out of both factors of an outer product. */
  lemma OuterScaled(s: real, t: real, x: seq<real>, y: seq<real>)
    requires |x| > 0
    ensures Outer(Scaled(s, x), Scaled(t, y)) == Scaled(s * t, Outer(x, y))
  {
    var lhs, o := Outer(Scaled(s, x), Scaled(t, y)), Outer(x, y);
    forall q | 0 <= q < |x| * |y|
      ensures lhs[q] == Scaled(s * t, o)[q]
    {
      OuterScaledAt(s, t, x, y, q);
    }
  }

  /** Adding -1 times y is subtracting y. */
  lemma SumNegated(x: seq<real>, y: seq<real>)
    requires |x| == |y|
    ensures Sum(x, Scaled(-1.0, y)) == Difference(x, y)
  {
  }

  /** Dividing by c is scaling by 1/c. */
  lemma QuotientScaled(x: seq<real>, c: real)
    requires c != 0.0
    ensures Quotient(x, c) == Scaled(1.0 / c, x)
  {
    forall k | 0 <= k < |x|
      ensures Quotient(x, c)[k] == Scaled(1.0 / c, x)[k]
    {
      assert x[k] / c == (1.0 / c) * x[k];
    }
  }

  /** Accumulating into an all-zero buffer with weight 1 gives the addend. */
  lemma SumZeros(x: seq<real>, z: seq<real>)
    requires |x| == |z| && forall k :: 0 <= k < |z| ==> z[k] == 0.0
    ensures Sum(x, Scaled(1.0, z)) == x
  {
  }

  /** Element-wise addition is commutative. */
  lemma SumCommute(x: seq<real>, y: seq<real>)
    requires |x| == |y|
    ensures Sum(x, y) == Sum(y, x)
  {
  }

  /** Adding an all-zero buffer changes nothing. */
  lemma SumZeroRight(x: seq<real>, z: seq<real>)
    requires |x| == |z| && forall k :: 0 <= k < |z| ==> z[k] == 0.0
    ensures Sum(x, z) == x
  {
  }
}
