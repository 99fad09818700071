/**
 * The apply rules: the specialised evaluations of expression nodes whose
 * operands are plain arrays, scaled arrays or transposed arrays. Each rule
 * allocates its result and computes it with one BLAS kernel (or, for the
 * transpose, an element loop); none of them changes an operand.
 */
module Rules {
  import opened Arith
  import opened Shapes
  import opened Algebra
  import opened Blas
  import opened Arrays

  /** An array that owns a buffer (it was not default-constructed). */
  ghost predicate Holds(a: DenseArray)
    reads a
  {
    a.Valid() && a.data != null
  }

  ghost predicate IsVectorArray(a: DenseArray)
    reads a
  {
    Holds(a) && a.d == 1 && a.data.Length == a.n[0]
  }

  ghost predicate IsMatrixArray(a: DenseArray)
    reads a
  {
    Holds(a) && a.d == 2 && a.data.Length == a.n[0] * a.n[1]
  }

  /** A rank-1 array with a buffer is a vector of n[0] > 0 elements. */
  lemma VectorShape(a: DenseArray)
    requires Holds(a) && a.d == 1
    ensures IsVectorArray(a) && a.n == [a.n[0]] && a.n[0] > 0
  {
    assert a.n == [a.n[0]];
    ProductPair(a.n[0], 0);
  }

  /** A rank-2 array with a buffer is a matrix of n[0]*n[1] elements. */
  lemma MatrixShape(a: DenseArray)
    requires Holds(a) && a.d == 2
    ensures IsMatrixArray(a) && a.n == [a.n[0], a.n[1]] && a.n[0] > 0 && a.n[1] > 0
  {
    assert a.n == [a.n[0], a.n[1]];
    ProductPair(a.n[0], a.n[1]);
  }

  /** Rows of op(A) for a stored matrix of shape n. */
  function OpRows(n: seq<nat>, trans: bool): nat
    requires |n| == 2
  {
    if trans then n[1] else n[0]
  }

  /** Columns of op(A) for a stored matrix of shape n. */
  function OpCols(n: seq<nat>, trans: bool): nat
    requires |n| == 2
  {
    if trans then n[0] else n[1]
  }

  /** Element (i, j) of a column-major buffer with the given number of rows. */
  function At(s: seq<real>, rows: nat, i: nat, j: nat): real
  {
    if i + rows * j < |s| then s[i + rows * j] else 0.0
  }

  /** array + array: a copy of b accumulates 1*a. */
  method AddArrays(a: DenseArray, b: DenseArray) returns (r: DenseArray)
    requires Holds(a) && Holds(b) && a.d == b.d && a.n == b.n
    ensures fresh(r) && fresh(r.data)
    ensures Holds(r) && r.d == a.d && r.n == a.n
    ensures r.data[..] == Sum(a.data[..], b.data[..])
  {
    r := new DenseArray.Copy(b);
    Axpy(1.0, a.data[..], r.data);
    ScaledOne(a.data[..]);
  }

  /** array - array: a copy of a accumulates -1*b. */
  method SubArrays(a: DenseArray, b: DenseArray) returns (r: DenseArray)
    requires Holds(a) && Holds(b) && a.d == b.d && a.n == b.n
    ensures fresh(r) && fresh(r.data)
    ensures Holds(r) && r.d == a.d && r.n == a.n
    ensures r.data[..] == Difference(a.data[..], b.data[..])
  {
    r := new DenseArray.Copy(a);
    ghost var before := r.data[..];
    Axpy(-1.0, b.data[..], r.data);
    SumCommute(Scaled(-1.0, b.data[..]), before);
    SumNegated(before, b.data[..]);
  }

  /** scalar * array: a copy of the array scaled in place. */
  method ScaleArray(s: real, b: DenseArray) returns (r: DenseArray)
    requires Holds(b)
    ensures Holds(r) && r.d == b.d && r.n == b.n
    ensures fresh(r) && fresh(r.data)
    ensures r.data[..] == Scaled(s, b.data[..])
  {
    r := new DenseArray.Copy(b);
    Scal(s, r.data);
  }

  /** s*a + t*b: the first product is formed, then the second accumulated. */
  method ScaledSum(s: real, a: DenseArray, t: real, b: DenseArray) returns (r: DenseArray)
    requires Holds(a) && Holds(b) && a.d == b.d && a.n == b.n
    ensures fresh(r) && fresh(r.data)
    ensures Holds(r) && r.d == a.d && r.n == a.n
    ensures r.data[..] == Sum(Scaled(s, a.data[..]), Scaled(t, b.data[..]))
  {
    r := ScaleArray(s, a);
    Axpy(t, b.data[..], r.data);
    SumCommute(Scaled(t, b.data[..]), Scaled(s, a.data[..]));
  }

  /** Two column-major positions in one column range coincide only for equal indices. */
  lemma ColMajorInjective(p: nat, q: nat, i: nat, j: nat, c: nat)
    requires p < c && i < c
    requires p + c * q == i + c * j
    ensures p == i && q == j
  {
    ColMajorSplit(p, q, c);
    ColMajorSplit(i, j, c);
  }

  /**
   * The c-by-m buffer r agrees with the transpose of the m-by-c buffer a
   * on rows before i, and on row i before column j.
   */
  ghost predicate TransposedUpTo(r: seq<real>, a: seq<real>, c: nat, m: nat, i: nat, j: nat)
  {
    forall p, q :: (0 <= p < i && 0 <= q < m) || (p == i && 0 <= q < j) ==>
      At(r, c, p, q) == At(a, m, q, p)
  }

  /** Storing a(j, i) at r(i, j) extends the agreement by one element. */
  lemma TransposeStep(before: seq<real>, a: seq<real>, c: nat, m: nat, i: nat, j: nat, v: real)
    requires i < c && j < m && |before| == c * m && v == At(a, m, j, i)
    requires TransposedUpTo(before, a, c, m, i, j)
    ensures i + c * j < |before|
    ensures TransposedUpTo(before[i + c * j := v], a, c, m, i, j + 1)
  {
    ColMajorBound(i, j, c, m);
    var after := before[i + c * j := v];
    forall p, q | (0 <= p < i && 0 <= q < m) || (p == i && 0 <= q < j + 1)
      ensures At(after, c, p, q) == At(a, m, q, p)
    {
      if p != i || q != j {
        if p + c * q == i + c * j {
          ColMajorInjective(p, q, i, j, c);
        }
        assert At(after, c, p, q) == At(before, c, p, q);
      }
    }
  }

  /** Agreement on every element is equality with the transpose. */
  lemma TransposedAll(r: seq<real>, a: seq<real>, c: nat, m: nat)
    requires |r| == c * m && |a| == m * c
    requires TransposedUpTo(r, a, c, m, c, 0)
    ensures r == TransposeData(a, m, c)
  {
    forall k | 0 <= k < c * m
      ensures r[k] == TransposeData(a, m, c)[k]
    {
      ColMajorUnsplit(k, c, m);
      ColMajorBound(k / c, k % c, m, c);
      assert At(r, c, k % c, k / c) == r[k];
    }
  }

  /** The transpose loop: r(i, j) = a(j, i) for every element of the c-by-m result. */
  method TransposeArray(a: DenseArray) returns (r: DenseArray)
    requires IsMatrixArray(a)
    ensures fresh(r) && fresh(r.data)
    ensures IsMatrixArray(r) && r.n == [a.n[1], a.n[0]]
    ensures r.data[..] == TransposeData(a.data[..], a.n[0], a.n[1])
  {
    MatrixShape(a);
    var m, c := a.n[0], a.n[1];
    r := new DenseArray(2, [c, m]);
    assert r.n == [c, m];
    MatrixShape(r);
    var i := 0;
    while i < c
      invariant 0 <= i <= c
      invariant IsMatrixArray(r) && r.n == [c, m] && fresh(r.data)
      invariant TransposedUpTo(r.data[..], a.data[..], c, m, i, 0)
    {
      var j := 0;
      while j < m
        invariant 0 <= j <= m
        invariant IsMatrixArray(r) && r.n == [c, m] && fresh(r.data)
        invariant TransposedUpTo(r.data[..], a.data[..], c, m, i, j)
      {
        var v := a.Get([j, i]);
        MatrixOffset(j, i, m, c);
        MatrixOffset(i, j, c, m);
        ColMajorBound(j, i, m, c);
        TransposeStep(r.data[..], a.data[..], c, m, i, j, v);
        r.Set([i, j], v);
        j := j + 1;
      }
      i := i + 1;
    }
    TransposedAll(r.data[..], a.data[..], c, m);
  }

  /** scalar * transposed matrix: the transpose is formed, then scaled. */
  method ScaleTransposed(s: real, a: DenseArray) returns (r: DenseArray)
    requires IsMatrixArray(a)
    ensures fresh(r) && fresh(r.data)
    ensures IsMatrixArray(r) && r.n == [a.n[1], a.n[0]]
    ensures r.data[..] == Scaled(s, TransposeData(a.data[..], a.n[0], a.n[1]))
  {
    var t := TransposeArray(a);
    r := ScaleArray(s, t);
  }

  /** transposed vector * vector, with the scalar factors collected in alpha. */
  method DotRule(alpha: real, x: DenseArray, y: DenseArray) returns (r: real)
    requires IsVectorArray(x) && IsVectorArray(y) && x.n == y.n
    ensures r == alpha * Dot(x.data[..], y.data[..])
  {
    var p := DotProduct(x.data[..], y.data[..]);
    r := alpha * p;
  }

  /** vector * transposed vector: a zero matrix receives a rank-one update. */
  method OuterRule(alpha: real, x: DenseArray, y: DenseArray) returns (r: DenseArray)
    requires IsVectorArray(x) && IsVectorArray(y)
    ensures fresh(r) && fresh(r.data)
    ensures IsMatrixArray(r) && r.n == [x.n[0], y.n[0]]
    ensures r.data[..] == Scaled(alpha, Outer(x.data[..], y.data[..]))
  {
    VectorShape(x);
    VectorShape(y);
    r := new DenseArray(2, [x.n[0], y.n[0]]);
    assert r.n == [x.n[0], y.n[0]];
    ProductPair(x.n[0], y.n[0]);
    Ger(alpha, x.data[..], y.data[..], r.data);
    SumZeroRight(Scaled(alpha, Outer(x.data[..], y.data[..])), Zeros(x.n[0] * y.n[0]));
  }

  /**
   * op(A) * op(B) for matrices, each operand possibly transposed, with
   * the scalar factors collected in alpha: gemm into a zero matrix with
   * beta = 1. The inner dimensions must agree.
   */
  method MatMulRule(transA: bool, transB: bool, alpha: real, a: DenseArray, b: DenseArray)
    returns (r: DenseArray)
    requires IsMatrixArray(a) && IsMatrixArray(b)
    requires OpCols(a.n, transA) == OpRows(b.n, transB)
    ensures fresh(r) && fresh(r.data)
    ensures IsMatrixArray(r) && r.n == [OpRows(a.n, transA), OpCols(b.n, transB)]
    ensures r.data[..] == Scaled(alpha, MatMul(
              Op(a.data[..], transA, OpRows(a.n, transA), OpCols(a.n, transA)),
              Op(b.data[..], transB, OpRows(b.n, transB), OpCols(b.n, transB)),
              OpRows(a.n, transA), OpCols(a.n, transA), OpCols(b.n, transB)))
  {
    MatrixShape(a);
    MatrixShape(b);
    var m, k, n := OpRows(a.n, transA), OpCols(a.n, transA), OpCols(b.n, transB);
    r := new DenseArray(2, [m, n]);
    assert r.n == [m, n];
    ProductPair(m, n);
    ghost var zero := r.data[..];
    Gemm(transA, transB, m, n, k, alpha, a.data[..], b.data[..], 1.0, r.data);
    SumZeros(Scaled(alpha, MatMul(Op(a.data[..], transA, m, k), Op(b.data[..], transB, k, n), m, k, n)), zero);
  }

  /**
   * matrix * vector with the scalar factors collected in alpha: gemv into
   * a zero vector with one entry per row of the matrix.
   */
  method MatVecRule(alpha: real, a: DenseArray, x: DenseArray) returns (r: DenseArray)
    requires IsMatrixArray(a) && IsVectorArray(x) && a.n[1] == x.n[0]
    ensures fresh(r) && fresh(r.data)
    ensures IsVectorArray(r) && r.n == [a.n[0]]
    ensures r.data[..] == Scaled(alpha, MatVec(a.data[..], a.n[0], a.n[1], x.data[..]))
  {
    MatrixShape(a);
    VectorShape(x);
    r := new DenseArray(1, [a.n[0]]);
    assert r.n == [a.n[0]];
    ProductPair(a.n[0], 0);
    ghost var zero := r.data[..];
    Gemv(alpha, a.data[..], a.n[0], a.n[1], x.data[..], 1.0, r.data);
    SumZeros(Scaled(alpha, MatVec(a.data[..], a.n[0], a.n[1], x.data[..])), zero);
  }
}
