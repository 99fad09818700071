/**
 * The kernel collaborator: scal, axpy, dot, ger, gemv and gemm on
 * contiguous column-major buffers with unit increments and leading
 * dimension equal to the row count, the only way the expression rules call
 * them. The read-only operands are sequences, the updated one an array.
 */
module Blas {
  import opened Arith
  import opened Algebra

  /** scal: x <- alpha*x. */
  method Scal(alpha: real, x: array<real>)
    modifies x
    ensures x[..] == Scaled(alpha, old(x[..]))
  {
    ghost var want := Scaled(alpha, old(x[..]));
    var i := 0;
    while i < x.Length
      invariant 0 <= i <= x.Length
      invariant forall k :: 0 <= k < i ==> x[k] == want[k]
      invariant forall k :: i <= k < x.Length ==> x[k] == old(x[k])
    {
      x[i] := alpha * x[i];
      i := i + 1;
    }
  }

  /** axpy: y <- alpha*x + y. */
  method Axpy(alpha: real, x: seq<real>, y: array<real>)
    requires |x| == y.Length
    modifies y
    ensures y[..] == Sum(Scaled(alpha, x), old(y[..]))
  {
    ghost var want := Sum(Scaled(alpha, x), old(y[..]));
    var i := 0;
    while i < y.Length
      invariant 0 <= i <= y.Length
      invariant forall k :: 0 <= k < i ==> y[k] == want[k]
      invariant forall k :: i <= k < y.Length ==> y[k] == old(y[k])
    {
      y[i] := alpha * x[i] + y[i];
      i := i + 1;
    }
  }

  /** dot: the inner product of two vectors of equal length. */
  method DotProduct(x: seq<real>, y: seq<real>) returns (r: real)
    requires |x| == |y|
    ensures r == Dot(x, y)
  {
    r := 0.0;
    var i := 0;
    while i < |x|
      invariant 0 <= i <= |x|
      invariant r == Dot(x[..i], y[..i])
    {
      DotSnoc(x, y, i);
      r := r + x[i] * y[i];
      i := i + 1;
    }
    assert x[..i] == x && y[..i] == y;
  }

  /** ger: A <- alpha*x*transpose(y) + A, A of shape |x|-by-|y|. */
  method Ger(alpha: real, x: seq<real>, y: seq<real>, a: array<real>)
    requires |x| > 0 && a.Length == |x| * |y|
    modifies a
    ensures a[..] == Sum(Scaled(alpha, Outer(x, y)), old(a[..]))
  {
    var m := |x|;
    ghost var want := Sum(Scaled(alpha, Outer(x, y)), old(a[..]));
    var q := 0;
    while q < a.Length
      invariant 0 <= q <= a.Length
      invariant forall p :: 0 <= p < q ==> a[p] == want[p]
      invariant forall p :: q <= p < a.Length ==> a[p] == old(a[p])
    {
      ColMajorUnsplit(q, m, |y|);
      var i, j := q % m, q / m;
      a[q] := alpha * (x[i] * y[j]) + a[q];
      q := q + 1;
    }
  }

  /** op(A): A itself, or the transpose of the stored matrix. */
  function Op(a: seq<real>, trans: bool, rows: nat, cols: nat): (r: seq<real>)
    requires |a| == rows * cols
    ensures |r| == rows * cols
  {
    if trans then TransposeData(a, cols, rows) else a
  }

  /** Entry q of a product, given the dot product of its row and column. */
  lemma MatMulEntry(a: seq<real>, b: seq<real>, m: nat, k: nat, n: nat, q: nat, i: nat, j: nat, s: real)
    requires |a| == m * k && |b| == k * n && q < m * n
    requires i == q % m && j == q / m && i < m && j < n
    requires s == Dot(RowOf(a, m, k, i), ColumnOf(b, k, n, j))
    ensures MatMul(a, b, m, k, n)[q] == s
  {
  }

  /** r <- A*B, one row-column dot product per entry. */
  method ProductInto(a: seq<real>, b: seq<real>, m: nat, k: nat, n: nat, r: array<real>)
    requires |a| == m * k && |b| == k * n && r.Length == m * n
    modifies r
    ensures r[..] == MatMul(a, b, m, k, n)
  {
    var q := 0;
    while q < r.Length
      invariant 0 <= q <= r.Length
      invariant forall p :: 0 <= p < q ==> r[p] == MatMul(a, b, m, k, n)[p]
    {
      ColMajorUnsplit(q, m, n);
      var i, j := q % m, q / m;
      var s := DotProduct(RowOf(a, m, k, i), ColumnOf(b, k, n, j));
      MatMulEntry(a, b, m, k, n, q, i, j, s);
      r[q] := s;
      q := q + 1;
    }
  }

  /** axpby: y <- alpha*x + beta*y. */
  method Axpby(alpha: real, x: seq<real>, beta: real, y: array<real>)
    requires |x| == y.Length
    modifies y
    ensures y[..] == Sum(Scaled(alpha, x), Scaled(beta, old(y[..])))
  {
    ghost var want := Sum(Scaled(alpha, x), Scaled(beta, old(y[..])));
    var i := 0;
    while i < y.Length
      invariant 0 <= i <= y.Length
      invariant forall k :: 0 <= k < i ==> y[k] == want[k]
      invariant forall k :: i <= k < y.Length ==> y[k] == old(y[k])
    {
      y[i] := alpha * x[i] + beta * y[i];
      i := i + 1;
    }
  }

  /** r <- A*x for the m-by-c matrix A, one row dot product per entry. */
  method MatVecInto(a: seq<real>, m: nat, c: nat, x: seq<real>, r: array<real>)
    requires |a| == m * c && |x| == c && r.Length == m
    modifies r
    ensures r[..] == MatVec(a, m, c, x)
  {
    var i := 0;
    while i < m
      invariant 0 <= i <= m
      invariant forall p :: 0 <= p < i ==> r[p] == MatVec(a, m, c, x)[p]
    {
      r[i] := DotProduct(RowOf(a, m, c, i), x);
      i := i + 1;
    }
  }

  /** gemv (no transpose): y <- alpha*A*x + beta*y, A of shape m-by-c. */
  method Gemv(alpha: real, a: seq<real>, m: nat, c: nat, x: seq<real>, beta: real, y: array<real>)
    requires |a| == m * c && |x| == c && y.Length == m
    modifies y
    ensures y[..] == Sum(Scaled(alpha, MatVec(a, m, c, x)), Scaled(beta, old(y[..])))
  {
    var prod := new real[m];
    MatVecInto(a, m, c, x, prod);
    Axpby(alpha, prod[..], beta, y);
  }

  /**
   * gemm: C <- alpha*op(A)*op(B) + beta*C with op(A) m-by-k, op(B) k-by-n
   * and C m-by-n, where op(X) is X or its transpose as the flags say.
   */
  method Gemm(transA: bool, transB: bool, m: nat, n: nat, k: nat, alpha: real,
              a: seq<real>, b: seq<real>, beta: real, c: array<real>)
    requires |a| == m * k && |b| == k * n && c.Length == m * n
    modifies c
    ensures c[..] == Sum(Scaled(alpha, MatMul(Op(a, transA, m, k), Op(b, transB, k, n), m, k, n)),
                         Scaled(beta, old(c[..])))
  {
    var prod := new real[m * n];
    ProductInto(Op(a, transA, m, k), Op(b, transB, k, n), m, k, n, prod);
    Axpby(alpha, prod[..], beta, c);
  }
}
