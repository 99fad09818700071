/**
 * Compound assignment: c += rhs and c -= rhs update c's buffer in place.
 * ApAdd's reference-returning rules cover c += s*b (one axpy) and
 * c += (s*A)*(t*B) for matrices (one gemm with beta = 1); any other
 * right-hand side is evaluated first and then accumulated. c -= rhs is
 * c += (-1)*rhs.
 */
module Compound {
  import opened Shapes
  import opened Algebra
  import opened Blas
  import opened Arrays
  import opened Exprs
  import opened Rules
  import opened Evaluation

  /** c += s*b: y <- s*x + y with x = b and y = c, shapes equal. */
  method AddScaledInto(c: DenseArray, s: real, b: DenseArray)
    requires Holds(c) && Holds(b) && c.n == b.n
    modifies c.data
    ensures c.data[..] == Sum(Scaled(s, old(b.data[..])), old(c.data[..]))
  {
    Axpy(s, b.data[..], c.data);
  }

  /**
   * c += (s*A)*(t*B) for matrices: gemm with alpha = s*t and beta = 1
   * accumulates the product into c's buffer.
   */
  method AddProductInto(c: DenseArray, s: real, a: DenseArray, t: real, b: DenseArray)
    requires IsMatrixArray(c) && IsMatrixArray(a) && IsMatrixArray(b)
    requires a.n[1] == b.n[0] && c.n[0] == a.n[0] && c.n[1] == b.n[1]
    modifies c.data
    ensures c.data[..] == Sum(Scaled(s * t, MatMul(old(a.data[..]), old(b.data[..]), a.n[0], a.n[1], b.n[1])),
                              old(c.data[..]))
  {
    MatrixShape(a);
    MatrixShape(b);
    MatrixShape(c);
    ghost var before := c.data[..];
    Gemm(false, false, a.n[0], b.n[1], a.n[1], s * t, a.data[..], b.data[..], 1.0, c.data);
    ScaledOne(before);
  }

  /** c + s*b for the same c and b, the axpy written as c's value plus b's. */
  lemma AccumulateScaled(x: seq<real>, s: real, y: seq<real>)
    requires |x| == |y|
    ensures Sum(Scaled(s, y), x) == Sum(x, Scaled(s, y))
  {
    SumCommute(Scaled(s, y), x);
  }

  /**
   * c += rhs: an array right-hand side is 1*b; s*b and (s*A)*(t*B) have
   * their own rules; anything else is evaluated into a temporary that is
   * then accumulated. The right-hand side must denote an array of c's
   * shape (the size assertions of the rules).
   */
  method AddAssign(c: DenseArray, rhs: Expr)
    requires Holds(c) && Applicable(rhs) && LeavesValid(rhs)
    requires Eval(rhs).Some? && Eval(rhs).value.Tensor? && Eval(rhs).value.n == c.n
    modifies c.data
    ensures Contents(c) == AddValues(old(Contents(c)).value, old(Eval(rhs)).value)
  {
    EvalWellFormed(rhs);
    ghost var x, w := c.data[..], Eval(rhs).value;
    if rhs.Arr? {
      var b := rhs.a;
      assert b in Leaves(rhs);
      AddScaledInto(c, 1.0, b);
      ScaledOne(w.data);
      AccumulateScaled(x, 1.0, w.data);
    } else if IsScaledArray(rhs) {
      var b := rhs.r.a;
      assert b in Leaves(rhs);
      EvalScaledArray(rhs);
      assert w == Tensor(b.n, Scaled(rhs.l.s, b.data[..]));
      AddScaledInto(c, rhs.l.s, b);
      AccumulateScaled(x, rhs.l.s, old(b.data[..]));
    } else if rhs.Bin? && rhs.op == Mul && IsScaledArray(rhs.l) && IsScaledArray(rhs.r)
           && HasRank(rhs.l.r.a, 2) && HasRank(rhs.r.r.a, 2) && c.d == 2 {
      var a, b, s, t := rhs.l.r.a, rhs.r.r.a, rhs.l.l.s, rhs.r.l.s;
      OperandIsLeaf(rhs.l);
      OperandIsLeaf(rhs.r);
      assert a in Leaves(rhs) && b in Leaves(rhs);
      MatrixShape(a);
      MatrixShape(b);
      MatrixShape(c);
      EvalMatMul(rhs, a, b, false, false, s, t);
      ghost var p := MatMul(a.data[..], b.data[..], a.n[0], a.n[1], b.n[1]);
      assert w == Tensor([a.n[0], b.n[1]], Scaled(s * t, p));
      AddProductInto(c, s, a, t, b);
      SumCommute(Scaled(s * t, p), x);
    } else {
      LeavesAllocated(rhs);
      assert forall o :: o in Footprint(rhs) ==> allocated(o);
      var v := Apply(rhs);
      var tmp := Temporary(v.value);
      AddScaledInto(c, 1.0, tmp);
      ScaledOne(w.data);
      AccumulateScaled(x, 1.0, w.data);
    }
  }

  /** c -= rhs is c += (-1)*rhs, the scalar folded into rhs as operator* does. */
  method SubAssign(c: DenseArray, rhs: Expr)
    requires Holds(c) && Applicable(ScalarTimes(-1.0, rhs)) && LeavesValid(rhs)
    requires Eval(rhs).Some? && Eval(rhs).value.Tensor? && Eval(rhs).value.n == c.n
    modifies c.data
    ensures Contents(c) == SubValues(old(Contents(c)).value, old(Eval(rhs)).value)
  {
    EvalWellFormed(rhs);
    ghost var x, w := c.data[..], Eval(rhs).value;
    var negated := ScalarTimes(-1.0, rhs);
    ScalarTimesMeaning(-1.0, rhs);
    assert Eval(negated) == Some(Tensor(w.n, Scaled(-1.0, w.data)));
    AddAssign(c, negated);
    SumNegated(x, w.data);
  }

  /**
   * ApAdd's general rule as written, a =+ b(): the tokens parse as
   * a = +(b()), so c receives a copy of the right-hand side's value and
   * its previous contents are lost.
   */
  method AddAssignFallbackAsWritten(c: DenseArray, rhs: Expr)
    requires Holds(c) && Applicable(rhs) && LeavesValid(rhs)
    requires Eval(rhs).Some? && Eval(rhs).value.Tensor? && |Eval(rhs).value.n| == c.d
    modifies c
    ensures Contents(c) == old(Eval(rhs))
  {
    EvalWellFormed(rhs);
    LeavesAllocated(rhs);
    assert forall o :: o in Footprint(rhs) ==> allocated(o);
    var v := Apply(rhs);
    var copy := Temporary(v.value);
    c.Assign(copy);
  }

  /** Overwriting with y agrees with accumulating x + y exactly when x is all zeros. */
  lemma OverwriteIsSumOnlyOverZeros(x: Value, y: Value)
    requires x.Tensor? && y.Tensor? && x.n == y.n && |x.data| == |y.data|
    ensures AddValues(x, y) == Some(y) <==> forall i :: 0 <= i < |x.data| ==> x.data[i] == 0.0
  {
    if AddValues(x, y) == Some(y) {
      forall i | 0 <= i < |x.data|
        ensures x.data[i] == 0.0
      {
        assert Sum(x.data, y.data)[i] == y.data[i];
      }
    }
    if forall i :: 0 <= i < |x.data| ==> x.data[i] == 0.0 {
      SumCommute(x.data, y.data);
      SumZeroRight(y.data, x.data);
    }
  }

  /** c = [1] and rhs = [2]: the rule as written leaves [2] where c += rhs means [3]. */
  lemma OverwriteCounterexample()
    ensures AddValues(Tensor([1], [1.0]), Tensor([1], [2.0])) == Some(Tensor([1], [3.0]))
    ensures AddValues(Tensor([1], [1.0]), Tensor([1], [2.0])) != Some(Tensor([1], [2.0]))
  {
    assert Sum([1.0], [2.0]) == [3.0];
  }
}
