/**
 * Evaluating an expression tree (operator() of an expression): a node
 * whose operands match one of the specialised apply rules is computed by
 * that rule; any other node evaluates its operands first and combines the
 * results, which re-dispatches on the temporaries. Every evaluation is
 * proved to produce the reference meaning Eval.
 */
module Evaluation {
  import opened Shapes
  import opened Algebra
  import opened Blas
  import opened Arrays
  import opened Exprs
  import opened Rules

  // ---------------------------------------------------------------------
  // Well-formed values

  /**
   * Values that arrays can hold: a tensor has rank at least one, positive
   * dimensions and exactly Product(n) elements; a row is not empty.
   */
  predicate WellFormed(v: Value)
  {
    match v
    case Scalar(_) => true
    case Tensor(n, data) => |n| >= 1 && Positive(n) && |data| == Product(n)
    case RowVec(u) => |u| > 0
  }

  lemma ScaleWellFormed(c: real, x: Value)
    requires WellFormed(x)
    ensures WellFormed(Scale(c, x))
  {
  }

  lemma CombineWellFormed(op: Op, x: Value, y: Value)
    requires WellFormed(x) && WellFormed(y)
    ensures Combine(op, x, y).Some? ==> WellFormed(Combine(op, x, y).value)
  {
    if op == Mul {
      if x.Scalar? {
        ScaleWellFormed(x.x, y);
      } else if y.Scalar? {
        ScaleWellFormed(y.x, x);
      } else if x.RowVec? && IsVector(y) && |x.v| == |y.data| {
      } else if IsVector(x) && y.RowVec? && |x.data| > 0 {
        ProductPair(|x.data|, |y.v|);
      } else if IsMatrix(x) && IsMatrix(y) && x.n[1] == y.n[0] {
        ProductPair(x.n[0], y.n[1]);
      } else if IsMatrix(x) && IsVector(y) && x.n[1] == y.n[0] {
        ProductPair(x.n[0], 0);
      }
    }
  }

  lemma TrWellFormed(x: Value)
    requires WellFormed(x)
    ensures TrValue(x).Some? ==> WellFormed(TrValue(x).value)
  {
    if IsVector(x) {
    } else if IsMatrix(x) {
      ProductPair(x.n[1], x.n[0]);
    } else if x.RowVec? {
      ProductPair(|x.v|, 0);
    }
  }

  /** Every value an expression over valid arrays denotes is well formed. */
  lemma {:induction false} EvalWellFormed(e: Expr)
    requires LeavesValid(e)
    ensures Eval(e).Some? ==> WellFormed(Eval(e).value)
  {
    match e
    case Lit(_) =>
    case Arr(a) =>
      assert a in Leaves(e) && a.Valid();
      if a.data != null {
        assert Eval(e).value == Tensor(a.n, a.data[..]);
      }
    case Bin(op, l, r) =>
      EvalWellFormed(l);
      EvalWellFormed(r);
      if Eval(l).Some? && Eval(r).Some? {
        CombineWellFormed(op, Eval(l).value, Eval(r).value);
      }
    case Tr(x) =>
      EvalWellFormed(x);
      if Eval(x).Some? {
        TrWellFormed(Eval(x).value);
      }
  }

  // ---------------------------------------------------------------------
  // Leaves and temporaries

  /** The value of a leaf: its current shape and elements. */
  method Load(a: DenseArray) returns (v: Option<Value>)
    ensures v == Contents(a)
  {
    if a.data == null {
      v := None;
    } else {
      v := Some(Tensor(a.n, a.data[..]));
    }
  }

  /** The value a freshly computed array holds. */
  ghost function Held(a: DenseArray): Value
    reads a, a.data
    requires a.data != null
  {
    Tensor(a.n, a.data[..])
  }

  /** A temporary array holding a well-formed tensor value. */
  method Temporary(v: Value) returns (a: DenseArray)
    requires v.Tensor? && WellFormed(v)
    ensures fresh(a) && Holds(a) && a.d == |v.n| && Held(a) == v
  {
    a := new DenseArray.Of(v.n, v.data);
  }

  // ---------------------------------------------------------------------
  // Re-dispatch on evaluated operands

  /**
   * The general rule of every operator, (a() op b())(): the operands have
   * been evaluated; two arrays meet the array rules again (with 1*a*1*b
   * for a product), a scalar and an array the scaling rule. Two scalars
   * never meet here: such a node has no operator().
   */
  method Redispatch(op: Op, x: Value, y: Value) returns (v: Option<Value>)
    requires WellFormed(x) && WellFormed(y) && !(x.Scalar? && y.Scalar?)
    ensures v == Combine(op, x, y)
  {
    match op
    case Add =>
      if x.Tensor? && y.Tensor? && x.n == y.n {
        var a := Temporary(x);
        var b := Temporary(y);
        var r := AddArrays(a, b);
        v := Some(Tensor(r.n, r.data[..]));
      } else {
        v := AddValues(x, y);
      }
    case Sub =>
      if x.Tensor? && y.Tensor? && x.n == y.n {
        var a := Temporary(x);
        var b := Temporary(y);
        var r := SubArrays(a, b);
        v := Some(Tensor(r.n, r.data[..]));
      } else {
        v := SubValues(x, y);
      }
    case Mul =>
      v := RedispatchMul(x, y);
    case Div =>
      if x.Tensor? && y.Scalar? && y.x != 0.0 {
        var a := Temporary(x);
        var r := ScaleArray(1.0 / y.x, a);
        QuotientScaled(x.data, y.x);
        v := Some(Tensor(r.n, r.data[..]));
      } else {
        v := DivValues(x, y);
      }
  }

  method RedispatchMul(x: Value, y: Value) returns (v: Option<Value>)
    requires WellFormed(x) && WellFormed(y) && !(x.Scalar? && y.Scalar?)
    ensures v == MulValues(x, y)
  {
    if x.Scalar? && y.Tensor? {
      var b := Temporary(y);
      var r := ScaleArray(x.x, b);
      v := Some(Tensor(r.n, r.data[..]));
    } else if x.Tensor? && y.Scalar? {
      var a := Temporary(x);
      var r := ScaleArray(y.x, a);
      v := Some(Tensor(r.n, r.data[..]));
    } else if IsMatrix(x) && IsMatrix(y) && x.n[1] == y.n[0] {
      var a := Temporary(x);
      var b := Temporary(y);
      MatrixShape(a);
      MatrixShape(b);
      var r := MatMulRule(false, false, 1.0 * 1.0, a, b);
      ScaledOne(MatMul(x.data, y.data, x.n[0], x.n[1], y.n[1]));
      v := Some(Tensor(r.n, r.data[..]));
    } else if IsMatrix(x) && IsVector(y) && x.n[1] == y.n[0] {
      var a := Temporary(x);
      var b := Temporary(y);
      MatrixShape(a);
      VectorShape(b);
      var r := MatVecRule(1.0 * 1.0, a, b);
      ScaledOne(MatVec(x.data, x.n[0], x.n[1], y.data));
      v := Some(Tensor(r.n, r.data[..]));
    } else {
      v := MulValues(x, y);
    }
  }

  // ---------------------------------------------------------------------
  // Operand patterns of the specialised rules

  /** s * a for a literal s and an array a. */
  predicate IsScaledArray(e: Expr)
  {
    e.Bin? && e.op == Mul && e.l.Lit? && e.r.Arr?
  }

  /** transpose node directly over an array. */
  predicate IsTrArray(e: Expr)
  {
    e.Tr? && e.e.Arr?
  }

  /** s * Tr(a) for a literal s and an array a. */
  predicate IsScaledTr(e: Expr)
  {
    e.Bin? && e.op == Mul && e.l.Lit? && IsTrArray(e.r)
  }

  /** The array under a scaled or transposed operand pattern. */
  function Operand(e: Expr): DenseArray
    requires IsScaledArray(e) || IsTrArray(e) || IsScaledTr(e)
  {
    if IsScaledArray(e) then e.r.a else if IsTrArray(e) then e.e.a else e.r.e.a
  }

  lemma OperandIsLeaf(e: Expr)
    requires IsScaledArray(e) || IsTrArray(e) || IsScaledTr(e)
    ensures Operand(e) in Leaves(e)
  {
    if IsScaledTr(e) {
      assert Operand(e) in Leaves(e.r);
    }
  }

  /** An array of the given rank that holds a buffer (the static rank of the source's operand types). */
  predicate HasRank(a: DenseArray, k: nat)
    reads a
  {
    a.data != null && a.d == k
  }

  /** Every array of the expression holds a buffer. */
  predicate Buffered(e: Expr)
    reads Leaves(e)
  {
    forall a :: a in Leaves(e) ==> a.data != null
  }

  /** An array without a buffer anywhere in a tree leaves the tree without a value. */
  lemma {:induction false} EmptyLeaf(e: Expr, a: DenseArray)
    requires a in Leaves(e) && a.data == null
    ensures Eval(e) == None
  {
    match e
    case Lit(_) =>
    case Arr(_) =>
    case Bin(_, l, r) =>
      if a in Leaves(l) {
        EmptyLeaf(l, a);
      } else {
        EmptyLeaf(r, a);
      }
    case Tr(x) =>
      EmptyLeaf(x, a);
  }

  /** In a tree whose arrays all hold buffers, so do the arrays of its operand patterns. */
  lemma BufferedOperands(e: Expr)
    requires e.Bin?
    ensures Buffered(e) && (IsScaledArray(e) || IsScaledTr(e)) ==> Operand(e).data != null
    ensures Buffered(e) && (IsScaledArray(e.l) || IsTrArray(e.l) || IsScaledTr(e.l)) ==> Operand(e.l).data != null
    ensures Buffered(e) && (IsScaledArray(e.r) || IsTrArray(e.r) || IsScaledTr(e.r)) ==> Operand(e.r).data != null
  {
    if IsScaledArray(e) || IsScaledTr(e) {
      OperandIsLeaf(e);
    }
    if IsScaledArray(e.l) || IsTrArray(e.l) || IsScaledTr(e.l) {
      OperandIsLeaf(e.l);
    }
    if IsScaledArray(e.r) || IsTrArray(e.r) || IsScaledTr(e.r) {
      OperandIsLeaf(e.r);
    }
  }

  // ---------------------------------------------------------------------
  // The trees the apply rules accept

  /**
   * A product whose operand types select a specialised ApMul rule, by the
   * static ranks of its arrays: scalar*array of any rank, scalar*transposed
   * matrix, transposed vector*vector, vector*transposed vector and their
   * scaled forms, matrix*vector, and matrix*matrix with either factor
   * possibly transposed.
   */
  predicate MulRule(e: Expr)
    requires e.Bin?
  {
    IsScaledArray(e)
    || (IsScaledTr(e) && e.r.e.a.d == 2)
    || ScalarValued(e)
    || (IsScaledArray(e.l) && IsTrArray(e.r) && e.l.r.a.d == 1 && e.r.e.a.d == 1)
    || (IsScaledArray(e.l) && IsScaledTr(e.r) && e.l.r.a.d == 1 && e.r.r.e.a.d == 1)
    || (IsScaledArray(e.l) && IsScaledArray(e.r) && e.l.r.a.d == 2 && e.r.r.a.d == 1)
    || ((IsScaledArray(e.l) || IsScaledTr(e.l)) && (IsScaledArray(e.r) || IsScaledTr(e.r))
        && Operand(e.l).d == 2 && Operand(e.r).d == 2)
  }

  /**
   * The product patterns whose rule returns a bare scalar rather than an
   * array: transposed vector times vector, plain or scaled.
   */
  predicate ScalarValued(e: Expr)
  {
    e.Bin? && e.op == Mul
    && ((IsTrArray(e.l) && IsScaledArray(e.r) && e.l.e.a.d == 1 && e.r.r.a.d == 1)
        || (IsScaledTr(e.l) && IsScaledArray(e.r) && e.l.r.e.a.d == 1 && e.r.r.a.d == 1))
  }

  /** A node whose operand types select a specialised rule of its operator. */
  predicate HasRule(e: Expr)
    requires e.Bin?
  {
    match e.op
    case Add =>
      || (e.l.Arr? && e.r.Arr? && e.l.a.d == e.r.a.d)
      || (IsScaledArray(e.l) && IsScaledArray(e.r) && e.l.r.a.d == e.r.r.a.d)
    case Sub => e.l.Arr? && e.r.Arr? && e.l.a.d == e.r.a.d
    case Mul => MulRule(e)
    case Div => false
  }

  /**
   * The trees whose operator() exists: a literal, an array, a transposed
   * matrix, and a node that has a specialised rule for its operand types
   * or else meets the general rule of its operator.
   */
  predicate Applicable(e: Expr)
    decreases e, 1
  {
    match e
    case Lit(_) => true
    case Arr(_) => true
    case Tr(x) => x.Arr? && x.a.d == 2
    case Bin(_, _, _) => HasRule(e) || GeneralOperands(e)
  }

  /**
   * The general rule takes two wrapped expressions (neither a plain array
   * nor a bare literal), each of which has an operator() of its own, and
   * applies the operator again to what they return. A scalar-valued side
   * returns a bare scalar, which has no + or - with an array or a scalar
   * that yields an expression; a product needs an array on at least one
   * side, and a quotient an array divided by a scalar.
   */
  predicate GeneralOperands(e: Expr)
    requires e.Bin?
    decreases e, 0
  {
    && (e.l.Bin? || e.l.Tr?) && (e.r.Bin? || e.r.Tr?) && Applicable(e.l) && Applicable(e.r)
    && match e.op
       case Add => !ScalarValued(e.l) && !ScalarValued(e.r)
       case Sub => !ScalarValued(e.l) && !ScalarValued(e.r)
       case Mul => !(ScalarValued(e.l) && ScalarValued(e.r))
       case Div => !ScalarValued(e.l) && ScalarValued(e.r)
  }

  /**
   * What an applicable tree over valid arrays can denote: a scalar exactly
   * for a literal or a scalar-valued product pattern, and never a row (a
   * transposed vector occurs only inside the product patterns).
   */
  lemma {:induction false} ApplicableKind(e: Expr)
    requires Applicable(e) && LeavesValid(e)
    ensures Eval(e).Some? ==> !Eval(e).value.RowVec?
    ensures Eval(e).Some? ==> (Eval(e).value.Scalar? <==> e.Lit? || ScalarValued(e))
  {
    match e
    case Lit(_) =>
    case Arr(a) =>
    case Tr(x) =>
      assert x.a in Leaves(e);
    case Bin(_, l, r) =>
      if HasRule(e) {
        RuleKind(e);
      } else {
        ApplicableKind(l);
        ApplicableKind(r);
      }
  }

  /** The value kinds of the nodes that a specialised rule evaluates. */
  lemma RuleKind(e: Expr)
    requires e.Bin? && HasRule(e) && LeavesValid(e)
    ensures Eval(e).Some? ==> !Eval(e).value.RowVec?
    ensures Eval(e).Some? ==> (Eval(e).value.Scalar? <==> ScalarValued(e))
  {
    if e.op == Mul {
      MulKind(e);
    } else if e.l.Arr? && e.r.Arr? {
      assert e.l.a in Leaves(e) && e.r.a in Leaves(e);
      assert Eval(e.l) == Contents(e.l.a) && Eval(e.r) == Contents(e.r.a);
    } else {
      OperandKind(e.l, e);
      OperandKind(e.r, e);
    }
  }

  /**
   * A scaled or transposed operand pattern inside a tree over valid arrays
   * never denotes a scalar, and denotes a row exactly when it transposes a
   * vector.
   */
  lemma OperandKind(p: Expr, e: Expr)
    requires IsScaledArray(p) || IsTrArray(p) || IsScaledTr(p)
    requires Leaves(p) <= Leaves(e) && LeavesValid(e)
    ensures Eval(p).Some? ==> !Eval(p).value.Scalar?
    ensures Eval(p).Some? ==> (Eval(p).value.RowVec? <==> !IsScaledArray(p) && Operand(p).d == 1)
  {
    var a := Operand(p);
    OperandIsLeaf(p);
    assert a.Valid();
    if IsScaledArray(p) {
      EvalScaledArray(p);
    } else if IsTrArray(p) {
      assert Eval(p.e) == Contents(a);
    } else {
      EvalScaledTr(p);
    }
  }

  /** The value kinds of the products that a specialised ApMul rule evaluates. */
  lemma MulKind(e: Expr)
    requires e.Bin? && e.op == Mul && MulRule(e) && LeavesValid(e)
    ensures Eval(e).Some? ==> !Eval(e).value.RowVec?
    ensures Eval(e).Some? ==> (Eval(e).value.Scalar? <==> ScalarValued(e))
  {
    if IsScaledArray(e) {
      OperandKind(e, e);
    } else if IsScaledTr(e) {
      OperandKind(e.r, e);
      EvalScaledTr(e);
    } else {
      OperandKind(e.l, e);
      OperandKind(e.r, e);
    }
  }

  /** The two sides the general rule evaluates are never both scalars. */
  lemma GeneralKinds(e: Expr)
    requires e.Bin? && GeneralOperands(e) && LeavesValid(e)
    requires Eval(e.l).Some? && Eval(e.r).Some?
    ensures !(Eval(e.l).value.Scalar? && Eval(e.r).value.Scalar?)
  {
    ApplicableKind(e.l);
    ApplicableKind(e.r);
  }

  /**
   * transpose(x)*y op transpose(u)*w over vectors: both sides return bare
   * scalars, so no operator has a general rule for them.
   */
  lemma DotPairNotApplicable(op: Op, x: DenseArray, y: DenseArray, u: DenseArray, w: DenseArray)
    requires x.d == 1 && y.d == 1 && u.d == 1 && w.d == 1
    ensures !Applicable(Bin(op, Bin(Mul, Tr(Arr(x)), Bin(Mul, Lit(1.0), Arr(y))),
                                Bin(Mul, Tr(Arr(u)), Bin(Mul, Lit(1.0), Arr(w)))))
  {
  }

  /** 2*3*x: the two literals multiply as numbers, leaving the scalar*array rule. */
  lemma LiteralProductApplicable(s: real, t: real, x: DenseArray)
    ensures Times(Times(Lit(s), Lit(t)), Arr(x)) == Bin(Mul, Lit(s * t), Arr(x))
    ensures Applicable(Times(Times(Lit(s), Lit(t)), Arr(x)))
  {
  }

  /** 2*(x+y): a literal times a sum of arrays has no rule, so it has no operator(). */
  lemma ScaledSumNotApplicable(c: real, x: DenseArray, y: DenseArray)
    ensures !Applicable(Bin(Mul, Lit(c), Bin(Add, Arr(x), Arr(y))))
  {
  }

  lemma EvalScaledArray(e: Expr)
    requires IsScaledArray(e)
    ensures Eval(e) == ScaleOpt(e.l.s, Contents(e.r.a))
  {
    assert e == Scaling(e.l.s, e.r);
    EvalScaling(e.l.s, e.r);
  }

  lemma EvalScaledTr(e: Expr)
    requires IsScaledTr(e)
    ensures Eval(e) == ScaleOpt(e.l.s, Eval(e.r))
    ensures Eval(e.r) == if e.r.e.a.data == null then None else TrValue(Held(e.r.e.a))
  {
    assert e == Scaling(e.l.s, e.r);
    EvalScaling(e.l.s, e.r);
  }

  /** The stored matrix a, or its transpose, as a value. */
  ghost function OpHeld(a: DenseArray, trans: bool): (v: Value)
    reads a, a.data
    requires IsMatrixArray(a)
    ensures IsMatrix(v) && v.n == [OpRows(a.n, trans), OpCols(a.n, trans)]
  {
    var m, c := a.n[0], a.n[1];
    if trans then Tensor([c, m], TransposeData(a.data[..], m, c)) else Tensor([m, c], a.data[..])
  }

  /** A scaled, possibly transposed matrix operand denotes s * op(A). */
  lemma EvalMatrixOperand(e: Expr)
    requires IsScaledArray(e) || IsScaledTr(e)
    requires IsMatrixArray(Operand(e))
    ensures Eval(e) == Some(Scale(e.l.s, OpHeld(Operand(e), IsScaledTr(e))))
  {
    var a := Operand(e);
    MatrixShape(a);
    if IsScaledArray(e) {
      EvalScaledArray(e);
      assert Held(a) == OpHeld(a, false);
    } else {
      EvalScaledTr(e);
      assert TrValue(Held(a)) == Some(OpHeld(a, true));
    }
  }

  /** The buffer of op(A) is the one the gemm kernel reads for the flag trans. */
  lemma OpHeldData(a: DenseArray, trans: bool)
    requires IsMatrixArray(a)
    ensures OpHeld(a, trans).data == Blas.Op(a.data[..], trans, OpRows(a.n, trans), OpCols(a.n, trans))
  {
  }

  // ---------------------------------------------------------------------
  // Nodes matched by a specialised rule

  /** array + array. */
  method AddNode(e: Expr) returns (v: Option<Value>)
    requires e.Bin? && e.op == Add && e.l.Arr? && e.r.Arr? && LeavesValid(e)
    ensures v == Eval(e)
  {
    var a, b := e.l.a, e.r.a;
    assert a in Leaves(e) && b in Leaves(e);
    if a.data != null && b.data != null && a.n == b.n {
      var r := AddArrays(a, b);
      v := Some(Tensor(r.n, r.data[..]));
    } else {
      v := None;
    }
  }

  /** scalar*array + scalar*array. */
  method ScaledSumNode(e: Expr) returns (v: Option<Value>)
    requires e.Bin? && e.op == Add && IsScaledArray(e.l) && IsScaledArray(e.r) && LeavesValid(e)
    ensures v == Eval(e)
  {
    var a, b := e.l.r.a, e.r.r.a;
    OperandIsLeaf(e.l);
    OperandIsLeaf(e.r);
    assert a in Leaves(e) && b in Leaves(e);
    EvalScaledArray(e.l);
    EvalScaledArray(e.r);
    EvalBin(Add, e.l, e.r);
    if a.data != null && b.data != null && a.n == b.n {
      assert Scale(e.l.l.s, Held(a)) == Tensor(a.n, Scaled(e.l.l.s, a.data[..]));
      assert Scale(e.r.l.s, Held(b)) == Tensor(b.n, Scaled(e.r.l.s, b.data[..]));
      var r := ScaledSum(e.l.l.s, a, e.r.l.s, b);
      assert a.Valid() && b.Valid();
      assert Contents(a) == Some(Held(a)) && Contents(b) == Some(Held(b));
      assert Eval(e.l) == Some(Tensor(a.n, Scaled(e.l.l.s, a.data[..])));
      assert Eval(e.r) == Some(Tensor(b.n, Scaled(e.r.l.s, b.data[..])));
      v := Some(Tensor(r.n, r.data[..]));
    } else {
      v := None;
    }
  }

  /** array - array. */
  method SubNode(e: Expr) returns (v: Option<Value>)
    requires e.Bin? && e.op == Sub && e.l.Arr? && e.r.Arr? && LeavesValid(e)
    ensures v == Eval(e)
  {
    var a, b := e.l.a, e.r.a;
    assert a in Leaves(e) && b in Leaves(e);
    if a.data != null && b.data != null && a.n == b.n {
      var r := SubArrays(a, b);
      v := Some(Tensor(r.n, r.data[..]));
    } else {
      v := None;
    }
  }

  /** scalar * array. */
  method ScaleNode(e: Expr) returns (v: Option<Value>)
    requires IsScaledArray(e) && LeavesValid(e)
    ensures v == Eval(e)
  {
    var b := e.r.a;
    assert b in Leaves(e);
    EvalScaledArray(e);
    if b.data != null {
      var r := ScaleArray(e.l.s, b);
      v := Some(Tensor(r.n, r.data[..]));
    } else {
      v := None;
    }
  }

  /** scalar * transposed matrix. */
  method ScaleTransposedNode(e: Expr) returns (v: Option<Value>)
    requires IsScaledTr(e) && HasRank(e.r.e.a, 2) && LeavesValid(e)
    ensures v == Eval(e)
  {
    var a := e.r.e.a;
    OperandIsLeaf(e);
    MatrixShape(a);
    EvalScaledTr(e);
    assert TrValue(Held(a)) == Some(Tensor([a.n[1], a.n[0]], TransposeData(a.data[..], a.n[0], a.n[1])));
    assert Scale(e.l.s, Tensor([a.n[1], a.n[0]], TransposeData(a.data[..], a.n[0], a.n[1])))
        == Tensor([a.n[1], a.n[0]], Scaled(e.l.s, TransposeData(a.data[..], a.n[0], a.n[1])));
    var r := ScaleTransposed(e.l.s, a);
    assert Eval(e.r) == TrValue(Held(a));
    assert Eval(e) == Some(Tensor([a.n[1], a.n[0]], Scaled(e.l.s, TransposeData(a.data[..], a.n[0], a.n[1]))));
    v := Some(Tensor(r.n, r.data[..]));
  }

  /** A product node over operands with known values denotes their product. */
  lemma EvalProduct(e: Expr, x: Value, y: Value)
    requires e.Bin? && e.op == Mul && Eval(e.l) == Some(x) && Eval(e.r) == Some(y)
    ensures Eval(e) == MulValues(x, y)
  {
  }

  /** A transposed vector leaf denotes the row of its elements. */
  lemma EvalTrVector(e: Expr)
    requires IsTrArray(e) && IsVectorArray(e.e.a)
    ensures Eval(e) == Some(RowVec(e.e.a.data[..]))
  {
    VectorShape(e.e.a);
    assert e.e.a in Leaves(e);
  }

  /** transpose(x) * (t * y) denotes t * dot(x, y) when the lengths agree. */
  lemma EvalDot(e: Expr, x: DenseArray, y: DenseArray, t: real, r: real)
    requires e.Bin? && e.op == Mul && IsTrArray(e.l) && IsScaledArray(e.r)
    requires x == e.l.e.a && y == e.r.r.a && t == e.r.l.s
    requires IsVectorArray(x) && IsVectorArray(y)
    requires x.n == y.n ==> r == t * Dot(x.data[..], y.data[..])
    ensures Eval(e) == if x.n == y.n then Some(Scalar(r)) else None
  {
    VectorShape(x);
    VectorShape(y);
    EvalTrVector(e.l);
    EvalScaledArray(e.r);
    EvalProduct(e, RowVec(x.data[..]), Scale(t, Held(y)));
    MulScaleRight(t, RowVec(x.data[..]), Held(y));
    if x.n == y.n {
      var d := Dot(x.data[..], y.data[..]);
      assert MulValues(RowVec(x.data[..]), Held(y)) == Some(Scalar(d));
      assert Scale(t, Scalar(d)) == Scalar(t * d);
      assert Eval(e) == Some(Scalar(t * d));
      assert r == t * d;
      assert Scalar(r) == Scalar(t * d);
    }
  }

  /** (s * x) * transpose(y) denotes s * x * transpose(y). */
  lemma EvalOuter(e: Expr, x: DenseArray, y: DenseArray, s: real)
    requires e.Bin? && e.op == Mul && IsScaledArray(e.l) && IsTrArray(e.r)
    requires x == e.l.r.a && y == e.r.e.a && s == e.l.l.s
    requires IsVectorArray(x) && IsVectorArray(y)
    ensures Eval(e) == Some(Tensor([x.n[0], y.n[0]], Scaled(s, Outer(x.data[..], y.data[..]))))
  {
    VectorShape(x);
    VectorShape(y);
    EvalScaledArray(e.l);
    EvalTrVector(e.r);
    EvalProduct(e, Scale(s, Held(x)), RowVec(y.data[..]));
    MulScaleLeft(s, Held(x), RowVec(y.data[..]));
    assert MulValues(Held(x), RowVec(y.data[..])) ==
      Some(Tensor([x.n[0], y.n[0]], Outer(x.data[..], y.data[..])));
  }

  /** s * transpose(x) denotes s times the row of x's elements. */
  lemma EvalScaledTrVector(e: Expr, x: DenseArray, s: real)
    requires IsScaledTr(e) && x == e.r.e.a && s == e.l.s && IsVectorArray(x)
    ensures Eval(e) == Some(Scale(s, RowVec(x.data[..])))
  {
    EvalScaledTr(e);
    EvalTrVector(e.r);
  }

  /** (s * transpose(x)) * (t * y) denotes t * s * dot(x, y) when the lengths agree. */
  lemma EvalScaledDot(e: Expr, x: DenseArray, y: DenseArray, s: real, t: real, r: real)
    requires e.Bin? && e.op == Mul && IsScaledTr(e.l) && IsScaledArray(e.r)
    requires x == e.l.r.e.a && y == e.r.r.a && s == e.l.l.s && t == e.r.l.s
    requires IsVectorArray(x) && IsVectorArray(y)
    requires x.n == y.n ==> r == (t * s) * Dot(x.data[..], y.data[..])
    ensures Eval(e) == if x.n == y.n then Some(Scalar(r)) else None
  {
    VectorShape(x);
    VectorShape(y);
    EvalScaledTrVector(e.l, x, s);
    EvalScaledArray(e.r);
    EvalProduct(e, Scale(s, RowVec(x.data[..])), Scale(t, Held(y)));
    MulScaled(s, t, t * s, RowVec(x.data[..]), Held(y));
    if x.n == y.n {
      var d := Dot(x.data[..], y.data[..]);
      assert MulValues(RowVec(x.data[..]), Held(y)) == Some(Scalar(d));
      assert Scale(t * s, Scalar(d)) == Scalar((t * s) * d);
      assert Eval(e) == Some(Scalar((t * s) * d));
      assert r == (t * s) * d;
      assert Scalar(r) == Scalar((t * s) * d);
    }
  }

  /** (s * x) * (t * transpose(y)) denotes s * t * x * transpose(y). */
  lemma EvalScaledOuter(e: Expr, x: DenseArray, y: DenseArray, s: real, t: real)
    requires e.Bin? && e.op == Mul && IsScaledArray(e.l) && IsScaledTr(e.r)
    requires x == e.l.r.a && y == e.r.r.e.a && s == e.l.l.s && t == e.r.l.s
    requires IsVectorArray(x) && IsVectorArray(y)
    ensures Eval(e) == Some(Tensor([x.n[0], y.n[0]], Scaled(s * t, Outer(x.data[..], y.data[..]))))
  {
    VectorShape(x);
    VectorShape(y);
    EvalScaledArray(e.l);
    EvalScaledTrVector(e.r, y, t);
    EvalProduct(e, Scale(s, Held(x)), Scale(t, RowVec(y.data[..])));
    MulScaled(s, t, s * t, Held(x), RowVec(y.data[..]));
    var o := Outer(x.data[..], y.data[..]);
    assert MulValues(Held(x), RowVec(y.data[..])) == Some(Tensor([x.n[0], y.n[0]], o));
    assert Scale(s * t, Tensor([x.n[0], y.n[0]], o)) == Tensor([x.n[0], y.n[0]], Scaled(s * t, o));
  }

  /** (s * A) * (t * x) denotes s * t * A * x when the inner dimensions agree. */
  lemma EvalMatVec(e: Expr, a: DenseArray, x: DenseArray, s: real, t: real)
    requires e.Bin? && e.op == Mul && IsScaledArray(e.l) && IsScaledArray(e.r)
    requires a == e.l.r.a && x == e.r.r.a && s == e.l.l.s && t == e.r.l.s
    requires IsMatrixArray(a) && IsVectorArray(x)
    ensures Eval(e) == if a.n[1] == x.n[0] then
        Some(Tensor([a.n[0]], Scaled(s * t, MatVec(a.data[..], a.n[0], a.n[1], x.data[..]))))
      else None
  {
    MatrixShape(a);
    VectorShape(x);
    EvalScaledArray(e.l);
    EvalScaledArray(e.r);
    EvalProduct(e, Scale(s, Held(a)), Scale(t, Held(x)));
    MulScaled(s, t, s * t, Held(a), Held(x));
    if a.n[1] == x.n[0] {
      var w := MatVec(a.data[..], a.n[0], a.n[1], x.data[..]);
      assert MulValues(Held(a), Held(x)) == Some(Tensor([a.n[0]], w));
      assert Scale(s * t, Tensor([a.n[0]], w)) == Tensor([a.n[0]], Scaled(s * t, w));
    }
  }

  /** (s * op(A)) * (t * op(B)) denotes s * t * op(A) * op(B) when the inner dimensions agree. */
  lemma EvalMatMul(e: Expr, a: DenseArray, b: DenseArray, transA: bool, transB: bool, s: real, t: real)
    requires e.Bin? && e.op == Mul
    requires IsScaledArray(e.l) || IsScaledTr(e.l)
    requires IsScaledArray(e.r) || IsScaledTr(e.r)
    requires a == Operand(e.l) && b == Operand(e.r) && transA == IsScaledTr(e.l) && transB == IsScaledTr(e.r)
    requires s == e.l.l.s && t == e.r.l.s
    requires IsMatrixArray(a) && IsMatrixArray(b)
    ensures var m, k, n := OpRows(a.n, transA), OpCols(a.n, transA), OpCols(b.n, transB);
      Eval(e) == if k == OpRows(b.n, transB) then
        Some(Tensor([m, n], Scaled(s * t,
          MatMul(Blas.Op(a.data[..], transA, m, k), Blas.Op(b.data[..], transB, k, n), m, k, n))))
      else None
  {
    var x, y := OpHeld(a, transA), OpHeld(b, transB);
    EvalMatrixOperand(e.l);
    EvalMatrixOperand(e.r);
    EvalProduct(e, Scale(s, x), Scale(t, y));
    MulScaledMatrices(s, t, x, y);
    OpHeldData(a, transA);
    OpHeldData(b, transB);
  }

  /** transposed vector * (scalar * vector): t * dot(x, y). */
  method DotNode(e: Expr) returns (v: Option<Value>)
    requires e.Bin? && e.op == Mul && IsTrArray(e.l) && IsScaledArray(e.r)
    requires HasRank(e.l.e.a, 1) && HasRank(e.r.r.a, 1) && LeavesValid(e)
    ensures v == Eval(e)
  {
    var x, y, t := e.l.e.a, e.r.r.a, e.r.l.s;
    OperandIsLeaf(e.l);
    OperandIsLeaf(e.r);
    assert x in Leaves(e) && y in Leaves(e);
    VectorShape(x);
    VectorShape(y);
    if x.n == y.n {
      var r := DotRule(t, x, y);
      EvalDot(e, x, y, t, r);
      v := Some(Scalar(r));
    } else {
      EvalDot(e, x, y, t, 0.0);
      v := None;
    }
  }

  /** (scalar * vector) * transposed vector: s * x * transpose(y). */
  method OuterNode(e: Expr) returns (v: Option<Value>)
    requires e.Bin? && e.op == Mul && IsScaledArray(e.l) && IsTrArray(e.r)
    requires HasRank(e.l.r.a, 1) && HasRank(e.r.e.a, 1) && LeavesValid(e)
    ensures v == Eval(e)
  {
    var x, y := e.l.r.a, e.r.e.a;
    OperandIsLeaf(e.l);
    OperandIsLeaf(e.r);
    assert x in Leaves(e) && y in Leaves(e);
    VectorShape(x);
    VectorShape(y);
    var r := OuterRule(e.l.l.s, x, y);
    v := Some(Tensor(r.n, r.data[..]));
    EvalOuter(e, x, y, e.l.l.s);
  }

  /** (scalar * transposed vector) * (scalar * vector): t * s * dot(x, y). */
  method ScaledDotNode(e: Expr) returns (v: Option<Value>)
    requires e.Bin? && e.op == Mul && IsScaledTr(e.l) && IsScaledArray(e.r)
    requires HasRank(e.l.r.e.a, 1) && HasRank(e.r.r.a, 1) && LeavesValid(e)
    ensures v == Eval(e)
  {
    var x, y, s, t := e.l.r.e.a, e.r.r.a, e.l.l.s, e.r.l.s;
    OperandIsLeaf(e.l);
    OperandIsLeaf(e.r);
    assert x in Leaves(e) && y in Leaves(e);
    VectorShape(x);
    VectorShape(y);
    if x.n == y.n {
      var r := DotRule(t * s, x, y);
      EvalScaledDot(e, x, y, s, t, r);
      v := Some(Scalar(r));
    } else {
      EvalScaledDot(e, x, y, s, t, 0.0);
      v := None;
    }
  }

  /** (scalar * vector) * (scalar * transposed vector): s * t * x * transpose(y). */
  method ScaledOuterNode(e: Expr) returns (v: Option<Value>)
    requires e.Bin? && e.op == Mul && IsScaledArray(e.l) && IsScaledTr(e.r)
    requires HasRank(e.l.r.a, 1) && HasRank(e.r.r.e.a, 1) && LeavesValid(e)
    ensures v == Eval(e)
  {
    var x, y, s, t := e.l.r.a, e.r.r.e.a, e.l.l.s, e.r.l.s;
    OperandIsLeaf(e.l);
    OperandIsLeaf(e.r);
    assert x in Leaves(e) && y in Leaves(e);
    VectorShape(x);
    VectorShape(y);
    var r := OuterRule(s * t, x, y);
    v := Some(Tensor(r.n, r.data[..]));
    EvalScaledOuter(e, x, y, s, t);
  }

  /** (scalar * matrix) * (scalar * vector), the result having one entry per row. */
  method MatVecNode(e: Expr) returns (v: Option<Value>)
    requires e.Bin? && e.op == Mul && IsScaledArray(e.l) && IsScaledArray(e.r)
    requires HasRank(e.l.r.a, 2) && HasRank(e.r.r.a, 1) && LeavesValid(e)
    ensures v == Eval(e)
  {
    var a, x, s, t := e.l.r.a, e.r.r.a, e.l.l.s, e.r.l.s;
    OperandIsLeaf(e.l);
    OperandIsLeaf(e.r);
    assert a in Leaves(e) && x in Leaves(e);
    MatrixShape(a);
    VectorShape(x);
    if a.n[1] == x.n[0] {
      var r := MatVecRule(s * t, a, x);
      v := Some(Tensor(r.n, r.data[..]));
    } else {
      v := None;
    }
    EvalMatVec(e, a, x, s, t);
  }

  /**
   * The scalar*matrix times scalar*vector rule as written: the result is
   * allocated with the vector's length c instead of the matrix's row count
   * m, and gemv then writes m entries into it. For m > c the writes run
   * past the end of the result (None); for m < c the result keeps c - m
   * trailing zeros and has the wrong shape.
   */
  function MatVecAsWritten(alpha: real, a: seq<real>, m: nat, c: nat, x: seq<real>): (r: Option<seq<real>>)
    requires |a| == m * c && |x| == c
    ensures r.Some? <==> m <= c
    ensures r.Some? ==> |r.value| == c && r.value[..m] == Scaled(alpha, MatVec(a, m, c, x))
    ensures r.Some? ==> forall i :: m <= i < c ==> r.value[i] == 0.0
  {
    if m > c then None
    else
      var r := Scaled(alpha, MatVec(a, m, c, x)) + Zeros(c - m);
      assert r[..m] == Scaled(alpha, MatVec(a, m, c, x));
      Some(r)
  }

  /** Unless the matrix is square, the rule as written never yields the m entries of alpha*A*x. */
  lemma MatVecAsWrittenWrong(alpha: real, a: seq<real>, m: nat, c: nat, x: seq<real>)
    requires |a| == m * c && |x| == c && m != c
    ensures MatVecAsWritten(alpha, a, m, c, x) != Some(Scaled(alpha, MatVec(a, m, c, x)))
  {
  }

  /** A = [1 1] (one row, two columns), x = [1, 1]: [2, 0] as written, [2] intended. */
  lemma MatVecCounterexample()
    ensures MatVecAsWritten(1.0, [1.0, 1.0], 1, 2, [1.0, 1.0]) == Some([2.0, 0.0])
    ensures Scaled(1.0, MatVec([1.0, 1.0], 1, 2, [1.0, 1.0])) == [2.0]
  {
    var row := RowOf([1.0, 1.0], 1, 2, 0);
    assert row == [1.0, 1.0];
    assert Dot(row, [1.0, 1.0]) == 2.0 by {
      var p := Products(row, [1.0, 1.0]);
      assert p == [1.0, 1.0];
      assert p[..1] == [1.0] && [1.0][..0] == [];
      assert Total([1.0]) == 1.0;
      assert Total(p) == Total(p[..1]) + p[1];
    }
    assert MatVec([1.0, 1.0], 1, 2, [1.0, 1.0]) == [2.0];
    assert Scaled(1.0, [2.0]) == [2.0];
    assert Zeros(1) == [0.0];
    assert [2.0] + [0.0] == [2.0, 0.0];
  }

  /**
   * (scalar * op(A)) * (scalar * op(B)) for matrices, each possibly
   * transposed: one gemm with the transpose flags and alpha = s * t.
   */
  method MatMulNode(e: Expr) returns (v: Option<Value>)
    requires e.Bin? && e.op == Mul
    requires IsScaledArray(e.l) || IsScaledTr(e.l)
    requires IsScaledArray(e.r) || IsScaledTr(e.r)
    requires HasRank(Operand(e.l), 2) && HasRank(Operand(e.r), 2) && LeavesValid(e)
    ensures v == Eval(e)
  {
    var a, b := Operand(e.l), Operand(e.r);
    var transA, transB := IsScaledTr(e.l), IsScaledTr(e.r);
    var s, t := e.l.l.s, e.r.l.s;
    OperandIsLeaf(e.l);
    OperandIsLeaf(e.r);
    assert a in Leaves(e) && b in Leaves(e);
    MatrixShape(a);
    MatrixShape(b);
    if OpCols(a.n, transA) == OpRows(b.n, transB) {
      var r := MatMulRule(transA, transB, s * t, a, b);
      v := Some(Tensor(r.n, r.data[..]));
    } else {
      v := None;
    }
    EvalMatMul(e, a, b, transA, transB, s, t);
  }

  // ---------------------------------------------------------------------
  // Dispatch: operator() of an expression node

  /**
   * The arrays of an expression exist before its evaluation starts, so the
   * temporaries an evaluation allocates leave them and their meaning alone.
   */
  lemma {:induction false} LeavesAllocated(e: Expr)
    ensures forall a :: a in Leaves(e) ==> allocated(a)
  {
    match e
    case Lit(_) =>
    case Arr(_) =>
    case Bin(_, l, r) =>
      LeavesAllocated(l);
      LeavesAllocated(r);
    case Tr(x) =>
      LeavesAllocated(x);
  }

  /**
   * operator() of any expression: a leaf stands for itself, a literal for
   * its value, and every node goes to the apply rules of its operator.
   */
  method Apply(e: Expr) returns (v: Option<Value>)
    requires Applicable(e) && LeavesValid(e)
    ensures v == Eval(e)
    decreases e, 2
  {
    match e
    case Lit(c) =>
      v := Some(Scalar(c));
    case Arr(a) =>
      assert a in Leaves(e);
      v := Load(a);
    case Bin(op, _, _) =>
      if op == Add {
        v := ApplyAdd(e);
      } else if op == Sub {
        v := ApplySub(e);
      } else if op == Mul {
        v := ApplyMul(e);
      } else {
        v := ApplyGeneral(e);
      }
    case Tr(_) =>
      v := ApplyTr(e);
  }

  /** ApAdd: array + array, scalar*array + scalar*array, else the general rule. */
  method ApplyAdd(e: Expr) returns (v: Option<Value>)
    requires e.Bin? && e.op == Add && Applicable(e) && LeavesValid(e)
    ensures v == Eval(e)
    decreases e, 1
  {
    if e.l.Arr? && e.r.Arr? {
      v := AddNode(e);
    } else if IsScaledArray(e.l) && IsScaledArray(e.r) && e.l.r.a.d == e.r.r.a.d {
      v := ScaledSumNode(e);
    } else {
      v := ApplyGeneral(e);
    }
  }

  /** ApSub: array - array, else the general rule. */
  method ApplySub(e: Expr) returns (v: Option<Value>)
    requires e.Bin? && e.op == Sub && Applicable(e) && LeavesValid(e)
    ensures v == Eval(e)
    decreases e, 1
  {
    if e.l.Arr? && e.r.Arr? {
      v := SubNode(e);
    } else {
      v := ApplyGeneral(e);
    }
  }

  /**
   * ApMul: the overload matching the operand pattern and the operands'
   * ranks, else the general rule. A tree with an array that holds no
   * buffer has no value.
   */
  method ApplyMul(e: Expr) returns (v: Option<Value>)
    requires e.Bin? && e.op == Mul && Applicable(e) && LeavesValid(e)
    ensures v == Eval(e)
    decreases e, 1
  {
    BufferedOperands(e);
    if !Buffered(e) {
      ghost var a :| a in Leaves(e) && a.data == null;
      EmptyLeaf(e, a);
      v := None;
    } else if IsScaledArray(e) {
      v := ScaleNode(e);
    } else if IsScaledTr(e) && e.r.e.a.d == 2 {
      v := ScaleTransposedNode(e);
    } else if IsTrArray(e.l) && IsScaledArray(e.r) && e.l.e.a.d == 1 && e.r.r.a.d == 1 {
      v := DotNode(e);
    } else if IsScaledArray(e.l) && IsTrArray(e.r) && e.l.r.a.d == 1 && e.r.e.a.d == 1 {
      v := OuterNode(e);
    } else if IsScaledTr(e.l) && IsScaledArray(e.r) && e.l.r.e.a.d == 1 && e.r.r.a.d == 1 {
      v := ScaledDotNode(e);
    } else if IsScaledArray(e.l) && IsScaledTr(e.r) && e.l.r.a.d == 1 && e.r.r.e.a.d == 1 {
      v := ScaledOuterNode(e);
    } else if IsScaledArray(e.l) && IsScaledArray(e.r) && e.l.r.a.d == 2 && e.r.r.a.d == 1 {
      v := MatVecNode(e);
    } else if (IsScaledArray(e.l) || IsScaledTr(e.l)) && (IsScaledArray(e.r) || IsScaledTr(e.r))
           && Operand(e.l).d == 2 && Operand(e.r).d == 2 {
      v := MatMulNode(e);
    } else {
      v := ApplyGeneral(e);
    }
  }

  /** ApTr: its one rule transposes a matrix leaf element by element. */
  method ApplyTr(e: Expr) returns (v: Option<Value>)
    requires e.Tr? && Applicable(e) && LeavesValid(e)
    ensures v == Eval(e)
  {
    var a := e.e.a;
    assert a in Leaves(e);
    if a.data == null {
      v := None;
    } else {
      MatrixShape(a);
      var r := TransposeArray(a);
      assert TrValue(Held(a)) == Some(Tensor(r.n, r.data[..]));
      v := Some(Tensor(r.n, r.data[..]));
    }
  }

  /**
   * The general rule of every operator, (a() op b())(): both operands are
   * evaluated into temporaries and the operator re-dispatched on them.
   */
  method ApplyGeneral(e: Expr) returns (v: Option<Value>)
    requires e.Bin? && GeneralOperands(e) && LeavesValid(e)
    ensures v == Eval(e)
    decreases e, 0
  {
    GeneralReady(e);
    LeavesAllocated(e.r);
    var x := Apply(e.l);
    var y := Apply(e.r);
    if x.Some? && y.Some? {
      v := Redispatch(e.op, x.value, y.value);
    } else {
      v := None;
    }
  }

  /** What the general rule needs of its operands before evaluating them. */
  lemma GeneralReady(e: Expr)
    requires e.Bin? && GeneralOperands(e) && LeavesValid(e)
    ensures Applicable(e.l) && Applicable(e.r) && LeavesValid(e.l) && LeavesValid(e.r)
    ensures forall o :: o in Footprint(e.l) ==> allocated(o)
    ensures forall o :: o in Footprint(e.r) ==> allocated(o)
    ensures Eval(e.l).Some? && Eval(e.r).Some? ==>
      && WellFormed(Eval(e.l).value) && WellFormed(Eval(e.r).value)
      && !(Eval(e.l).value.Scalar? && Eval(e.r).value.Scalar?)
  {
    LeavesAllocated(e.l);
    LeavesAllocated(e.r);
    EvalWellFormed(e.l);
    EvalWellFormed(e.r);
    if Eval(e.l).Some? && Eval(e.r).Some? {
      GeneralKinds(e);
    }
  }

  /**
   * The array constructor from an expression, for an array of the given
   * rank: the expression is evaluated and its result copied into a new
   * array. A result that is not an array of that rank (a scalar, a row,
   * another rank) is refused, as the constructor's static check on the
   * result type refuses it.
   */
  method Materialize(rank: nat, e: Expr) returns (r: Option<DenseArray>)
    requires Applicable(e) && LeavesValid(e)
    ensures r.Some? <==> Eval(e).Some? && Eval(e).value.Tensor? && |Eval(e).value.n| == rank
    ensures r.Some? ==> fresh(r.value) && Holds(r.value) && r.value.d == rank && Held(r.value) == Eval(e).value
  {
    LeavesAllocated(e);
    assert forall o :: o in Footprint(e) ==> allocated(o);
    var v := Apply(e);
    if v.Some? && v.value.Tensor? && |v.value.n| == rank {
      EvalWellFormed(e);
      var a := Temporary(v.value);
      r := Some(a);
    } else {
      r := None;
    }
  }
}
