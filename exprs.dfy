/**
 * Expression trees. The arithmetic operators on arrays do not compute:
 * they build a tree of binary nodes whose leaves are scalar literals and
 * references to existing arrays (a node never owns or copies an array).
 * This module gives the trees their meaning (the reference evaluator Eval
 * over the values an expression can denote) and models the operator and
 * transpose overloads as builders, each proved to preserve that meaning.
 */
module Exprs {
  import opened Shapes
  import opened Algebra
  import opened Arrays

  datatype Option<T> = None | Some(value: T)

  datatype Op = Add | Sub | Mul | Div

  /**
   * Lit: a scalar literal; Arr: a reference to an array; Bin: a binary
   * node; Tr: a transpose node.
   */
  datatype Expr = Lit(s: real) | Arr(a: DenseArray) | Bin(op: Op, l: Expr, r: Expr) | Tr(e: Expr)

  /**
   * What an expression denotes: a scalar, a dense array of shape n stored
   * column-major, or a transposed vector (a row), which only ever appears
   * as an operand of a product.
   */
  datatype Value = Scalar(x: real) | Tensor(n: seq<nat>, data: seq<real>) | RowVec(v: seq<real>)

  /** A rank-1 array with a buffer of the right length. */
  predicate IsVector(v: Value)
  {
    v.Tensor? && |v.n| == 1 && |v.data| == v.n[0]
  }

  /** A rank-2 array with a buffer of the right length. */
  predicate IsMatrix(v: Value)
  {
    v.Tensor? && |v.n| == 2 && |v.data| == v.n[0] * v.n[1]
  }

  // ---------------------------------------------------------------------
  // Operations on values

  /** Multiplication by a scalar. */
  function Scale(c: real, v: Value): (r: Value)
  {
    match v
    case Scalar(x) => Scalar(c * x)
    case Tensor(n, data) => Tensor(n, Scaled(c, data))
    case RowVec(u) => RowVec(Scaled(c, u))
  }

  /** Sum of two scalars or of two arrays of one shape. */
  function AddValues(x: Value, y: Value): Option<Value>
  {
    if x.Scalar? && y.Scalar? then Some(Scalar(x.x + y.x))
    else if x.Tensor? && y.Tensor? && x.n == y.n && |x.data| == |y.data| then
      Some(Tensor(x.n, Sum(x.data, y.data)))
    else None
  }

  /** Difference of two scalars or of two arrays of one shape. */
  function SubValues(x: Value, y: Value): Option<Value>
  {
    if x.Scalar? && y.Scalar? then Some(Scalar(x.x - y.x))
    else if x.Tensor? && y.Tensor? && x.n == y.n && |x.data| == |y.data| then
      Some(Tensor(x.n, Difference(x.data, y.data)))
    else None
  }

  /**
   * Products: scaling by a scalar on either side, row times vector (a dot
   * product), vector times row (an outer product), matrix times matrix and
   * matrix times vector.
   */
  function MulValues(x: Value, y: Value): Option<Value>
  {
    if x.Scalar? then Some(Scale(x.x, y))
    else if y.Scalar? then Some(Scale(y.x, x))
    else if x.RowVec? && IsVector(y) && |x.v| == |y.data| then Some(Scalar(Dot(x.v, y.data)))
    else if IsVector(x) && y.RowVec? && |x.data| > 0 then
      Some(Tensor([|x.data|, |y.v|], Outer(x.data, y.v)))
    else if IsMatrix(x) && IsMatrix(y) && x.n[1] == y.n[0] then
      Some(Tensor([x.n[0], y.n[1]], MatMul(x.data, y.data, x.n[0], x.n[1], y.n[1])))
    else if IsMatrix(x) && IsVector(y) && x.n[1] == y.n[0] then
      Some(Tensor([x.n[0]], MatVec(x.data, x.n[0], x.n[1], y.data)))
    else None
  }

  /** Division of a scalar or of an array by a non-zero scalar. */
  function DivValues(x: Value, y: Value): Option<Value>
  {
    if !y.Scalar? || y.x == 0.0 then None
    else if x.Scalar? then Some(Scalar(x.x / y.x))
    else if x.Tensor? then Some(Tensor(x.n, Quotient(x.data, y.x)))
    else None
  }

  /**
   * Transposition: a vector becomes a row and back, a matrix has its
   * dimensions swapped; scalars and higher ranks have no transpose.
   */
  function TrValue(x: Value): Option<Value>
  {
    if IsVector(x) then Some(RowVec(x.data))
    else if IsMatrix(x) then Some(Tensor([x.n[1], x.n[0]], TransposeData(x.data, x.n[0], x.n[1])))
    else if x.RowVec? then Some(Tensor([|x.v|], x.v))
    else None
  }

  function Combine(op: Op, x: Value, y: Value): Option<Value>
  {
    match op
    case Add => AddValues(x, y)
    case Sub => SubValues(x, y)
    case Mul => MulValues(x, y)
    case Div => DivValues(x, y)
  }

  // ---------------------------------------------------------------------
  // The reference evaluator

  /** The arrays an expression refers to. */
  function Leaves(e: Expr): set<DenseArray>
  {
    match e
    case Lit(_) => {}
    case Arr(a) => {a}
    case Bin(_, l, r) => Leaves(l) + Leaves(r)
    case Tr(x) => Leaves(x)
  }

  /** The arrays an expression refers to and their buffers. */
  ghost function Footprint(e: Expr): set<object>
    reads Leaves(e)
  {
    Leaves(e) + set a | a in Leaves(e) && a.data != null :: a.data
  }

  ghost predicate LeavesValid(e: Expr)
    reads Leaves(e)
  {
    forall a :: a in Leaves(e) ==> a.Valid()
  }

  /** The value an array currently holds; a default-constructed array has none. */
  ghost function Contents(a: DenseArray): Option<Value>
    reads a, a.data
  {
    if a.data == null then None else Some(Tensor(a.n, a.data[..]))
  }

  /**
   * The meaning of an expression: leaves denote their current contents and
   * every node combines the meanings of its operands. None stands for
   * operands that do not conform (shapes, a zero divisor, a product with
   * no rule) or an empty array. Which trees the library can apply at all
   * is a separate question, answered by Evaluation.Applicable.
   */
  ghost function Eval(e: Expr): Option<Value>
    reads Footprint(e)
  {
    match e
    case Lit(c) => Some(Scalar(c))
    case Arr(a) => Contents(a)
    case Bin(op, l, r) =>
      var x, y := Eval(l), Eval(r);
      if x.Some? && y.Some? then Combine(op, x.value, y.value) else None
    case Tr(x) =>
      var v := Eval(x);
      if v.Some? then TrValue(v.value) else None
  }

  /** Scaling lifted to possibly-absent values. */
  function ScaleOpt(c: real, o: Option<Value>): Option<Value>
  {
    if o.Some? then Some(Scale(c, o.value)) else None
  }

  // ---------------------------------------------------------------------
  // Laws of the value operations

  lemma ScaleOne(v: Value)
    ensures Scale(1.0, v) == v
  {
    match v
    case Scalar(_) =>
    case Tensor(_, data) => ScaledOne(data);
    case RowVec(u) => ScaledOne(u);
  }

  lemma ScaleScale(s: real, t: real, v: Value)
    ensures Scale(s, Scale(t, v)) == Scale(s * t, v)
  {
    match v
    case Scalar(_) =>
    case Tensor(_, data) => ScaledScaled(s, t, data);
    case RowVec(u) => ScaledScaled(s, t, u);
  }

  lemma ScaleCommute(s: real, t: real, v: Value)
    ensures Scale(s, Scale(t, v)) == Scale(t, Scale(s, v))
  {
    ScaleScale(s, t, v);
    ScaleScale(t, s, v);
    assert s * t == t * s;
  }

  lemma MulScaleLeftScalar(c: real, t: real, y: Value)
    ensures MulValues(Scale(c, Scalar(t)), y) == ScaleOpt(c, MulValues(Scalar(t), y))
  {
    ScaleScale(c, t, y);
    assert Scale(c, Scalar(t)) == Scalar(c * t);
  }

  /** A scaled row times a vector: the scalar pulls out of the dot product. */
  lemma MulScaleLeftDot(c: real, u: seq<real>, y: Value)
    requires IsVector(y) && |u| == |y.data|
    ensures MulValues(Scale(c, RowVec(u)), y) == ScaleOpt(c, MulValues(RowVec(u), y))
  {
    var d := Dot(u, y.data);
    DotScaledLeft(c, u, y.data);
    var cu := Scaled(c, u);
    assert |cu| == |u|;
    assert Scale(c, RowVec(u)) == RowVec(cu);
    assert Dot(cu, y.data) == c * d;
    assert MulValues(RowVec(cu), y) == Some(Scalar(c * d));
    assert MulValues(RowVec(u), y) == Some(Scalar(d));
    assert Scale(c, Scalar(d)) == Scalar(c * d);
  }

  /** A scalar factor on the left operand of a product pulls out of the product. */
  lemma MulScaleLeft(c: real, x: Value, y: Value)
    ensures MulValues(Scale(c, x), y) == ScaleOpt(c, MulValues(x, y))
  {
    if x.Scalar? {
      MulScaleLeftScalar(c, x.x, y);
    } else if y.Scalar? {
      ScaleCommute(y.x, c, x);
    } else if x.RowVec? && IsVector(y) && |x.v| == |y.data| {
      MulScaleLeftDot(c, x.v, y);
    } else if IsVector(x) && y.RowVec? && |x.data| > 0 {
      OuterScaled(c, 1.0, x.data, y.v);
      ScaledOne(y.v);
    } else if IsMatrix(x) && IsMatrix(y) && x.n[1] == y.n[0] {
      MatMulScaledLeft(c, x.data, y.data, x.n[0], x.n[1], y.n[1]);
    } else if IsMatrix(x) && IsVector(y) && x.n[1] == y.n[0] {
      MatVecScaledLeft(c, x.data, x.n[0], x.n[1], y.data);
    }
  }

  lemma MulScaleRightScalar(c: real, x: Value, t: real)
    ensures MulValues(x, Scale(c, Scalar(t))) == ScaleOpt(c, MulValues(x, Scalar(t)))
  {
    assert Scale(c, Scalar(t)) == Scalar(c * t);
    if x.Scalar? {
      ScaleCommute(x.x, c, Scalar(t));
      assert Scale(x.x, Scalar(c * t)) == Scale(c, Scale(x.x, Scalar(t)));
    } else {
      ScaleScale(c, t, x);
    }
  }

  /** A row times a scaled vector: the scalar pulls out of the dot product. */
  lemma MulScaleRightDot(c: real, u: seq<real>, y: Value)
    requires IsVector(y) && |u| == |y.data|
    ensures MulValues(RowVec(u), Scale(c, y)) == ScaleOpt(c, MulValues(RowVec(u), y))
  {
    var d := Dot(u, y.data);
    DotScaledRight(c, u, y.data);
    var cy := Scaled(c, y.data);
    assert |cy| == |y.data|;
    assert Scale(c, y) == Tensor(y.n, cy);
    assert Dot(u, cy) == c * d;
    assert MulValues(RowVec(u), Tensor(y.n, cy)) == Some(Scalar(c * d));
    assert MulValues(RowVec(u), y) == Some(Scalar(d));
    assert Scale(c, Scalar(d)) == Scalar(c * d);
  }

  /** A scalar factor on the right operand of a product pulls out of the product. */
  lemma MulScaleRight(c: real, x: Value, y: Value)
    ensures MulValues(x, Scale(c, y)) == ScaleOpt(c, MulValues(x, y))
  {
    if x.Scalar? {
      ScaleCommute(x.x, c, y);
    } else if y.Scalar? {
      MulScaleRightScalar(c, x, y.x);
    } else if x.RowVec? && IsVector(y) && |x.v| == |y.data| {
      MulScaleRightDot(c, x.v, y);
    } else if IsVector(x) && y.RowVec? && |x.data| > 0 {
      OuterScaled(1.0, c, x.data, y.v);
      ScaledOne(x.data);
    } else if IsMatrix(x) && IsMatrix(y) && x.n[1] == y.n[0] {
      MatMulScaledRight(c, x.data, y.data, x.n[0], x.n[1], y.n[1]);
    } else if IsMatrix(x) && IsVector(y) && x.n[1] == y.n[0] {
      MatVecScaledRight(c, x.data, x.n[0], x.n[1], y.data);
    }
  }

  /** Scalar factors on both operands of a product combine into d = s*t. */
  lemma MulScaled(s: real, t: real, d: real, x: Value, y: Value)
    requires d == s * t
    ensures MulValues(Scale(s, x), Scale(t, y)) == ScaleOpt(d, MulValues(x, y))
  {
    MulScaleLeft(s, x, Scale(t, y));
    MulScaleRight(t, x, y);
    var m := MulValues(x, y);
    if m.Some? {
      ScaleScale(s, t, m.value);
      assert Scale(s, Scale(t, m.value)) == Scale(d, m.value);
    }
  }

  /** The product of two scaled matrices scales their matrix product by both factors. */
  lemma MulScaledMatrices(s: real, t: real, x: Value, y: Value)
    requires IsMatrix(x) && IsMatrix(y)
    ensures MulValues(Scale(s, x), Scale(t, y)) ==
      if x.n[1] == y.n[0] then
        Some(Tensor([x.n[0], y.n[1]], Scaled(s * t, MatMul(x.data, y.data, x.n[0], x.n[1], y.n[1]))))
      else None
  {
    MulScaled(s, t, s * t, x, y);
    if x.n[1] == y.n[0] {
      var w := MatMul(x.data, y.data, x.n[0], x.n[1], y.n[1]);
      assert MulValues(x, y) == Some(Tensor([x.n[0], y.n[1]], w));
    }
  }

  /** Transposition commutes with scaling. */
  lemma TrScale(c: real, x: Value)
    ensures TrValue(Scale(c, x)) == ScaleOpt(c, TrValue(x))
  {
    if IsMatrix(x) {
      TransposeScaled(c, x.data, x.n[0], x.n[1]);
    }
  }

  /** Transposing a transpose gives back the original value. */
  lemma TrTr(x: Value)
    requires TrValue(x).Some?
    ensures TrValue(TrValue(x).value) == Some(x)
  {
    if IsVector(x) {
      assert x.n == [x.n[0]];
    } else if IsMatrix(x) {
      TransposeInvolution(x.data, x.n[0], x.n[1]);
      assert x.n == [x.n[0], x.n[1]];
    }
  }

  /** Adding -1 times a value is subtracting it. */
  lemma AddNegated(x: Value, y: Value)
    ensures AddValues(x, Scale(-1.0, y)) == SubValues(x, y)
  {
    if x.Tensor? && y.Tensor? && x.n == y.n && |x.data| == |y.data| {
      SumNegated(x.data, y.data);
    }
  }

  // ---------------------------------------------------------------------
  // Builders: the operator and transpose overloads

  /** The node c*y that every normalisation and scalar fold produces. */
  function Scaling(c: real, y: Expr): (r: Expr)
    ensures Leaves(r) == Leaves(y)
  {
    Bin(Mul, Lit(c), y)
  }

  lemma EvalScaling(c: real, y: Expr)
    ensures Eval(Scaling(c, y)) == ScaleOpt(c, Eval(y))
  {
    assert Eval(Lit(c)) == Some(Scalar(c));
  }

  /** A binary node denotes its operator applied to the operands' values. */
  lemma EvalBin(op: Op, l: Expr, r: Expr)
    ensures Eval(Bin(op, l, r)) ==
      if Eval(l).Some? && Eval(r).Some? then Combine(op, Eval(l).value, Eval(r).value) else None
  {
  }

  /**
   * operator+: array + array (of one rank) and expr + expr make one node; a
   * plain array next to an expression is first normalised to 1*array. A
   * bare scalar operand, or two arrays of different ranks, has no overload.
   */
  function Plus(x: Expr, y: Expr): (r: Option<Expr>)
    ensures r.None? <==> x.Lit? || y.Lit? || (x.Arr? && y.Arr? && x.a.d != y.a.d)
    ensures r.Some? ==> Leaves(r.value) == Leaves(x) + Leaves(y)
  {
    if x.Lit? || y.Lit? then None
    else if x.Arr? && y.Arr? then (if x.a.d == y.a.d then Some(Bin(Add, x, y)) else None)
    else if y.Arr? then Some(Bin(Add, x, Scaling(1.0, y)))
    else if x.Arr? then Some(Bin(Add, Scaling(1.0, x), y))
    else Some(Bin(Add, x, y))
  }

  lemma PlusMeaning(x: Expr, y: Expr)
    requires Plus(x, y).Some?
    ensures Eval(Plus(x, y).value) == Eval(Bin(Add, x, y))
  {
    EvalScaling(1.0, x);
    EvalScaling(1.0, y);
    if Eval(x).Some? { ScaleOne(Eval(x).value); }
    if Eval(y).Some? { ScaleOne(Eval(y).value); }
  }

  /**
   * operator-: array - array (of one rank) and expr - expr make one node;
   * expr - array becomes expr + (-1)*array; array - s*array (of the same
   * rank) becomes 1*array + (-s)*array. An array minus any other
   * expression, and a bare scalar operand, have no overload.
   */
  function Minus(x: Expr, y: Expr): (r: Option<Expr>)
    ensures r.Some? ==> Leaves(r.value) == Leaves(x) + Leaves(y)
    ensures r.None? <==>
      (x.Lit? || y.Lit? ||
       (x.Arr? && !(y.Arr? && y.a.d == x.a.d) &&
        !(y.Bin? && y.op == Mul && y.l.Lit? && y.r.Arr? && y.r.a.d == x.a.d)))
  {
    if x.Lit? || y.Lit? then None
    else if x.Arr? && y.Arr? && y.a.d == x.a.d then Some(Bin(Sub, x, y))
    else if x.Arr? && y.Bin? && y.op == Mul && y.l.Lit? && y.r.Arr? && y.r.a.d == x.a.d then
      assert Leaves(y) == Leaves(y.r);
      Some(Bin(Add, Scaling(1.0, x), Scaling(-1.0 * y.l.s, y.r)))
    else if x.Arr? then None
    else if y.Arr? then Some(Bin(Add, x, Scaling(-1.0, y)))
    else Some(Bin(Sub, x, y))
  }

  /** 1*a + (-s)*b is a - s*b. */
  lemma SubScaled(a: Value, s: real, b: Value)
    ensures AddValues(Scale(1.0, a), Scale(-1.0 * s, b)) == SubValues(a, Scale(s, b))
  {
    ScaleOne(a);
    ScaleScale(-1.0, s, b);
    AddNegated(a, Scale(s, b));
  }

  lemma MinusMeaning(x: Expr, y: Expr)
    requires Minus(x, y).Some?
    ensures Eval(Minus(x, y).value) == Eval(Bin(Sub, x, y))
  {
    var ex, ey := Eval(x), Eval(y);
    if x.Arr? && y.Bin? && y.op == Mul && y.l.Lit? && y.r.Arr? && y.r.a.d == x.a.d {
      var s, b := y.l.s, y.r;
      var eb := Eval(b);
      assert Minus(x, y).value == Bin(Add, Scaling(1.0, x), Scaling(-1.0 * s, b));
      EvalScaling(1.0, x);
      EvalScaling(-1.0 * s, b);
      EvalScaling(s, b);
      assert y == Scaling(s, b);
      if ex.Some? && eb.Some? {
        SubScaled(ex.value, s, eb.value);
        assert Eval(Minus(x, y).value) == AddValues(Scale(1.0, ex.value), Scale(-1.0 * s, eb.value));
        assert Eval(Bin(Sub, x, y)) == SubValues(ex.value, Scale(s, eb.value));
      }
    } else if !x.Arr? && y.Arr? {
      assert Minus(x, y).value == Bin(Add, x, Scaling(-1.0, y));
      EvalScaling(-1.0, y);
      if ex.Some? && ey.Some? {
        AddNegated(ex.value, ey.value);
      }
    } else {
      assert Minus(x, y).value == Bin(Sub, x, y);
    }
  }

  /**
   * operator*: a bare scalar operand selects the scalar overloads
   * (ScalarTimes, TimesScalar); otherwise a plain array operand is
   * normalised to 1*array.
   */
  function Times(x: Expr, y: Expr): (r: Expr)
    ensures Leaves(r) == Leaves(x) + Leaves(y)
  {
    if x.Lit? then ScalarTimes(x.s, y)
    else if y.Lit? then TimesScalar(x, y.s)
    else if x.Arr? && y.Arr? then Bin(Mul, Scaling(1.0, x), Scaling(1.0, y))
    else if y.Arr? then Bin(Mul, x, Scaling(1.0, y))
    else if x.Arr? then Bin(Mul, Scaling(1.0, x), y)
    else Bin(Mul, x, y)
  }

  lemma TimesMeaning(x: Expr, y: Expr)
    ensures Eval(Times(x, y)) == Eval(Bin(Mul, x, y))
  {
    if x.Lit? {
      ScalarTimesMeaning(x.s, y);
      assert Bin(Mul, x, y) == Scaling(x.s, y);
      EvalScaling(x.s, y);
    } else if y.Lit? {
      TimesScalarMeaning(x, y.s);
    } else {
      EvalScaling(1.0, x);
      EvalScaling(1.0, y);
      if Eval(x).Some? { ScaleOne(Eval(x).value); }
      if Eval(y).Some? { ScaleOne(Eval(y).value); }
    }
  }

  /**
   * scalar * expression: two scalars multiply as numbers; a scalar meeting
   * s*e folds into one literal; one meeting (s*a)*e (e not a plain array)
   * is pushed into the left factor; otherwise it becomes a literal node.
   */
  function ScalarTimes(c: real, y: Expr): (r: Expr)
    ensures Leaves(r) == Leaves(y)
    decreases y
  {
    if y.Lit? then Lit(c * y.s)
    else if y.Bin? && y.op == Mul && y.l.Lit? then Scaling(c * y.l.s, y.r)
    else if y.Bin? && y.op == Mul && y.l.Bin? && y.l.op == Mul && y.l.l.Lit? && !y.r.Arr? then
      assert Leaves(y.l) == Leaves(y.l.r);
      Bin(Mul, ScalarTimes(c * y.l.l.s, y.l.r), y.r)
    else Scaling(c, y)
  }

  lemma ScalarTimesFold(c: real, y: Expr)
    requires y.Bin? && y.op == Mul && y.l.Lit?
    ensures ScalarTimes(c, y) == Scaling(c * y.l.s, y.r)
    ensures y == Scaling(y.l.s, y.r)
  {
  }

  lemma ScalarTimesPush(c: real, y: Expr)
    requires y.Bin? && y.op == Mul && !(y.l.Lit?)
    requires y.l.Bin? && y.l.op == Mul && y.l.l.Lit? && !y.r.Arr?
    ensures ScalarTimes(c, y) == Bin(Mul, ScalarTimes(c * y.l.l.s, y.l.r), y.r)
    ensures y == Bin(Mul, Scaling(y.l.l.s, y.l.r), y.r)
  {
  }

  /** Folding two literal factors into one, d = c*t, preserves the meaning. */
  lemma FoldMeaning(c: real, t: real, d: real, z: Expr)
    requires d == c * t
    ensures Eval(Scaling(d, z)) == ScaleOpt(c, Eval(Scaling(t, z)))
  {
    EvalScaling(d, z);
    EvalScaling(t, z);
    if Eval(z).Some? {
      ScaleScale(c, t, Eval(z).value);
      assert Scale(d, Eval(z).value) == Scale(c, Scale(t, Eval(z).value));
    }
  }

  /** The fold s*(t*e) = (s*t)*e preserves the meaning. */
  lemma ScalarTimesFoldMeaning(c: real, y: Expr)
    requires y.Bin? && y.op == Mul && y.l.Lit?
    ensures Eval(ScalarTimes(c, y)) == ScaleOpt(c, Eval(y))
  {
    ScalarTimesFold(c, y);
    FoldMeaning(c, y.l.s, c * y.l.s, y.r);
  }

  /** Pushing the scalar into the left factor of (t*a)*b preserves the meaning. */
  lemma PushMeaning(c: real, t: real, d: real, st: Expr, a: Expr, b: Expr)
    requires d == c * t
    requires Eval(st) == ScaleOpt(d, Eval(a))
    ensures Eval(Bin(Mul, st, b)) == ScaleOpt(c, Eval(Bin(Mul, Scaling(t, a), b)))
  {
    EvalScaling(t, a);
    EvalBin(Mul, st, b);
    EvalBin(Mul, Scaling(t, a), b);
    var ea, eb := Eval(a), Eval(b);
    if ea.Some? && eb.Some? {
      MulScaleLeft(d, ea.value, eb.value);
      MulScaleLeft(t, ea.value, eb.value);
      var m := MulValues(ea.value, eb.value);
      if m.Some? { ScaleScale(c, t, m.value); }
    }
  }

  lemma {:induction false} ScalarTimesMeaning(c: real, y: Expr)
    ensures Eval(ScalarTimes(c, y)) == ScaleOpt(c, Eval(y))
    decreases y
  {
    if y.Lit? {
      assert ScalarTimes(c, y) == Lit(c * y.s);
      assert Scale(c, Scalar(y.s)) == Scalar(c * y.s);
    } else if y.Bin? && y.op == Mul && y.l.Lit? {
      ScalarTimesFoldMeaning(c, y);
    } else if y.Bin? && y.op == Mul && y.l.Bin? && y.l.op == Mul && y.l.l.Lit? && !y.r.Arr? {
      ScalarTimesPush(c, y);
      ScalarTimesMeaning(c * y.l.l.s, y.l.r);
      PushMeaning(c, y.l.l.s, c * y.l.l.s, ScalarTimes(c * y.l.l.s, y.l.r), y.l.r, y.r);
    } else {
      assert ScalarTimes(c, y) == Scaling(c, y);
      EvalScaling(c, y);
    }
  }

  /**
   * expression * scalar: two scalars multiply as numbers; otherwise the
   * scalar folds into a literal factor on the left.
   */
  function TimesScalar(x: Expr, c: real): (r: Expr)
    ensures Leaves(r) == Leaves(x)
  {
    if x.Lit? then Lit(x.s * c)
    else if x.Bin? && x.op == Mul && x.l.Lit? then Scaling(x.l.s * c, x.r)
    else Scaling(c, x)
  }

  /** A scalar on the right of a product scales the other operand. */
  lemma MulScalarRight(v: Value, c: real)
    ensures MulValues(v, Scalar(c)) == Some(Scale(c, v))
  {
    if v.Scalar? {
      assert v.x * c == c * v.x;
      assert Scale(v.x, Scalar(c)) == Scalar(c * v.x);
      assert Scale(c, v) == Scalar(c * v.x);
    }
  }

  /** A literal right operand of a product scales the left one. */
  lemma EvalTimesLit(x: Expr, c: real)
    ensures Eval(Bin(Mul, x, Lit(c))) == ScaleOpt(c, Eval(x))
  {
    EvalBin(Mul, x, Lit(c));
    assert Eval(Lit(c)) == Some(Scalar(c));
    if Eval(x).Some? {
      MulScalarRight(Eval(x).value, c);
    }
  }

  lemma TimesScalarFold(x: Expr, c: real)
    requires x.Bin? && x.op == Mul && x.l.Lit?
    ensures TimesScalar(x, c) == Scaling(x.l.s * c, x.r)
    ensures x == Scaling(x.l.s, x.r)
  {
  }

  lemma TimesScalarMeaning(x: Expr, c: real)
    ensures Eval(TimesScalar(x, c)) == Eval(Bin(Mul, x, Lit(c)))
  {
    EvalTimesLit(x, c);
    if x.Lit? {
      assert TimesScalar(x, c) == Lit(x.s * c);
      assert Scale(c, Scalar(x.s)) == Scalar(x.s * c);
    } else if x.Bin? && x.op == Mul && x.l.Lit? {
      TimesScalarFold(x, c);
      assert x.l.s * c == c * x.l.s;
      FoldMeaning(c, x.l.s, x.l.s * c, x.r);
    } else {
      EvalScaling(c, x);
    }
  }

  /**
   * array / scalar becomes (1/scalar)*array. No other expression can be
   * divided by a scalar, and a zero divisor has no exact reciprocal.
   */
  function DivideBy(x: Expr, c: real): (r: Option<Expr>)
    ensures r.Some? <==> x.Arr? && c != 0.0
    ensures r.Some? ==> Leaves(r.value) == Leaves(x)
  {
    if x.Arr? && c != 0.0 then Some(Scaling(1.0 / c, x)) else None
  }

  lemma DivideByMeaning(x: Expr, c: real)
    requires DivideBy(x, c).Some?
    ensures Eval(DivideBy(x, c).value) == Eval(Bin(Div, x, Lit(c)))
  {
    EvalScaling(1.0 / c, x);
    EvalBin(Div, x, Lit(c));
    assert Eval(Lit(c)) == Some(Scalar(c));
    var ex := Eval(x);
    if ex.Some? && ex.value.Tensor? {
      QuotientScaled(ex.value.data, c);
    }
  }

  /**
   * transpose: wraps the operand as 1*Tr(operand), except that
   * transpose(s*transpose(a)) is s*a and
   * transpose(s*transpose(t*a)) is (s*t)*a. A bare scalar has no element
   * type, so no overload takes it.
   */
  function Transpose(x: Expr): (r: Option<Expr>)
    ensures r.None? <==> x.Lit?
    ensures r.Some? ==> Leaves(r.value) == Leaves(x)
  {
    if x.Lit? then None
    else if x.Bin? && x.op == Mul && x.l.Lit? && x.r.Tr? then
      var inner := x.r.e;
      if inner.Bin? && inner.op == Mul && inner.l.Lit? then
        assert Leaves(inner) == Leaves(inner.r);
        Some(Scaling(x.l.s * inner.l.s, inner.r))
      else Some(Scaling(x.l.s, inner))
    else Some(Scaling(1.0, Tr(x)))
  }

  /**
   * Whenever the transpose of x is defined, the built expression denotes
   * it (the collapsing forms also build an expression when it is not).
   */
  lemma TransposeMeaning(x: Expr)
    requires Transpose(x).Some? && Eval(Tr(x)).Some?
    ensures Eval(Transpose(x).value) == Eval(Tr(x))
  {
    if x.Bin? && x.op == Mul && x.l.Lit? && x.r.Tr? {
      var s, inner := x.l.s, x.r.e;
      assert x == Scaling(s, Tr(inner));
      EvalScaling(s, Tr(inner));
      var ei := Eval(inner);
      var w := TrValue(ei.value).value;
      TrScale(s, w);
      TrTr(ei.value);
      if inner.Bin? && inner.op == Mul && inner.l.Lit? {
        var t, z := inner.l.s, inner.r;
        assert inner == Scaling(t, z);
        EvalScaling(t, z);
        EvalScaling(s * t, z);
        assert Transpose(x).value == Scaling(s * t, z);
        ScaleScale(s, t, Eval(z).value);
      } else {
        EvalScaling(s, inner);
      }
    } else {
      EvalScaling(1.0, Tr(x));
      ScaleOne(Eval(Tr(x)).value);
    }
  }

  /**
   * Unary minus: -x is the product -1*x, built by the scalar-times
   * overloads (a plain array becomes (-1)*array, a scaled expression folds
   * the sign into its literal).
   */
  function Negate(x: Expr): (r: Expr)
    ensures Leaves(r) == Leaves(x)
  {
    ScalarTimes(-1.0, x)
  }

  lemma NegateMeaning(x: Expr)
    ensures Eval(Negate(x)) == ScaleOpt(-1.0, Eval(x))
  {
    ScalarTimesMeaning(-1.0, x);
  }

  /** Negating twice denotes the original expression. */
  lemma NegateNegate(x: Expr)
    ensures Eval(Negate(Negate(x))) == Eval(x)
  {
    NegateMeaning(x);
    NegateMeaning(Negate(x));
    if Eval(x).Some? {
      ScaleScale(-1.0, -1.0, Eval(x).value);
      ScaleOne(Eval(x).value);
    }
  }

  /**
   * operator/ between two expressions: only wrapped expressions (neither a
   * plain array nor a bare literal) have this overload.
   */
  function Divide(x: Expr, y: Expr): (r: Option<Expr>)
    ensures r.Some? <==> !x.Arr? && !x.Lit? && !y.Arr? && !y.Lit?
    ensures r.Some? ==> Leaves(r.value) == Leaves(x) + Leaves(y)
  {
    if x.Arr? || x.Lit? || y.Arr? || y.Lit? then None else Some(Bin(Div, x, y))
  }

  /** Dividing by a non-zero scalar c is scaling by 1/c. */
  lemma DivByScalar(v: Value, c: real)
    requires c != 0.0 && !v.RowVec?
    ensures DivValues(v, Scalar(c)) == Some(Scale(1.0 / c, v))
  {
    if v.Tensor? {
      QuotientScaled(v.data, c);
    } else {
      var q := v.x / c;
      assert q == (1.0 / c) * v.x;
      assert DivValues(v, Scalar(c)) == Some(Scalar(q));
      assert Scale(1.0 / c, v) == Scalar(q);
    }
  }

  /**
   * Whenever the divisor denotes a non-zero scalar c, the quotient denotes
   * the dividend scaled by 1/c; any other divisor makes it undefined.
   */
  lemma DivideMeaning(x: Expr, y: Expr)
    requires Divide(x, y).Some?
    ensures Eval(y).Some? && Eval(y).value.Scalar? && Eval(y).value.x != 0.0 && Eval(x).Some?
            && !Eval(x).value.RowVec?
            ==> Eval(Divide(x, y).value) == ScaleOpt(1.0 / Eval(y).value.x, Eval(x))
    ensures !(Eval(y).Some? && Eval(y).value.Scalar? && Eval(y).value.x != 0.0)
            ==> Eval(Divide(x, y).value).None?
  {
    var ex, ey := Eval(x), Eval(y);
    assert Divide(x, y).value == Bin(Div, x, y);
    EvalBin(Div, x, y);
    if ey.Some? && ey.value.Scalar? && ey.value.x != 0.0 && ex.Some? && !ex.value.RowVec? {
      DivByScalar(ex.value, ey.value.x);
    }
  }
}
