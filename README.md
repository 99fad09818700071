# cpp-array: dense arrays and expression templates, in Dafny

cpp-array provides a column-major dense array `Array<d, T>` of fixed rank
`d`, plus an expression-template layer. Arithmetic on arrays and scalars
(`+`, `-`, `*`, `/`, `transpose`) does not compute anything at first. It
builds a tree of `BinExprOp` nodes. The tree is evaluated when it is
assigned to an array or applied with `()`. At that point the applicative
classes `ApAdd`, `ApSub`, `ApMul`, `ApDiv` and `ApTr` pick a rule by the
shape of the operands. Most rules call a BLAS kernel (`scal`, `axpy`,
`dot`, `ger`, `gemv`, `gemm`). The rest evaluate both sides and
re-dispatch on the results.

The model has nine modules:

- `Arith` and `Shapes`: facts about column-major offsets and the product
  of the dimensions.
- `Arrays`: the mutable array as a class. It has a dimension sequence `n`
  and a buffer `data: array?<real>`, which is `null` for a
  default-constructed array. The module covers the constructors, `size`,
  `index`, element access and the chained subscript proxy.
- `Algebra`: pure functions on column-major buffers: scaling, sums, dot
  products, `MatMul`, `MatVec`, `Outer` and `TransposeData`. It also holds
  the laws between them.
- `Blas`: the kernels, as loops over arrays, each proved against the
  `Algebra` function it computes.
- `Exprs`: the expression tree `Expr` (leaves are arrays and literals) and
  the values it denotes (`Scalar`, `Tensor`, and `RowVec` for a transposed
  vector). It defines a reference evaluator `Eval` and the operator
  overloads as builders. Each builder is proved to denote the expression it
  stands for.
- `Rules`: one method per kernel-backed apply rule. Each allocates its
  result array and calls the kernels.
- `Evaluation`: the dispatcher `Apply`, together with `ApplyAdd`,
  `ApplySub`, `ApplyMul` and `ApplyTr`. Each is proved to return exactly
  `Eval` of the tree it is given.
- `Compound`: `+=` and `-=`, which update the left-hand array in place.

Elements are mathematical reals. A size assertion in the source becomes a
`requires` on a rule called directly. In the dispatcher, where shapes are
only known at run time, it becomes a `None` result. Whether an overload
exists at all is decided at compile time by the operand types. For the
builders, a missing overload is a `None` result. For evaluation, the
predicate `Evaluation.Applicable` describes the trees that have an
`operator()`, and the dispatcher, the array constructor, `+=` and `-=`
require it.

## Model

| member | source | states |
|---|---|---|
| Shapes.OffsetBound | array/array.hpp:354-364 | the offset of in-bounds indices lies below the product of the dimensions |
| Shapes.OffsetSnoc | array/array.hpp:356-362 | one more loop step adds index j times the product of the first j dimensions |
| Shapes.UnflattenOffset | array/array.hpp:354-364 | the offset map is one-to-one: decoding the offset of in-bounds indices gives back those indices |
| Shapes.OffsetUnflatten | array/array.hpp:354-364 | the offset map is onto: every position below the size is the offset of the in-bounds indices it decodes to |
| Arrays.DenseArray.Empty | array/array.hpp:127 | a default array has all dimensions zero and no buffer |
| Arrays.DenseArray.constructor | array/array.hpp:129-151 | dimension i is sizes[i], or the last given size when fewer sizes than the rank are given; every size is non-zero; the fresh buffer holds Product(n) zeros |
| Arrays.DenseArray.Copy | array/array.hpp:154-170 | copies the dimensions; a null source buffer stays null, otherwise a fresh buffer with equal contents |
| Arrays.DenseArray.Assign | array/array.hpp:172-200 | self-assignment changes nothing; otherwise the dimensions and a fresh deep copy of the contents are taken from the source, whose sizes must be non-zero |
| Arrays.DenseArray.Size | array/array.hpp:300-307 | the size is the product of the dimensions and is positive |
| Arrays.DenseArray.Index | array/array.hpp:354-364 | the loop computes the column-major offset of the indices, and it is inside the buffer |
| Arrays.DenseArray.Get | array/array.hpp:324-335 | a(i0, ..., i_{d-1}) reads the element at the offset of exactly d in-bounds indices |
| Arrays.DenseArray.Set | array/array.hpp:310-321 | a write through the reference changes exactly the element at that offset |
| Arrays.Proxy.Start | array/array.hpp:344-345 | a[i] starts a proxy with offset i and d-1 subscripts still missing |
| Arrays.Proxy.Step | array/array.hpp:380-387 | each further subscript i adds i times the product of the dimensions already consumed |
| Arrays.Chain | array/array.hpp:389-393 | after d chained subscripts the proxy's offset is the column-major offset of the whole index sequence |
| Arrays.Proxy.Load | array/array.hpp:438-442 | reading the terminal proxy gives the element at those indices |
| Arrays.Proxy.Store | array/array.hpp:417-420 | assignment writes only the addressed element and returns the value written |
| Arrays.Proxy.AddTo | array/array.hpp:421-424 | += replaces only the addressed element by its sum with v and returns it |
| Arrays.Proxy.SubFrom | array/array.hpp:425-428 | -= replaces only the addressed element by its difference with v and returns it |
| Arrays.Proxy.MulBy | array/array.hpp:429-432 | *= replaces only the addressed element by its product with v and returns it |
| Arrays.Proxy.DivBy | array/array.hpp:433-436 | /= replaces only the addressed element by its quotient by v (v non-zero) and returns it |
| Evaluation.Materialize | array/array.hpp:231-250 | building a rank-d array from an expression succeeds exactly when the expression denotes an array value of rank d; the new array is freshly allocated and holds that value |
| Blas.Scal | array/expr.hpp:278-287 | x becomes alpha times x |
| Blas.Axpy | array/expr.hpp:289-298 | y becomes alpha*x + y |
| Blas.DotProduct | array/expr.hpp:300-309 | returns the inner product of x and y |
| Blas.Ger | array/expr.hpp:311-325 | A becomes alpha times the outer product of x and y, plus A |
| Blas.Gemv | array/expr.hpp:327-358 | y becomes alpha*A*x + beta*y for the column-major m-by-c matrix A |
| Blas.Gemm | array/expr.hpp:360-400 | C becomes alpha*op(A)*op(B) + beta*C, with op the identity or the transpose as each flag says |
| Blas.ProductInto | array/expr.hpp:360-400 | the product loop leaves every entry equal to the row-column dot product of the matrix product |
| Blas.Axpby | array/expr.hpp:360-400 | y becomes alpha*x + beta*y, the update that gemm and gemv apply to their result |
| Compound.AddScaledInto | array/expr.hpp:411-427 | array += s*b (same dimensions) adds s times the old b to the old array, in place |
| Rules.AddArrays | array/expr.hpp:429-443 | array + array of equal dimensions is the element-wise sum, in a new array |
| Evaluation.AddNode | array/expr.hpp:429-443 | the array + array rule returns exactly what the tree denotes, including a dimension mismatch as no result |
| Compound.AddProductInto | array/expr.hpp:445-470 | c += (s*a)*(t*b) adds s*t times the matrix product to the old c, in place |
| Rules.ScaledSum | array/expr.hpp:488-511 | s*a + t*b is the sum of the two scaled buffers, in a new array |
| Evaluation.ScaledSumNode | array/expr.hpp:488-511 | the scaled-sum rule returns exactly what the tree denotes |
| Evaluation.ApplyGeneral | array/expr.hpp:513-523 | for two wrapped operands that each have an operator() and whose results the operator accepts (never two bare scalars), the general rule evaluates both sides, re-dispatches, and returns what the tree denotes |
| Evaluation.ApplicableKind | array/expr.hpp:583-631 | a tree with an operator() denotes a bare scalar exactly when it is a literal or a dot-product pattern (whose rules return `T`), and never a row |
| Evaluation.DotPairNotApplicable | array/expr.hpp:513-523 | transpose(x)*y op transpose(u)*w has no operator() for any operator, since both sides return bare scalars |
| Evaluation.ApplyAdd | array/expr.hpp:404-524 | every addition node evaluates to its denotation |
| Rules.SubArrays | array/expr.hpp:530-541 | array - array of equal dimensions is the element-wise difference |
| Evaluation.SubNode | array/expr.hpp:530-541 | the array - array rule returns exactly what the tree denotes |
| Evaluation.ApplySub | array/expr.hpp:526-553 | every subtraction node evaluates to its denotation |
| Rules.ScaleArray | array/expr.hpp:559-571 | scalar*array is a fresh array holding the scaled copy |
| Evaluation.ScaleNode | array/expr.hpp:559-571 | the scalar*array rule returns exactly what the tree denotes |
| Rules.ScaleTransposed | array/expr.hpp:573-581 | scalar*transpose(matrix) has swapped dimensions and holds the scaled transpose |
| Evaluation.ScaleTransposedNode | array/expr.hpp:573-581 | the scalar*transposed-matrix rule returns exactly what the tree denotes |
| Rules.DotRule | array/expr.hpp:583-597 | transpose(x)*(s*y) is s times the dot product of x and y |
| Evaluation.DotNode | array/expr.hpp:583-597 | the dot rule agrees with the denotation; vectors of unequal length give no result |
| Rules.OuterRule | array/expr.hpp:599-615 | (s*x)*transpose(y) is the len(x)-by-len(y) matrix s times the outer product |
| Evaluation.OuterNode | array/expr.hpp:599-615 | the outer-product rule returns exactly what the tree denotes |
| Evaluation.ScaledDotNode | array/expr.hpp:617-631 | (s*transpose(x))*(t*y) is s*t times the dot product, as the tree denotes |
| Evaluation.ScaledOuterNode | array/expr.hpp:633-649 | (s*x)*(t*transpose(y)) is s*t times the outer product, as the tree denotes |
| Rules.MatMulRule | array/expr.hpp:651-765 | all four combinations of plain and transposed matrices give an op(A)-rows by op(B)-columns matrix holding alpha*op(A)*op(B) |
| Evaluation.MatMulNode | array/expr.hpp:651-765 | the four scaled matrix-product rules return exactly what the tree denotes, with a mismatch of inner dimensions as no result |
| Rules.MatVecRule | array/expr.hpp:675-695 | (s*A)*(t*x) is a vector with one entry per row of A holding alpha*A*x |
| Evaluation.MatVecNode | array/expr.hpp:675-695 | the matrix-vector rule returns exactly what the tree denotes (corrected, see Findings) |
| Evaluation.MatVecAsWritten | array/expr.hpp:675-695 | as written, the result has one entry per column of A: the product followed by zeros, and there is no result when A has more rows than columns |
| Evaluation.MatVecAsWrittenWrong | array/expr.hpp:687 | for every non-square A, the as-written result differs from A*x |
| Evaluation.MatVecCounterexample | array/expr.hpp:687 | a 1-by-2 matrix of ones times a vector of two ones gives [2, 0] instead of [2] |
| Evaluation.Redispatch | array/expr.hpp:767-777 | applying the operator again to two evaluated sides that are not both scalars gives their combined value |
| Evaluation.RedispatchMul | array/expr.hpp:767-777 | the re-dispatched product of two values, not both scalars, is their mathematical product (corrected, see Findings) |
| Evaluation.ApplyMul | array/expr.hpp:555-779 | every multiplication node that has a rule for its operand types, or meets the general rule, evaluates to its denotation (corrected, see Findings) |
| Rules.TransposeArray | array/expr.hpp:810-817 | the nested loop builds the columns-by-rows matrix with r(i,j) = a(j,i) |
| Algebra.TransposeInvolution | array/expr.hpp:810-817 | transposing twice gives back the original buffer |
| Evaluation.ApplyTr | array/expr.hpp:800-818 | the transpose of a matrix leaf evaluates to the matrix with rows and columns exchanged, which is what the node denotes |
| Evaluation.LiteralProductApplicable | array/expr.hpp:1107-1118 | 2*3*x multiplies the literals as numbers and reaches the scalar*array rule |
| Evaluation.ScaledSumNotApplicable | array/expr.hpp:555-779 | a literal times a sum of arrays, such as 2*(x+y), matches no ApMul rule and so has no operator() |
| Evaluation.Apply | array/expr.hpp:209-210 | applying any tree that has an operator() gives exactly its denotation (corrected, see Findings) |
| Exprs.Negate | array/expr.hpp:841-854 | unary minus builds a tree over the same arrays |
| Exprs.NegateMeaning | array/expr.hpp:841-854 | -x denotes -1 times the value of x |
| Exprs.NegateNegate | array/expr.hpp:841-854 | -(-x) denotes the value of x |
| Exprs.Plus | array/expr.hpp:857-921 | x + y has an overload exactly when neither operand is a bare scalar and two plain arrays have the same rank; the tree it builds holds the arrays of both operands |
| Exprs.PlusMeaning | array/expr.hpp:857-921 | normalising a plain array to 1*array does not change what the sum denotes |
| Exprs.Minus | array/expr.hpp:925-993 | x - y has an overload exactly when neither operand is a bare scalar and a plain array on the left meets an array or s*array of its own rank; the tree holds the arrays of both operands |
| Exprs.MinusMeaning | array/expr.hpp:925-993 | every rewrite of x - y, such as expr + (-1)*array or 1*a + (-s)*b, denotes x - y |
| Exprs.AddNegated | array/expr.hpp:953-970 | adding -1 times y is subtracting y |
| Exprs.Times | array/expr.hpp:999-1030 | x * y, with a bare scalar on either side going to the scalar overloads (two scalars multiply as numbers), builds a tree over the arrays of both operands |
| Exprs.TimesMeaning | array/expr.hpp:999-1030 | normalising plain array operands to 1*array does not change what the product denotes |
| Exprs.ScalarTimes | array/expr.hpp:1032-1091 | scalar * expression builds a tree over the same arrays; scalar * scalar is the literal product |
| Exprs.ScalarTimesFold | array/expr.hpp:1062-1073 | c*(s*e) folds into the single literal c*s |
| Exprs.FoldMeaning | array/expr.hpp:1062-1073 | scaling by c*t denotes c times scaling by t |
| Exprs.ScalarTimesPush | array/expr.hpp:1076-1091 | c*((s*a)*e) is pushed into the left factor |
| Exprs.PushMeaning | array/expr.hpp:1076-1091 | pushing the scalar into the left factor of a product keeps its denotation |
| Exprs.ScalarTimesFoldMeaning | array/expr.hpp:1146-1157 | c*(s*e) denotes c times the value of s*e |
| Exprs.ScalarTimesMeaning | array/expr.hpp:1032-1091 | every scalar*expression rewrite denotes c times the value of the expression |
| Exprs.TimesScalar | array/expr.hpp:1047-1060 | expression * scalar builds a tree over the same arrays; scalar * scalar is the literal product |
| Exprs.TimesScalarFold | array/expr.hpp:1094-1105 | (s*e)*c folds into the single literal s*c |
| Exprs.TimesScalarMeaning | array/expr.hpp:1094-1144 | expression * scalar, folded or not, denotes the product with the literal on the right |
| Exprs.MulScalarRight | array/expr.hpp:1120-1131 | a product with a scalar on the right scales the other operand |
| Exprs.Divide | array/expr.hpp:1223-1234 | expr / expr exists exactly when neither side is a plain array or a bare literal |
| Exprs.DivideMeaning | array/expr.hpp:785-795 | dividing by an expression that denotes a non-zero scalar c scales by 1/c; any other divisor gives no value |
| Exprs.DivByScalar | array/expr.hpp:785-795 | dividing a value by a non-zero scalar c is scaling it by 1/c |
| Exprs.DivideBy | array/expr.hpp:1237-1248 | array / c is defined exactly when c is non-zero |
| Exprs.DivideByMeaning | array/expr.hpp:1237-1248 | array / c, built as (1/c)*array, denotes the element-wise quotient |
| Algebra.QuotientScaled | array/expr.hpp:1237-1248 | dividing every element by c equals scaling by 1/c |
| Exprs.Transpose | array/expr.hpp:1252-1296 | transpose has an overload exactly when its operand is not a bare scalar, and builds a tree over the same arrays |
| Exprs.TransposeMeaning | array/expr.hpp:1252-1296 | when the transpose is defined, both collapse rules, s*a and (s*t)*a, denote it |
| Exprs.TrTr | array/expr.hpp:1268-1280 | transposing a transposed value gives back the value |
| Exprs.TrScale | array/expr.hpp:1282-1296 | the transpose of a scaled value is the scaled transpose |
| Exprs.ScaleScale | array/expr.hpp:1282-1296 | scaling by t and then by s is scaling by s*t |
| Exprs.ScaleOne | array/expr.hpp:885-902 | scaling by 1 changes nothing, so 1*array stands for the array |
| Compound.AddAssign | array/expr.hpp:1300-1324 | for a right side that has an operator(), c += rhs leaves c holding the old c plus the value of rhs, whichever rule applies (corrected, see Findings) |
| Compound.SubAssign | array/expr.hpp:1327-1347 | c -= rhs, rewritten as c += (-1)*rhs (which must have an operator()), leaves the old c minus the value of rhs (corrected, see Findings) |
| Compound.AddAssignFallbackAsWritten | array/expr.hpp:472-482 | as written, the array += expression fallback leaves c holding only the value of rhs |
| Compound.OverwriteIsSumOnlyOverZeros | array/expr.hpp:472-482 | overwriting equals adding exactly when every old element of c is zero |
| Compound.OverwriteCounterexample | array/expr.hpp:481 | for c = [1] and a right side worth [2], += must give [3], not [2] |
| Exprs.MulScaleLeft | array/expr.hpp:651-673 | scaling the left operand of any product scales the product |
| Exprs.MulScaleRight | array/expr.hpp:651-673 | scaling the right operand of any product scales the product |
| Exprs.MulScaled | array/expr.hpp:651-673 | (s*x)*(t*y) is s*t times x*y for every pair of values |
| Exprs.MulScaledMatrices | array/expr.hpp:651-673 | for matrices, (s*x)*(t*y) is s*t times the matrix product, in one step |
| Algebra.MatMulScaledLeft | array/expr.hpp:651-673 | scaling the left factor scales the matrix product |
| Algebra.MatMulScaledRight | array/expr.hpp:651-673 | scaling the right factor scales the matrix product |
| Algebra.MatVecScaledLeft | array/expr.hpp:675-695 | scaling the matrix scales the matrix-vector product |
| Algebra.MatVecScaledRight | array/expr.hpp:675-695 | scaling the vector scales the matrix-vector product |
| Algebra.OuterScaled | array/expr.hpp:633-649 | scaling both vectors by s and t scales the outer product by s*t |
| Algebra.DotScaledLeft | array/expr.hpp:617-631 | scaling the left vector scales the dot product |
| Algebra.DotScaledRight | array/expr.hpp:617-631 | scaling the right vector scales the dot product |
| Algebra.SumNegated | array/expr.hpp:530-541 | a + (-1)*b is a - b element by element |

## Left out

- `array/cublas_impl.hpp`, the GPU back end, is not part of this model.
- The cblas wrappers call an external BLAS library. Each is modelled by a
  loop that computes the same function. The leading-dimension and
  increment arguments are fixed at the values the rules pass: the row
  count and 1.
- Floating point: elements are reals, so rounding is not modelled. `float`
  and `double` element types are not distinguished.
- Exprs.Negate: unary minus declares its result as a product with an `int`
  literal, while `-1*a` builds one with a literal of the element type, so
  `-a` does not compile for `float` or `double` arrays. The model builds
  the evidently intended `(-1)*a` and does not capture that compile error.
- Evaluation.ApplyGeneral: the model tracks which sides return bare
  scalars, but not the static ranks of the arrays the sides return. Two
  sides whose ranks no overload accepts (a matrix plus a vector) fail to
  compile in the source; the model gives such a node no value.
- Evaluation.RedispatchMul: a `None` product also stands for value pairs
  that have no rule at all: vector times vector, vector times matrix, and
  operands of rank 3 or more. For those the general rule re-dispatches onto
  the same operand types, which either fails to compile or recurses without
  end; the model gives such a product no value instead.
- A zero divisor in `/` or `/=` has no real quotient. The expression layer
  returns no value for it, and `Arrays.Proxy.DivBy` requires a non-zero
  divisor.
- Compile-time checks (`static_assert`, `enable_if`, the number of
  subscripts, the existence of an overload) are modelled as `requires`
  clauses, as the `Evaluation.Applicable` predicate, or as a `None`
  result.
- Printing (`operator<<`, `Print`, the `ARRAY_VERBOSE` trace and the
  "copy!" message of unary plus) is I/O.
- Memory release is not modelled. This covers the destructor, and the
  `delete[]` of the old buffer in `operator=`. The destructor uses
  `delete` on a buffer allocated with `new[]`; the model has no
  deallocation in which that mismatch could show.
- Unary plus returns its operand unchanged. It has no separate member;
  its only effect is the one in the `+=` finding below.
- The element-wise `operator()(double x)` evaluation paths of `Expr`,
  `BinExprOp` and `ExprLiteral` are not modelled. Neither is the `execute`
  helper of `Array`, which is unused type machinery.
- Lifetimes of expression operands are not modelled. The source holds
  array operands by reference, while the model reads their contents
  through the heap when the tree is applied.
- Blas.Gemm: the source reads a transposed operand in place. The model
  first forms op(X) as a sequence, which gives the same entries.
- Compound.AddProductInto: the source passes operand buffers that may
  alias the updated array. The model snapshots the operands before the
  update, so aliasing between an operand and the result is not modelled.
- Arrays.Proxy.Store: the proxy does not check bounds. The model requires
  in-bounds indices for every terminal access (Store, AddTo, SubFrom,
  MulBy, DivBy, Load), because an out-of-bounds write has no model.
- Arrays.DenseArray.Size: requires non-zero dimensions, where the source
  asserts them.
- Operations on a default-constructed array with no buffer dereference
  null in the source. The model gives such an operand no value.

## Findings

| source | as written | input that shows it | evidently intended | confidence | as-written member | corrected member |
|---|---|---|---|---|---|---|
| array/expr.hpp:481 | the array += expression fallback writes `a =+ b()`, which parses as `a = +(b())` and so overwrites `a` with the right side's value | `c += x + y` with c = [1], x = [1], y = [1]: c becomes [2] instead of [3] | `a += b()`: add the evaluated right side to `a` | high, not executed | Compound.AddAssignFallbackAsWritten | Compound.AddAssign, Compound.SubAssign |
| array/expr.hpp:687 | the scalar*matrix times scalar*vector rule sizes its result by `b.size()`, the vector's length, not by the matrix's row count | A = [[1, 1]] (1-by-2), x = [1, 1]: the result is [2, 0] instead of [2]; with more rows than columns gemv writes past the result buffer | `Array<1, T> r(a.rows())` | high, not executed | Evaluation.MatVecAsWritten | Rules.MatVecRule |
