/**
  Fixed-dimension linear algebra over the field `Fp`.

  A `Vector<N>` of the system is a sequence of `N` field elements; a
  `Matrix<N, M>` is a sequence of `M` row vectors, each of length `N`, so
  `a[i][j]` is entry `j` of row `i`. The type-level dimensions of the source
  become length preconditions, and its index panics and assertions become
  `requires` clauses.

  Each operation has a functional definition (used by the R1CS layer) and,
  where the source computes with a `for` loop, a method that follows that
  loop and is proved to agree with the definition.
 */
module LinearAlgebra {
  import opened Field

  type Vector = seq<Fp>

  type Matrix = seq<Vector>

  /** `a` has exactly `m` rows, each of length `n` (the shape `Matrix<n, m>`). */
  predicate IsMatrix(a: Matrix, n: nat, m: nat) {
    && |a| == m
    && forall i :: 0 <= i < |a| ==> |a[i]| == n
  }

  /** `a` and `b` have the same number of rows, and rows of equal index have equal length. */
  predicate SameShape(a: Matrix, b: Matrix) {
    && |a| == |b|
    && forall i :: 0 <= i < |a| ==> |a[i]| == |b[i]|
  }

  /** Every row of `a` is as long as `v`, so each row can be dotted with `v`. */
  predicate RowsMatch(a: Matrix, v: Vector) {
    forall i :: 0 <= i < |a| ==> |a[i]| == |v|
  }

  /** The vector of `n` zeros (`[Fp::from(0); N]`). */
  function ZeroVector(n: nat): (z: Vector)
    ensures |z| == n
    ensures forall i :: 0 <= i < n ==> z[i] == FZero()
  {
    seq(n, _ => FZero())
  }

  // ---------------------------------------------------------------------
  // Vector<N>
  // ---------------------------------------------------------------------

  /** `Vector::new`: the elements must number exactly `n`; they are kept as given. */
  function VectorNew(n: nat, value: seq<Fp>): (v: Vector)
    requires |value| == n
    ensures |v| == n
    ensures forall i :: 0 <= i < n ==> v[i] == value[i]
  {
    value
  }

  /** `Vector::get`: the index must be in range; the result is element `i`. */
  function Get(v: Vector, i: nat): (x: Fp)
    requires i < |v|
    ensures x == v[i]
  {
    v[i]
  }

  /** The inner product of the first `k` entries, accumulated from zero
      in index order, as the loop of `Vector::dot` accumulates it. */
  function DotPrefix(a: Vector, b: Vector, k: nat): Fp
    requires |a| == |b| && k <= |a|
  {
    if k == 0 then FZero() else FAdd(DotPrefix(a, b, k - 1), FMul(a[k - 1], b[k - 1]))
  }

  /** `Vector::dot`. */
  function Dot(a: Vector, b: Vector): Fp
    requires |a| == |b|
  {
    DotPrefix(a, b, |a|)
  }

  /** The inner product of the first `k` entries computed over the integers, without reduction. */
  function IntDotPrefix(a: Vector, b: Vector, k: nat): int
    requires |a| == |b| && k <= |a|
  {
    if k == 0 then 0 else IntDotPrefix(a, b, k - 1) + (a[k - 1] as int) * (b[k - 1] as int)
  }

  /** The loop of `Vector::dot`: `res` starts at zero and adds `a[i] * b[i]` for each `i`. */
  method ComputeDot(a: Vector, b: Vector) returns (res: Fp)
    requires |a| == |b|
    ensures res == Dot(a, b)
  {
    res := FZero();
    for i := 0 to |a|
      invariant res == DotPrefix(a, b, i)
    {
      res := FAdd(res, FMul(Get(a, i), Get(b, i)));
    }
  }

  /** The field inner product is the integer sum of products `a[0]*b[0] + ... + a[k-1]*b[k-1]` reduced modulo P. */
  lemma {:induction false} DotIsReducedSum(a: Vector, b: Vector, k: nat)
    requires |a| == |b| && k <= |a|
    ensures DotPrefix(a, b, k) == IntDotPrefix(a, b, k) % P
  {
    if k > 0 {
      DotIsReducedSum(a, b, k - 1);
      FAddProductIsReduced(IntDotPrefix(a, b, k - 1), a[k - 1], b[k - 1]);
    }
  }

  /** The inner product is commutative. */
  lemma {:induction false} DotComm(a: Vector, b: Vector, k: nat)
    requires |a| == |b| && k <= |a|
    ensures DotPrefix(a, b, k) == DotPrefix(b, a, k)
  {
    if k > 0 {
      DotComm(a, b, k - 1);
      FMulComm(a[k - 1], b[k - 1]);
    }
  }

  /** `a . b == b . a` for vectors of equal length. */
  lemma DotCommutes(a: Vector, b: Vector)
    requires |a| == |b|
    ensures Dot(a, b) == Dot(b, a)
  {
    DotComm(a, b, |a|);
  }

  /** Dotting with the zero vector (on either side) gives zero. */
  lemma {:induction false} DotZeroPrefix(v: Vector, k: nat)
    requires k <= |v|
    ensures DotPrefix(ZeroVector(|v|), v, k) == FZero()
    ensures DotPrefix(v, ZeroVector(|v|), k) == FZero()
  {
    if k > 0 {
      DotZeroPrefix(v, k - 1);
      FMulZero(v[k - 1]);
    }
  }

  /** `Vector::hadamard_product`: the element-wise product. */
  function Hadamard(a: Vector, b: Vector): Vector
    requires |a| == |b|
  {
    seq(|a|, i requires 0 <= i < |a| => FMul(a[i], b[i]))
  }

  /** The loop of `Vector::hadamard_product`: start from the zero vector and
      overwrite entry `i` with `a[i] * b[i]` for each `i`. */
  method ComputeHadamard(a: Vector, b: Vector) returns (res: Vector)
    requires |a| == |b|
    ensures |res| == |a|
    ensures forall i :: 0 <= i < |a| ==> res[i] == FMul(a[i], b[i])
    ensures res == Hadamard(a, b)
  {
    res := VectorNew(|a|, ZeroVector(|a|));
    for i := 0 to |a|
      invariant |res| == |a|
      invariant forall k :: 0 <= k < i ==> res[k] == FMul(a[k], b[k])
      invariant forall k :: i <= k < |a| ==> res[k] == FZero()
    {
      res := res[i := FMul(Get(a, i), Get(b, i))];
    }
  }

  /** The element-wise product is commutative. */
  lemma HadamardCommutes(a: Vector, b: Vector)
    requires |a| == |b|
    ensures Hadamard(a, b) == Hadamard(b, a)
  {
    forall i | 0 <= i < |a|
      ensures Hadamard(a, b)[i] == Hadamard(b, a)[i]
    {
      FMulComm(a[i], b[i]);
    }
  }

  /** The element-wise product with the zero vector is the zero vector. */
  lemma HadamardZero(a: Vector)
    ensures Hadamard(a, ZeroVector(|a|)) == ZeroVector(|a|)
  {
    forall i | 0 <= i < |a|
      ensures Hadamard(a, ZeroVector(|a|))[i] == FZero()
    {
      FMulZero(a[i]);
    }
  }

  // ---------------------------------------------------------------------
  // Matrix<N, M>
  // ---------------------------------------------------------------------

  /** `Matrix::new`: there must be at least one row (the source reads
      `value[0]` to check the row length), `m` rows in all, each of length
      `n`; the rows are kept as given. */
  function MatrixNew(n: nat, m: nat, value: seq<Vector>): (a: Matrix)
    requires m >= 1
    requires IsMatrix(value, n, m)
    ensures IsMatrix(a, n, m)
    ensures forall i, j :: 0 <= i < m && 0 <= j < n ==> a[i][j] == value[i][j]
  {
    value
  }

  /** `Matrix::zero`: built through `Matrix::new`, so it needs `m >= 1` too. */
  function Zero(n: nat, m: nat): (z: Matrix)
    requires m >= 1
    ensures IsMatrix(z, n, m)
    ensures forall i, j :: 0 <= i < m && 0 <= j < n ==> z[i][j] == FZero()
  {
    MatrixNew(n, m, seq(m, _ => VectorNew(n, ZeroVector(n))))
  }

  /** `Matrix::row`: the row index must be in range. */
  function Row(a: Matrix, i: nat): (r: Vector)
    requires i < |a|
    ensures r == a[i]
  {
    a[i]
  }

  /** `Matrix::get`: both indices must be in range; the result is entry `j` of row `i`. */
  function MatrixGet(a: Matrix, i: nat, j: nat): (x: Fp)
    requires i < |a| && j < |a[i]|
    ensures x == Get(Row(a, i), j)
  {
    a[i][j]
  }

  /** `Matrix::column`: entry `j` of every row, in row order. The source
      indexes `j` in each row, so every row must be longer than `j`. */
  function Column(a: Matrix, j: nat): Vector
    requires forall i :: 0 <= i < |a| ==> j < |a[i]|
  {
    seq(|a|, i requires 0 <= i < |a| => a[i][j])
  }

  /** The loop of `Matrix::column`: start from the zero vector of length `m`
      and fill entry `i` from row `i`. */
  method ComputeColumn(a: Matrix, n: nat, m: nat, j: nat) returns (res: Vector)
    requires IsMatrix(a, n, m)
    requires j < n
    ensures |res| == m
    ensures forall i :: 0 <= i < m ==> res[i] == MatrixGet(a, i, j)
    ensures res == Column(a, j)
  {
    res := VectorNew(m, ZeroVector(m));
    for i := 0 to m
      invariant |res| == m
      invariant forall k :: 0 <= k < i ==> res[k] == a[k][j]
    {
      res := res[i := a[i][j]];
    }
  }

  /** `Matrix::hadamard_product`: row by row, the element-wise product of rows. */
  function MatrixHadamard(a: Matrix, b: Matrix): Matrix
    requires SameShape(a, b)
  {
    seq(|a|, i requires 0 <= i < |a| => Hadamard(a[i], b[i]))
  }

  /** The loop of `Matrix::hadamard_product`: start from `Matrix::zero()`
      (hence at least one row) and replace row `i` with the product of rows `i`. */
  method ComputeMatrixHadamard(a: Matrix, b: Matrix, n: nat, m: nat) returns (res: Matrix)
    requires m >= 1
    requires IsMatrix(a, n, m) && IsMatrix(b, n, m)
    ensures IsMatrix(res, n, m)
    ensures forall i, j :: 0 <= i < m && 0 <= j < n ==> res[i][j] == FMul(a[i][j], b[i][j])
    ensures res == MatrixHadamard(a, b)
  {
    res := Zero(n, m);
    for i := 0 to m
      invariant IsMatrix(res, n, m)
      invariant forall k :: 0 <= k < i ==> res[k] == Hadamard(a[k], b[k])
    {
      var row := ComputeHadamard(Row(a, i), Row(b, i));
      res := res[i := row];
    }
  }

  /** The matrix element-wise product is commutative. */
  lemma MatrixHadamardCommutes(a: Matrix, b: Matrix)
    requires SameShape(a, b)
    ensures MatrixHadamard(a, b) == MatrixHadamard(b, a)
  {
    forall i | 0 <= i < |a|
      ensures MatrixHadamard(a, b)[i] == MatrixHadamard(b, a)[i]
    {
      HadamardCommutes(a[i], b[i]);
    }
  }

  /** `Matrix::vector_product`: the matrix-vector product `A v`, one inner product per row. */
  function VectorProduct(a: Matrix, v: Vector): Vector
    requires RowsMatch(a, v)
  {
    seq(|a|, i requires 0 <= i < |a| => Dot(a[i], v))
  }

  /** The loop of `Matrix::vector_product`: start from the zero vector of
      length `m` and set entry `i` to `row(i) . v`. */
  method ComputeVectorProduct(a: Matrix, v: Vector) returns (res: Vector)
    requires RowsMatch(a, v)
    ensures |res| == |a|
    ensures forall i :: 0 <= i < |a| ==> res[i] == Dot(Row(a, i), v)
    ensures res == VectorProduct(a, v)
  {
    res := VectorNew(|a|, ZeroVector(|a|));
    for i := 0 to |a|
      invariant |res| == |a|
      invariant forall k :: 0 <= k < i ==> res[k] == Dot(a[k], v)
    {
      var d := ComputeDot(Row(a, i), v);
      res := res[i := d];
    }
  }

  /** `Matrix::zero().vector_product(v)` is the zero vector of length `m`, for every `v`. */
  lemma ZeroVectorProduct(n: nat, m: nat, v: Vector)
    requires m >= 1 && |v| == n
    ensures VectorProduct(Zero(n, m), v) == ZeroVector(m)
  {
    var z := Zero(n, m);
    forall i | 0 <= i < m
      ensures VectorProduct(z, v)[i] == FZero()
    {
      assert z[i] == ZeroVector(n);
      DotZeroPrefix(v, n);
    }
  }
}
