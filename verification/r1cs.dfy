/**
  Rank-1 constraint systems.

  An R1CS with `WITNESS_SIZE` slots and `CONSTRAINT_NUM` constraints is three
  matrices `left`, `right` and `output` of the same shape: `CONSTRAINT_NUM`
  rows of length `WITNESS_SIZE`. A witness `w` satisfies it when
  `(left w) o (right w) == output w`, where `o` is the element-wise product:
  row `k` of the three matrices states the quadratic constraint
  `(left_k . w) * (right_k . w) == output_k . w`.

  A witness must carry the constant 1 in slot 0. Calling a check with a
  witness that does not is a caller error (the source asserts and aborts),
  never a `false` answer; the checks below therefore require it, and
  `CheckSatisfied` / `CheckConstraint` spell the two outcomes out as values.
 */
module R1cs {
  import opened Field
  import opened LinearAlgebra

  datatype R1CS = R1CS(left: Matrix, right: Matrix, output: Matrix)

  /** All three matrices have `constraintNum` rows of length `witnessSize`. */
  predicate Shaped(r: R1CS, witnessSize: nat, constraintNum: nat) {
    && IsMatrix(r.left, witnessSize, constraintNum)
    && IsMatrix(r.right, witnessSize, constraintNum)
    && IsMatrix(r.output, witnessSize, constraintNum)
  }

  /** The number of constraints (`CONSTRAINT_NUM`). */
  function NumConstraints(r: R1CS): nat {
    |r.left|
  }

  /** `w` has the witness size of `r`. */
  predicate Fits(r: R1CS, w: Vector) {
    Shaped(r, |w|, NumConstraints(r))
  }

  /** The witness convention: slot 0 holds the constant 1. */
  predicate HeadIsOne(w: Vector) {
    |w| >= 1 && w[0] == FOne()
  }

  /** `R1CS::new`: the three matrices, of one common shape, are stored as given. */
  function New(witnessSize: nat, constraintNum: nat, left: Matrix, right: Matrix, output: Matrix): (r: R1CS)
    requires IsMatrix(left, witnessSize, constraintNum)
    requires IsMatrix(right, witnessSize, constraintNum)
    requires IsMatrix(output, witnessSize, constraintNum)
    ensures Shaped(r, witnessSize, constraintNum)
    ensures r.left == left && r.right == right && r.output == output
  {
    R1CS(left, right, output)
  }

  /** `R1CS::is_satisfied`: `(left w) o (right w) == output w`. */
  predicate IsSatisfied(r: R1CS, w: Vector)
    requires Fits(r, w) && HeadIsOne(w)
  {
    Hadamard(VectorProduct(r.left, w), VectorProduct(r.right, w)) == VectorProduct(r.output, w)
  }

  /** `R1CS::is_constraint_satisfied`: the constraint index must be in
      range; constraint `k` holds when `(left_k . w) * (right_k . w) == output_k . w`. */
  predicate IsConstraintSatisfied(r: R1CS, w: Vector, k: nat)
    requires Fits(r, w) && HeadIsOne(w)
    requires k < NumConstraints(r)
  {
    FMul(Dot(Row(r.left, k), w), Dot(Row(r.right, k), w)) == Dot(Row(r.output, k), w)
  }

  /** The whole system is satisfied exactly when every one of its constraints is. */
  lemma SatisfiedIffEveryConstraint(r: R1CS, w: Vector)
    requires Fits(r, w) && HeadIsOne(w)
    ensures IsSatisfied(r, w) <==> forall k :: 0 <= k < NumConstraints(r) ==> IsConstraintSatisfied(r, w, k)
  {
    var lz, rz, oz := VectorProduct(r.left, w), VectorProduct(r.right, w), VectorProduct(r.output, w);
    if forall k :: 0 <= k < NumConstraints(r) ==> IsConstraintSatisfied(r, w, k) {
      forall k | 0 <= k < |oz|
        ensures Hadamard(lz, rz)[k] == oz[k]
      {
        assert IsConstraintSatisfied(r, w, k);
      }
    } else {
      var k :| 0 <= k < NumConstraints(r) && !IsConstraintSatisfied(r, w, k);
      assert Hadamard(lz, rz)[k] != oz[k];
    }
  }

  /** A witness fails the system exactly when some constraint fails. */
  lemma UnsatisfiedIffSomeConstraintFails(r: R1CS, w: Vector)
    requires Fits(r, w) && HeadIsOne(w)
    ensures !IsSatisfied(r, w) <==> exists k :: 0 <= k < NumConstraints(r) && !IsConstraintSatisfied(r, w, k)
  {
    SatisfiedIffEveryConstraint(r, w);
  }

  /** The algorithm of `is_satisfied`: compute `Lz`, `Rz` and `Oz` with the
      matrix-vector product, multiply `Lz` and `Rz` element-wise, and compare with `Oz`. */
  method ComputeIsSatisfied(r: R1CS, w: Vector) returns (ok: bool)
    requires Fits(r, w) && HeadIsOne(w)
    ensures ok <==> IsSatisfied(r, w)
    ensures ok <==> forall k :: 0 <= k < NumConstraints(r) ==> IsConstraintSatisfied(r, w, k)
  {
    var lz := ComputeVectorProduct(r.left, w);
    var rz := ComputeVectorProduct(r.right, w);
    var oz := ComputeVectorProduct(r.output, w);
    var lrz := ComputeHadamard(lz, rz);
    ok := lrz == oz;
    SatisfiedIffEveryConstraint(r, w);
  }

  /** The algorithm of `is_constraint_satisfied`: three inner products with
      the witness, without forming the whole vectors `Lz`, `Rz`, `Oz`. */
  method ComputeIsConstraintSatisfied(r: R1CS, w: Vector, k: nat) returns (ok: bool)
    requires Fits(r, w) && HeadIsOne(w)
    requires k < NumConstraints(r)
    ensures ok <==> IsConstraintSatisfied(r, w, k)
    ensures ok <==> FMul(VectorProduct(r.left, w)[k], VectorProduct(r.right, w)[k]) == VectorProduct(r.output, w)[k]
  {
    var a := ComputeDot(Row(r.left, k), w);
    var b := ComputeDot(Row(r.right, k), w);
    var c := ComputeDot(Row(r.output, k), w);
    ok := FMul(a, b) == c;
  }

  /** Checking the constraints one at a time and combining the answers with
      a logical AND gives the answer of the whole-system check. */
  method AllConstraintsSatisfied(r: R1CS, w: Vector) returns (ok: bool)
    requires Fits(r, w) && HeadIsOne(w)
    ensures ok <==> IsSatisfied(r, w)
  {
    ok := true;
    var k := 0;
    while k < NumConstraints(r)
      invariant 0 <= k <= NumConstraints(r)
      invariant ok <==> forall i :: 0 <= i < k ==> IsConstraintSatisfied(r, w, i)
    {
      var holds := ComputeIsConstraintSatisfied(r, w, k);
      ok := ok && holds;
      k := k + 1;
    }
    SatisfiedIffEveryConstraint(r, w);
  }

  // ---------------------------------------------------------------------
  // The caller-error split made explicit.
  // ---------------------------------------------------------------------

  /** Why a check aborts instead of answering. */
  datatype Fault =
    | EmptyWitness           // `witness.get(0)` is out of bounds
    | WitnessHeadNotOne      // the assertion `witness[0] == 1` fails
    | ConstraintIdOutOfRange // the assertion `constraint_id < CONSTRAINT_NUM` fails

  /** Either an answer (the witness is well formed) or the reason for aborting. */
  datatype Outcome = Answer(holds: bool) | Abort(fault: Fault)

  /** `is_satisfied` with its aborts as values: a witness whose slot 0 is not
      1 aborts, and never yields a `false` answer. */
  function CheckSatisfied(r: R1CS, w: Vector): (o: Outcome)
    requires Fits(r, w)
    ensures o.Abort? <==> !HeadIsOne(w)
    ensures o == Abort(EmptyWitness) <==> |w| == 0
    ensures o == Abort(WitnessHeadNotOne) <==> |w| >= 1 && w[0] != FOne()
    ensures o.Answer? ==> (o.holds <==> IsSatisfied(r, w))
  {
    if |w| == 0 then Abort(EmptyWitness)
    else if w[0] != FOne() then Abort(WitnessHeadNotOne)
    else Answer(IsSatisfied(r, w))
  }

  /** `is_constraint_satisfied` with its aborts as values, checked in the
      source's order: the witness first, then the constraint index. */
  function CheckConstraint(r: R1CS, w: Vector, k: nat): (o: Outcome)
    requires Fits(r, w)
    ensures o.Abort? <==> !HeadIsOne(w) || k >= NumConstraints(r)
    ensures o == Abort(EmptyWitness) <==> |w| == 0
    ensures o == Abort(WitnessHeadNotOne) <==> |w| >= 1 && w[0] != FOne()
    ensures o == Abort(ConstraintIdOutOfRange) <==> HeadIsOne(w) && k >= NumConstraints(r)
    ensures o.Answer? ==> (o.holds <==> IsConstraintSatisfied(r, w, k))
  {
    if |w| == 0 then Abort(EmptyWitness)
    else if w[0] != FOne() then Abort(WitnessHeadNotOne)
    else if k >= NumConstraints(r) then Abort(ConstraintIdOutOfRange)
    else Answer(IsConstraintSatisfied(r, w, k))
  }

  /** On a well-formed witness the whole-system check answers `true` exactly
      when every per-constraint check answers `true`. */
  lemma CheckSatisfiedIffEveryCheckConstraint(r: R1CS, w: Vector)
    requires Fits(r, w) && HeadIsOne(w)
    ensures CheckSatisfied(r, w) == Answer(true)
        <==> forall k :: 0 <= k < NumConstraints(r) ==> CheckConstraint(r, w, k) == Answer(true)
  {
    SatisfiedIffEveryConstraint(r, w);
    forall k | 0 <= k < NumConstraints(r)
      ensures CheckConstraint(r, w, k) == Answer(true) <==> IsConstraintSatisfied(r, w, k)
    {
    }
  }
}
