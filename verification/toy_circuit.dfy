/**
  The toy R1CS of the test suite, for the circuit
  `C(x1, x2, x3) = x1*x2*x3 + (1 - x1)*(x2 + x3)` with `x1` in {0, 1}.

  Its witness has seven slots `(1, out, x1, x2, x3, r1, r2)` and four constraints:
    0. `x1 * x1 == x1`                   (`x1` is a bit)
    1. `x2 * x3 == r1`
    2. `x1 * r1 == r2`
    3. `(1 - x1) * (x2 + x3) == out - r2`
 */
module ToyCircuit {
  import opened Field
  import opened LinearAlgebra
  import opened R1cs

  const WitnessSize: nat := 7
  const ConstraintNum: nat := 4

  /** The toy system, built as the test suite builds it. */
  function ToyR1CS(): (r: R1CS)
    ensures Shaped(r, WitnessSize, ConstraintNum)
  {
    var zero, one, minusOne := FZero(), FOne(), FNeg(FOne());
    var left := MatrixNew(7, 4, [
      VectorNew(7, [zero, zero, one, zero, zero, zero, zero]),
      VectorNew(7, [zero, zero, zero, one, zero, zero, zero]),
      VectorNew(7, [zero, zero, one, zero, zero, zero, zero]),
      VectorNew(7, [one, zero, minusOne, zero, zero, zero, zero])
    ]);
    var right := MatrixNew(7, 4, [
      VectorNew(7, [zero, zero, one, zero, zero, zero, zero]),
      VectorNew(7, [zero, zero, zero, zero, one, zero, zero]),
      VectorNew(7, [zero, zero, zero, zero, zero, one, zero]),
      VectorNew(7, [zero, zero, zero, one, one, zero, zero])
    ]);
    var output := MatrixNew(7, 4, [
      VectorNew(7, [zero, zero, one, zero, zero, zero, zero]),
      VectorNew(7, [zero, zero, zero, zero, zero, one, zero]),
      VectorNew(7, [zero, zero, zero, zero, zero, zero, one]),
      VectorNew(7, [zero, one, zero, zero, zero, zero, minusOne])
    ]);
    New(7, 4, left, right, output)
  }

  /** The value the circuit computes. */
  function Circuit(x1: Fp, x2: Fp, x3: Fp): Fp {
    FAdd(FMul(FMul(x1, x2), x3), FMul(FSub(FOne(), x1), FAdd(x2, x3)))
  }

  /** The honest witness for inputs `x1, x2, x3`: `(1, C, x1, x2, x3, x2*x3, x1*x2*x3)`. */
  function ToyWitness(x1: Fp, x2: Fp, x3: Fp): (w: Vector)
    ensures |w| == WitnessSize && HeadIsOne(w)
  {
    [FOne(), Circuit(x1, x2, x3), x1, x2, x3, FMul(x2, x3), FMul(x1, FMul(x2, x3))]
  }

  /** The contribution of entry `p` to the inner product of the first `k` entries. */
  function Term(a: Vector, w: Vector, p: nat, k: nat): Fp
    requires |a| == |w| && p < |a|
  {
    if p < k then FMul(a[p], w[p]) else FZero()
  }

  /** The inner product with a row that is zero outside entries `p` and `q`
      is the sum of the two products at `p` and `q`. */
  lemma {:induction false} DotTwoTerms(a: Vector, w: Vector, p: nat, q: nat, k: nat)
    requires |a| == |w| && k <= |a| && p < |a| && q < |a| && p != q
    requires forall j :: 0 <= j < |a| && j != p && j != q ==> a[j] == FZero()
    ensures DotPrefix(a, w, k) == FAdd(Term(a, w, p, k), Term(a, w, q, k))
  {
    if k > 0 {
      DotTwoTerms(a, w, p, q, k - 1);
      var j := k - 1;
      var t := FMul(a[j], w[j]);
      assert DotPrefix(a, w, k) == FAdd(FAdd(Term(a, w, p, j), Term(a, w, q, j)), t);
      if j == p {
        assert Term(a, w, p, j) == FZero() && Term(a, w, p, k) == t;
        assert Term(a, w, q, j) == Term(a, w, q, k);
        FAddZero(Term(a, w, q, j));
        FAddComm(Term(a, w, q, j), t);
      } else if j == q {
        assert Term(a, w, q, j) == FZero() && Term(a, w, q, k) == t;
        assert Term(a, w, p, j) == Term(a, w, p, k);
        FAddZero(Term(a, w, p, j));
      } else {
        assert a[j] == FZero();
        FMulZero(w[j]);
        assert Term(a, w, p, j) == Term(a, w, p, k) && Term(a, w, q, j) == Term(a, w, q, k);
        FAddZero(FAdd(Term(a, w, p, j), Term(a, w, q, j)));
      }
    }
  }

  /** The row that selects slot `p` of a witness of size `n`. */
  function UnitRow(n: nat, p: nat): Vector {
    seq(n, j => Indicator(j, p))
  }

  /** One at index `p`, zero elsewhere. */
  function Indicator(j: int, p: nat): Fp {
    if j == p then FOne() else FZero()
  }

  /** The inner product with the row selecting slot `p` is slot `p`. */
  lemma DotUnitRow(w: Vector, p: nat)
    requires 2 <= |w| && p < |w|
    ensures Dot(UnitRow(|w|, p), w) == w[p]
  {
    var a := UnitRow(|w|, p);
    var q := if p == 0 then 1 else 0;
    DotTwoTerms(a, w, p, q, |w|);
    FMulOne(w[p]);
    FMulZero(w[q]);
    FAddZero(w[p]);
  }

  /** The rows of the left matrix of the toy system, applied to a witness. */
  lemma ToyLeftDots(w: Vector)
    requires |w| == WitnessSize
    ensures Dot(ToyR1CS().left[0], w) == w[2]
    ensures Dot(ToyR1CS().left[1], w) == w[3]
    ensures Dot(ToyR1CS().left[2], w) == w[2]
    ensures Dot(ToyR1CS().left[3], w) == FSub(w[0], w[2])
  {
    var r := ToyR1CS();
    assert r.left[0] == UnitRow(7, 2) == r.left[2];
    assert r.left[1] == UnitRow(7, 3);
    DotUnitRow(w, 2);
    DotUnitRow(w, 3);
    DotTwoTerms(r.left[3], w, 0, 2, 7);
    FMulOne(w[0]);
    FMulMinusOne(w[2]);
  }

  /** The rows of the right matrix of the toy system, applied to a witness. */
  lemma ToyRightDots(w: Vector)
    requires |w| == WitnessSize
    ensures Dot(ToyR1CS().right[0], w) == w[2]
    ensures Dot(ToyR1CS().right[1], w) == w[4]
    ensures Dot(ToyR1CS().right[2], w) == w[5]
    ensures Dot(ToyR1CS().right[3], w) == FAdd(w[3], w[4])
  {
    var r := ToyR1CS();
    assert r.right[0] == UnitRow(7, 2);
    assert r.right[1] == UnitRow(7, 4);
    assert r.right[2] == UnitRow(7, 5);
    DotUnitRow(w, 2);
    DotUnitRow(w, 4);
    DotUnitRow(w, 5);
    DotTwoTerms(r.right[3], w, 3, 4, 7);
    FMulOne(w[3]);
    FMulOne(w[4]);
  }

  /** The rows of the output matrix of the toy system, applied to a witness. */
  lemma ToyOutputDots(w: Vector)
    requires |w| == WitnessSize
    ensures Dot(ToyR1CS().output[0], w) == w[2]
    ensures Dot(ToyR1CS().output[1], w) == w[5]
    ensures Dot(ToyR1CS().output[2], w) == w[6]
    ensures Dot(ToyR1CS().output[3], w) == FSub(w[1], w[6])
  {
    var r := ToyR1CS();
    assert r.output[0] == UnitRow(7, 2);
    assert r.output[1] == UnitRow(7, 5);
    assert r.output[2] == UnitRow(7, 6);
    DotUnitRow(w, 2);
    DotUnitRow(w, 5);
    DotUnitRow(w, 6);
    DotTwoTerms(r.output[3], w, 1, 6, 7);
    FMulOne(w[1]);
    FMulMinusOne(w[6]);
  }

  /** Each constraint of the toy system, as the equation it states over the witness slots. */
  lemma ToyConstraints(w: Vector)
    requires |w| == WitnessSize && HeadIsOne(w)
    ensures IsConstraintSatisfied(ToyR1CS(), w, 0) <==> FMul(w[2], w[2]) == w[2]
    ensures IsConstraintSatisfied(ToyR1CS(), w, 1) <==> FMul(w[3], w[4]) == w[5]
    ensures IsConstraintSatisfied(ToyR1CS(), w, 2) <==> FMul(w[2], w[5]) == w[6]
    ensures IsConstraintSatisfied(ToyR1CS(), w, 3) <==> FMul(FSub(FOne(), w[2]), FAdd(w[3], w[4])) == FSub(w[1], w[6])
  {
    ToyLeftDots(w);
    ToyRightDots(w);
    ToyOutputDots(w);
  }

  /** A satisfying witness meets the four equations of the toy circuit. */
  lemma ToyEquations(w: Vector)
    requires |w| == WitnessSize && HeadIsOne(w)
    requires IsSatisfied(ToyR1CS(), w)
    ensures FMul(w[2], w[2]) == w[2]
    ensures FMul(w[3], w[4]) == w[5]
    ensures FMul(w[2], w[5]) == w[6]
    ensures FMul(FSub(FOne(), w[2]), FAdd(w[3], w[4])) == FSub(w[1], w[6])
  {
    var r := ToyR1CS();
    SatisfiedIffEveryConstraint(r, w);
    ToyConstraints(w);
    assert IsConstraintSatisfied(r, w, 0) && IsConstraintSatisfied(r, w, 1);
    assert IsConstraintSatisfied(r, w, 2) && IsConstraintSatisfied(r, w, 3);
  }

  /** The last three equations force the output slot to hold `C(x1, x2, x3)`. */
  lemma CircuitFromEquations(out: Fp, x1: Fp, x2: Fp, x3: Fp, r1: Fp, r2: Fp)
    requires FMul(x2, x3) == r1
    requires FMul(x1, r1) == r2
    requires FMul(FSub(FOne(), x1), FAdd(x2, x3)) == FSub(out, r2)
    ensures out == Circuit(x1, x2, x3)
  {
    var u := FMul(FSub(FOne(), x1), FAdd(x2, x3));
    calc {
      Circuit(x1, x2, x3);
      FAdd(FMul(FMul(x1, x2), x3), u);
      { FMulAssoc(x1, x2, x3); }
      FAdd(r2, u);
      FAdd(r2, FSub(out, r2));
      { FAddSubInverse(r2, out); }
      out;
    }
  }

  /** Every witness that satisfies the toy system carries a bit in slot 2 and
      the circuit's value `C(x1, x2, x3)` in slot 1. */
  lemma ToySound(w: Vector)
    requires |w| == WitnessSize && HeadIsOne(w)
    requires IsSatisfied(ToyR1CS(), w)
    ensures FMul(w[2], w[2]) == w[2]
    ensures w[1] == Circuit(w[2], w[3], w[4])
  {
    ToyEquations(w);
    CircuitFromEquations(w[1], w[2], w[3], w[4], w[5], w[6]);
  }

  /** A witness that meets the four equations of the toy circuit satisfies the system. */
  lemma ToySatisfiedIf(w: Vector)
    requires |w| == WitnessSize && HeadIsOne(w)
    requires FMul(w[2], w[2]) == w[2]
    requires FMul(w[3], w[4]) == w[5]
    requires FMul(w[2], w[5]) == w[6]
    requires FMul(FSub(FOne(), w[2]), FAdd(w[3], w[4])) == FSub(w[1], w[6])
    ensures IsSatisfied(ToyR1CS(), w)
  {
    var r := ToyR1CS();
    ToyConstraints(w);
    assert forall k :: 0 <= k < NumConstraints(r) ==> IsConstraintSatisfied(r, w, k);
    SatisfiedIffEveryConstraint(r, w);
  }

  /** For a bit `x1` and any `x2, x3`, the honest witness satisfies the toy system. */
  lemma ToyComplete(x1: Fp, x2: Fp, x3: Fp)
    requires x1 == 0 || x1 == 1
    ensures IsSatisfied(ToyR1CS(), ToyWitness(x1, x2, x3))
  {
    var w := ToyWitness(x1, x2, x3);
    var t := FMul(x1, FMul(x2, x3));
    var u := FMul(FSub(FOne(), x1), FAdd(x2, x3));
    assert w[1] == Circuit(x1, x2, x3) && w[6] == t;
    assert w[2] == x1 && w[3] == x2 && w[4] == x3 && w[5] == FMul(x2, x3);
    assert FMul(x1, x1) == x1 by {
      if x1 == 0 { FMulZero(0); } else { FMulOne(1); }
    }
    calc {
      FSub(w[1], w[6]);
      FSub(Circuit(x1, x2, x3), t);
      { FMulAssoc(x1, x2, x3); }
      FSub(FAdd(t, u), t);
      { FAddSubCancel(t, u); }
      u;
    }
    ToySatisfiedIf(w);
  }

  /** The four equations evaluated on `(1, 12, 1, 3, 4, 12, 12)`: all of them hold. */
  lemma ValidWitness1Equations(w: Vector)
    requires w == [1, 12, 1, 3, 4, 12, 12]
    ensures FMul(w[2], w[2]) == w[2]
    ensures FMul(w[3], w[4]) == w[5]
    ensures FMul(w[2], w[5]) == w[6]
    ensures FMul(FSub(FOne(), w[2]), FAdd(w[3], w[4])) == FSub(w[1], w[6])
  {
    assert w[1] == 12 && w[2] == 1 && w[3] == 3 && w[4] == 4 && w[5] == 12 && w[6] == 12;
    assert FSub(FOne(), 1) == 0 && FAdd(3, 4) == 7 && FSub(12, 12) == 0;
    FMulOne(1);
    FMulIsProduct(3, 4);
    FMulOne(12);
    FMulZero(7);
  }

  /** Test `test_toy_r1cs_valid_witness_1`: `(1, 12, 1, 3, 4, 12, 12)` satisfies the system. */
  lemma ValidWitness1(w: Vector)
    requires w == [1, 12, 1, 3, 4, 12, 12]
    ensures |w| == WitnessSize && HeadIsOne(w)
    ensures IsSatisfied(ToyR1CS(), w)
  {
    ValidWitness1Equations(w);
    ToySatisfiedIf(w);
  }

  /** The four equations evaluated on `(1, 7, 0, 3, 4, 12, 0)`: all of them hold. */
  lemma ValidWitness2Equations(w: Vector)
    requires w == [1, 7, 0, 3, 4, 12, 0]
    ensures FMul(w[2], w[2]) == w[2]
    ensures FMul(w[3], w[4]) == w[5]
    ensures FMul(w[2], w[5]) == w[6]
    ensures FMul(FSub(FOne(), w[2]), FAdd(w[3], w[4])) == FSub(w[1], w[6])
  {
    assert w[1] == 7 && w[2] == 0 && w[3] == 3 && w[4] == 4 && w[5] == 12 && w[6] == 0;
    assert FSub(FOne(), 0) == 1 && FAdd(3, 4) == 7 && FSub(7, 0) == 7;
    FMulZero(0);
    FMulIsProduct(3, 4);
    FMulZero(12);
    FMulOne(7);
  }

  /** Test `test_toy_r1cs_valid_witness_2`: `(1, 7, 0, 3, 4, 12, 0)` satisfies the system. */
  lemma ValidWitness2(w: Vector)
    requires w == [1, 7, 0, 3, 4, 12, 0]
    ensures |w| == WitnessSize && HeadIsOne(w)
    ensures IsSatisfied(ToyR1CS(), w)
  {
    ValidWitness2Equations(w);
    ToySatisfiedIf(w);
  }

  /** The four equations evaluated on `(1, 12, 0, 3, 4, 12, 12)`: the first two
      hold and the last two fail. */
  lemma InvalidWitnessEquations(w: Vector)
    requires w == [1, 12, 0, 3, 4, 12, 12]
    ensures FMul(w[2], w[2]) == w[2]
    ensures FMul(w[3], w[4]) == w[5]
    ensures FMul(w[2], w[5]) != w[6]
    ensures FMul(FSub(FOne(), w[2]), FAdd(w[3], w[4])) != FSub(w[1], w[6])
  {
    FMulZero(0);
    FMulIsProduct(3, 4);
    FMulZero(12);
    FMulOne(7);
  }

  /** Test `test_toy_r1cs_constraints`: on `(1, 12, 0, 3, 4, 12, 12)`
      constraints 0 and 1 hold and constraints 2 and 3 fail. */
  lemma InvalidWitnessConstraints(w: Vector)
    requires w == [1, 12, 0, 3, 4, 12, 12]
    ensures IsConstraintSatisfied(ToyR1CS(), w, 0)
    ensures IsConstraintSatisfied(ToyR1CS(), w, 1)
    ensures !IsConstraintSatisfied(ToyR1CS(), w, 2)
    ensures !IsConstraintSatisfied(ToyR1CS(), w, 3)
  {
    ToyConstraints(w);
    InvalidWitnessEquations(w);
  }

  /** Test `test_toy_r1cs_invalid_witness`: the system rejects `(1, 12, 0, 3, 4, 12, 12)`. */
  lemma InvalidWitnessRejected(w: Vector)
    requires w == [1, 12, 0, 3, 4, 12, 12]
    ensures !IsSatisfied(ToyR1CS(), w)
  {
    InvalidWitnessConstraints(w);
    UnsatisfiedIffSomeConstraintFails(ToyR1CS(), w);
  }

  /** A witness whose slot 0 is 0 makes the check abort rather than answer `false`. */
  lemma ZeroHeadAborts()
    ensures CheckSatisfied(ToyR1CS(), [0, 12, 1, 3, 4, 12, 12]) == Abort(WitnessHeadNotOne)
    ensures CheckConstraint(ToyR1CS(), [1, 12, 1, 3, 4, 12, 12], 4) == Abort(ConstraintIdOutOfRange)
  {
  }
}
