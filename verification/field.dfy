/**
  Prime-field scalars.

  The field element type of the system lives in a module that is not part of
  this model. Here an element is an integer in [0, P) and every operation
  reduces modulo P. The linear-algebra and R1CS layers use only the narrow
  interface below (zero, one, conversion from an integer, addition, negation,
  subtraction, multiplication) together with the ring laws proved at the end
  of this module.
 */
module Field {

  /** The modulus: the Mersenne prime 2^31 - 1. The concrete scenarios only
      need P > 27; the ring laws hold for every modulus above 1. */
  const P: int := 2147483647

  /** A field element: the canonical representative of its residue class. */
  type Fp = x: int | 0 <= x < P

  /** The additive identity. */
  function FZero(): Fp { 0 }

  /** The multiplicative identity. */
  function FOne(): Fp { 1 }

  /** Conversion from an integer (`Fp::from`): the residue of `n`. */
  function FFrom(n: int): Fp { n % P }

  function FAdd(a: Fp, b: Fp): Fp { (a + b) % P }

  /** Multiplication as `a`-fold repeated addition of `b`. The definition
      is chosen to keep proofs in linear arithmetic and is never meant to
      run (it recurses `a` times); `FMulIsProduct` proves the result is the
      residue of `a * b`. */
  function FMul(a: Fp, b: Fp): Fp
    decreases a
  {
    if a == 0 then FZero() else FAdd(FMul(a - 1, b), b)
  }

  /** Additive inverse: `-a`. */
  function FNeg(a: Fp): Fp { if a == 0 then 0 else P - a }

  function FSub(a: Fp, b: Fp): Fp { FAdd(a, FNeg(b)) }

  // ---------------------------------------------------------------------
  // Ring laws of the field operations.
  // ---------------------------------------------------------------------

  /** Adding a multiple of the modulus does not change a residue. */
  lemma ModAddMultiple(z: int, k: int)
    ensures (z + k * P) % P == z % P
  {
    var q, r := z / P, z % P;
    assert z == q * P + r;
    assert z + k * P == (q + k) * P + r;
  }

  /** Reducing a factor before multiplying does not change the residue. */
  lemma ModMulLeft(x: int, y: int)
    ensures ((x % P) * y) % P == (x * y) % P
  {
    var q, r := x / P, x % P;
    assert x == q * P + r;
    assert x * y == r * y + (q * y) * P;
    ModAddMultiple(r * y, q * y);
  }

  /** Reducing a summand before adding does not change the residue. */
  lemma ModAddLeft(x: int, y: int)
    ensures ((x % P) + y) % P == (x + y) % P
  {
    var q, r := x / P, x % P;
    assert x == q * P + r;
    assert x + y == (r + y) + q * P;
    ModAddMultiple(r + y, q);
  }

  /** Field multiplication is the integer product reduced modulo P. */
  lemma {:induction false} FMulIsProduct(a: Fp, b: Fp)
    ensures FMul(a, b) == (a * b) % P
    decreases a
  {
    if a > 0 {
      FMulIsProduct(a - 1, b);
      ModAddLeft((a - 1) * b, b);
      assert (a - 1) * b + b == a * b;
    }
  }

  /** Adding a field product to a reduced integer sum reduces the integer
      sum extended by the integer product. */
  lemma FAddProductIsReduced(s: int, x: Fp, y: Fp)
    ensures FAdd(s % P, FMul(x, y)) == (s + x * y) % P
  {
    FMulIsProduct(x, y);
    var t := x * y;
    ModAddLeft(s, t % P);
    ModAddLeft(t, s);
  }

  lemma FAddComm(a: Fp, b: Fp)
    ensures FAdd(a, b) == FAdd(b, a)
  {
  }

  lemma FMulComm(a: Fp, b: Fp)
    ensures FMul(a, b) == FMul(b, a)
  {
    FMulIsProduct(a, b);
    FMulIsProduct(b, a);
    assert a * b == b * a;
  }

  lemma FAddAssoc(a: Fp, b: Fp, c: Fp)
    ensures FAdd(FAdd(a, b), c) == FAdd(a, FAdd(b, c))
  {
    ModAddLeft(a + b, c);
    ModAddLeft(b + c, a);
  }

  /** Associativity of multiplication modulo P, over the integers. */
  lemma ModMulAssoc(a: int, b: int, c: int)
    ensures (((a * b) % P) * c) % P == (a * ((b * c) % P)) % P
  {
    ModMulLeft(a * b, c);
    ModMulLeft(b * c, a);
    assert (a * b) * c == (b * c) * a;
    assert a * ((b * c) % P) == ((b * c) % P) * a;
  }

  /** Distributivity of multiplication over addition modulo P, over the integers. */
  lemma ModDistrib(a: int, b: int, c: int)
    ensures (a * ((b + c) % P)) % P == ((a * b) % P + (a * c) % P) % P
  {
    calc {
      (a * ((b + c) % P)) % P;
      { assert a * ((b + c) % P) == ((b + c) % P) * a;
        ModMulLeft(b + c, a); }
      ((b + c) * a) % P;
      { assert (b + c) * a == a * b + a * c; }
      (a * b + a * c) % P;
      { ModAddLeft(a * b, a * c); }
      ((a * b) % P + a * c) % P;
      { ModAddLeft(a * c, (a * b) % P); }
      ((a * b) % P + (a * c) % P) % P;
    }
  }

  lemma FMulAssoc(a: Fp, b: Fp, c: Fp)
    ensures FMul(FMul(a, b), c) == FMul(a, FMul(b, c))
  {
    FMulIsProduct(a, b);
    FMulIsProduct(FMul(a, b), c);
    FMulIsProduct(b, c);
    FMulIsProduct(a, FMul(b, c));
    ModMulAssoc(a, b, c);
  }

  lemma FDistrib(a: Fp, b: Fp, c: Fp)
    ensures FMul(a, FAdd(b, c)) == FAdd(FMul(a, b), FMul(a, c))
  {
    FMulIsProduct(a, FAdd(b, c));
    FMulIsProduct(a, b);
    FMulIsProduct(a, c);
    ModDistrib(a, b, c);
  }

  /** Multiplying by `-1` modulo P negates, over the integers. */
  lemma ModMulMinusOne(y: int)
    requires 0 <= y < P
    ensures ((P - 1) * y) % P == (if y == 0 then 0 else P - y)
  {
    assert (P - 1) * y == -y + y * P;
    ModAddMultiple(-y, y);
  }

  /** Multiplying by the field's `-1` negates. */
  lemma FMulMinusOne(a: Fp)
    ensures FMul(FNeg(FOne()), a) == FNeg(a)
  {
    FMulIsProduct(FNeg(FOne()), a);
    ModMulMinusOne(a);
  }

  lemma FAddZero(a: Fp)
    ensures FAdd(a, FZero()) == a && FAdd(FZero(), a) == a
  {
  }

  lemma FMulOne(a: Fp)
    ensures FMul(a, FOne()) == a && FMul(FOne(), a) == a
  {
    FMulIsProduct(a, FOne());
  }

  lemma FMulZero(a: Fp)
    ensures FMul(a, FZero()) == FZero() && FMul(FZero(), a) == FZero()
  {
    FMulIsProduct(a, FZero());
  }

  /** Subtraction undoes addition. */
  lemma FAddSubCancel(a: Fp, b: Fp)
    ensures FSub(FAdd(a, b), a) == b
  {
  }

  /** Adding back what was subtracted restores the value. */
  lemma FAddSubInverse(a: Fp, b: Fp)
    ensures FAdd(a, FSub(b, a)) == b
  {
  }

  lemma FNegInverse(a: Fp)
    ensures FAdd(a, FNeg(a)) == FZero()
  {
  }
}
