# R1CS over a prime field: a Dafny model

This project models the algebraic core of a small Rank-1 Constraint System
(R1CS) library. The core has two layers over a prime field `Fp`:

- **Fixed-dimension linear algebra.** `Vector<N>` has `new`, `get`, `dot` and
  `hadamard_product`. `Matrix<N, M>` has `zero`, `new`, `row`, `column`,
  `get`, `hadamard_product` and `vector_product`.
- **R1CS.** Three matrices `left`, `right`, `output` of one shape. There is a
  whole-system check, `is_satisfied(w)`: `(L w) o (R w) == O w`. There is a
  per-constraint check, `is_constraint_satisfied(w, k)`:
  `(L_k . w) * (R_k . w) == O_k . w`.

Layout, one module per file:

- `field.dfy` (`Field`): the field element. It is an integer in `[0, P)`,
  reduced modulo `P = 2^31 - 1`. It offers `FZero`, `FOne`, `FFrom`, `FAdd`,
  `FNeg`, `FSub` and `FMul`. It proves the ring laws of these operations:
  commutativity, associativity, distributivity, identities and inverses.
  `FMul` is defined as repeated field addition. That definition keeps the
  proofs in linear arithmetic and is never meant to run. `FMulIsProduct`
  proves that it equals the integer product reduced modulo `P`.
- `linear_algebra.dfy` (`LinearAlgebra`): a vector is a `seq<Fp>` and a matrix
  is a `seq` of rows. The Rust const-generic dimensions become length
  predicates (`IsMatrix`, `SameShape`, `RowsMatch`). Index panics and
  `assert_eq!` become `requires` clauses. Each operation has a functional
  definition. Where the Rust code uses a `for` loop, a `Compute…` method
  follows that loop and is proved equal to the definition.
- `r1cs.dfy` (`R1cs`): the `R1CS` datatype and both satisfaction checks.
  - A witness whose slot 0 is not 1, or a bad constraint index, is a caller
    error. The source aborts on it, so it is a precondition, never a `false`
    answer.
  - `CheckSatisfied` and `CheckConstraint` spell out the same split as values:
    `Abort(fault)` versus `Answer(bool)`.
- `toy_circuit.dfy` (`ToyCircuit`): the test suite's 7-slot, 4-constraint
  system for `C(x1, x2, x3) = x1*x2*x3 + (1 - x1)*(x2 + x3)`, with its
  soundness and completeness and the three test witnesses.
- `linear_algebra_examples.dfy` (`LinearAlgebraExamples`): the linear-algebra
  unit-test scenarios.

In the source, the bodies of `is_satisfied` and `is_constraint_satisfied` are
still `unimplemented!`. The model gives them the behaviour that the module doc
(src/r1cs.rs:3-4), the method docs, the asserted preconditions and the tests
call for.

`Matrix::new` (src/linear_algebra.rs:63-69) asserts only that `value.len()`
is `M` and that `value[0].0.len()` is `N`. The array type `[Vector<N>; M]`
fixes the other row lengths. Because it reads `value[0]`, it panics when
`M = 0`. So `MatrixNew` requires `m >= 1`, and so do `Zero`, which calls `new`
(src/linear_algebra.rs:59), and `ComputeMatrixHadamard`, which starts from
`Matrix::zero()` (src/linear_algebra.rs:96).

## Model

| member | source | states |
|---|---|---|
| LinearAlgebra.VectorNew | src/linear_algebra.rs:16-19 | needs exactly `n` elements; the vector holds them unchanged, entry by entry |
| LinearAlgebra.Get | src/linear_algebra.rs:22-24 | the index must be below the length; the result is element `i` |
| LinearAlgebra.ComputeDot | src/linear_algebra.rs:27-33 | the loop that starts at zero and adds `a[i]*b[i]` in index order yields the inner product `Dot` |
| LinearAlgebra.DotIsReducedSum | src/linear_algebra.rs:27-33 | the field inner product of the first `k` entries equals the integer sum `a[0]*b[0] + … + a[k-1]*b[k-1]` reduced modulo P |
| LinearAlgebra.DotComm | src/linear_algebra.rs:27-33 | every prefix of the inner product is symmetric in its two vectors |
| LinearAlgebra.DotCommutes | src/linear_algebra.rs:27-33 | `a . b == b . a` |
| LinearAlgebra.DotZeroPrefix | src/linear_algebra.rs:27-33 | the inner product of the zero vector with any vector, on either side, is zero on every prefix |
| LinearAlgebra.ComputeHadamard | src/linear_algebra.rs:36-45 | the loop that overwrites a zero vector returns a vector of the operands' length whose entry `i` is `a[i]*b[i]` |
| LinearAlgebra.HadamardCommutes | src/linear_algebra.rs:36-45 | the element-wise product is commutative |
| LinearAlgebra.HadamardZero | src/linear_algebra.rs:36-45 | the element-wise product with the zero vector is the zero vector |
| LinearAlgebra.MatrixNew | src/linear_algebra.rs:63-69 | needs at least one row, `m` rows in all, each of length `n`; the matrix holds the given entries |
| LinearAlgebra.Zero | src/linear_algebra.rs:58-60 | needs `m >= 1` because it is built with `new`; has shape `n x m` and every entry is zero |
| LinearAlgebra.Row | src/linear_algebra.rs:72-74 | the row index must be in range; the result is row `i` |
| LinearAlgebra.MatrixGet | src/linear_algebra.rs:88-90 | both indices must be in range; the result is entry `j` of row `i`, the same as `row(i).get(j)` |
| LinearAlgebra.ComputeColumn | src/linear_algebra.rs:77-85 | needs `j < n`; the result has length `m`, and its entry `i` is `get(i, j)` |
| LinearAlgebra.ComputeMatrixHadamard | src/linear_algebra.rs:95-103 | needs at least one row, because it starts from `zero()`; the result has the operands' shape with `c_ij = a_ij * b_ij` |
| LinearAlgebra.MatrixHadamardCommutes | src/linear_algebra.rs:92-103 | the matrix element-wise product is commutative |
| LinearAlgebra.ComputeVectorProduct | src/linear_algebra.rs:105-115 | the result has one entry per row, and entry `i` is `row(i) . v`; the result is the matrix-vector product `VectorProduct` |
| LinearAlgebra.ZeroVectorProduct | src/linear_algebra.rs:109-115 | `zero().vector_product(v)` is the zero vector of length `m`, for every `v` |
| LinearAlgebraExamples.DotExample | src/linear_algebra.rs:125-133 | `[1,5,5] . [2,3,2] = 27` |
| LinearAlgebraExamples.VectorProductExample | src/linear_algebra.rs:135-151 | `[[1,5,5],[2,3,2]] [2,3,2] = [27,17]` |
| LinearAlgebraExamples.MatrixHadamardExample | src/linear_algebra.rs:153-178 | `[[1,5,5],[2,3,2]] o [[2,3,2],[1,5,5]] = [[2,15,10],[2,15,10]]` |
| R1cs.New | src/r1cs.rs:20-30 | the three matrices must share the shape `(WITNESS_SIZE, CONSTRAINT_NUM)`; they are stored verbatim, and the system has that shape |
| R1cs.SatisfiedIffEveryConstraint | src/r1cs.rs:32-47 | `is_satisfied(w)` holds exactly when `is_constraint_satisfied(w, k)` holds for every `k < CONSTRAINT_NUM` |
| R1cs.UnsatisfiedIffSomeConstraintFails | src/r1cs.rs:32-47 | a well-formed witness is rejected exactly when some constraint fails on it |
| R1cs.ComputeIsSatisfied | src/r1cs.rs:32-38 | needs a witness with 1 in slot 0; computing `Lz o Rz == Oz` answers `is_satisfied`, which is the conjunction of the per-constraint checks |
| R1cs.ComputeIsConstraintSatisfied | src/r1cs.rs:40-47 | needs a witness with 1 in slot 0 and `k < CONSTRAINT_NUM`; three inner products decide constraint `k`, which is entry `k` of `Lz o Rz == Oz` |
| R1cs.AllConstraintsSatisfied | src/r1cs.rs:32-47 | AND-ing the per-constraint answers in a loop gives the whole-system answer |
| R1cs.CheckSatisfied | src/r1cs.rs:33-34 | an empty witness aborts with `EmptyWitness`, a witness whose slot 0 is not 1 aborts with `WitnessHeadNotOne`, and neither answers `false`; otherwise the answer is `is_satisfied` |
| R1cs.CheckConstraint | src/r1cs.rs:41-43 | checks slot 0 first (`EmptyWitness`, `WitnessHeadNotOne`), then `constraint_id < CONSTRAINT_NUM` (`ConstraintIdOutOfRange`, only for a well-formed witness); otherwise it answers `is_constraint_satisfied` |
| R1cs.CheckSatisfiedIffEveryCheckConstraint | src/r1cs.rs:32-47 | on a well-formed witness, the whole check answers `true` exactly when every per-constraint check answers `true` |
| ToyCircuit.ToyR1CS | src/r1cs.rs:60-84 | the toy system built by the tests has 4 constraints over 7 witness slots |
| ToyCircuit.ToyConstraints | src/r1cs.rs:60-84 | its constraints state `x1*x1 = x1`, `x2*x3 = r1`, `x1*r1 = r2` and `(1-x1)(x2+x3) = out - r2` over the witness `(1, out, x1, x2, x3, r1, r2)` |
| ToyCircuit.ToyEquations | src/r1cs.rs:50-84 | a witness that satisfies the toy system meets all four equations of the circuit |
| ToyCircuit.ToySatisfiedIf | src/r1cs.rs:50-84 | conversely, a witness with 1 in slot 0 that meets the four equations satisfies the toy system |
| ToyCircuit.ToySound | src/r1cs.rs:50-51 | every satisfying witness has `x1*x1 = x1` and `out = C(x1, x2, x3)` |
| ToyCircuit.ToyComplete | src/r1cs.rs:50-51 | for every bit `x1` and all `x2, x3`, the witness `(1, C, x1, x2, x3, x2*x3, x1*x2*x3)` satisfies the system |
| ToyCircuit.ValidWitness1 | src/r1cs.rs:86-104 | `(1,12,1,3,4,12,12)` satisfies the toy system |
| ToyCircuit.ValidWitness2 | src/r1cs.rs:106-124 | `(1,7,0,3,4,12,0)` satisfies the toy system |
| ToyCircuit.InvalidWitnessEquations | src/r1cs.rs:146-178 | on `(1,12,0,3,4,12,12)` the equations `x1*x1 = x1` and `x2*x3 = r1` hold, while `x1*r1 = r2` and `(1-x1)(x2+x3) = out - r2` fail |
| ToyCircuit.InvalidWitnessConstraints | src/r1cs.rs:146-178 | on `(1,12,0,3,4,12,12)` constraints 0 and 1 hold and constraints 2 and 3 fail |
| ToyCircuit.InvalidWitnessRejected | src/r1cs.rs:126-144 | the system rejects `(1,12,0,3,4,12,12)` |
| ToyCircuit.ZeroHeadAborts | src/r1cs.rs:33-43 | a witness whose slot 0 is 0 makes the check abort; so does constraint id 4 on the 4-constraint system |

## Left out

- The field element type: `finite_field.rs` is not part of this model. Its
  modulus and representation are abstracted as `int` modulo the prime
  `P = 2^31 - 1`. Every property here holds for any modulus above 27, and the
  ring laws hold for any modulus above 1.
- Uniform random sampling of field elements (`rng.gen()`): randomness is not
  modelled.
- `src/main.rs`: the demo driver. Its random witness generation, colored
  console output and unfinished right/output matrices are not core logic.
- Rust's const generics, `Clone`/`Copy`/`Debug`/`PartialEq` derives and
  borrowing. Dimensions are length preconditions on `seq`s. Structural
  equality is Dafny's value equality.
- The in-place updates of the Rust loops (`res.0[i] = …`) are modelled as
  functional sequence updates.
- ComputeColumn: requires `j < n` for a matrix of shape `n x m`. The Rust loop
  indexes only the rows that exist, so with `M = 0` it would not panic. But
  `Matrix::new` cannot build a matrix with no rows. The functional `Column`
  requires exactly that every existing row has an entry `j`.
- ToySound: concludes `x1 * x1 = x1`, not `x1 ∈ {0, 1}`. The two are
  equivalent only because `P` is prime, and primality of `P` is not proved.
- ToyCircuit.ToyR1CS: its contract states the shape of the system. The
  entries are given by its definition and characterised by `ToyConstraints`.
