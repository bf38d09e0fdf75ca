/**
  The concrete scenarios of the linear-algebra unit tests, stated over the model.
 */
module LinearAlgebraExamples {
  import opened Field
  import opened LinearAlgebra

  /** Test `test_vector_dot`: `[1, 5, 5] . [2, 3, 2] = 1*2 + 5*3 + 5*2 = 27`. */
  lemma DotExample(a: Vector, b: Vector)
    requires a == [1, 5, 5] && b == [2, 3, 2]
    ensures Dot(a, b) == FFrom(27)
  {
    assert DotPrefix(a, b, 1) == 2;
    assert DotPrefix(a, b, 2) == 17;
  }

  /** Test `test_matrix_vector_product`: `[[1, 5, 5], [2, 3, 2]] [2, 3, 2] = [27, 17]`. */
  lemma VectorProductExample(a: Matrix, v: Vector)
    requires a == [[1, 5, 5], [2, 3, 2]] && v == [2, 3, 2]
    ensures RowsMatch(a, v)
    ensures VectorProduct(a, v) == [FFrom(27), FFrom(17)]
  {
    assert DotPrefix(a[0], v, 1) == 2 && DotPrefix(a[0], v, 2) == 17;
    assert Dot(a[0], v) == 27;
    assert DotPrefix(a[1], v, 1) == 4 && DotPrefix(a[1], v, 2) == 13;
    assert Dot(a[1], v) == 17;
  }

  /** Test `test_matrix_hadamard_product`:
      `[[1, 5, 5], [2, 3, 2]] o [[2, 3, 2], [1, 5, 5]] = [[2, 15, 10], [2, 15, 10]]`. */
  lemma MatrixHadamardExample(a: Matrix, b: Matrix)
    requires a == [[1, 5, 5], [2, 3, 2]] && b == [[2, 3, 2], [1, 5, 5]]
    ensures SameShape(a, b)
    ensures MatrixHadamard(a, b) == [[2, 15, 10], [2, 15, 10]]
  {
    assert FMul(1, 2) == 2 && FMul(5, 3) == 15 && FMul(5, 2) == 10;
    assert Hadamard(a[0], b[0]) == [2, 15, 10];
    assert Hadamard(a[1], b[1]) == [2, 15, 10];
  }
}
