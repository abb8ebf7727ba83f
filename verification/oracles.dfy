/** The numerical library calls the controllers make, as functions the model
    does not compute. Each type states the contract the model relies on; a
    call that raises is `None`. */
module Oracles {
  import opened Wrappers
  import opened Matrices

  /** `np.linalg.inv` / `.I`: a two-sided inverse of a square matrix, and
      an exception only for a matrix that has none. */
  ghost predicate InverseLaw(f: Matrix -> Option<Matrix>) {
    && (forall M :: f(M).Some? ==> IsInverse(M, f(M).value))
    && (forall M :: f(M).None? ==> forall X :: !IsInverse(M, X))
  }

  /** Inhabited by the routine that returns an inverse whenever one exists. */
  type Inverter = f: Matrix -> Option<Matrix> | InverseLaw(f)
    ghost witness M => if exists X :: IsInverse(M, X) then Some(var X :| IsInverse(M, X); X) else None

  /** `scipy.linalg.solve_continuous_are(A, B, Q, R)`: a symmetric n x n
      solution X for an n-state plant. */
  ghost predicate RiccatiLaw(f: (Matrix, Matrix, Matrix, Matrix) -> Option<Matrix>) {
    forall A, B, Q, R :: f(A, B, Q, R).Some? ==>
      IsMatrix(f(A, B, Q, R).value, |A|, |A|) && Symmetric(f(A, B, Q, R).value)
  }

  type Riccati = f: (Matrix, Matrix, Matrix, Matrix) -> Option<Matrix> | RiccatiLaw(f)
    witness (A, B, Q, R) => None

  /** `control.place(A, B, poles)`: a 1 x n gain row for an n-state,
      single-input plant, and an exception unless exactly n poles are asked
      for. */
  ghost predicate PlaceLaw(f: (Matrix, Matrix, seq<real>) -> Option<Matrix>) {
    forall A, B, poles :: f(A, B, poles).Some? ==>
      |poles| == |A| && IsMatrix(f(A, B, poles).value, 1, |A|)
  }

  type Placer = f: (Matrix, Matrix, seq<real>) -> Option<Matrix> | PlaceLaw(f)
    witness (A, B, poles) => None
}
