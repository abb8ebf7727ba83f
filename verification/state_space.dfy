/** Linear state-space models with one scalar input: the forward-Euler
    discretisation both plants apply in their constructors, and the linear
    step `state = A * state + B * u` of their `step_disc`. */
module StateSpace {
  import opened Matrices

  /** An n-state, single-input pair (A, B): A is n x n and B is n x 1. */
  predicate LinearPlant(A: Matrix, B: Matrix) {
    |A| > 0 && IsSquare(A) && IsMatrix(B, |A|, 1)
  }

  /** A_disc = I + A_cont * dt. */
  function EulerA(aCont: Matrix, dt: real): Matrix
    requires IsSquare(aCont)
  {
    Add(Identity(|aCont|), Scale(dt, aCont))
  }

  /** B_disc = dt * B_cont. */
  function EulerB(bCont: Matrix, dt: real): Matrix {
    Scale(dt, bCont)
  }

  /** x' = A x + B u. */
  function LinearStep(A: Matrix, B: Matrix, x: Vector, u: real): (r: Vector)
    requires LinearPlant(A, B) && |x| == |A|
    ensures |r| == |A|
  {
    VAdd(MatVec(A, x), VScale(u, Col(B, 0)))
  }

  /** The discretised matrices advance the state by one explicit Euler step
      of the continuous linear dynamics: x' = x + dt * (A_cont x + B_cont u). */
  lemma EulerStep(aCont: Matrix, bCont: Matrix, dt: real, x: Vector, u: real)
    requires LinearPlant(aCont, bCont) && |x| == |aCont|
    ensures LinearPlant(EulerA(aCont, dt), EulerB(bCont, dt))
    ensures LinearStep(EulerA(aCont, dt), EulerB(bCont, dt), x, u)
         == VAdd(x, VScale(dt, LinearStep(aCont, bCont, x, u)))
  {
    var n := |aCont|;
    var ax, b := MatVec(aCont, x), Col(bCont, 0);
    EulerAApply(aCont, dt, x);
    EulerBColumn(bCont, dt);
    forall i | 0 <= i < n
      ensures LinearStep(EulerA(aCont, dt), EulerB(bCont, dt), x, u)[i]
           == VAdd(x, VScale(dt, LinearStep(aCont, bCont, x, u)))[i]
    {
      assert u * (dt * b[i]) == dt * (u * b[i]);
    }
  }

  /** (I + A_cont dt) x = x + dt A_cont x. */
  lemma EulerAApply(aCont: Matrix, dt: real, x: Vector)
    requires IsSquare(aCont) && |x| == |aCont|
    ensures MatVec(EulerA(aCont, dt), x) == VAdd(x, VScale(dt, MatVec(aCont, x)))
  {
    var n := |aCont|;
    MatVecOfAdd(Identity(n), Scale(dt, aCont), x);
    MatVecIdentity(x);
    MatVecOfScale(dt, aCont, x);
  }

  /** The input column of dt B_cont is dt times that of B_cont. */
  lemma EulerBColumn(bCont: Matrix, dt: real)
    requires IsMatrix(bCont, |bCont|, 1)
    ensures Col(EulerB(bCont, dt), 0) == VScale(dt, Col(bCont, 0))
  {
    forall i | 0 <= i < |bCont|
      ensures Col(EulerB(bCont, dt), 0)[i] == VScale(dt, Col(bCont, 0))[i]
    {
    }
  }
}
