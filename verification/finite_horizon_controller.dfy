/** The unconstrained finite-horizon controller: it builds the prediction
    matrices Ahat and Cbar with explicit loops, the weights Qbar and Rbar,
    H = Cbar^T Qbar Cbar + Rbar and F^T = Ahat^T Qbar Cbar once, and on every
    call returns the first entry of the stationary point -H^-1 F^T x0 of the
    quadratic cost. The loops hard-code a four-state plant. */
module FiniteHorizonController {
  import opened Wrappers
  import opened Matrices
  import opened Blocks
  import opened StateSpace
  import opened Oracles
  import opened Prediction
  import opened StateFeedback
  import Plants

  const Horizon: nat := 100

  /** Stage weight diag(100, 10, 1, 1). */
  const StateWeight: Matrix :=
    [[100.0, 0.0, 0.0, 0.0], [0.0, 10.0, 0.0, 0.0], [0.0, 0.0, 1.0, 0.0], [0.0, 0.0, 0.0, 1.0]]

  const InputWeight: Matrix := [[1.0]]

  /** Terminal weight diag(1000, 1, 1, 1). */
  const TerminalWeight: Matrix :=
    [[1000.0, 0.0, 0.0, 0.0], [0.0, 1.0, 0.0, 0.0], [0.0, 0.0, 1.0, 0.0], [0.0, 0.0, 0.0, 1.0]]

  // ----- the construction loops -----

  /** Ahat: start from eye(4), append A^(i+1) for i = 0 .. N-1, drop the
      first four rows. */
  method StackPowers(A: Matrix, N: nat) returns (Ahat: Matrix)
    requires IsSquare(A) && |A| == 4
    ensures Ahat == AhatDirect(A, N)
    ensures IsMatrix(Ahat, N * 4, 4)
    ensures forall i :: 0 <= i < N ==> Chunk(Ahat, 4, i) == Pow(A, i + 1)
  {
    ghost var parts := AhatBlocks(A, N);
    var acc := Identity(4);
    for i := 0 to N
      invariant acc == Identity(4) + Concat(parts[..i])
    {
      var An := Pow(A, i + 1);
      assert parts[..i + 1][..i] == parts[..i];
      acc := acc + An;
    }
    assert parts[..N] == parts;
    Ahat := acc[4..];
    AhatDirectShape(A, N);
  }

  /** Prepending A^(k+1) B to block row k of width k + 1 gives block row
      k + 1 of width k + 2. */
  lemma PrependPower(A: Matrix, B: Matrix, k: nat)
    requires LinearPlant(A, B)
    ensures HStack(PowB(A, B, k + 1), CbarRow(A, B, k + 1, k)) == CbarRow(A, B, k + 2, k + 1)
  {
    var lhs := HStack(PowB(A, B, k + 1), CbarRow(A, B, k + 1, k));
    forall s | 0 <= s < |A|
      ensures lhs[s] == CbarRow(A, B, k + 2, k + 1)[s]
    {
      forall j | 0 <= j < k + 2
        ensures lhs[s][j] == CbarRow(A, B, k + 2, k + 1)[s][j]
      {
        if j > 0 {
          assert lhs[s][j] == CbarRow(A, B, k + 1, k)[s][j - 1];
        }
      }
    }
  }

  /** The first power alone is block row 0 of width 1. */
  lemma FirstPower(A: Matrix, B: Matrix)
    requires LinearPlant(A, B)
    ensures PowB(A, B, 0) == CbarRow(A, B, 1, 0)
  {
    forall s | 0 <= s < |A|
      ensures PowB(A, B, 0)[s] == CbarRow(A, B, 1, 0)[s]
    {
    }
  }

  /** Appending a zero column past the diagonal widens block row i by one. */
  lemma AppendZero(A: Matrix, B: Matrix, w: nat, i: nat)
    requires LinearPlant(A, B) && i < w
    ensures HStack(CbarRow(A, B, w, i), Zeros(|A|, 1)) == CbarRow(A, B, w + 1, i)
  {
    var lhs := HStack(CbarRow(A, B, w, i), Zeros(|A|, 1));
    forall s | 0 <= s < |A|
      ensures lhs[s] == CbarRow(A, B, w + 1, i)[s]
    {
    }
  }

  /** Block row i of Cbar: the powers A^i B, ..., A^0 B prepended one by one
      (the first one stored as is), then N - 1 - i zero columns appended. */
  method CbarBlockRow(A: Matrix, B: Matrix, N: nat, i: nat) returns (row: Matrix)
    requires LinearPlant(A, B) && i < N
    ensures row == CbarRow(A, B, N, i)
  {
    var tmp: Option<Matrix> := None;
    for ii := 0 to i + 1
      invariant ii == 0 ==> tmp.None?
      invariant ii > 0 ==> tmp == Some(CbarRow(A, B, ii, ii - 1))
    {
      var tm := Mul(Pow(A, ii), B);
      if tmp.None? {
        FirstPower(A, B);
        tmp := Some(tm);
      } else {
        PrependPower(A, B, ii - 1);
        tmp := Some(HStack(tm, tmp.value));
      }
    }
    var t := tmp.value;
    for k := i to N - 1
      invariant t == CbarRow(A, B, k + 1, i)
    {
      AppendZero(A, B, k + 1, i);
      t := HStack(t, Zeros(|A|, 1));
    }
    row := t;
  }

  /** Cbar: start from zeros((4, N)), append block rows 0 .. N-1, drop the
      first four rows. */
  method StackCbar(A: Matrix, B: Matrix, N: nat) returns (Cbar: Matrix)
    requires LinearPlant(A, B) && |A| == 4
    ensures Cbar == CbarDirect(A, B, N)
    ensures IsMatrix(Cbar, N * 4, N)
    ensures forall i :: 0 <= i < N ==> Chunk(Cbar, 4, i) == CbarRow(A, B, N, i)
  {
    ghost var parts := CbarRows(A, B, N);
    var acc := Zeros(4, N);
    for i := 0 to N
      invariant acc == Zeros(4, N) + Concat(parts[..i])
    {
      var row := CbarBlockRow(A, B, N, i);
      assert parts[..i + 1][..i] == parts[..i];
      acc := acc + row;
    }
    assert parts[..N] == parts;
    Cbar := acc[4..];
    CbarDirectShape(A, B, N);
  }

  // ----- the controller -----

  datatype FiniteHorizon = FiniteHorizon(xd: real, horizon: nat, H: Matrix, FT: Matrix)

  /** The stored shapes: H is N x N, F^T is 4 x N, N > 0. */
  predicate Valid(c: FiniteHorizon) {
    c.horizon > 0 && IsMatrix(c.H, c.horizon, c.horizon) && IsMatrix(c.FT, 4, c.horizon)
  }

  lemma WeightsSymmetric()
    ensures Symmetric(StateWeight) && Symmetric(TerminalWeight) && Symmetric(InputWeight)
  {
  }

  lemma QbarShape(N: nat)
    requires N > 0
    ensures IsMatrix(Qbar(StateWeight, TerminalWeight, N), N * 4, N * 4)
  {
    QbarEntry(StateWeight, TerminalWeight, N, 0, 0, 0, 0);
  }

  lemma RbarShape(N: nat)
    ensures IsMatrix(Rbar(InputWeight, N), N, N)
  {
    KronShape(Identity(N), InputWeight);
  }

  /** H = Cbar^T Qbar Cbar + Rbar for the weights above: N x N and
      symmetric. */
  function CostHessian(A: Matrix, B: Matrix, N: nat): (H: Matrix)
    requires LinearPlant(A, B) && |A| == 4 && N > 0
    ensures IsMatrix(H, N, N) && Symmetric(H)
  {
    var Cbar, Qb, Rb := CbarDirect(A, B, N), Qbar(StateWeight, TerminalWeight, N), Rbar(InputWeight, N);
    CbarDirectShape(A, B, N);
    QbarShape(N);
    RbarShape(N);
    WeightsSymmetric();
    QbarSymmetric(StateWeight, TerminalWeight, N);
    RbarSymmetric(InputWeight, N);
    HessianSymmetric(Cbar, Qb, Rb);
    Hessian(Cbar, Qb, Rb)
  }

  /** F^T = Ahat^T Qbar Cbar for the weights above: 4 x N. */
  function CostGradient(A: Matrix, B: Matrix, N: nat): (FT: Matrix)
    requires LinearPlant(A, B) && |A| == 4 && N > 0
    ensures IsMatrix(FT, 4, N)
  {
    AhatDirectShape(A, N);
    CbarDirectShape(A, B, N);
    QbarShape(N);
    FTrans(AhatDirect(A, N), Qbar(StateWeight, TerminalWeight, N), CbarDirect(A, B, N))
  }

  /** The constructor: the loops build exactly the reference prediction
      matrices, so the stored H and F^T are the ones of the cost. The loops
      only fit a four-state plant: for the robot the first append of a
      2 x 2 power to eye(4) fails. */
  method New(k: Plants.Kind) returns (r: Result<FiniteHorizon>)
    ensures r.Err? <==> Plants.Dim(k) != 4
    ensures r.Err? ==> r.error == DimensionError
    ensures r.Ok? ==> Valid(r.value) && r.value.xd == 0.0 && r.value.horizon == Horizon
    ensures r.Ok? ==> r.value.H == CostHessian(Plants.ADisc(k), Plants.BDisc(k), Horizon)
    ensures r.Ok? ==> r.value.FT == CostGradient(Plants.ADisc(k), Plants.BDisc(k), Horizon)
    ensures r.Ok? ==> Symmetric(r.value.H)
  {
    var A, B := Plants.ADisc(k), Plants.BDisc(k);
    if |A| != 4 {
      return Err(DimensionError);
    }
    var N := Horizon;
    var Ahat := StackPowers(A, N);
    var Cbar := StackCbar(A, B, N);
    var Qb := Qbar(StateWeight, TerminalWeight, N);
    var Rb := Rbar(InputWeight, N);
    QbarShape(N);
    RbarShape(N);
    var H := Hessian(Cbar, Qb, Rb);
    var FT := FTrans(Ahat, Qb, Cbar);
    assert H == CostHessian(A, B, N);
    assert FT == CostGradient(A, B, N);
    r := Ok(FiniteHorizon(0.0, N, H, FT));
  }

  function SetDesiredPosition(c: FiniteHorizon, xd: real): (r: FiniteHorizon)
    ensures r.xd == xd && r.H == c.H && r.FT == c.FT && r.horizon == c.horizon
  {
    c.(xd := xd)
  }

  /** uopt = -H^-1 F^T x0, with H inverted on every call. The source
      multiplies (-H^-1) F^T first and applies the product to x0; with exact
      arithmetic the two groupings agree. */
  function OptimalInputs(c: FiniteHorizon, x: Vector, inv: Inverter): (r: Result<Vector>)
    requires Valid(c)
    ensures |x| != 4 ==> r == Err(DimensionError)
    ensures |x| == 4 && inv(c.H).None? ==> r == Err(SingularMatrix)
    ensures r.Ok? <==> |x| == 4 && inv(c.H).Some?
    ensures r.Ok? ==> |r.value| == c.horizon
    ensures r.Ok? ==> MatVec(c.H, r.value) == VScale(-1.0, MatVec(Transpose(c.FT), x))
  {
    if |x| != 4 then Err(DimensionError)
    else match inv(c.H)
      case None => Err(SingularMatrix)
      case Some(Hi) =>
        var b := MatVec(Transpose(c.FT), x);
        var u := VScale(-1.0, MatVec(Hi, b));
        StationaryPoint(c.H, Hi, b);
        Ok(u)
  }

  /** A right inverse turns H u = -b into u = -H^-1 b. */
  lemma StationaryPoint(H: Matrix, Hi: Matrix, b: Vector)
    requires |H| > 0 && IsSquare(H) && IsMatrix(Hi, |H|, |H|) && |b| == |H|
    requires Mul(H, Hi) == Identity(|H|)
    ensures MatVec(H, VScale(-1.0, MatVec(Hi, b))) == VScale(-1.0, b)
  {
    MatVecScale(H, -1.0, MatVec(Hi, b));
    RightInverseSolves(H, Hi, b);
  }

  /** The first optimal input. */
  function Control(c: FiniteHorizon, x: Vector, inv: Inverter): (r: Result<real>)
    requires Valid(c)
    ensures r.Ok? <==> OptimalInputs(c, x, inv).Ok?
    ensures r.Err? ==> r.error == OptimalInputs(c, x, inv).error
    ensures r.Ok? ==> r.value == OptimalInputs(c, x, inv).value[0]
  {
    var u :- OptimalInputs(c, x, inv);
    Ok(u[0])
  }

  /** The first input is a fixed linear function of the state: zero at the
      origin, additive and homogeneous. */
  lemma ControlLinear(c: FiniteHorizon, x: Vector, y: Vector, k: real, inv: Inverter)
    requires Valid(c) && |x| == 4 && |y| == 4 && inv(c.H).Some?
    ensures Control(c, ZeroVec(4), inv) == Ok(0.0)
    ensures Control(c, VAdd(x, y), inv).value
         == Control(c, x, inv).value + Control(c, y, inv).value
    ensures Control(c, VScale(k, x), inv).value == k * Control(c, x, inv).value
  {
    ControlAtOrigin(c, inv);
    ControlAdditive(c, x, y, inv);
    ControlHomogeneous(c, x, k, inv);
  }

  lemma ControlAtOrigin(c: FiniteHorizon, inv: Inverter)
    requires Valid(c) && inv(c.H).Some?
    ensures Control(c, ZeroVec(4), inv) == Ok(0.0)
  {
    FirstInput(c, ZeroVec(4), inv);
    DotZeroRightOf(Transpose(c.FT), inv(c.H).value);
  }

  lemma ControlAdditive(c: FiniteHorizon, x: Vector, y: Vector, inv: Inverter)
    requires Valid(c) && |x| == 4 && |y| == 4 && inv(c.H).Some?
    ensures Control(c, VAdd(x, y), inv).value
         == Control(c, x, inv).value + Control(c, y, inv).value
  {
    var h := inv(c.H).value[0];
    var FTt := Transpose(c.FT);
    FirstInput(c, x, inv);
    FirstInput(c, y, inv);
    FirstInput(c, VAdd(x, y), inv);
    MatVecAdd(FTt, x, y);
    DotAddRight(h, MatVec(FTt, x), MatVec(FTt, y));
  }

  lemma ControlHomogeneous(c: FiniteHorizon, x: Vector, k: real, inv: Inverter)
    requires Valid(c) && |x| == 4 && inv(c.H).Some?
    ensures Control(c, VScale(k, x), inv).value == k * Control(c, x, inv).value
  {
    var h := inv(c.H).value[0];
    var FTt := Transpose(c.FT);
    FirstInput(c, x, inv);
    FirstInput(c, VScale(k, x), inv);
    MatVecScale(FTt, k, x);
    DotScaleRight(k, h, MatVec(FTt, x));
  }

  /** The first input is minus the first row of H^-1 applied to F^T x0. */
  lemma FirstInput(c: FiniteHorizon, x: Vector, inv: Inverter)
    requires Valid(c) && |x| == 4 && inv(c.H).Some?
    ensures |inv(c.H).value[0]| == |MatVec(Transpose(c.FT), x)| == c.horizon
    ensures Control(c, x, inv) == Ok(-Dot(inv(c.H).value[0], MatVec(Transpose(c.FT), x)))
  {
    var Hi := inv(c.H).value;
    var b := MatVec(Transpose(c.FT), x);
    assert IsMatrix(Hi, c.horizon, c.horizon);
    assert OptimalInputs(c, x, inv).value == VScale(-1.0, MatVec(Hi, b));
  }

  lemma DotZeroRightOf(FTt: Matrix, Hi: Matrix)
    requires |FTt| > 0 && IsMatrix(FTt, |FTt|, 4) && IsMatrix(Hi, |FTt|, |FTt|)
    ensures MatVec(Hi, MatVec(FTt, ZeroVec(4)))[0] == 0.0
  {
    forall i | 0 <= i < |FTt|
      ensures MatVec(FTt, ZeroVec(4))[i] == 0.0
    {
      DotZeroRight(FTt[i], ZeroVec(4));
    }
    DotZeroRight(Hi[0], MatVec(FTt, ZeroVec(4)));
  }

  /** The setpoint is stored but never read: the controller always drives
      the state to the origin. */
  lemma SetpointIgnored(c: FiniteHorizon, xd: real, x: Vector, inv: Inverter)
    requires Valid(c)
    ensures Control(SetDesiredPosition(c, xd), x, inv) == Control(c, x, inv)
  {
  }
}
