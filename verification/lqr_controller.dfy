/** The linear-quadratic regulator: K from the continuous Riccati equation
    of the plant's continuous model, and the reference gain Kr that lets the
    pendulum track a cart setpoint. */
module LqrController {
  import opened Wrappers
  import opened Matrices
  import opened StateSpace
  import opened Oracles
  import opened StateFeedback
  import opened Plants

  /** The state weight: diag(100, 1, 10, 100) for the pendulum, I2 otherwise. */
  function StateWeight(k: Kind): (Q: Matrix)
    ensures IsMatrix(Q, Dim(k), Dim(k))
  {
    if k == PendulumKind then
      [[100.0, 0.0, 0.0, 0.0], [0.0, 1.0, 0.0, 0.0], [0.0, 0.0, 10.0, 0.0], [0.0, 0.0, 0.0, 100.0]]
    else
      Identity(2)
  }

  /** The input weight R = I1. */
  function InputWeight(): Matrix {
    Identity(1)
  }

  /** lqr(A, B, Q, R): solve the Riccati equation for X, then K = R^-1 (B^T X). */
  function Gain(A: Matrix, B: Matrix, Q: Matrix, R: Matrix, care: Riccati, inv: Inverter): (r: Result<Matrix>)
    requires LinearPlant(A, B) && IsMatrix(R, 1, 1)
    ensures care(A, B, Q, R).None? ==> r == Err(SolverFailed)
    ensures care(A, B, Q, R).Some? && inv(R).None? ==> r == Err(SingularMatrix)
    ensures r.Ok? <==> care(A, B, Q, R).Some? && inv(R).Some?
    ensures r.Ok? ==> GainRow(A, B, r.value)
    ensures r.Ok? ==> Mul(R, r.value) == Mul(Transpose(B), care(A, B, Q, R).value)
  {
    match care(A, B, Q, R)
    case None => Err(SolverFailed)
    case Some(X) =>
      match inv(R)
      case None => Err(SingularMatrix)
      case Some(Ri) =>
        var BtX := Mul(Transpose(B), X);
        assert IsMatrix(Transpose(B), 1, |A|);
        MulAssoc(R, Ri, BtX);
        MulIdentityLeft(BtX);
        Ok(Mul(Ri, BtX))
  }

  /** With R = I the gain is B^T X itself. */
  lemma UnitWeightGain(A: Matrix, B: Matrix, Q: Matrix, care: Riccati, inv: Inverter)
    requires LinearPlant(A, B)
    requires Gain(A, B, Q, InputWeight(), care, inv).Ok?
    ensures Gain(A, B, Q, InputWeight(), care, inv).value == Mul(Transpose(B), care(A, B, Q, InputWeight()).value)
  {
    var K := Gain(A, B, Q, InputWeight(), care, inv).value;
    MulIdentityLeft(K);
  }

  datatype Lqr = Lqr(kind: Kind, K: Matrix, Kr: real, xd: real)

  predicate Valid(c: Lqr) {
    IsMatrix(c.K, 1, Dim(c.kind))
  }

  /** The constructor: K from the continuous matrices, then Kr = -1 / Kdc[0]
      with Kdc = C (A - B K)^-1 B. */
  function New(k: Kind, care: Riccati, inv: Inverter): (r: Result<Lqr>)
    ensures r.Ok? ==> Valid(r.value) && r.value.kind == k && r.value.xd == 0.0
    ensures r.Ok? <==>
      (var g := Gain(ACont(k), BCont(k), StateWeight(k), InputWeight(), care, inv);
       g.Ok? && ReferenceGain(ACont(k), BCont(k), Measure(k), g.value, inv).Ok?)
    ensures r.Ok? ==> (
      r.value.K == Gain(ACont(k), BCont(k), StateWeight(k), InputWeight(), care, inv).value
      && r.value.Kr == ReferenceGain(ACont(k), BCont(k), Measure(k), r.value.K, inv).value)
  {
    var g := Gain(ACont(k), BCont(k), StateWeight(k), InputWeight(), care, inv);
    if g.Err? then Err(g.error)
    else
      var kr := ReferenceGain(ACont(k), BCont(k), Measure(k), g.value, inv);
      if kr.Err? then Err(kr.error) else Ok(Lqr(k, g.value, kr.value, 0.0))
  }

  /** Stores the setpoint; only the pendulum's command moves with it. */
  function SetDesiredPosition(c: Lqr, x: real): (r: Lqr)
    ensures r.kind == c.kind && r.K == c.K && r.Kr == c.Kr && r.xd == x
    ensures Valid(c) ==> Valid(r) && forall s: Vector | |s| == Dim(c.kind) ::
      Control(r, s) == Control(c, s) + (if c.kind == PendulumKind then (x - c.xd) * c.Kr else 0.0)
  {
    c.(xd := x)
  }

  /** u = -K x + xd Kr for the pendulum, u = -K x for the robot: the
      robot's command is the law with the setpoint taken as 0. */
  function Control(c: Lqr, x: Vector): (u: real)
    requires Valid(c) && |x| == Dim(c.kind)
    ensures u == Law(c.K, x, if c.kind == PendulumKind then c.xd else 0.0, c.Kr)
  {
    if c.kind == PendulumKind then Law(c.K, x, c.xd, c.Kr) else -Dot(c.K[0], x)
  }

  /** Moving the setpoint by d moves the pendulum's command by d Kr; the
      robot's command does not depend on the setpoint; the command is linear
      in the state and zero at rest on setpoint 0. */
  lemma SetpointAndLinearity(c: Lqr, x: Vector, y: Vector, a: real)
    requires Valid(c) && |x| == Dim(c.kind) && |y| == |x|
    ensures c.kind == PendulumKind ==>
      Control(SetDesiredPosition(c, a), x) - Control(c, x) == (a - c.xd) * c.Kr
    ensures c.kind == RobotKind ==> Control(SetDesiredPosition(c, a), x) == Control(c, x)
    ensures Control(c.(xd := 0.0), VAdd(x, y)) == Control(c.(xd := 0.0), x) + Control(c.(xd := 0.0), y)
    ensures Control(c.(xd := 0.0), ZeroVec(|x|)) == 0.0
  {
    LawLinear(c.K, x, y, 1.0, c.xd, c.Kr);
    LawLinear(c.K, x, y, 1.0, a, c.Kr);
  }

  /** The reference gain the constructor computes makes the first measured
      output of the closed-loop equilibrium equal the setpoint. */
  lemma TracksSetpoint(k: Kind, care: Riccati, inv: Inverter, xd: real)
    ensures New(k, care, inv).Ok? ==>
      var c := New(k, care, inv).value;
      && inv(ClosedLoop(ACont(k), BCont(k), c.K)).Some?
      && IsMatrix(inv(ClosedLoop(ACont(k), BCont(k), c.K)).value, Dim(k), Dim(k))
      && StateFeedback.TracksSetpoint(ClosedLoop(ACont(k), BCont(k), c.K), BCont(k), Measure(k),
           inv(ClosedLoop(ACont(k), BCont(k), c.K)).value, c.Kr, xd)
  {
    if New(k, care, inv).Ok? {
      var c := New(k, care, inv).value;
      ReferenceGainTracks(ACont(k), BCont(k), Measure(k), c.K, inv, xd);
    }
  }
}
