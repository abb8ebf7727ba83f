/** Pole placement: K puts the closed-loop poles at -2, -8, -9, -10, and the
    reference gain Kr lets the cart track a setpoint. */
module PolePlacementController {
  import opened Wrappers
  import opened Matrices
  import opened StateSpace
  import opened Oracles
  import opened StateFeedback
  import opened Plants

  const DesiredPoles: seq<real> := [-2.0, -8.0, -9.0, -10.0]

  datatype PolePlacement = PolePlacement(kind: Kind, K: Matrix, Kr: real, xd: real)

  predicate Valid(c: PolePlacement) {
    IsMatrix(c.K, 1, Dim(c.kind))
  }

  /** The constructor: K from the placement routine on the continuous
      matrices, then Kr = -1 / Kdc[0] with Kdc = C (A - B K)^-1 B. */
  function New(k: Kind, place: Placer, inv: Inverter): (r: Result<PolePlacement>)
    ensures r.Ok? ==> Valid(r.value) && r.value.kind == k && r.value.xd == 0.0
    ensures place(ACont(k), BCont(k), DesiredPoles).None? ==> r == Err(SolverFailed)
    ensures r.Ok? <==>
      (var K := place(ACont(k), BCont(k), DesiredPoles);
       K.Some? && ReferenceGain(ACont(k), BCont(k), Measure(k), K.value, inv).Ok?)
    ensures r.Ok? ==> (
      r.value.K == place(ACont(k), BCont(k), DesiredPoles).value
      && r.value.Kr == ReferenceGain(ACont(k), BCont(k), Measure(k), r.value.K, inv).value)
  {
    match place(ACont(k), BCont(k), DesiredPoles)
    case None => Err(SolverFailed)
    case Some(K) =>
      var kr := ReferenceGain(ACont(k), BCont(k), Measure(k), K, inv);
      if kr.Err? then Err(kr.error) else Ok(PolePlacement(k, K, kr.value, 0.0))
  }

  /** Stores the setpoint; the command moves by the change times Kr. */
  function SetDesiredPosition(c: PolePlacement, x: real): (r: PolePlacement)
    ensures r.kind == c.kind && r.K == c.K && r.Kr == c.Kr && r.xd == x
    ensures Valid(c) ==> Valid(r) && forall s: Vector | |s| == Dim(c.kind) ::
      Control(r, s) == Control(c, s) + (x - c.xd) * c.Kr
  {
    c.(xd := x)
  }

  /** u = -K x + xd Kr, for either plant: the feedback on the state plus
      the setpoint term. */
  function Control(c: PolePlacement, x: Vector): (u: real)
    requires Valid(c) && |x| == Dim(c.kind)
    ensures u == Law(c.K, x, 0.0, c.Kr) + c.xd * c.Kr
  {
    Law(c.K, x, c.xd, c.Kr)
  }

  /** Four poles are asked for whatever the plant, so placement raises for
      the two-state robot and no such controller is ever built. */
  lemma RobotPlacementFails(place: Placer, inv: Inverter)
    ensures New(RobotKind, place, inv) == Err(SolverFailed)
  {
    assert |DesiredPoles| == 4 != Dim(RobotKind) == |ACont(RobotKind)|;
  }

  /** u(xd) - u(0) = xd Kr for every state, and the command is linear in the
      state on setpoint 0. */
  lemma SetpointAndLinearity(c: PolePlacement, x: Vector, y: Vector, a: real, s: real)
    requires Valid(c) && |x| == Dim(c.kind) && |y| == |x|
    ensures Control(SetDesiredPosition(c, a), x) - Control(SetDesiredPosition(c, 0.0), x) == a * c.Kr
    ensures Control(c.(xd := 0.0), VAdd(x, y)) == Control(c.(xd := 0.0), x) + Control(c.(xd := 0.0), y)
    ensures Control(c.(xd := 0.0), VScale(s, x)) == s * Control(c.(xd := 0.0), x)
  {
    LawLinear(c.K, x, y, s, a, c.Kr);
  }

  /** The reference gain the constructor computes makes the first measured
      output of the closed-loop equilibrium equal the setpoint. */
  lemma TracksSetpoint(k: Kind, place: Placer, inv: Inverter, xd: real)
    ensures New(k, place, inv).Ok? ==>
      var c := New(k, place, inv).value;
      && inv(ClosedLoop(ACont(k), BCont(k), c.K)).Some?
      && IsMatrix(inv(ClosedLoop(ACont(k), BCont(k), c.K)).value, Dim(k), Dim(k))
      && StateFeedback.TracksSetpoint(ClosedLoop(ACont(k), BCont(k), c.K), BCont(k), Measure(k),
           inv(ClosedLoop(ACont(k), BCont(k), c.K)).value, c.Kr, xd)
  {
    if New(k, place, inv).Ok? {
      var c := New(k, place, inv).value;
      ReferenceGainTracks(ACont(k), BCont(k), Measure(k), c.K, inv, xd);
    }
  }
}
