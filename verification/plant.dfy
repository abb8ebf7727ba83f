/** The two plants behind one interface, and the plant-kind test the PID,
    LQR and MPC controllers and the simulator perform through the attribute
    `name` (the pole-placement and finite-horizon controllers never read
    it). */
module Plants {
  import opened Wrappers
  import opened Matrices
  import opened StateSpace
  import opened Trig
  import IP = InvertedPendulum
  import BR = BalancingRobot

  datatype Kind = PendulumKind | RobotKind

  datatype Plant = Cart(pendulum: IP.Pendulum) | Bot(robot: BR.Robot)

  function KindOf(pl: Plant): Kind {
    if pl.Cart? then PendulumKind else RobotKind
  }

  /** Length of the state vector of each kind. */
  function Dim(k: Kind): (n: nat)
    ensures n == 4 || n == 2
  {
    if k == PendulumKind then 4 else 2
  }

  predicate Valid(pl: Plant) {
    match pl
    case Cart(p) => IP.Valid(p)
    case Bot(r) => BR.Valid(r)
  }

  function State(pl: Plant): Vector {
    match pl
    case Cart(p) => p.state
    case Bot(r) => r.state
  }

  function TimeElapsed(pl: Plant): real {
    match pl
    case Cart(p) => p.timeElapsed
    case Bot(r) => r.timeElapsed
  }

  function Dt(k: Kind): real {
    if k == PendulumKind then IP.Dt else BR.Dt
  }

  function ACont(k: Kind): (A: Matrix)
    ensures IsSquare(A) && |A| == Dim(k)
  {
    if k == PendulumKind then IP.ACont else BR.ACont
  }

  function BCont(k: Kind): (B: Matrix)
    ensures LinearPlant(ACont(k), B)
  {
    if k == PendulumKind then IP.BCont else BR.BCont
  }

  function ADisc(k: Kind): (A: Matrix)
    ensures IsSquare(A) && |A| == Dim(k)
  {
    if k == PendulumKind then
      IP.Discretisation(ZeroVec(4), 0.0);
      IP.ADisc()
    else
      BR.Discretisation(ZeroVec(2), 0.0);
      BR.ADisc()
  }

  function BDisc(k: Kind): (B: Matrix)
    ensures LinearPlant(ADisc(k), B)
  {
    if k == PendulumKind then
      IP.Discretisation(ZeroVec(4), 0.0);
      IP.BDisc()
    else
      BR.Discretisation(ZeroVec(2), 0.0);
      BR.BDisc()
  }

  /** The measurement matrix: two rows for the pendulum, one for the robot. */
  function Measure(k: Kind): (C: Matrix)
    ensures |C| > 0 && IsMatrix(C, |C|, Dim(k))
  {
    if k == PendulumKind then IP.Measure else BR.Measure
  }

  /** Both plants run at 100 Hz. */
  lemma SampleTime(k: Kind)
    ensures Dt(k) == 0.01
  {
  }

  lemma ValidState(pl: Plant)
    requires Valid(pl)
    ensures |State(pl)| == Dim(KindOf(pl))
  {
  }

  function StepCont(pl: Plant, u: real, t: Trig): (r: Plant)
    requires Valid(pl)
    ensures Valid(r) && KindOf(r) == KindOf(pl)
    ensures TimeElapsed(r) == TimeElapsed(pl) + Dt(KindOf(pl))
  {
    match pl
    case Cart(p) => Cart(IP.StepCont(p, u, t))
    case Bot(b) => Bot(BR.StepCont(b, u, t))
  }

  function StepDisc(pl: Plant, u: real): (r: Plant)
    requires Valid(pl)
    ensures Valid(r) && KindOf(r) == KindOf(pl)
    ensures State(r) == VAdd(State(pl), VScale(Dt(KindOf(pl)),
                          LinearStep(ACont(KindOf(pl)), BCont(KindOf(pl)), State(pl), u)))
  {
    match pl
    case Cart(p) => Cart(IP.StepDisc(p, u))
    case Bot(b) => Bot(BR.StepDisc(b, u))
  }

  function SetState(pl: Plant, s: Matrix): (r: Result<Plant>)
    ensures r.Ok? <==> IsMatrix(s, Dim(KindOf(pl)), 1)
    ensures r.Ok? ==> Valid(r.value) && KindOf(r.value) == KindOf(pl) && ColumnMatrix(State(r.value)) == s
  {
    match pl
    case Cart(p) =>
      (var q := IP.SetState(p, s); if q.Ok? then Ok(Cart(q.value)) else Err(q.error))
    case Bot(b) =>
      (var q := BR.SetState(b, s); if q.Ok? then Ok(Bot(q.value)) else Err(q.error))
  }

  // ----- the `name` attribute -----

  /** The attribute as the constructors leave it: the robot sets "Robot",
      the pendulum never assigns one. */
  function NameAsWritten(pl: Plant): Option<string> {
    if pl.Bot? then Some(BR.Name) else None
  }

  /** `model.name == 'Pendulum'` as written: reading the missing attribute
      raises, and no plant can answer true. */
  function IsPendulumAsWritten(pl: Plant): (r: Result<bool>)
    ensures r.Ok? ==> !r.value
  {
    match NameAsWritten(pl)
    case None => Err(MissingAttribute)
    case Some(name) => Ok(name == "Pendulum")
  }

  lemma PendulumBranchUnreachableAsWritten(pl: Plant)
    ensures pl.Cart? <==> IsPendulumAsWritten(pl) == Err(MissingAttribute)
    ensures pl.Bot? <==> IsPendulumAsWritten(pl) == Ok(false)
  {
  }

  /** The attribute the branches are written against. */
  function NameCorrected(pl: Plant): string {
    if pl.Cart? then "Pendulum" else BR.Name
  }

  /** With the name set, the test tells the kinds apart; the rest of the
      model branches on `KindOf` directly. */
  lemma NameIdentifiesKind(pl: Plant)
    ensures NameCorrected(pl) == "Pendulum" <==> KindOf(pl) == PendulumKind
    ensures NameCorrected(pl) != "Pendulum" <==> KindOf(pl) == RobotKind
  {
  }
}
