/** The two-wheeled balancing robot: state [theta, thetadot], its linearised
    continuous and Euler-discretised matrices, the nonlinear dynamics and the
    two ways of advancing a time step. */
module BalancingRobot {
  import opened Wrappers
  import opened Matrices
  import opened StateSpace
  import opened Trig

  const Name: string := "Robot"
  const MassBob: real := 0.5
  const Length: real := 0.5
  const Gravity: real := 9.81
  const DampTheta: real := 0.5
  const ControlFreq: real := 100.0
  const Dt: real := 1.0 / ControlFreq

  const ACont: Matrix := [[0.0, 1.0], [Gravity / Length, 0.0]]
  const BCont: Matrix := [[0.0], [-1.0 / Length]]

  function ADisc(): Matrix {
    EulerA(ACont, Dt)
  }

  function BDisc(): Matrix {
    EulerB(BCont, Dt)
  }

  /** The measurement row [1, 0] (a flat array, used as a 1 x 2 row by the
      matrix products it enters). */
  const Measure: Matrix := [[1.0, 0.0]]

  /** The discretised pair advances the state by one explicit Euler step of
      the continuous model, and has these entries. */
  lemma Discretisation(x: Vector, u: real)
    requires |x| == 2
    ensures LinearPlant(ADisc(), BDisc())
    ensures LinearStep(ADisc(), BDisc(), x, u)
         == VAdd(x, VScale(Dt, LinearStep(ACont, BCont, x, u)))
    ensures ADisc() == [[1.0, 0.01], [0.1962, 1.0]]
    ensures BDisc() == [[0.0], [-0.02]]
  {
    EulerStep(ACont, BCont, Dt, x, u);
    var values := [[1.0, 0.01], [0.1962, 1.0]];
    forall i | 0 <= i < 2
      ensures ADisc()[i] == values[i]
    {
      forall j | 0 <= j < 2
        ensures ADisc()[i][j] == values[i][j]
      {
      }
    }
    forall i | 0 <= i < 2
      ensures BDisc()[i] == [[0.0], [-0.02]][i]
    {
    }
  }

  datatype Robot = Robot(state: Vector, timeElapsed: real)

  predicate Valid(r: Robot) {
    |r.state| == 2
  }

  /** A fresh robot upright and at rest. */
  function New(): (r: Robot)
    ensures Valid(r) && r.state == ZeroVec(2) && r.timeElapsed == 0.0
  {
    Robot(ZeroVec(2), 0.0)
  }

  /** Accepts only a 2 x 1 column and stores exactly it. */
  function SetState(b: Robot, s: Matrix): (r: Result<Robot>)
    ensures r.Ok? <==> IsMatrix(s, 2, 1)
    ensures r.Err? ==> r.error == DimensionError
    ensures r.Ok? ==> Valid(r.value) && ColumnMatrix(r.value.state) == s
    ensures r.Ok? ==> r.value.timeElapsed == b.timeElapsed
  {
    ColumnMatrixRoundTrip(s, []);
    if IsMatrix(s, 2, 1) then Ok(b.(state := Col(s, 0))) else Err(DimensionError)
  }

  /** The nonlinear state derivative at x under input u; the damping term
      reads the stored rate of the robot, not x. */
  function Dynamics(b: Robot, x: Vector, u: real, t: Trig): (ds: Vector)
    requires Valid(b) && |x| == 2
    ensures |ds| == 2 && ds[0] == x[1]
    ensures ds[1] + DampTheta * b.state[1] + (u / Length) * t.cos(x[0])
         == (Gravity / Length) * t.sin(x[0])
  {
    [x[1], (Gravity / Length) * t.sin(x[0]) - (u / Length) * t.cos(x[0]) - DampTheta * b.state[1]]
  }

  /** step_disc: the linear discrete model, and time advances by dt. */
  function StepDisc(b: Robot, u: real): (r: Robot)
    requires Valid(b)
    ensures Valid(r)
    ensures r.state == VAdd(b.state, VScale(Dt, LinearStep(ACont, BCont, b.state, u)))
    ensures r.timeElapsed == b.timeElapsed + Dt
  {
    Discretisation(b.state, u);
    b.(state := LinearStep(ADisc(), BDisc(), b.state, u), timeElapsed := b.timeElapsed + Dt)
  }

  /** step_cont: one semi-implicit Euler step of the nonlinear dynamics. */
  function StepCont(b: Robot, u: real, t: Trig): (r: Robot)
    requires Valid(b)
    ensures Valid(r) && r.timeElapsed == b.timeElapsed + Dt
  {
    var ds := Dynamics(b, b.state, u, t);
    var w := b.state[1] + ds[1] * Dt;
    b.(state := [b.state[0] + w * Dt, w], timeElapsed := b.timeElapsed + Dt)
  }

  /** The rate moves first; the angle then moves with the NEW rate, which
      differs from explicit Euler by dt^2 times the angular acceleration. */
  lemma SemiImplicitEuler(b: Robot, u: real, t: Trig)
    requires Valid(b)
    ensures var ds, r := Dynamics(b, b.state, u, t), StepCont(b, u, t);
      && r.state[1] - b.state[1] == Dt * ds[1]
      && r.state[0] == b.state[0] + Dt * r.state[1]
      && r.state[0] - (b.state[0] + Dt * ds[0]) == Dt * Dt * ds[1]
  {
  }

  /** Upright and at rest with no input is an equilibrium: only time moves. */
  lemma RestIsEquilibrium(b: Robot, t: Trig)
    requires Valid(b) && b.state == ZeroVec(2)
    ensures StepCont(b, 0.0, t).state == ZeroVec(2)
    ensures StepDisc(b, 0.0).state == ZeroVec(2)
  {
    var r := StepCont(b, 0.0, t);
    assert t.sin(0.0) == 0.0;
    assert r.state[1] == 0.0 && r.state[0] == 0.0;
    assert r.state == [0.0, 0.0];
    forall i | 0 <= i < 2
      ensures MatVec(ACont, b.state)[i] == 0.0
    {
      DotZeroRight(ACont[i], b.state);
    }
    var s := StepDisc(b, 0.0);
    assert s.state == [0.0, 0.0];
  }
}
