/** The inverted pendulum on a cart: state [x, xdot, theta, thetadot], its
    linearised continuous and Euler-discretised matrices (with and without
    the stepper motor), the nonlinear dynamics, the two ways of advancing a
    time step, and the reinforcement-learning step with its episode counter. */
module InvertedPendulum {
  import opened Wrappers
  import opened Matrices
  import opened StateSpace
  import opened Trig

  // ----- parameters -----

  const MassBob: real := 0.5
  const MassCart: real := 1.0
  const Length: real := 0.5
  const Gravity: real := 9.81
  const DampTheta: real := 0.5
  const DampX: real := 1.0
  const ControlFreq: real := 100.0
  /** The sample time 1 / control_freq. */
  const Dt: real := 1.0 / ControlFreq

  const XThreshold: real := 2.4

  /** The angle at which an episode fails: 12 degrees in radians. */
  function ThetaThreshold(t: Trig): (r: real)
    ensures r > 0.0
  {
    12.0 * 2.0 * t.pi / 360.0
  }

  // ----- linear models -----

  const ACont: Matrix := [
    [0.0, 1.0, 0.0, 0.0],
    [0.0, -DampTheta, -Gravity * MassBob / MassCart, 0.0],
    [0.0, 0.0, 0.0, 1.0],
    [0.0, DampTheta / Length, (MassBob + MassCart) * Gravity / (MassCart * Length), -DampX]]

  const BCont: Matrix := [[0.0], [1.0 / MassCart], [0.0], [-1.0 / (MassCart * Length)]]

  const AStepCont: Matrix := [
    [0.0, 1.0, 0.0, 0.0],
    [0.0, 0.0, 0.0, 0.0],
    [0.0, 0.0, 0.0, 1.0],
    [0.0, 0.0, Gravity / Length, 0.0]]

  const BStepCont: Matrix := [[0.0], [1.0], [0.0], [-1.0 / Length]]

  function ADisc(): Matrix {
    EulerA(ACont, Dt)
  }

  function BDisc(): Matrix {
    EulerB(BCont, Dt)
  }

  function AStepDisc(): Matrix {
    EulerA(AStepCont, Dt)
  }

  function BStepDisc(): Matrix {
    EulerB(BStepCont, Dt)
  }

  /** The measurement matrix: cart position and angle. */
  const Measure: Matrix := [[1.0, 0.0, 0.0, 0.0], [0.0, 0.0, 1.0, 0.0]]

  /** Both discretised pairs advance the state by one explicit Euler step of
      their continuous model, and the plain pair has these entries. */
  lemma Discretisation(x: Vector, u: real)
    requires |x| == 4
    ensures LinearPlant(ADisc(), BDisc()) && LinearPlant(AStepDisc(), BStepDisc())
    ensures LinearStep(ADisc(), BDisc(), x, u)
         == VAdd(x, VScale(Dt, LinearStep(ACont, BCont, x, u)))
    ensures LinearStep(AStepDisc(), BStepDisc(), x, u)
         == VAdd(x, VScale(Dt, LinearStep(AStepCont, BStepCont, x, u)))
    ensures ADisc() == [
      [1.0, 0.01, 0.0, 0.0],
      [0.0, 0.995, -0.04905, 0.0],
      [0.0, 0.0, 1.0, 0.01],
      [0.0, 0.01, 0.2943, 0.99]]
    ensures BDisc() == [[0.0], [0.01], [0.0], [-0.02]]
  {
    EulerStep(ACont, BCont, Dt, x, u);
    EulerStep(AStepCont, BStepCont, Dt, x, u);
    var values := [
      [1.0, 0.01, 0.0, 0.0],
      [0.0, 0.995, -0.04905, 0.0],
      [0.0, 0.0, 1.0, 0.01],
      [0.0, 0.01, 0.2943, 0.99]];
    forall i | 0 <= i < 4
      ensures ADisc()[i] == values[i]
    {
      forall j | 0 <= j < 4
        ensures ADisc()[i][j] == values[i][j]
      {
      }
    }
    forall i | 0 <= i < 4
      ensures BDisc()[i] == [[0.0], [0.01], [0.0], [-0.02]][i]
    {
    }
  }

  // ----- the plant -----

  /** steps_beyond_done is None or a count. */
  datatype Pendulum = Pendulum(state: Vector, timeElapsed: real, stepsBeyondDone: Option<int>)

  predicate Valid(p: Pendulum) {
    |p.state| == 4
  }

  /** A fresh plant at rest, as the constructor leaves it. */
  function New(): (p: Pendulum)
    ensures Valid(p) && p.state == ZeroVec(4)
    ensures p.timeElapsed == 0.0 && p.stepsBeyondDone == Some(0)
  {
    Pendulum(ZeroVec(4), 0.0, Some(0))
  }

  /** Accepts only a 4 x 1 column and stores exactly it. */
  function SetState(p: Pendulum, s: Matrix): (r: Result<Pendulum>)
    ensures r.Ok? <==> IsMatrix(s, 4, 1)
    ensures r.Err? ==> r.error == DimensionError
    ensures r.Ok? ==> Valid(r.value) && ColumnMatrix(r.value.state) == s
    ensures r.Ok? ==> r.value.timeElapsed == p.timeElapsed && r.value.stepsBeyondDone == p.stepsBeyondDone
  {
    ColumnMatrixRoundTrip(s, []);
    if IsMatrix(s, 4, 1) then Ok(p.(state := Col(s, 0))) else Err(DimensionError)
  }

  /** M + m - m cos^2(theta), never below the cart mass. */
  function Denominator(t: Trig, theta: real): (d: real)
    ensures d >= MassCart
  {
    var c := t.cos(theta);
    CosSquaredAtMostOne(t, theta);
    MassCart + MassBob - MassBob * (c * c)
  }

  /** The nonlinear state derivative at x under force u; both damping terms
      read the stored state of the plant, not x. */
  function Dynamics(p: Pendulum, x: Vector, u: real, t: Trig): (ds: Vector)
    requires Valid(p) && |x| == 4
    ensures |ds| == 4
    ensures ds[0] == x[1] && ds[2] == x[3]
    ensures (ds[1] + DampX * p.state[1]) * Denominator(t, x[2])
         == u + MassBob * Length * (x[3] * x[3]) * t.sin(x[2])
              + MassBob * Gravity * t.cos(x[2]) * t.sin(x[2])
    ensures ds[3] == (-t.cos(x[2]) / Length) * ds[1] + (Gravity / Length) * t.sin(x[2])
                     - DampTheta * p.state[3]
  {
    var s, c := t.sin(x[2]), t.cos(x[2]);
    var num := u + MassBob * Length * (x[3] * x[3]) * s + MassBob * Gravity * c * s;
    var acc := num / Denominator(t, x[2]) - DampX * p.state[1];
    [x[1], acc, x[3], (-c / Length) * acc + (Gravity / Length) * s - DampTheta * p.state[3]]
  }

  /** The damping terms depend on the stored state only through its rates. */
  lemma DynamicsReadsStoredRates(p: Pendulum, q: Pendulum, x: Vector, u: real, t: Trig)
    requires Valid(p) && Valid(q) && |x| == 4
    ensures Dynamics(p, x, u, t)[1] - Dynamics(q, x, u, t)[1] == DampX * (q.state[1] - p.state[1])
    ensures p.state[1] == q.state[1] && p.state[3] == q.state[3]
        ==> Dynamics(p, x, u, t) == Dynamics(q, x, u, t)
  {
    var d := Denominator(t, x[2]);
    var num := u + MassBob * Length * (x[3] * x[3]) * t.sin(x[2])
             + MassBob * Gravity * t.cos(x[2]) * t.sin(x[2]);
    assert Dynamics(p, x, u, t)[1] == num / d - DampX * p.state[1];
    assert Dynamics(q, x, u, t)[1] == num / d - DampX * q.state[1];
    if p.state[1] == q.state[1] && p.state[3] == q.state[3] {
      var a, b := Dynamics(p, x, u, t), Dynamics(q, x, u, t);
      assert a[1] == b[1];
      assert a[3] == b[3];
      assert a == [a[0], a[1], a[2], a[3]];
    }
  }

  /** step_disc: the linear discrete model, and time advances by dt. */
  function StepDisc(p: Pendulum, u: real): (r: Pendulum)
    requires Valid(p)
    ensures Valid(r)
    ensures r.state == VAdd(p.state, VScale(Dt, LinearStep(ACont, BCont, p.state, u)))
    ensures r.timeElapsed == p.timeElapsed + Dt && r.stepsBeyondDone == p.stepsBeyondDone
  {
    Discretisation(p.state, u);
    p.(state := LinearStep(ADisc(), BDisc(), p.state, u), timeElapsed := p.timeElapsed + Dt)
  }

  /** step_cont: one semi-implicit Euler step of the nonlinear dynamics. */
  function StepCont(p: Pendulum, u: real, t: Trig): (r: Pendulum)
    requires Valid(p)
    ensures Valid(r)
    ensures r.timeElapsed == p.timeElapsed + Dt && r.stepsBeyondDone == p.stepsBeyondDone
  {
    var ds := Dynamics(p, p.state, u, t);
    var v := p.state[1] + ds[1] * Dt;
    var w := p.state[3] + ds[3] * Dt;
    p.(state := [p.state[0] + v * Dt, v, p.state[2] + w * Dt, w], timeElapsed := p.timeElapsed + Dt)
  }

  /** The rates move by dt times their derivative first; the positions then
      move with the NEW rates, so they differ from an explicit Euler step
      (which would use the old rates) by dt^2 times the accelerations. */
  lemma SemiImplicitEuler(p: Pendulum, u: real, t: Trig)
    requires Valid(p)
    ensures var ds, r := Dynamics(p, p.state, u, t), StepCont(p, u, t);
      && r.state[1] - p.state[1] == Dt * ds[1]
      && r.state[3] - p.state[3] == Dt * ds[3]
      && r.state[0] == p.state[0] + Dt * r.state[1]
      && r.state[2] == p.state[2] + Dt * r.state[3]
      && r.state[0] - (p.state[0] + Dt * ds[0]) == Dt * Dt * ds[1]
      && r.state[2] - (p.state[2] + Dt * ds[2]) == Dt * Dt * ds[3]
  {
  }

  // ----- reinforcement-learning step -----

  /** The failure region: cart beyond 2.4 m or pole beyond 12 degrees, with
      the boundary itself still inside. */
  predicate OutOfBounds(x: Vector, t: Trig)
    requires |x| == 4
  {
    Abs(x[0]) > XThreshold || Abs(x[2]) > ThetaThreshold(t)
  }

  function Abs(a: real): real {
    if a < 0.0 then -a else a
  }

  /** What step_rl hands back: the plant after the step (whose state is the
      observation), the reward, done, and whether the warning is printed. */
  datatype RlStep = RlStep(plant: Pendulum, reward: real, done: bool, warned: bool)

  function StepRl(p: Pendulum, u: real, t: Trig): (r: RlStep)
    requires Valid(p)
    ensures Valid(r.plant)
    ensures r.plant.state == StepCont(p, u, t).state
    ensures r.plant.timeElapsed == p.timeElapsed + Dt
    ensures r.done <==> OutOfBounds(r.plant.state, t)
    ensures !r.done ==> r.reward == 1.0 && r.plant.stepsBeyondDone == p.stepsBeyondDone && !r.warned
    ensures r.done && p.stepsBeyondDone.None? ==>
      r.reward == 1.0 && r.plant.stepsBeyondDone == Some(0) && !r.warned
    ensures r.done && p.stepsBeyondDone.Some? ==>
      && r.reward == 0.0
      && r.plant.stepsBeyondDone == Some(p.stepsBeyondDone.value + 1)
      && (r.warned <==> p.stepsBeyondDone.value == 0)
  {
    var q := StepCont(p, u, t);
    var x := q.state;
    var done := x[0] < -XThreshold || x[0] > XThreshold
             || x[2] < -ThetaThreshold(t) || x[2] > ThetaThreshold(t);
    if !done then RlStep(q, 1.0, false, false)
    else if q.stepsBeyondDone.None? then RlStep(q.(stepsBeyondDone := Some(0)), 1.0, true, false)
    else
      var k := q.stepsBeyondDone.value;
      RlStep(q.(stepsBeyondDone := Some(k + 1)), 0.0, true, k == 0)
  }

  /** The counter is a non-negative number from construction on. */
  predicate CounterStarted(p: Pendulum) {
    p.stepsBeyondDone.Some? && p.stepsBeyondDone.value >= 0
  }

  /** Every operation keeps the counter started, so the None branch of
      step_rl is never taken and every done step is rewarded 0.0. */
  lemma CounterStaysStarted(p: Pendulum, u: real, t: Trig, s: Matrix)
    requires Valid(p) && CounterStarted(p)
    ensures CounterStarted(New())
    ensures CounterStarted(StepCont(p, u, t)) && CounterStarted(StepDisc(p, u))
    ensures CounterStarted(StepRl(p, u, t).plant)
    ensures SetState(p, s).Ok? ==> CounterStarted(SetState(p, s).value)
    ensures StepRl(p, u, t).done ==> StepRl(p, u, t).reward == 0.0
  {
  }

  /** The reinforcement-learning steps for a sequence of forces. */
  function Episode(p: Pendulum, us: seq<real>, t: Trig): (steps: seq<RlStep>)
    requires Valid(p)
    ensures |steps| == |us|
    ensures forall i :: 0 <= i < |steps| ==> Valid(steps[i].plant)
    decreases |us|
  {
    if |us| == 0 then []
    else
      var first := StepRl(p, us[0], t);
      [first] + Episode(first.plant, us[1..], t)
  }

  function DoneCount(steps: seq<RlStep>): nat {
    if |steps| == 0 then 0 else (if steps[0].done then 1 else 0) + DoneCount(steps[1..])
  }

  /** Starting from a started counter c, step i of an episode leaves the
      counter at c plus the done steps so far, and is rewarded exactly when
      it is not done. */
  lemma {:induction false} EpisodeCounts(p: Pendulum, us: seq<real>, t: Trig, i: nat)
    requires Valid(p) && CounterStarted(p) && i < |us|
    ensures var steps := Episode(p, us, t);
      && steps[i].plant.stepsBeyondDone == Some(p.stepsBeyondDone.value + DoneCount(steps[..i + 1]))
      && steps[i].reward == (if steps[i].done then 0.0 else 1.0)
    decreases i
  {
    var steps := Episode(p, us, t);
    var first := StepRl(p, us[0], t);
    CounterStaysStarted(p, us[0], t, []);
    assert steps[0] == first;
    if i == 0 {
      assert steps[..1] == [first];
      assert DoneCount(steps[..1]) == (if first.done then 1 else 0) + DoneCount([]);
    } else {
      var rest := Episode(first.plant, us[1..], t);
      assert steps[1..] == rest;
      EpisodeCounts(first.plant, us[1..], t, i - 1);
      assert steps[i] == rest[i - 1];
      assert steps[..i + 1][1..] == rest[..i];
      assert DoneCount(steps[..i + 1]) == (if first.done then 1 else 0) + DoneCount(rest[..i]);
    }
  }

  // ----- the episode start as intended -----

  /** The reset the reward logic of step_rl is written for: the counter
      starts as None, so the first done step is still rewarded. */
  function NewEpisode(): (p: Pendulum)
    ensures Valid(p) && p.stepsBeyondDone.None?
  {
    Pendulum(ZeroVec(4), 0.0, None)
  }

  /** From the constructor as written, a first done step earns 0.0 and
      prints the warning meant for stepping after done. */
  lemma FirstDoneAsWritten(u: real, t: Trig)
    ensures StepRl(New(), u, t).done ==>
      StepRl(New(), u, t).reward == 0.0 && StepRl(New(), u, t).warned
  {
  }

  /** From the intended reset, the first done step earns 1.0 silently; a
      second done step earns 0.0 and warns once. */
  lemma FirstDoneCorrected(u: real, v: real, t: Trig)
    ensures var first := StepRl(NewEpisode(), u, t);
      && (first.done ==> first.reward == 1.0 && !first.warned && first.plant.stepsBeyondDone == Some(0))
      && (first.done && StepRl(first.plant, v, t).done ==>
            StepRl(first.plant, v, t).reward == 0.0 && StepRl(first.plant, v, t).warned)
  {
  }
}
