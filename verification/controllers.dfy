/** The controller objects a simulator can be handed, and their `control`
    methods as the simulator calls them: a function from the measured state
    to the command. */
module Controllers {
  import opened Wrappers
  import opened Matrices
  import opened Oracles
  import opened Plants
  import Pid = PidController
  import Lqr = LqrController
  import Pole = PolePlacementController
  import Fh = FiniteHorizonController
  import Mpc = MpcController
  import Simulator

  datatype Controller =
    | PidC(pid: Pid.Pid)
    | LqrC(lqr: Lqr.Lqr)
    | PoleC(pole: Pole.PolePlacement)
    | FhC(fh: Fh.FiniteHorizon)
    | MpcC(mpc: Mpc.Mpc)

  /** The numerical library calls a `control` method makes. */
  datatype Env = Env(inv: Inverter, solve: Mpc.QpSolver)

  /** The plant kind the controller was built for: the finite-horizon
      controller only exists for the four-state pendulum. */
  function Target(c: Controller): Kind {
    match c
    case PidC(p) => p.kind
    case LqrC(l) => l.kind
    case PoleC(p) => p.kind
    case FhC(_) => PendulumKind
    case MpcC(m) => m.kind
  }

  predicate Valid(c: Controller) {
    match c
    case PidC(_) => true
    case LqrC(l) => Lqr.Valid(l)
    case PoleC(p) => Pole.Valid(p)
    case FhC(f) => Fh.Valid(f)
    case MpcC(m) => Mpc.Valid(m)
  }

  /** Whether the library call `control` makes for the state x returns:
      the inverse of H for the finite-horizon controller, the solve of the
      quadratic program for the model-predictive one. The other laws make
      no such call. */
  predicate Answers(c: Controller, x: Vector, env: Env)
    requires Valid(c) && |x| == Dim(Target(c))
  {
    match c
    case FhC(f) => env.inv(f.H).Some?
    case MpcC(m) => env.solve(Mpc.Problem(m, x)).Some?
    case _ => true
  }

  /** controller.control(x). A state whose length does not match the plant
      the controller was built for is an error; otherwise the command fails
      exactly when the library call behind it raises, and the
      model-predictive command always lies within the input bound. */
  function Command(c: Controller, x: Vector, env: Env): (r: Result<real>)
    requires Valid(c)
    ensures |x| != Dim(Target(c)) ==> r == Err(DimensionError)
    ensures |x| == Dim(Target(c)) ==> (r.Ok? <==> Answers(c, x, env))
    ensures |x| == Dim(Target(c)) && r.Err? ==>
      r.error == if c.FhC? then SingularMatrix else SolverFailed
    ensures c.MpcC? && r.Ok? ==> -Mpc.InputLimit <= r.value <= Mpc.InputLimit
  {
    if |x| != Dim(Target(c)) then Err(DimensionError)
    else
      match c
      case PidC(p) => Ok(Pid.Control(p, x))
      case LqrC(l) => Ok(Lqr.Control(l, x))
      case PoleC(p) => Ok(Pole.Control(p, x))
      case FhC(f) => Fh.Control(f, x, env.inv)
      case MpcC(m) =>
        Mpc.ControlWithinLimits(m, x, env.solve);
        Mpc.Control(m, x, env.solve)
  }

  /** The bound method handed to the simulator. */
  function Law(c: Controller, env: Env): (f: Simulator.Law)
    requires Valid(c)
    ensures forall x :: f(x) == Command(c, x, env)
  {
    x => Command(c, x, env)
  }

  /** A simulation of a plant with the controller built for it records
      every frame when there are no frames or the controller answers every
      state; it records nothing when the controller cannot answer the state
      left by the warm-up step, since that first frame stops the animation.
      For every controller but the model-predictive one, whose solver may
      raise at some states and not others, that decides it: only a
      finite-horizon controller whose H has no inverse stops early. */
  lemma SimulationCompletes(pl: Plant, c: Controller, frames: nat, env: Env, t: Trig.Trig)
    requires Plants.Valid(pl) && Valid(c) && Target(c) == KindOf(pl)
    ensures |State(StepCont(pl, 0.0, t))| == Dim(Target(c))
    ensures var r := Simulator.Simulate(Simulator.New(pl, Some(Law(c, env)), frames, t), t);
      (frames == 0 || forall x: Vector | |x| == Dim(Target(c)) :: Answers(c, x, env)) ==>
        |r.0| == frames && |r.1| == frames
    ensures var r := Simulator.Simulate(Simulator.New(pl, Some(Law(c, env)), frames, t), t);
      frames > 0 && !Answers(c, State(StepCont(pl, 0.0, t)), env) ==> r == ([], [])
    ensures var r := Simulator.Simulate(Simulator.New(pl, Some(Law(c, env)), frames, t), t);
      !c.MpcC? ==> (|r.0| == frames <==> frames == 0 || !c.FhC? || env.inv(c.fh.H).Some?)
  {
    var f := Law(c, env);
    var s := Simulator.New(pl, Some(f), frames, t);
    var n := Dim(Target(c));
    var x0 := State(s.plant);
    ValidState(s.plant);
    var all := forall x: Vector | |x| == n :: Answers(c, x, env);
    if frames == 0 || all {
      if all {
        forall x: Vector | |x| == Dim(KindOf(pl))
          ensures f(x).Ok?
        {
          assert Answers(c, x, env);
        }
      }
      Simulator.SimulateRecords(pl, Some(f), frames, t);
    }
    if frames > 0 && !Answers(c, x0, env) {
      Simulator.FirstFrameStops(s, t);
    }
    if !c.MpcC? && (!c.FhC? || env.inv(c.fh.H).Some?) {
      forall x: Vector | |x| == n
        ensures Answers(c, x, env)
      {
      }
    }
  }
}
