/** The receding-horizon (MPC) controller: prediction matrices through the
    lifted system, a quadratic program over the N inputs with the predicted
    states tied to them by equality constraints and every input bounded by
    10 in magnitude, and the first input of the optimum applied (0 when the
    solver reports any other status; an error when the solver raises). The
    quadratic-program solver is a parameter. */
module MpcController {
  import opened Wrappers
  import opened Matrices
  import opened Blocks
  import opened StateSpace
  import opened Oracles
  import opened Prediction
  import opened LiftedPrediction
  import Plants

  const Horizon: nat := 100

  /** umax: every input bounded by 10 in magnitude. */
  const InputLimit: real := 10.0

  /** xmax: built by the constructor and never used by any constraint. */
  const StateLimit: real := 1.0

  /** Stage weight: diag(100, 10, 1, 1) for the pendulum, I2 for the robot. */
  function StateWeight(k: Plants.Kind): (Q: Matrix)
    ensures Symmetric(Q) && |Q| == Plants.Dim(k)
  {
    if k == Plants.PendulumKind then
      [[100.0, 0.0, 0.0, 0.0], [0.0, 10.0, 0.0, 0.0], [0.0, 0.0, 1.0, 0.0], [0.0, 0.0, 0.0, 1.0]]
    else
      [[1.0, 0.0], [0.0, 1.0]]
  }

  /** Terminal weight: diag(1000, 1, 1, 1) for the pendulum, I2 for the robot. */
  function TerminalWeight(k: Plants.Kind): (P: Matrix)
    ensures Symmetric(P) && |P| == Plants.Dim(k)
  {
    if k == Plants.PendulumKind then
      [[1000.0, 0.0, 0.0, 0.0], [0.0, 1.0, 0.0, 0.0], [0.0, 0.0, 1.0, 0.0], [0.0, 0.0, 0.0, 1.0]]
    else
      [[1.0, 0.0], [0.0, 1.0]]
  }

  const InputWeight: Matrix := [[1.0]]

  // ----- the quadratic program -----

  /** The statuses `prob.solve()` can leave behind when it returns. */
  datatype Status =
    | Optimal | OptimalInaccurate
    | Infeasible | InfeasibleInaccurate
    | Unbounded | UnboundedInaccurate

  /** minimise 1/2 x^T Qb x + 1/2 u^T Rb u subject to x == Cbar u + Ahat x0
      and G u <= h. */
  datatype Qp = Qp(Qb: Matrix, Rb: Matrix, Cbar: Matrix, Ahat: Matrix, x0: Vector, G: Matrix, h: Vector)

  datatype Outcome = Outcome(status: Status, u: Vector, x: Vector)

  predicate WellFormed(p: Qp) {
    var m, N := |p.Cbar|, Width(p.Cbar);
    && IsMatrix(p.Cbar, m, N) && IsMatrix(p.Ahat, m, |p.x0|)
    && IsMatrix(p.Qb, m, m) && IsMatrix(p.Rb, N, N) && IsMatrix(p.G, |p.h|, N)
  }

  /** u and x meet every constraint. */
  predicate Feasible(p: Qp, u: Vector, x: Vector)
    requires WellFormed(p)
  {
    && |u| == Width(p.Cbar) && |x| == |p.Cbar|
    && x == VAdd(MatVec(p.Cbar, u), MatVec(p.Ahat, p.x0))
    && forall r :: 0 <= r < |p.h| ==> Dot(p.G[r], u) <= p.h[r]
  }

  function Cost(p: Qp, u: Vector, x: Vector): real
    requires WellFormed(p) && |u| == Width(p.Cbar) && |x| == |p.Cbar|
  {
    0.5 * Dot(x, MatVec(p.Qb, x)) + 0.5 * Dot(u, MatVec(p.Rb, u))
  }

  /** `prob.solve()`: `None` when it raises a solver error; when it returns
      and reports an optimum, the point is feasible and no feasible point
      costs less. */
  ghost predicate SolverLaw(f: Qp -> Option<Outcome>) {
    forall p :: WellFormed(p) && f(p).Some? && f(p).value.status == Optimal ==>
      && Feasible(p, f(p).value.u, f(p).value.x)
      && forall u, x :: Feasible(p, u, x) ==> Cost(p, f(p).value.u, f(p).value.x) <= Cost(p, u, x)
  }

  type QpSolver = f: Qp -> Option<Outcome> | SolverLaw(f)
    witness p => None

  /** vstack(eye(N), -eye(N)). */
  function BoundRows(N: nat): (G: Matrix)
    ensures IsMatrix(G, 2 * N, N)
  {
    Identity(N) + Scale(-1.0, Identity(N))
  }

  /** vstack(umax, umax). */
  function BoundLimits(N: nat): (h: Vector)
    ensures |h| == 2 * N
  {
    seq(2 * N, _ => InputLimit)
  }

  /** The stacked bound constraint says exactly that every input lies in
      [-10, 10]. */
  lemma BoundEncoding(N: nat, u: Vector)
    requires |u| == N
    ensures (forall r :: 0 <= r < 2 * N ==> Dot(BoundRows(N)[r], u) <= BoundLimits(N)[r])
        <==> (forall k :: 0 <= k < N ==> -InputLimit <= u[k] <= InputLimit)
  {
    var G, h := BoundRows(N), BoundLimits(N);
    forall k | 0 <= k < N
      ensures Dot(G[k], u) == u[k] && Dot(G[N + k], u) == -u[k]
    {
      DotUnit(N, k, u);
      DotScaleLeft(-1.0, Identity(N)[k], u);
    }
    if forall r :: 0 <= r < 2 * N ==> Dot(G[r], u) <= h[r] {
      forall k | 0 <= k < N
        ensures -InputLimit <= u[k] <= InputLimit
      {
        assert Dot(G[k], u) <= h[k];
        assert Dot(G[N + k], u) <= h[N + k];
      }
    }
    if forall k :: 0 <= k < N ==> -InputLimit <= u[k] <= InputLimit {
      forall r | 0 <= r < 2 * N
        ensures Dot(G[r], u) <= h[r]
      {
        if r >= N {
          assert Dot(G[N + (r - N)], u) == -u[r - N];
        }
      }
    }
  }

  // ----- the controller -----

  datatype Mpc = Mpc(kind: Plants.Kind, xd: real, horizon: nat,
                     Ahat: Matrix, Cbar: Matrix, Qb: Matrix, Rb: Matrix)

  /** The stored shapes for an n-state plant and horizon N. */
  predicate Valid(c: Mpc) {
    var n, N := Plants.Dim(c.kind), c.horizon;
    && N > 0
    && IsMatrix(c.Ahat, N * n, n) && IsMatrix(c.Cbar, N * n, N)
    && IsMatrix(c.Qb, N * n, N * n) && IsMatrix(c.Rb, N, N)
  }

  lemma WeightShapes(k: Plants.Kind, N: nat)
    requires N > 0
    ensures IsMatrix(Qbar(StateWeight(k), TerminalWeight(k), N), N * Plants.Dim(k), N * Plants.Dim(k))
    ensures IsMatrix(Rbar(InputWeight, N), N, N)
  {
    QbarEntry(StateWeight(k), TerminalWeight(k), N, 0, 0, 0, 0);
    KronShape(Identity(N), InputWeight);
  }

  /** The constructor: Ahat = (I - Abar)^-1 E and Cbar = (I - Abar)^-1 Bbar,
      which are the direct prediction matrices of the plant's discrete model.
      Inverting I - Abar is the only call that could fail, and NewSucceeds
      shows it does not. */
  function New(k: Plants.Kind, inv: Inverter): (r: Result<Mpc>)
    ensures r.Ok? <==> inv(Lifted(Plants.ADisc(k), Horizon)).Some?
    ensures r.Err? ==> r.error == SingularMatrix
    ensures r.Ok? ==> Valid(r.value) && r.value.kind == k && r.value.xd == 0.0
    ensures r.Ok? ==> r.value.horizon == Horizon
    ensures r.Ok? ==> r.value.Ahat == AhatDirect(Plants.ADisc(k), Horizon)
    ensures r.Ok? ==> r.value.Cbar == CbarDirect(Plants.ADisc(k), Plants.BDisc(k), Horizon)
    ensures r.Ok? ==> r.value.Qb == Qbar(StateWeight(k), TerminalWeight(k), Horizon)
    ensures r.Ok? ==> r.value.Rb == Rbar(InputWeight, Horizon)
  {
    var A, B := Plants.ADisc(k), Plants.BDisc(k);
    match inv(Lifted(A, Horizon))
    case None => Err(SingularMatrix)
    case Some(Mi) => Ok(Assemble(k, A, B, Mi))
  }

  /** I - Abar has an inverse for either plant, so the constructor never
      fails. */
  lemma NewSucceeds(k: Plants.Kind, inv: Inverter)
    ensures New(k, inv).Ok?
  {
    var A := Plants.ADisc(k);
    LiftedInvertible(A, Horizon);
  }

  /** The controller New stores, given the inverse Mi of I - Abar. */
  function Assemble(k: Plants.Kind, A: Matrix, B: Matrix, Mi: Matrix): (c: Mpc)
    requires LinearPlant(A, B) && |A| == Plants.Dim(k)
    requires IsMatrix(Mi, Horizon * |A|, Horizon * |A|)
    requires Mul(Mi, Lifted(A, Horizon)) == Identity(Horizon * |A|)
    ensures Valid(c) && c.kind == k && c.xd == 0.0 && c.horizon == Horizon
    ensures c.Ahat == AhatDirect(A, Horizon) && c.Cbar == CbarDirect(A, B, Horizon)
    ensures c.Qb == Qbar(StateWeight(k), TerminalWeight(k), Horizon)
    ensures c.Rb == Rbar(InputWeight, Horizon)
  {
    var N := Horizon;
    AlternativeAgrees(A, B, N, Mi);
    AhatDirectShape(A, N);
    CbarDirectShape(A, B, N);
    WeightShapes(k, N);
    Mpc(k, 0.0, N, Mul(Mi, InitialMatrix(A, N)), Mul(Mi, InputMatrix(B, N)),
        Qbar(StateWeight(k), TerminalWeight(k), N), Rbar(InputWeight, N))
  }

  function SetDesiredPosition(c: Mpc, xd: real): (r: Mpc)
    ensures r.xd == xd && r.kind == c.kind && r.horizon == c.horizon
    ensures r.Ahat == c.Ahat && r.Cbar == c.Cbar && r.Qb == c.Qb && r.Rb == c.Rb
  {
    c.(xd := xd)
  }

  /** The problem posed for the state x: the stored weights price the
      predicted states and the inputs, and a plan is feasible exactly when
      its states are the prediction from x and every input is within the
      limit. */
  function Problem(c: Mpc, x: Vector): (p: Qp)
    requires Valid(c) && |x| == Plants.Dim(c.kind)
    ensures WellFormed(p) && Width(p.Cbar) == c.horizon
    ensures forall u: Vector, y: Vector :: Feasible(p, u, y) <==>
      && |u| == c.horizon
      && y == VAdd(MatVec(c.Cbar, u), MatVec(c.Ahat, x))
      && forall k :: 0 <= k < |u| ==> -InputLimit <= u[k] <= InputLimit
    ensures p.Qb == c.Qb && p.Rb == c.Rb && p.x0 == x
  {
    ProblemFeasible(c, x);
    Qp(c.Qb, c.Rb, c.Cbar, c.Ahat, x, BoundRows(c.horizon), BoundLimits(c.horizon))
  }

  lemma ProblemFeasible(c: Mpc, x: Vector)
    requires Valid(c) && |x| == Plants.Dim(c.kind)
    ensures var p := Qp(c.Qb, c.Rb, c.Cbar, c.Ahat, x, BoundRows(c.horizon), BoundLimits(c.horizon));
      && WellFormed(p)
      && forall u: Vector, y: Vector :: Feasible(p, u, y) <==>
        && |u| == c.horizon
        && y == VAdd(MatVec(c.Cbar, u), MatVec(c.Ahat, x))
        && forall k :: 0 <= k < |u| ==> -InputLimit <= u[k] <= InputLimit
  {
    var p := Qp(c.Qb, c.Rb, c.Cbar, c.Ahat, x, BoundRows(c.horizon), BoundLimits(c.horizon));
    forall u: Vector, y: Vector | |u| == c.horizon
      ensures Feasible(p, u, y) <==>
        && y == VAdd(MatVec(c.Cbar, u), MatVec(c.Ahat, x))
        && forall k :: 0 <= k < |u| ==> -InputLimit <= u[k] <= InputLimit
    {
      BoundEncoding(c.horizon, u);
    }
  }

  /** The first input of the optimum, or 0 when the solver returns any
      other status. A state of the wrong length does not fit Ahat x0, and a
      solver that raises makes the call raise. */
  function Control(c: Mpc, x: Vector, solve: QpSolver): (r: Result<real>)
    requires Valid(c)
    ensures |x| != Plants.Dim(c.kind) ==> r == Err(DimensionError)
    ensures |x| == Plants.Dim(c.kind) ==> (r.Err? <==> solve(Problem(c, x)).None?)
    ensures |x| == Plants.Dim(c.kind) && r.Err? ==> r.error == SolverFailed
    ensures r.Ok? ==>
      var o := solve(Problem(c, x)).value;
      && (o.status == Optimal ==> Feasible(Problem(c, x), o.u, o.x) && r.value == o.u[0])
      && (o.status != Optimal ==> r.value == 0.0)
  {
    if |x| != Plants.Dim(c.kind) then Err(DimensionError)
    else
      match solve(Problem(c, x))
      case None => Err(SolverFailed)
      case Some(o) => if o.status == Optimal then Ok(o.u[0]) else Ok(0.0)
  }

  /** Whatever status the solver returns, the applied input lies within the
      bound. */
  lemma ControlWithinLimits(c: Mpc, x: Vector, solve: QpSolver)
    requires Valid(c)
    ensures Control(c, x, solve).Ok? ==> -InputLimit <= Control(c, x, solve).value <= InputLimit
  {
    if Control(c, x, solve).Ok? {
      var o := solve(Problem(c, x)).value;
      if o.status == Optimal {
        BoundEncoding(c.horizon, o.u);
      }
    }
  }

  /** The applied input is the first entry of a cheapest feasible plan. */
  lemma ControlIsCheapestPlan(c: Mpc, x: Vector, solve: QpSolver, u: Vector, xs: Vector)
    requires Valid(c) && |x| == Plants.Dim(c.kind)
    requires solve(Problem(c, x)).Some? && solve(Problem(c, x)).value.status == Optimal
    requires Feasible(Problem(c, x), u, xs)
    ensures Control(c, x, solve).value == solve(Problem(c, x)).value.u[0]
    ensures Cost(Problem(c, x), solve(Problem(c, x)).value.u, solve(Problem(c, x)).value.x)
         <= Cost(Problem(c, x), u, xs)
  {
  }

  /** For a controller holding the prediction matrices New builds, the
      predicted states of the optimal plan are exactly the states the
      plant's discrete model reaches under that plan. */
  lemma PlanFollowsPlant(c: Mpc, x: Vector, solve: QpSolver)
    requires Valid(c) && |x| == Plants.Dim(c.kind)
    requires c.Ahat == AhatDirect(Plants.ADisc(c.kind), c.horizon)
    requires c.Cbar == CbarDirect(Plants.ADisc(c.kind), Plants.BDisc(c.kind), c.horizon)
    requires solve(Problem(c, x)).Some? && solve(Problem(c, x)).value.status == Optimal
    ensures var A, B, o := Plants.ADisc(c.kind), Plants.BDisc(c.kind), solve(Problem(c, x)).value;
      LinearPlant(A, B) && o.x == Concat(Trajectory(A, B, x, o.u))
  {
    var A, B := Plants.ADisc(c.kind), Plants.BDisc(c.kind);
    var p := Problem(c, x);
    var o := solve(p).value;
    assert Feasible(p, o.u, o.x);
    PredictionIsTrajectory(A, B, x, o.u);
    var a, b := MatVec(c.Cbar, o.u), MatVec(c.Ahat, x);
    assert o.x == VAdd(a, b);
    assert VAdd(a, b) == VAdd(b, a);
  }

  /** The setpoint is stored but never read: the plan always regulates the
      state to the origin. */
  lemma SetpointIgnored(c: Mpc, xd: real, x: Vector, solve: QpSolver)
    requires Valid(c)
    ensures Control(SetDesiredPosition(c, xd), x, solve) == Control(c, x, solve)
  {
  }
}
