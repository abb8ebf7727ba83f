# Inverted pendulum and balancing robot: plants, controllers and simulation loop

This project is a Dafny model of the computational core of a small control
simulator. The simulator has two plants:

- a cart with an inverted pendulum, with state `[x, xdot, theta, thetadot]`;
- a two-wheeled balancing robot, with state `[theta, thetadot]`.

It has five controllers:

- a hand-tuned PD ("PID") controller;
- LQR;
- pole placement;
- an unconstrained finite-horizon quadratic controller;
- a receding-horizon (MPC) controller with input bounds.

A simulator drives a plant with one of the controllers frame by frame and
records the time axis, the commands and the states.

The model covers the following parts.

- **Plants** (`InvertedPendulum`, `BalancingRobot`, `Plants`, `StateSpace`):
  - the linearised continuous matrices and their forward-Euler
    discretisation;
  - the shape check of `set_state`;
  - the nonlinear dynamics, with their damping terms read from the stored
    state;
  - the linear `step_disc` and the semi-implicit Euler `step_cont`;
  - the reinforcement-learning step `step_rl`, with its done test, its
    reward and the `steps_beyond_done` counter.
- **Prediction matrices** (`Prediction`, `LiftedPrediction`, `Blocks`):
  - the stacked powers `Ahat = [A; A^2; ...; A^N]`;
  - the block lower-triangular `Cbar`, whose block (i, j) is `A^(i-j) B`;
  - the block-diagonal weights `Qbar` and `Rbar`;
  - `H = Cbar^T Qbar Cbar + Rbar` and `F^T = Ahat^T Qbar Cbar`.

  It proves that `Ahat x0 + Cbar u` is exactly the stacked trajectory of N
  discrete steps. It also proves that the MPC controller's route through
  `(I - Abar)^-1` gives the same two matrices, because `(I - Abar) Cbar = Bbar`
  and `(I - Abar) Ahat = E`. It also proves that `I - Abar` always has an
  inverse, `I + Abar + ... + Abar^(N-1)`, so that step never fails.
- **Controllers** (`PidController`, `LqrController`,
  `PolePlacementController`, `StateFeedback`, `FiniteHorizonController`,
  `MpcController`, `Controllers`):
  - the construction of each controller's gains and matrices;
  - `set_desired_position`;
  - `control`.

  The finite-horizon controller's construction loops are written as Dafny
  methods with loop invariants, following the Python loops step by step.
- **Simulator** (`Simulator`): the bookkeeping part of the constructor and
  of `animate`, and the return value of `simulate`.
  - The constructor sets `delta_t = dt` and `sim_time = frames * dt`, and
    takes a hidden warm-up step with `u = 0`.
  - Each frame takes the command from the state *before* the step, takes
    one nonlinear step, and appends to three lists.
  - A frame whose command raises stops the animation there. The error is
    raised inside the timer callback of the Tk event loop, which reports
    it and does not reschedule the timer. `simulate` itself does not fail:
    once the window is closed it returns the records of the frames before
    the failing one (`Simulator.FramesPlayed`, `Simulator.Simulate`).

  The records of a whole run are proved to be the closed loop started from
  the plant after the warm-up step.

## Modelling choices

- **Numbers.**
  - float64 is modelled as exact `real`, and a matrix as `seq<seq<real>>`.
  - A numpy column vector is a `seq<real>`, and a 1 x 1 result is a `real`.
  - `sin`, `cos` and `pi` are uninterpreted. The type `Trig.Trig` only
    assumes sin 0 = 0, cos 0 = 1, sin^2 + cos^2 = 1 and pi > 0.
- **External numerical routines are parameters.** Each one is a subset type
  stating what the model relies on (module `Oracles`, and
  `MpcController.QpSolver`). A call that raises is `None`.
  - Matrix inverse: a two-sided inverse. It raises only for a matrix that
    has no inverse.
  - Continuous Riccati solver: a symmetric n x n solution.
  - Pole placement: a 1 x n gain. It raises unless exactly n poles are asked
    for.
  - Quadratic-program solver: `None` when `prob.solve` raises. When it
    returns with status `OPTIMAL`, the point is feasible and no feasible
    point costs less.
- **Plant kind.** The PID, LQR and MPC controllers and the simulator
  branch on `model.name == 'Pendulum'` (PIDController.py:22,
  LQRController.py:16 and 52, MPCController.py:23, Simulator.py:67, 90 and
  108). The pole-placement and finite-horizon controllers never read the
  name. The model carries the plant kind explicitly (`Plants.Kind`); see
  Findings.
- **Controllers as the simulator sees them.** The simulator calls whatever
  object it was handed through its `control` method. So `Simulator` takes
  the controller as a function from the state to a `Result<real>`.
  `Controllers.Law` is that function for each of the five controllers.
- **Errors.** Exceptions are `Result` errors from `Wrappers.Error`:
  - `DimensionError` for a failed shape assertion or reshape;
  - `SingularMatrix` for an inverse that raises;
  - `SolverFailed` for a Riccati, placement or quadratic-program solver
    that raises;
  - `ZeroDcGain` for a zero DC gain;
  - `MissingAttribute` for the unset `name`.

### Behaviours of the code worth noting

- **Reward on the terminating step.** `step_rl` rewards the terminating step
  0.0, because `steps_beyond_done` starts at 0 rather than `None`
  (src/InvertedPendulum.py:53, 109-123; see Findings).
- **When the finite-horizon inverse is taken.** `H` is inverted inside
  `control` (src/controllers/FiniteHorizonController.py:73), not in the
  constructor. A failing inverse would therefore make every call fail, not
  the construction.
- **MPC solver statuses.** `control` returns 0.0 for every status other than
  `OPTIMAL`, including "optimal inaccurate"
  (src/controllers/MPCController.py:80-86). A solver error raised by
  `prob.solve` (line 77) is not caught, so `control` raises it.
- **The finite-horizon controller is for four states only.** Its
  constructor seeds the stacks with `np.eye(4)` and `np.zeros((4, N))` and
  uses 4 x 4 weights (src/controllers/FiniteHorizonController.py:15-20,
  27-34). For the two-state robot the first stacking step therefore raises,
  and `FiniteHorizonController.New` is a `DimensionError` exactly when the
  plant does not have four states. The repository's own robot script
  (scripts/robot_finite_horizon_control.py:16) builds this controller for
  the robot, so the code evidently means a horizon for n states. The source
  gives no robot weights, so no corrected constructor is modelled.
- **Shape check in `set_state`.** The shape is checked with `assert`
  (src/InvertedPendulum.py:57). The model reports the failure as
  `DimensionError`.

## Model

| member | source | states |
|---|---|---|
| InvertedPendulum.New | src/InvertedPendulum.py:8-53 | A fresh pendulum is at rest at the origin, its clock is 0.0 and its counter is 0. |
| InvertedPendulum.Discretisation | src/InvertedPendulum.py:33-42 | Plain and stepper pairs: A_disc x + B_disc u is exactly one explicit Euler step x + dt (A_cont x + B_cont u). The plain pair has the entries that dt = 0.01 gives. |
| InvertedPendulum.SetState | src/InvertedPendulum.py:56-58 | Accepted exactly when the argument is a 4 x 1 column; otherwise a DimensionError. The stored state, read back as a column, is exactly the argument. Clock and counter are untouched. |
| InvertedPendulum.Denominator | src/InvertedPendulum.py:64-65 | M + m - m cos^2(theta) is never below the cart mass, so the division in ds[1] is always defined. |
| InvertedPendulum.Dynamics | src/InvertedPendulum.py:61-68 | ds[0] and ds[2] copy the rates of the argument. ds[1], multiplied out by the denominator, is the cart equation with damping from the stored velocity. ds[3] reuses ds[1], with damping from the stored angular rate. |
| InvertedPendulum.DynamicsReadsStoredRates | src/InvertedPendulum.py:61-68 | Two plants whose stored rates differ give cart accelerations that differ by b_x times that difference. Equal stored rates give the same derivative. |
| InvertedPendulum.StepDisc | src/InvertedPendulum.py:71-75 | The new state is the linear Euler step of the continuous model, the clock advances by exactly dt, and the counter is unchanged. |
| InvertedPendulum.StepCont | src/InvertedPendulum.py:78-92 | One step keeps four states, advances the clock by exactly dt and leaves the counter alone. SemiImplicitEuler states the new state. |
| InvertedPendulum.SemiImplicitEuler | src/InvertedPendulum.py:78-92 | The rates move by dt times their derivatives. The positions then move with the new rates, which differs from explicit Euler by dt^2 times the accelerations. |
| InvertedPendulum.StepRl | src/InvertedPendulum.py:95-125 | done holds exactly when the post-step state is strictly outside 2.4 m or the angle threshold. Not done: reward 1.0, counter kept. Done from None: reward 1.0, counter 0. Done from k: reward 0.0, counter k + 1, warning exactly when k = 0. |
| InvertedPendulum.CounterStaysStarted | src/InvertedPendulum.py:109-123 | From construction on, every operation keeps the counter a number, so every done step is rewarded 0.0. |
| InvertedPendulum.EpisodeCounts | src/InvertedPendulum.py:109-123 | Over an episode of steps, step i leaves the counter at its start value plus the number of done steps so far, and is rewarded 1.0 exactly when it is not done. |
| InvertedPendulum.FirstDoneAsWritten | src/InvertedPendulum.py:53 | From the constructor as written, the first done step earns 0.0 and prints the warning meant for stepping after done. |
| InvertedPendulum.FirstDoneCorrected | src/InvertedPendulum.py:109-123 | From the intended reset, the first done step earns 1.0 silently and sets the counter to 0. A second done step earns 0.0 and warns. |
| BalancingRobot.New | src/BalancingRobot.py:7-35 | A fresh robot is upright and at rest, and its clock is 0.0. |
| BalancingRobot.Discretisation | src/BalancingRobot.py:28-29 | A_disc x + B_disc u is one explicit Euler step of the continuous model. The matrices have the entries that dt = 0.01 gives. |
| BalancingRobot.SetState | src/BalancingRobot.py:38-40 | Accepted exactly when the argument is a 2 x 1 column; otherwise a DimensionError. The stored state is exactly the argument, and the clock is untouched. |
| BalancingRobot.Dynamics | src/BalancingRobot.py:43-47 | ds[0] is the rate of the argument. ds[1] = (g/l) sin(theta) - (u/l) cos(theta) - b_theta times the stored rate. |
| BalancingRobot.StepDisc | src/BalancingRobot.py:50-54 | The new state is the linear Euler step, and the clock advances by exactly dt. |
| BalancingRobot.StepCont | src/BalancingRobot.py:57-69 | One step keeps two states and advances the clock by exactly dt. SemiImplicitEuler states the new state. |
| BalancingRobot.SemiImplicitEuler | src/BalancingRobot.py:57-69 | The rate moves first, and the angle then moves with the new rate. This differs from explicit Euler by dt^2 times the angular acceleration. |
| BalancingRobot.RestIsEquilibrium | src/BalancingRobot.py:43-69 | Upright and at rest with u = 0, both step_cont and step_disc leave the state at zero. |
| StateSpace.EulerStep | src/BalancingRobot.py:28-29 | For any n-state pair, (I + dt A) x + (dt B) u equals x + dt (A x + B u). |
| Plants.SampleTime | src/BalancingRobot.py:17-18 | Both plants run at 100 Hz: dt = 0.01. |
| Plants.SetState | src/InvertedPendulum.py:56-58 | Through the shared plant interface, set_state succeeds exactly for a column of the plant's own dimension, and keeps the plant kind. |
| Plants.StepDisc | src/InvertedPendulum.py:71-75 | Through the shared plant interface, step_disc is the Euler step of the kind's continuous model and keeps the kind. |
| Plants.IsPendulumAsWritten | src/controllers/PIDController.py:22 | The test model.name == 'Pendulum', as written, can never answer true. |
| Plants.PendulumBranchUnreachableAsWritten | src/controllers/LQRController.py:16 | As written, the test raises for the pendulum, which never sets name, and is false for the robot. So no pendulum branch is reachable. |
| Plants.NameIdentifiesKind | src/BalancingRobot.py:10 | With the name set as intended, the test is true exactly for the pendulum. |
| PidController.New | src/controllers/PIDController.py:3-15 | Bound to the plant's kind with setpoint 0, so its command at every state is the bare feedback -K x with the kind's gain row. |
| PidController.SetDesiredPosition | src/controllers/PIDController.py:17-18 | Only the setpoint changes, to the given value. |
| PidController.Control | src/controllers/PIDController.py:20-46 | The sum of the PD terms is the static state feedback u = -K x + xd Kr, with K = Gain and Kr = SetpointGain of the plant kind. |
| PidController.Gain | src/controllers/PIDController.py:20-46 | Pendulum: K = [-5, -4.8, -50, -15]. Robot: K = [50, -15], which opposes the angle but follows the rate, the reverse of the pendulum's angle signs. |
| PidController.Invariances | src/controllers/PIDController.py:24-44 | Zero state on setpoint 0 gives u = 0. Shifting the cart and the setpoint together leaves the pendulum's u unchanged. The robot ignores the setpoint. |
| PidController.SetpointShift | src/controllers/PIDController.py:17-34 | Moving the setpoint from xd to a moves u by (a - xd) Kr, whatever the state. |
| LqrController.Gain | src/controllers/LQRController.py:39-47 | The Riccati failure and a singular R are the only errors. On success K is 1 x n and R K = B^T X for the Riccati solution X. |
| LqrController.UnitWeightGain | src/controllers/LQRController.py:20-23 | With R = I1 the gain is B^T X itself. |
| LqrController.New | src/controllers/LQRController.py:7-34 | Construction succeeds exactly when the gain and the reference gain both exist. It stores that K, that Kr and the setpoint 0. |
| LqrController.SetDesiredPosition | src/controllers/LQRController.py:36-56 | Only the setpoint changes; K and Kr are kept. Afterwards the pendulum's command at every state moves by (new - old setpoint)·Kr, and the robot's command does not move. |
| LqrController.Control | src/controllers/LQRController.py:49-56 | The pendulum's command is the state-feedback law with the stored setpoint. The robot's command is the same law with the setpoint taken as 0. |
| LqrController.SetpointAndLinearity | src/controllers/LQRController.py:49-56 | Pendulum: moving the setpoint by d moves u by d Kr. Robot: u does not depend on the setpoint. u is additive in the state and zero at rest. |
| LqrController.TracksSetpoint | src/controllers/LQRController.py:28-34 | The instance of StateFeedback.ReferenceGainTracks at the constructor's K. With the constructor's Kr, the closed loop x' = Acl x + B Kr xd rests at a state whose first measured output is xd. |
| PolePlacementController.New | src/controllers/PolePlacementController.py:7-25 | Construction fails with SolverFailed when placement fails. It succeeds exactly when placement and the reference gain both exist, and stores the placed K, its Kr and the setpoint 0. |
| PolePlacementController.RobotPlacementFails | src/controllers/PolePlacementController.py:15-16 | Four poles are requested for every plant, so construction for the two-state robot always fails with SolverFailed. |
| PolePlacementController.SetDesiredPosition | src/controllers/PolePlacementController.py:27-35 | Only the setpoint changes; K and Kr are kept. Afterwards the command at every state moves by (new - old setpoint)·Kr, for either plant. |
| PolePlacementController.Control | src/controllers/PolePlacementController.py:30-35 | The command is the feedback -K x plus the setpoint term xd Kr. |
| PolePlacementController.SetpointAndLinearity | src/controllers/PolePlacementController.py:27-35 | u(xd) - u(0) = xd Kr for every state, and u on setpoint 0 is linear in the state. |
| PolePlacementController.TracksSetpoint | src/controllers/PolePlacementController.py:19-25 | The instance of StateFeedback.ReferenceGainTracks at the placed K. With the constructor's Kr, the closed-loop equilibrium's first measured output equals the setpoint. |
| StateFeedback.ReferenceGain | src/controllers/LQRController.py:28-34 | A singular A - B K is SingularMatrix and a zero DC gain is ZeroDcGain. Otherwise Kr Kdc[0] = -1 with Kdc = C (A - B K)^-1 B. |
| StateFeedback.LawLinear | src/controllers/PolePlacementController.py:30-35 | u = -K x + xd Kr: the setpoint adds exactly xd Kr, and the state part is additive, homogeneous and zero at zero. |
| StateFeedback.ReferenceGainTracks | src/controllers/PolePlacementController.py:19-25 | Kr = -1/Kdc[0] makes -Acl^-1 B Kr xd an equilibrium of the closed loop whose first output is xd. |
| StateFeedback.EquilibriumOutput | src/controllers/LQRController.py:28-34 | Given a right inverse of Acl and Kr Kdc[0] = -1, the steady state is an equilibrium and is measured as xd. |
| FiniteHorizonController.StackPowers | src/controllers/FiniteHorizonController.py:27-31 | The loop's result is 4N x 4 and its block row i is A^(i+1); it equals the reference Ahat. |
| FiniteHorizonController.FirstPower | src/controllers/FiniteHorizonController.py:38-40 | The first power A^0 B, stored as is, is the width-1 block row 0. |
| FiniteHorizonController.PrependPower | src/controllers/FiniteHorizonController.py:42 | Prepending A^(k+1) B with np.c_ turns block row k of width k+1 into block row k+1 of width k+2. |
| FiniteHorizonController.AppendZero | src/controllers/FiniteHorizonController.py:43-48 | Appending a zero column past the diagonal widens a block row by one. |
| FiniteHorizonController.CbarBlockRow | src/controllers/FiniteHorizonController.py:36-48 | The two inner loops build block row i of Cbar: A^(i-j) B in column j <= i, and zero after. |
| FiniteHorizonController.StackCbar | src/controllers/FiniteHorizonController.py:34-50 | The outer loop's result is 4N x N, its block row i is the row above, and it equals the reference Cbar. |
| FiniteHorizonController.CostHessian | src/controllers/FiniteHorizonController.py:61 | H is N x N and symmetric. |
| FiniteHorizonController.New | src/controllers/FiniteHorizonController.py:6-62 | Construction fails exactly for a plant that is not four-state. Otherwise it stores H and F^T of the reference prediction matrices and weights, and H is symmetric. |
| FiniteHorizonController.SetDesiredPosition | src/controllers/FiniteHorizonController.py:64-65 | Only the setpoint changes; H and F^T are kept. |
| FiniteHorizonController.StationaryPoint | src/controllers/FiniteHorizonController.py:73 | u = -H^-1 b solves H u = -b. |
| FiniteHorizonController.OptimalInputs | src/controllers/FiniteHorizonController.py:67-73 | A state that is not of length 4 is a DimensionError, and a singular H is SingularMatrix. Otherwise uopt has N entries and solves H uopt = -F x0. |
| FiniteHorizonController.Control | src/controllers/FiniteHorizonController.py:67-78 | Fails exactly when uopt does, with the same error; otherwise returns uopt[0]. |
| FiniteHorizonController.FirstInput | src/controllers/FiniteHorizonController.py:73-76 | The command is minus the first row of H^-1 applied to F x0. |
| FiniteHorizonController.ControlLinear | src/controllers/FiniteHorizonController.py:70-76 | The command is zero at the origin, additive and homogeneous in the state. |
| FiniteHorizonController.SetpointIgnored | src/controllers/FiniteHorizonController.py:64-78 | Setting the desired position never changes the command. |
| Prediction.StateAtSplits | src/controllers/FiniteHorizonController.py:26-31 | Superposition: x_k = A^k x0 plus the state that the same inputs reach from rest. |
| Prediction.AhatDirectShape | src/controllers/FiniteHorizonController.py:26-31 | The reference Ahat is Nn x n, and its block row i is A^(i+1). |
| Prediction.CbarDirectShape | src/controllers/FiniteHorizonController.py:33-50 | The reference Cbar is Nn x N, and its block row i has A^(i-j) B in column j <= i and zero after. |
| Prediction.CbarRowFirst | src/controllers/MPCController.py:39-41 | Block row 0 of Cbar equals block row 0 of Bbar. |
| Prediction.CbarRowRecurrence | src/controllers/MPCController.py:39-41 | Block row i of Cbar is A times block row i-1 plus block row i of Bbar. |
| Prediction.CbarRowResponse | src/controllers/FiniteHorizonController.py:33-50 | Block row i of Cbar applied to u is the state x_(i+1) reached from rest. |
| Prediction.PredictionChunk | src/controllers/FiniteHorizonController.py:23-50 | Chunk i of Ahat x0 + Cbar u is x_(i+1) of the iterated discrete step. |
| Prediction.PredictionIsTrajectory | src/controllers/FiniteHorizonController.py:23-50 | Ahat x0 + Cbar u is the whole stacked trajectory x_1, ..., x_N. |
| Prediction.QbarEntry | src/controllers/FiniteHorizonController.py:53-57 | Qbar is block diagonal: Q in stages 0 .. N-2, P in stage N-1, zero off the diagonal. |
| Prediction.RbarEntry | src/controllers/FiniteHorizonController.py:58 | Rbar is diagonal with R on the diagonal. |
| Prediction.QbarSymmetric | src/controllers/FiniteHorizonController.py:53-57 | Qbar is symmetric when Q and P are. |
| Prediction.RbarSymmetric | src/controllers/FiniteHorizonController.py:58 | Rbar is symmetric when R is. |
| Prediction.HessianSymmetric | src/controllers/FiniteHorizonController.py:61 | H = Cbar^T Qbar Cbar + Rbar is symmetric when Qbar and Rbar are. |
| LiftedPrediction.KronIdentityRow | src/controllers/MPCController.py:37 | Row k n + s of kron(eye(m), A) is A[s] in block column k and zero elsewhere. |
| LiftedPrediction.ShiftRow | src/controllers/MPCController.py:37-38 | The stacked construction of Abar has a zero first block row. Block row i > 0 holds A in block column i-1. |
| LiftedPrediction.ShiftRows | src/controllers/MPCController.py:37-38 | Every block row of the constructed Abar is the block-shift row. |
| LiftedPrediction.ShiftEntry | src/controllers/MPCController.py:37-38 | Block (i, j) of Abar is A when i = j + 1 and zero otherwise. |
| LiftedPrediction.ShiftTimes | src/controllers/MPCController.py:37-38 | Block row i of Abar X is zero for i = 0 and A times block row i-1 of X after. |
| LiftedPrediction.LiftedTimes | src/controllers/MPCController.py:40-41 | Block row i of (I - Abar) X is X_0 for i = 0 and X_i - A X_(i-1) after. |
| LiftedPrediction.InputMatrixChunk | src/controllers/MPCController.py:39 | Block row i of kron(eye(N), B) is B in column i. |
| LiftedPrediction.InitialMatrixChunk | src/controllers/MPCController.py:40 | Block row i of kron(eye(N), A)[:, 0:n] is A for i = 0 and zero after. |
| LiftedPrediction.LiftedCbar | src/controllers/MPCController.py:41 | (I - Abar) Cbar = Bbar for the reference Cbar. |
| LiftedPrediction.LiftedAhat | src/controllers/MPCController.py:40 | (I - Abar) Ahat = kron(eye(N), A)[:, 0:n] for the reference Ahat. |
| LiftedPrediction.LiftedInjective | src/controllers/MPCController.py:40-41 | (I - Abar) X = (I - Abar) Y implies X = Y, for any horizon and any A. |
| LiftedPrediction.LiftedRightInverse | src/controllers/MPCController.py:40-41 | (I - Abar) times I + Abar + ... + Abar^(N-1), whose block (i, j) is A^(i-j) for j <= i and zero above, is the identity. |
| LiftedPrediction.LiftedInvertible | src/controllers/MPCController.py:40-41 | I + Abar + ... + Abar^(N-1) is a two-sided inverse of I - Abar, for any horizon and any A. |
| LiftedPrediction.AlternativeAgrees | src/controllers/MPCController.py:36-41 | With the inverse of I - Abar, the alternative construction yields exactly the reference Ahat and Cbar. |
| MpcController.BoundEncoding | src/controllers/MPCController.py:71 | [I; -I] u <= [umax; umax] holds exactly when -10 <= u_k <= 10 for every k. |
| MpcController.New | src/controllers/MPCController.py:7-49 | Construction fails, with SingularMatrix, exactly when inverting I - Abar fails. Otherwise it stores the reference Ahat and Cbar of the plant's discrete model, Qbar and Rbar for the plant kind's weights, N = 100 and the setpoint 0. |
| MpcController.NewSucceeds | src/controllers/MPCController.py:40-41 | I - Abar always has an inverse, so construction succeeds for either plant. |
| MpcController.SetDesiredPosition | src/controllers/MPCController.py:51-52 | Only the setpoint changes; the horizon and the four matrices are kept. |
| MpcController.Assemble | src/controllers/MPCController.py:40-49 | Given the inverse of I - Abar, the stored matrices are the reference prediction matrices and the weights. |
| MpcController.Problem | src/controllers/MPCController.py:57-74 | The program posed for x0: minimise 1/2 x^T Qbar x + 1/2 u^T Rbar u with the stored weights. A plan (u, x) is feasible exactly when u has N entries, x = Cbar u + Ahat x0, and every input is within [-10, 10]; the stacked [I; -I] u <= [umax; umax] constraint says exactly this. |
| MpcController.Control | src/controllers/MPCController.py:54-88 | A state of the wrong length is a DimensionError. Otherwise the call fails, with SolverFailed, exactly when the solver raises. Status OPTIMAL gives the first input of a feasible plan; any other status gives 0.0. |
| MpcController.ControlWithinLimits | src/controllers/MPCController.py:71-86 | Whatever status the solver returns, the command lies in [-10, 10]. |
| MpcController.ControlIsCheapestPlan | src/controllers/MPCController.py:64-86 | On OPTIMAL, the command is the first input of a plan that no feasible plan undercuts in cost. |
| MpcController.PlanFollowsPlant | src/controllers/MPCController.py:68 | For the matrices New stores, the optimal plan's predicted states are exactly the states that the plant's discrete model reaches under that plan. |
| MpcController.SetpointIgnored | src/controllers/MPCController.py:51-88 | Setting the desired position never changes the command. |
| Controllers.Command | src/Simulator.py:78-81 | Through control(state), a state of the wrong length is a DimensionError. Otherwise the command fails exactly when its library call raises: inverting H for the finite-horizon controller (SingularMatrix), the quadratic-program solve for MPC (SolverFailed). An MPC command lies within the bound. |
| Controllers.SimulationCompletes | src/Simulator.py:124-133 | With no frames, or a controller that answers every state, simulate() returns a time and a state for every frame. When the controller cannot answer the state after the warm-up step, the first frame stops the animation and both returned lists are empty. For every controller but MPC this decides it: only a finite-horizon controller with a singular H records fewer frames than asked. |
| Simulator.New | src/Simulator.py:12-60 | delta_t = dt = 0.01 and sim_time = frames * delta_t. The lists start empty. The plant has already taken one step with u = 0, so its clock is one dt ahead. |
| Simulator.Animate | src/Simulator.py:75-117 | Frame i computes u from the pre-step state (0 without a controller), steps the plant with it, and appends the new state, i * delta_t and u. It fails exactly when the controller does. |
| Simulator.RunFollowsLoop | src/Simulator.py:75-84 | Running k frames fails exactly when the reference closed loop does, and otherwise reaches the same plant. |
| Simulator.RunRecords | src/Simulator.py:75-117 | From empty lists, frame i records time i * dt, the state after closed-loop step i+1, and the command computed at step i. |
| Simulator.ClosedLoopClock | src/Simulator.py:84 | k closed-loop steps advance the plant's clock by k * 0.01. |
| Simulator.NeverFails | src/Simulator.py:78-79 | A controller that answers every state never stops the loop. |
| Simulator.FirstCommandFails | src/Simulator.py:78-79 | A controller that cannot answer the starting state stops the loop at its first step, with that error. |
| Simulator.UncontrolledLoop | src/Simulator.py:78-81 | Without a controller, the loop equals the loop with a controller that always answers 0. |
| Simulator.FramesPlayed | src/Simulator.py:127-131 | The animation plays j of the k frames: frames 0 .. j-1 all answer, and frame j, if j < k, is the first whose command raises. |
| Simulator.SimulateStops | src/Simulator.py:124-133 | The closed loop succeeds for as many steps as frames were played. All frames are played exactly when the closed loop over all of them succeeds; otherwise the next closed-loop step is the first to fail. |
| Simulator.FirstFrameStops | src/Simulator.py:75-133 | A first frame whose command raises stops the animation before anything is appended, so simulate() returns the lists as they were. |
| Simulator.FailureSticks | src/Simulator.py:78-84 | Once a closed-loop step has failed, every longer closed loop fails too. |
| Simulator.Simulate | src/Simulator.py:124-133 | simulate() never fails. It returns the same number of times and states, at most one per frame. There is one per frame exactly when the closed loop over all the frames succeeds. A shorter record has k entries with closed-loop step k succeeding and step k+1 failing. |
| Simulator.SimulateRecords | src/Simulator.py:124-133 | From the constructor: simulate() returns k <= frames entries, and entry i is stamped i * 0.01 and holds the closed loop started after the warm-up step, i+1 steps on. k = frames exactly when that closed loop succeeds over all frames, as it does without a controller or with one that answers every state; otherwise step k+1 is the first that fails. |
| Simulator.ClockAfterSimulation | src/Simulator.py:58 | After a whole run, the plant's clock is one step past the simulated span, because the warm-up step is never undone. |

## Left out

- **Rendering and scheduling in the simulator.** The figure, the patches and
  the plots (src/Simulator.py:31-51, 63-72, 89-113, 120-122) are not
  modelled. Neither is the wall-clock `interval` (lines 56-60): it only
  concerns drawing and timing. `FuncAnimation` is taken to call `animate` once
  for each frame 0 .. frames-1, in order (`Simulator.Run`), and to stop at
  the first frame that raises (`Simulator.FramesPlayed`). The traceback
  the event loop prints is not modelled.
- **Attribute writes in the simulator constructor.**
  - `self.model.controller = control` is not modelled: nothing reads it.
  - `self.model.dt = self.delta_t` is not modelled: it stores back the same
    value.
- **External numerical routines.** The Riccati solver, `control.place`, the
  matrix inverses (`np.linalg.inv`, `.I`) and the cvxpy solve are
  parameters with contracts, not algorithms.
  - The Riccati contract only says the solution is symmetric. The placement
    contract only says the gain is 1 x n and that n poles are needed.
  - Consequently the eigenvalues of `A - B K` are not stated, and closed-loop
    stability is not proved.
- **Floating point and trigonometry.** Rounding, overflow, NaN and the values
  of `sin`, `cos` and `pi` are not modelled: exact reals and the
  trigonometric laws above replace them. No claim of numerical agreement
  with float64 results is made.
- **Printed text.** The warning printed by `step_rl` is modelled only as the
  boolean `warned`. The other `print` output and the time label are not
  modelled.
- **Return values of `step_rl`.** The observation is the state of the plant
  returned in `RlStep`. The info dict `{}` is not modelled, because it is
  always empty.
- **The stepper matrices.** `A_step_*` and `B_step_*`
  (src/InvertedPendulum.py:37-42) are modelled only through their
  discretisation: no operation of the source uses them.
- **Drawing-only parameters.** `cart_width` and `cart_height` are used only
  for drawing.
- **The MPC state bound.** `xmax` (src/controllers/MPCController.py:20)
  appears only as the constant `MpcController.StateLimit`, because no
  constraint uses it.
- **The MPC solver.** It is trusted only when it returns with status
  `OPTIMAL`.
  - Its accuracy tolerance is not modelled.
  - Neither is whether it raises or finds an optimum for a given state,
    since that is the solver's business.
- FiniteHorizonController.OptimalInputs: computes `-(H^-1 (F^T)^T x0)`, while
  the source groups the product as `(-H^-1 (F^T)^T) x0`. With exact
  arithmetic the two are equal.
- FiniteHorizonController.Control: is not proved to succeed for a state of
  length 4. `H = Cbar^T Qbar Cbar + I` is positive definite, so its inverse
  always exists and the source's call never raises. The model does not
  prove `H` invertible, so `SingularMatrix` remains a possible outcome.
- Controllers.SimulationCompletes: for the MPC controller it states only
  the two one-way cases, all states answered or the first one not. A solver
  that raises at some later state stops the animation there, with the
  earlier frames recorded, as Simulator.SimulateRecords describes.
- StateFeedback.ReferenceGain: a zero DC gain is reported as `ZeroDcGain`.
  numpy would instead store an infinite `Kr` and print a warning.
- Controllers.Command: every state whose length differs from the plant's is
  a `DimensionError`. In the source the PID controller reads a longer state
  from its first entries, and fails only on a shorter one.
- **Plant interface.** The controllers read the plant's matrices by
  attribute (duck typing). The model passes the plant kind and takes the
  matrices from `Plants`.
- **Scripts and packaging.** The scripts, the unfinished swing-up script and
  `setup.py` are not part of this model.

## Findings

| source | as written | input that shows it | evidently intended | confidence | as-written member | corrected member |
|---|---|---|---|---|---|---|
| src/InvertedPendulum.py:8-53 | The pendulum never assigns `self.name`, yet the PID, LQR and MPC controllers and the simulator branch on `model.name == 'Pendulum'`, so reading it raises and their pendulum branches cannot run. The pole-placement and finite-horizon controllers do not read the name and are unaffected. | Any `InvertedPendulum()` passed to `Control(model)` of the PID controller, then `control(state)`. | The pendulum sets `name = 'Pendulum'`, as the robot sets `'Robot'`. | not executed | Plants.PendulumBranchUnreachableAsWritten | Plants.NameIdentifiesKind |
| src/InvertedPendulum.py:53 | `steps_beyond_done` starts at 0 rather than `None`, so the `None` branch of `step_rl` is dead. | A fresh pendulum whose first `step_rl` leaves the bounds: reward 0.0, with the "already returned done" warning printed. | The counter starts as `None`, so the terminating step earns 1.0 and later done steps earn 0.0 with one warning. | not executed | InvertedPendulum.FirstDoneAsWritten | InvertedPendulum.FirstDoneCorrected |
