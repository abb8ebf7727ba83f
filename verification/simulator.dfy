/** The simulation loop without its drawing: the constructor takes the
    plant's step as the frame period, runs one uncontrolled warm-up step, and
    every frame i asks the controller for u at the current state, advances
    the plant by one nonlinear step and records the new state, the time
    i * dt and u. The simulator calls whatever object it was handed through
    its `control` method, so the controller is a function from the state to
    a command here; `None` is a simulator built without one. A frame whose
    command raises stops the animation, and simulate() returns what the
    frames before it recorded. */
module Simulator {
  import opened Wrappers
  import opened Matrices
  import opened Trig
  import opened Plants

  /** `controller.control(state)`: the command for a state, or the error the
      controller raises. */
  type Law = Vector -> Result<real>

  /** The command of frame i: u = 0 without a controller. */
  function Input(control: Option<Law>, x: Vector): Result<real> {
    match control
    case None => Ok(0.0)
    case Some(f) => f(x)
  }

  /** A controller that answers every state of the right length. */
  ghost predicate Total(f: Law, k: Kind) {
    forall x: Vector :: |x| == Dim(k) ==> f(x).Ok?
  }

  /** The time printed and recorded for frame i. */
  function Stamp(i: nat, dt: real): real {
    i as real * dt
  }

  /** The reference closed loop: the plant after k controlled steps, each
      step applying the command computed from the state before it. */
  function ClosedLoop(pl: Plant, control: Option<Law>, t: Trig, k: nat): (r: Result<Plant>)
    requires Plants.Valid(pl)
    ensures r.Ok? ==> Plants.Valid(r.value) && KindOf(r.value) == KindOf(pl)
  {
    if k == 0 then Ok(pl)
    else
      var prev := ClosedLoop(pl, control, t, k - 1);
      if prev.Err? then prev
      else
        var u := Input(control, State(prev.value));
        if u.Err? then Err(u.error) else Ok(StepCont(prev.value, u.value, t))
  }

  /** Each closed-loop step advances the plant's clock by dt. */
  lemma {:induction false} ClosedLoopClock(pl: Plant, control: Option<Law>, t: Trig, k: nat)
    requires Plants.Valid(pl)
    ensures ClosedLoop(pl, control, t, k).Ok? ==>
      TimeElapsed(ClosedLoop(pl, control, t, k).value) == TimeElapsed(pl) + k as real * 0.01
  {
    if k > 0 && ClosedLoop(pl, control, t, k).Ok? {
      var prev := ClosedLoop(pl, control, t, k - 1);
      assert prev.Ok?;
      ClosedLoopClock(pl, control, t, k - 1);
      SampleTime(KindOf(pl));
      var t0 := TimeElapsed(pl);
      var t1 := TimeElapsed(prev.value);
      assert t1 == t0 + (k - 1) as real * 0.01;
      assert TimeElapsed(ClosedLoop(pl, control, t, k).value) == t1 + 0.01;
    }
  }

  /** A controller that answers every state never stops the loop. */
  lemma {:induction false} NeverFails(pl: Plant, f: Law, t: Trig, k: nat)
    requires Plants.Valid(pl) && Total(f, KindOf(pl))
    ensures ClosedLoop(pl, Some(f), t, k).Ok?
  {
    if k > 0 {
      NeverFails(pl, f, t, k - 1);
      ValidState(ClosedLoop(pl, Some(f), t, k - 1).value);
    }
  }

  /** A controller that cannot answer the starting state stops the loop at
      its first step with that error, however many steps are asked for. */
  lemma {:induction false} FirstCommandFails(pl: Plant, f: Law, t: Trig, k: nat)
    requires Plants.Valid(pl) && k > 0
    requires f(State(pl)).Err?
    ensures ClosedLoop(pl, Some(f), t, k) == Err(f(State(pl)).error)
  {
    if k > 1 {
      FirstCommandFails(pl, f, t, k - 1);
    }
  }

  datatype Sim = Sim(plant: Plant, control: Option<Law>, frames: nat, deltaT: real,
                     simTime: real, timeAxis: seq<real>, uList: seq<real>, stateList: seq<Vector>)

  predicate Valid(s: Sim) {
    Plants.Valid(s.plant) && s.deltaT == Dt(KindOf(s.plant))
  }

  /** The constructor: the frame period is the plant's dt, the simulated
      span is frames * dt, the records start empty, and one step with u = 0
      is taken to time it. */
  function New(pl: Plant, control: Option<Law>, frames: nat, t: Trig): (s: Sim)
    requires Plants.Valid(pl)
    ensures Valid(s) && s.control == control && s.frames == frames
    ensures KindOf(s.plant) == KindOf(pl) && s.deltaT == 0.01
    ensures s.simTime == frames as real * s.deltaT
    ensures TimeElapsed(s.plant) == TimeElapsed(pl) + s.deltaT
    ensures s.timeAxis == [] && s.uList == [] && s.stateList == []
  {
    SampleTime(KindOf(pl));
    var dt := Dt(KindOf(pl));
    Sim(StepCont(pl, 0.0, t), control, frames, dt, frames as real * dt, [], [], [])
  }

  /** Frame i: command from the current state, one step, three appends. */
  function Animate(s: Sim, i: nat, t: Trig): (r: Result<Sim>)
    requires Valid(s)
    ensures r.Ok? <==> Input(s.control, State(s.plant)).Ok?
    ensures r.Ok? ==> Valid(r.value)
    ensures r.Ok? ==> r.value.plant == StepCont(s.plant, Input(s.control, State(s.plant)).value, t)
    ensures r.Ok? ==> r.value.timeAxis == s.timeAxis + [Stamp(i, s.deltaT)]
    ensures r.Ok? ==> r.value.uList == s.uList + [Input(s.control, State(s.plant)).value]
    ensures r.Ok? ==> r.value.stateList == s.stateList + [State(r.value.plant)]
    ensures r.Ok? ==> r.value.control == s.control && r.value.frames == s.frames
    ensures r.Ok? ==> r.value.deltaT == s.deltaT && r.value.simTime == s.simTime
  {
    var u :- Input(s.control, State(s.plant));
    var pl := StepCont(s.plant, u, t);
    Ok(s.(plant := pl,
          stateList := s.stateList + [State(pl)],
          timeAxis := s.timeAxis + [Stamp(i, s.deltaT)],
          uList := s.uList + [u]))
  }

  /** Frames 0 .. k-1 in order. */
  function Run(s: Sim, k: nat, t: Trig): (r: Result<Sim>)
    requires Valid(s)
    ensures r.Ok? ==> Valid(r.value) && r.value.control == s.control
    ensures r.Ok? ==> r.value.deltaT == s.deltaT && r.value.frames == s.frames
    ensures r.Ok? ==> KindOf(r.value.plant) == KindOf(s.plant)
    ensures r.Ok? ==> |r.value.timeAxis| == |s.timeAxis| + k
    ensures r.Ok? ==> |r.value.uList| == |s.uList| + k
    ensures r.Ok? ==> |r.value.stateList| == |s.stateList| + k
  {
    if k == 0 then Ok(s)
    else
      var p :- Run(s, k - 1, t);
      Animate(p, k - 1, t)
  }

  /** Frame i of a time axis and state record agrees with the closed loop
      started from s0: the time i * dt and the state after step i + 1. */
  predicate Frame(times: seq<real>, states: seq<Vector>, s0: Plant, control: Option<Law>, t: Trig, dt: real, i: nat)
    requires Plants.Valid(s0)
  {
    && i < |times| && i < |states|
    && ClosedLoop(s0, control, t, i + 1).Ok?
    && times[i] == Stamp(i, dt)
    && states[i] == State(ClosedLoop(s0, control, t, i + 1).value)
  }

  /** Frame i of the simulator's records: time and state as above, and the
      command computed at closed-loop step i. */
  predicate FrameRecorded(f: Sim, s0: Plant, t: Trig, i: nat)
    requires Plants.Valid(s0)
  {
    && Frame(f.timeAxis, f.stateList, s0, f.control, t, f.deltaT, i)
    && i < |f.uList|
    && f.uList[i] == Input(f.control, State(ClosedLoop(s0, f.control, t, i).value)).value
  }

  /** The plant of a run agrees with the closed loop: both fail or both
      succeed, and on success the run's plant is closed-loop step k. */
  predicate FollowsLoop(r: Result<Sim>, loop: Result<Plant>) {
    && (r.Ok? <==> loop.Ok?)
    && (r.Ok? ==> r.value.plant == loop.value)
  }

  /** Run and the reference closed loop fail at the same frame and reach the
      same plant. */
  lemma {:induction false} RunFollowsLoop(s: Sim, k: nat, t: Trig)
    requires Valid(s)
    ensures FollowsLoop(Run(s, k, t), ClosedLoop(s.plant, s.control, t, k))
  {
    if k > 0 {
      RunFollowsLoop(s, k - 1, t);
    }
  }

  /** One more frame keeps every frame recorded so far. */
  lemma KeepsFrame(p: Sim, j: nat, t: Trig, s0: Plant, i: nat)
    requires Valid(p) && Plants.Valid(s0)
    ensures Animate(p, j, t).Ok? && FrameRecorded(p, s0, t, i) ==>
      FrameRecorded(Animate(p, j, t).value, s0, t, i)
  {
    if Animate(p, j, t).Ok? && FrameRecorded(p, s0, t, i) {
      var f := Animate(p, j, t).value;
      assert f.timeAxis[i] == p.timeAxis[i];
      assert f.stateList[i] == p.stateList[i];
      assert f.uList[i] == p.uList[i];
    }
  }

  /** The frame appended as frame k - 1 records closed-loop step k. */
  lemma NewFrame(s: Sim, k: nat, t: Trig)
    requires Valid(s) && s.timeAxis == [] && s.uList == [] && s.stateList == []
    requires k > 0 && Run(s, k, t).Ok?
    requires FollowsLoop(Run(s, k - 1, t), ClosedLoop(s.plant, s.control, t, k - 1))
    ensures FrameRecorded(Run(s, k, t).value, s.plant, t, k - 1)
  {
    var p := Run(s, k - 1, t).value;
    var f := Run(s, k, t).value;
    assert f == Animate(p, k - 1, t).value;
    assert p.deltaT == s.deltaT;
    assert f.plant == ClosedLoop(s.plant, s.control, t, k).value;
  }

  /** The records after k frames started from empty lists hold frames
      0 .. k-1 of the closed loop in order, and the plant ends at
      closed-loop step k. */
  lemma {:induction false} RunRecords(s: Sim, k: nat, t: Trig)
    requires Valid(s) && s.timeAxis == [] && s.uList == [] && s.stateList == []
    ensures FollowsLoop(Run(s, k, t), ClosedLoop(s.plant, s.control, t, k))
    ensures Run(s, k, t).Ok? ==>
      forall i :: 0 <= i < k ==> FrameRecorded(Run(s, k, t).value, s.plant, t, i)
  {
    RunFollowsLoop(s, k, t);
    if k > 0 && Run(s, k, t).Ok? {
      RunRecords(s, k - 1, t);
      var p := Run(s, k - 1, t).value;
      forall i | 0 <= i < k
        ensures FrameRecorded(Run(s, k, t).value, s.plant, t, i)
      {
        if i < k - 1 {
          KeepsFrame(p, k - 1, t, s.plant, i);
        } else {
          NewFrame(s, k, t);
        }
      }
    }
  }

  /** Once the closed loop has failed it stays failed. */
  lemma {:induction false} FailureSticks(pl: Plant, control: Option<Law>, t: Trig, j: nat, k: nat)
    requires Plants.Valid(pl) && j <= k
    requires ClosedLoop(pl, control, t, j).Err?
    ensures ClosedLoop(pl, control, t, k).Err?
  {
    if j < k {
      FailureSticks(pl, control, t, j, k - 1);
    }
  }

  /** The frames the animation's timer plays out of the first k: it runs
      frames in order and stops at the first one whose command raises, so
      the count is j with frames 0 .. j-1 answered and frame j, if any,
      failing. */
  function FramesPlayed(s: Sim, k: nat, t: Trig): (j: nat)
    requires Valid(s)
    ensures j <= k && Run(s, j, t).Ok?
    ensures j < k ==> Run(s, j + 1, t).Err?
  {
    if k == 0 || Run(s, k, t).Ok? then k else FramesPlayed(s, k - 1, t)
  }

  /** simulate(): the timer plays the frames, and the time axis and the
      states recorded are returned. A frame whose command raises stops the
      animation there; the window's event loop reports the error, and
      simulate() still returns the records of the frames before it. So all
      frames are recorded exactly when the closed loop over all of them
      succeeds, and a shorter record ends just before the first failing
      closed-loop step. */
  function Simulate(s: Sim, t: Trig): (r: (seq<real>, seq<Vector>))
    requires Valid(s)
    ensures |s.timeAxis| <= |r.0| <= |s.timeAxis| + s.frames
    ensures |r.1| - |s.stateList| == |r.0| - |s.timeAxis|
    ensures ClosedLoop(s.plant, s.control, t, |r.0| - |s.timeAxis|).Ok?
    ensures |r.0| == |s.timeAxis| + s.frames <==> ClosedLoop(s.plant, s.control, t, s.frames).Ok?
    ensures |r.0| < |s.timeAxis| + s.frames ==>
      ClosedLoop(s.plant, s.control, t, |r.0| - |s.timeAxis| + 1).Err?
  {
    SimulateStops(s, t);
    var f := Run(s, FramesPlayed(s, s.frames, t), t).value;
    (f.timeAxis, f.stateList)
  }

  /** The frames played agree with the closed loop: it succeeds for that
      many steps and, when the animation stops early, fails at the next step
      and so over all the frames. */
  lemma SimulateStops(s: Sim, t: Trig)
    requires Valid(s)
    ensures ClosedLoop(s.plant, s.control, t, FramesPlayed(s, s.frames, t)).Ok?
    ensures FramesPlayed(s, s.frames, t) == s.frames <==> ClosedLoop(s.plant, s.control, t, s.frames).Ok?
    ensures FramesPlayed(s, s.frames, t) < s.frames ==>
      ClosedLoop(s.plant, s.control, t, FramesPlayed(s, s.frames, t) + 1).Err?
  {
    var k := FramesPlayed(s, s.frames, t);
    RunFollowsLoop(s, k, t);
    if k < s.frames {
      StopsAtFailure(s, k, t);
      FailureSticks(s.plant, s.control, t, k + 1, s.frames);
    }
  }

  /** A frame that fails after k good ones fails the closed loop at step k + 1. */
  lemma StopsAtFailure(s: Sim, k: nat, t: Trig)
    requires Valid(s) && Run(s, k + 1, t).Err?
    ensures ClosedLoop(s.plant, s.control, t, k + 1).Err?
  {
    RunFollowsLoop(s, k + 1, t);
  }

  /** A first frame whose command raises stops the animation before
      anything is recorded. */
  lemma FirstFrameStops(s: Sim, t: Trig)
    requires Valid(s) && s.frames > 0
    requires Input(s.control, State(s.plant)).Err?
    ensures Simulate(s, t) == (s.timeAxis, s.stateList)
  {
    assert Run(s, 1, t).Err?;
    assert FramesPlayed(s, s.frames, t) == 0 by {
      var j := FramesPlayed(s, s.frames, t);
      if j > 0 {
        RunPrefix(s, 1, j, t);
      }
    }
  }

  /** A run that reaches frame k got through every earlier frame. */
  lemma {:induction false} RunPrefix(s: Sim, j: nat, k: nat, t: Trig)
    requires Valid(s) && j <= k && Run(s, k, t).Ok?
    ensures Run(s, j, t).Ok?
  {
    if j < k {
      RunPrefix(s, j, k - 1, t);
    }
  }

  /** The loop without a controller is the loop with the controller that
      always answers 0. */
  lemma {:induction false} UncontrolledLoop(pl: Plant, control: Option<Law>, f: Law, t: Trig, k: nat)
    requires Plants.Valid(pl)
    requires control.Some? ==> f == control.value
    requires control.None? ==> forall x :: f(x) == Ok(0.0)
    ensures ClosedLoop(pl, control, t, k) == ClosedLoop(pl, Some(f), t, k)
  {
    if k > 0 {
      UncontrolledLoop(pl, control, f, t, k - 1);
    }
  }

  /** A whole simulation from the constructor: the records hold frames
      0 .. k-1 for some k <= frames, frame i stamped i * 0.01 and holding
      the closed loop started from the plant after the warm-up step, i + 1
      controlled steps later. All frames are recorded exactly when that
      closed loop succeeds over all of them, as it does without a
      controller or with one that answers every state; otherwise step
      k + 1 is the first that fails. */
  lemma SimulateRecords(pl: Plant, control: Option<Law>, frames: nat, t: Trig)
    requires Plants.Valid(pl)
    ensures New(pl, control, frames, t).plant == StepCont(pl, 0.0, t)
    ensures control.None? || Total(control.value, KindOf(pl)) ==>
      |Simulate(New(pl, control, frames, t), t).0| == frames
    ensures var out := Simulate(New(pl, control, frames, t), t);
      && |out.0| == |out.1| <= frames
      && (|out.0| == frames <==> ClosedLoop(StepCont(pl, 0.0, t), control, t, frames).Ok?)
      && (|out.0| < frames ==> ClosedLoop(StepCont(pl, 0.0, t), control, t, |out.0| + 1).Err?)
      && forall i :: 0 <= i < |out.0| ==>
           Frame(out.0, out.1, StepCont(pl, 0.0, t), control, t, 0.01, i)
  {
    var s := New(pl, control, frames, t);
    SimulateStops(s, t);
    var k := FramesPlayed(s, frames, t);
    var f := Run(s, k, t).value;
    RunRecords(s, k, t);
    if control.None? || Total(control.value, KindOf(pl)) {
      var g: Law := if control.Some? then control.value else x => Ok(0.0);
      assert Total(g, KindOf(s.plant));
      NeverFails(s.plant, g, t, frames);
      UncontrolledLoop(s.plant, control, g, t, frames);
    }
    forall i | 0 <= i < k
      ensures Frame(f.timeAxis, f.stateList, s.plant, control, t, 0.01, i)
    {
      assert FrameRecorded(f, s.plant, t, i);
    }
  }

  /** The warm-up step and n frames of dt = 0.01 add up to the simulated
      span plus one step. */
  lemma ClockSum(t0: real, t1: real, t2: real, n: nat, dt: real, span: real)
    requires dt == 0.01 && span == n as real * dt
    requires t1 == t0 + dt && t2 == t1 + n as real * 0.01
    ensures t2 == t0 + span + dt
  {
  }

  /** The plant's clock after a whole simulation is one step past the
      simulated span: the warm-up step is never undone. */
  lemma ClockAfterSimulation(pl: Plant, control: Option<Law>, frames: nat, t: Trig)
    requires Plants.Valid(pl)
    requires Run(New(pl, control, frames, t), frames, t).Ok?
    ensures var s := New(pl, control, frames, t);
      TimeElapsed(Run(s, frames, t).value.plant) == TimeElapsed(pl) + s.simTime + s.deltaT
  {
    var s := New(pl, control, frames, t);
    RunFollowsLoop(s, frames, t);
    var last := ClosedLoop(s.plant, control, t, frames);
    ClosedLoopClock(s.plant, control, t, frames);
    ClockSum(TimeElapsed(pl), TimeElapsed(s.plant), TimeElapsed(last.value), frames, s.deltaT, s.simTime);
  }
}
