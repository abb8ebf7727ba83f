/** The hand-tuned PD controller: angle and cart-position terms for the
    pendulum, angle terms only for the robot. */
module PidController {
  import opened Matrices
  import opened Plants

  const KpTheta: real := 50.0
  const KdTheta: real := 15.0
  const KpX: real := 5.0
  const KdX: real := 4.8

  datatype Pid = Pid(kind: Kind, xd: real)

  /** The controller bound to a plant, with setpoint 0: its command is the
      bare feedback -K x that regulates every state towards rest. */
  function New(pl: Plant): (c: Pid)
    ensures c.kind == KindOf(pl) && c.xd == 0.0
    ensures forall x: Vector | |x| == Dim(c.kind) :: Control(c, x) == -Dot(Gain(KindOf(pl)), x)
  {
    Pid(KindOf(pl), 0.0)
  }

  function SetDesiredPosition(c: Pid, x: real): (r: Pid)
    ensures r.kind == c.kind && r.xd == x
  {
    c.(xd := x)
  }

  /** The PD terms summed. They make up the static state feedback
      u = -K x + xd Kr with K the gain row and Kr the setpoint weight. */
  function Control(c: Pid, x: Vector): (u: real)
    requires |x| == Dim(c.kind)
    ensures u == -Dot(Gain(c.kind), x) + c.xd * SetpointGain(c.kind)
  {
    GainDot(c.kind, x);
    if c.kind == PendulumKind then
      var uThetaP := KpTheta * (x[2] - 0.0);
      var uThetaD := KdTheta * x[3];
      var uXP := KpX * (x[0] - c.xd);
      var uXD := KdX * x[1];
      uThetaP + uThetaD + uXP + uXD
    else
      var uThetaP := KpTheta * (0.0 - x[0]);
      var uThetaD := KdTheta * x[1];
      uThetaP + uThetaD
  }

  /** The gain row K of the equivalent law u = -K x + xd Kr. For the robot
      the proportional term opposes the angle while the derivative term
      follows the rate, the reverse of the pendulum's signs. */
  function Gain(k: Kind): (g: Vector)
    ensures |g| == Dim(k)
    ensures k == RobotKind ==> g[0] > 0.0 && g[1] < 0.0
    ensures k == PendulumKind ==> g[2] < 0.0 && g[3] < 0.0
  {
    if k == PendulumKind then [-KpX, -KdX, -KpTheta, -KdTheta] else [KpTheta, -KdTheta]
  }

  /** The setpoint weight Kr of the equivalent law. */
  function SetpointGain(k: Kind): real {
    if k == PendulumKind then -KpX else 0.0
  }

  /** K x written out term by term. */
  lemma GainDot(k: Kind, x: Vector)
    requires |x| == Dim(k)
    ensures Dot(Gain(k), x)
         == if k == PendulumKind then -KpX * x[0] - KdX * x[1] - KpTheta * x[2] - KdTheta * x[3]
            else KpTheta * x[0] - KdTheta * x[1]
  {
    var g := Gain(k);
    if k == PendulumKind {
      assert Dot(g[3..], x[3..]) == g[3] * x[3] by {
        assert g[3..][1..] == [] && x[3..][1..] == [];
      }
      assert g[2..][1..] == g[3..] && x[2..][1..] == x[3..];
      assert g[1..][1..] == g[2..] && x[1..][1..] == x[2..];
      assert Dot(g[2..], x[2..]) == g[2] * x[2] + Dot(g[3..], x[3..]);
      assert Dot(g[1..], x[1..]) == g[1] * x[1] + Dot(g[2..], x[2..]);
      assert Dot(g, x) == g[0] * x[0] + Dot(g[1..], x[1..]);
    } else {
      assert Dot(g, x) == g[0] * x[0] + (g[1] * x[1] + Dot([], []))
        by {
        assert g[1..][1..] == [] && x[1..][1..] == [];
      }
    }
  }

  /** At rest on the setpoint 0 the command is 0; shifting the cart and
      the setpoint together changes nothing; the robot ignores the setpoint. */
  lemma Invariances(c: Pid, x: Vector, d: real)
    requires |x| == Dim(c.kind)
    ensures Control(c.(xd := 0.0), ZeroVec(|x|)) == 0.0
    ensures c.kind == PendulumKind ==>
      Control(c.(xd := c.xd + d), x[0 := x[0] + d]) == Control(c, x)
    ensures c.kind == RobotKind ==> Control(SetDesiredPosition(c, d), x) == Control(c, x)
  {
  }

  /** Moving the setpoint from xd to a moves the command by (a - xd) Kr,
      whatever the state. */
  lemma SetpointShift(c: Pid, x: Vector, a: real)
    requires |x| == Dim(c.kind)
    ensures Control(SetDesiredPosition(c, a), x) - Control(c, x) == (a - c.xd) * SetpointGain(c.kind)
  {
  }
}
