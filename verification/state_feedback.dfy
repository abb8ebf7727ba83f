/** What the LQR and pole-placement controllers share: the closed-loop
    matrix A - B K, the DC gain Kdc = C (A - B K)^-1 B, the reference gain
    Kr = -1 / Kdc[0] and the law u = -K x + xd Kr. */
module StateFeedback {
  import opened Wrappers
  import opened Matrices
  import opened StateSpace
  import opened Oracles

  /** K is a 1 x n gain row for an n-state, single-input plant. */
  predicate GainRow(A: Matrix, B: Matrix, K: Matrix) {
    LinearPlant(A, B) && IsMatrix(K, 1, |A|)
  }

  /** Acl = A - B K. */
  function ClosedLoop(A: Matrix, B: Matrix, K: Matrix): (acl: Matrix)
    requires GainRow(A, B, K)
    ensures IsMatrix(acl, |A|, |A|)
  {
    Sub(A, Mul(B, K))
  }

  /** The first entry of C Ai B. */
  function DcGain(C: Matrix, Ai: Matrix, B: Matrix): real
    requires |C| > 0 && IsMatrix(C, |C|, |Ai|) && IsSquare(Ai) && IsMatrix(B, |Ai|, 1) && |B| > 0
  {
    Mul(Mul(C, Ai), B)[0][0]
  }

  /** Kr = -1 / Kdc[0]: fails when the closed loop is singular or the DC
      gain is zero. */
  function ReferenceGain(A: Matrix, B: Matrix, C: Matrix, K: Matrix, inv: Inverter): (r: Result<real>)
    requires GainRow(A, B, K) && |C| > 0 && IsMatrix(C, |C|, |A|)
    ensures inv(ClosedLoop(A, B, K)).None? ==> r == Err(SingularMatrix)
    ensures inv(ClosedLoop(A, B, K)).Some? ==>
      var g := DcGain(C, inv(ClosedLoop(A, B, K)).value, B);
      && (r.Ok? <==> g != 0.0)
      && (r.Err? ==> r.error == ZeroDcGain)
      && (r.Ok? ==> r.value * g == -1.0)
  {
    match inv(ClosedLoop(A, B, K))
    case None => Err(SingularMatrix)
    case Some(Ai) =>
      var g := DcGain(C, Ai, B);
      if g == 0.0 then Err(ZeroDcGain) else Ok(-1.0 / g)
  }

  /** u = -K x + xd Kr. */
  function Law(K: Matrix, x: Vector, xd: real, Kr: real): real
    requires IsMatrix(K, 1, |x|)
  {
    -Dot(K[0], x) + xd * Kr
  }

  /** The law is linear in the state, and the setpoint adds xd Kr to it. */
  lemma LawLinear(K: Matrix, x: Vector, y: Vector, k: real, xd: real, Kr: real)
    requires IsMatrix(K, 1, |x|) && |y| == |x|
    ensures Law(K, x, xd, Kr) - Law(K, x, 0.0, Kr) == xd * Kr
    ensures Law(K, VAdd(x, y), 0.0, Kr) == Law(K, x, 0.0, Kr) + Law(K, y, 0.0, Kr)
    ensures Law(K, VScale(k, x), 0.0, Kr) == k * Law(K, x, 0.0, Kr)
    ensures Law(K, ZeroVec(|x|), 0.0, Kr) == 0.0
  {
    DotAddRight(K[0], x, y);
    DotScaleRight(k, K[0], x);
    DotZeroRight(K[0], ZeroVec(|x|));
  }

  /** A right inverse of M solves M y = b: y = Mi b. */
  lemma RightInverseSolves(M: Matrix, Mi: Matrix, b: Vector)
    requires |M| > 0 && IsSquare(M) && IsMatrix(Mi, |M|, |M|) && |b| == |M|
    requires Mul(M, Mi) == Identity(|M|)
    ensures MatVec(M, MatVec(Mi, b)) == b
  {
    MulMatVec(M, Mi, b);
    MatVecIdentity(b);
  }

  /** The first row of C applied to Ai b is the DC gain. */
  lemma FirstOutputIsDcGain(C: Matrix, Ai: Matrix, B: Matrix)
    requires |C| > 0 && IsMatrix(C, |C|, |Ai|) && IsSquare(Ai) && IsMatrix(B, |Ai|, 1) && |B| > 0
    ensures Dot(C[0], MatVec(Ai, Col(B, 0))) == DcGain(C, Ai, B)
  {
    var b := Col(B, 0);
    var CAi := Mul(C, Ai);
    ColOfMul(CAi, B, 0);
    ColOfMul(C, Ai, 0);
    MulMatVec(C, Ai, b);
    assert Mul(CAi, B)[0][0] == Dot(CAi[0], b);
    assert MatVec(CAi, b)[0] == Dot(CAi[0], b);
  }

  /** The equilibrium -Ai B Kr xd of x' = Acl x + B Kr xd, Ai = Acl^-1. */
  function SteadyState(Ai: Matrix, B: Matrix, Kr: real, xd: real): Vector
    requires IsMatrix(B, |B|, 1) && forall i :: 0 <= i < |Ai| ==> |Ai[i]| == |B|
  {
    VScale(-(xd * Kr), MatVec(Ai, Col(B, 0)))
  }

  /** xs = SteadyState(Ai, B, Kr, xd) is an equilibrium of
      x' = Acl x + B Kr xd whose first measured output is xd. */
  predicate TracksSetpoint(Acl: Matrix, B: Matrix, C: Matrix, Ai: Matrix, Kr: real, xd: real)
    requires |Acl| > 0 && IsSquare(Acl) && IsMatrix(Ai, |Acl|, |Acl|) && IsMatrix(B, |Acl|, 1)
    requires |C| > 0 && IsMatrix(C, |C|, |Acl|)
  {
    var xs := SteadyState(Ai, B, Kr, xd);
    && VAdd(MatVec(Acl, xs), VScale(Kr * xd, Col(B, 0))) == ZeroVec(|Acl|)
    && Dot(C[0], xs) == xd
  }

  /** Why Kr is chosen so: under u = -K x + xd Kr the continuous closed loop
      x' = Acl x + B Kr xd rests at SteadyState, and the first measured output
      there is exactly the setpoint xd. */
  lemma ReferenceGainTracks(A: Matrix, B: Matrix, C: Matrix, K: Matrix, inv: Inverter, xd: real)
    requires GainRow(A, B, K) && |C| > 0 && IsMatrix(C, |C|, |A|)
    requires ReferenceGain(A, B, C, K, inv).Ok?
    ensures inv(ClosedLoop(A, B, K)).Some?
    ensures IsMatrix(inv(ClosedLoop(A, B, K)).value, |A|, |A|)
    ensures TracksSetpoint(ClosedLoop(A, B, K), B, C, inv(ClosedLoop(A, B, K)).value,
                           ReferenceGain(A, B, C, K, inv).value, xd)
  {
    var Acl := ClosedLoop(A, B, K);
    var r := ReferenceGain(A, B, C, K, inv);
    assert inv(Acl).Some?;
    var Ai := inv(Acl).value;
    assert r.value * DcGain(C, Ai, B) == -1.0;
    assert Mul(Acl, Ai) == Identity(|Acl|);
    EquilibriumOutput(Acl, B, C, Ai, r.value, xd);
  }

  lemma EquilibriumOutput(Acl: Matrix, B: Matrix, C: Matrix, Ai: Matrix, Kr: real, xd: real)
    requires |Acl| > 0 && IsSquare(Acl) && IsMatrix(Ai, |Acl|, |Acl|) && IsMatrix(B, |Acl|, 1)
    requires |C| > 0 && IsMatrix(C, |C|, |Acl|)
    requires Mul(Acl, Ai) == Identity(|Acl|)
    requires Kr * DcGain(C, Ai, B) == -1.0
    ensures TracksSetpoint(Acl, B, C, Ai, Kr, xd)
  {
    EquilibriumRests(Acl, B, Ai, Kr, xd);
    EquilibriumMeasures(Acl, B, C, Ai, Kr, xd);
  }

  /** Acl xs + B Kr xd = 0: the steady state is an equilibrium. */
  lemma EquilibriumRests(Acl: Matrix, B: Matrix, Ai: Matrix, Kr: real, xd: real)
    requires |Acl| > 0 && IsSquare(Acl) && IsMatrix(Ai, |Acl|, |Acl|) && IsMatrix(B, |Acl|, 1)
    requires Mul(Acl, Ai) == Identity(|Acl|)
    ensures VAdd(MatVec(Acl, SteadyState(Ai, B, Kr, xd)), VScale(Kr * xd, Col(B, 0))) == ZeroVec(|Acl|)
  {
    var n := |Acl|;
    var b := Col(B, 0);
    var c := -(xd * Kr);
    var w := MatVec(Ai, b);
    var xs := VScale(c, w);
    RightInverseSolves(Acl, Ai, b);
    MatVecScale(Acl, c, w);
    var lhs := VAdd(MatVec(Acl, xs), VScale(Kr * xd, b));
    forall i | 0 <= i < n
      ensures lhs[i] == ZeroVec(n)[i]
    {
      assert MatVec(Acl, xs)[i] == c * b[i];
    }
  }

  /** The first output at the steady state is the setpoint, by the choice of Kr. */
  lemma EquilibriumMeasures(Acl: Matrix, B: Matrix, C: Matrix, Ai: Matrix, Kr: real, xd: real)
    requires |Acl| > 0 && IsMatrix(Ai, |Acl|, |Acl|) && IsMatrix(B, |Acl|, 1)
    requires |C| > 0 && IsMatrix(C, |C|, |Acl|)
    requires Kr * DcGain(C, Ai, B) == -1.0
    ensures Dot(C[0], SteadyState(Ai, B, Kr, xd)) == xd
  {
    var c := -(xd * Kr);
    var w := MatVec(Ai, Col(B, 0));
    var g := DcGain(C, Ai, B);
    calc {
      Dot(C[0], VScale(c, w));
      { DotScaleRight(c, C[0], w); }
      c * Dot(C[0], w);
      { FirstOutputIsDcGain(C, Ai, B); }
      c * g;
      -(xd * (Kr * g));
      { assert Kr * g == -1.0; }
      -(xd * -1.0);
      xd;
    }
  }
}
