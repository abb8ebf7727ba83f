/** Batch prediction over a horizon of N steps, shared by the finite-horizon
    and the receding-horizon (MPC) controllers: the reference ("direct")
    prediction matrices
      Ahat = [A^1; A^2; ...; A^N]                    (N n x n)
      Cbar, block (i, j) = A^(i-j) B for j <= i, 0 above the diagonal   (N n x N)
    the proof that they reproduce N iterations of the discrete step, and
    the block-diagonal weights Qbar, Rbar with the Hessian H built from them. */
module Prediction {
  import opened Arith
  import opened Matrices
  import opened Blocks
  import opened StateSpace

  // ----- iterating the discrete step -----

  /** x_k, the state after applying u[0], ..., u[k-1] from x0. */
  function StateAt(A: Matrix, B: Matrix, x0: Vector, u: seq<real>, k: nat): (x: Vector)
    requires LinearPlant(A, B) && |x0| == |A| && k <= |u|
    ensures |x| == |A|
  {
    if k == 0 then x0 else LinearStep(A, B, StateAt(A, B, x0, u, k - 1), u[k - 1])
  }

  /** The predicted states x_1 .. x_N for the inputs u[0 .. N-1]. */
  function Trajectory(A: Matrix, B: Matrix, x0: Vector, u: seq<real>): (xs: seq<Vector>)
    requires LinearPlant(A, B) && |x0| == |A|
    ensures |xs| == |u| && AllLength(xs, |A|)
  {
    seq(|u|, i requires 0 <= i < |u| => StateAt(A, B, x0, u, i + 1))
  }

  /** Superposition: x_k = A^k x0 + (the state reached from rest). */
  lemma {:induction false} StateAtSplits(A: Matrix, B: Matrix, x0: Vector, u: seq<real>, k: nat)
    requires LinearPlant(A, B) && |x0| == |A| && k <= |u|
    ensures StateAt(A, B, x0, u, k)
         == VAdd(MatVec(Pow(A, k), x0), StateAt(A, B, ZeroVec(|A|), u, k))
  {
    var n := |A|;
    if k == 0 {
      MatVecIdentity(x0);
      assert VAdd(x0, ZeroVec(n)) == x0;
    } else {
      var free := MatVec(Pow(A, k - 1), x0);
      var rest := StateAt(A, B, ZeroVec(n), u, k - 1);
      var b := VScale(u[k - 1], Col(B, 0));
      calc {
        StateAt(A, B, x0, u, k);
        VAdd(MatVec(A, StateAt(A, B, x0, u, k - 1)), b);
        { StateAtSplits(A, B, x0, u, k - 1); }
        VAdd(MatVec(A, VAdd(free, rest)), b);
        { MatVecAdd(A, free, rest); }
        VAdd(VAdd(MatVec(A, free), MatVec(A, rest)), b);
        VAdd(MatVec(A, free), VAdd(MatVec(A, rest), b));
        { PowStep(A, k - 1, x0); }
        VAdd(MatVec(Pow(A, k), x0), StateAt(A, B, ZeroVec(n), u, k));
      }
    }
  }

  // ----- the direct prediction matrices -----

  /** The blocks A^1 .. A^N. */
  function AhatBlocks(A: Matrix, N: nat): (parts: seq<Matrix>)
    requires IsSquare(A)
    ensures |parts| == N && AllLength(parts, |A|)
    ensures forall i :: 0 <= i < N ==> parts[i] == Pow(A, i + 1)
  {
    seq(N, i requires 0 <= i < N => Pow(A, i + 1))
  }

  /** Ahat: the powers A^1 .. A^N stacked. */
  function AhatDirect(A: Matrix, N: nat): Matrix
    requires IsSquare(A)
  {
    Concat(AhatBlocks(A, N))
  }

  /** A^k B, an n x 1 matrix. */
  function PowB(A: Matrix, B: Matrix, k: nat): (r: Matrix)
    requires LinearPlant(A, B)
    ensures IsMatrix(r, |A|, 1)
  {
    Mul(Pow(A, k), B)
  }

  /** Block row i of Cbar: column j holds A^(i-j) B for j <= i, zero after. */
  function CbarRow(A: Matrix, B: Matrix, N: nat, i: nat): (r: Matrix)
    requires LinearPlant(A, B)
    ensures IsMatrix(r, |A|, N)
  {
    seq(|A|, s requires 0 <= s < |A| =>
      seq(N, j requires 0 <= j < N => if j <= i then PowB(A, B, i - j)[s][0] else 0.0))
  }

  /** The block rows 0 .. N-1 of Cbar. */
  function CbarRows(A: Matrix, B: Matrix, N: nat): (parts: seq<Matrix>)
    requires LinearPlant(A, B)
    ensures |parts| == N && AllLength(parts, |A|)
    ensures forall i :: 0 <= i < N ==> parts[i] == CbarRow(A, B, N, i)
  {
    seq(N, i requires 0 <= i < N => CbarRow(A, B, N, i))
  }

  /** Cbar: the block rows stacked. */
  function CbarDirect(A: Matrix, B: Matrix, N: nat): Matrix
    requires LinearPlant(A, B)
  {
    Concat(CbarRows(A, B, N))
  }

  /** Block row i of the block-diagonal input matrix kron(I_N, B): B in column i. */
  function BbarRow(B: Matrix, N: nat, i: nat): (r: Matrix)
    requires IsMatrix(B, |B|, 1)
    ensures IsMatrix(r, |B|, N)
  {
    seq(|B|, s requires 0 <= s < |B| =>
      seq(N, j requires 0 <= j < N => if j == i then B[s][0] else 0.0))
  }

  lemma AhatDirectShape(A: Matrix, N: nat)
    requires IsSquare(A)
    ensures IsMatrix(AhatDirect(A, N), N * |A|, |A|)
    ensures forall i :: 0 <= i < N ==> Chunk(AhatDirect(A, N), |A|, i) == Pow(A, i + 1)
  {
    var parts := AhatBlocks(A, N);
    forall i | 0 <= i < N
      ensures IsMatrix(parts[i], |A|, |A|)
    {
      assert parts[i] == Pow(A, i + 1);
    }
    ConcatShape(parts, |A|, |A|);
    forall i | 0 <= i < N
      ensures Chunk(AhatDirect(A, N), |A|, i) == Pow(A, i + 1)
    {
      ChunkOfConcat(parts, |A|, i);
    }
  }

  lemma CbarDirectShape(A: Matrix, B: Matrix, N: nat)
    requires LinearPlant(A, B)
    ensures IsMatrix(CbarDirect(A, B, N), N * |A|, N)
    ensures forall i :: 0 <= i < N ==> Chunk(CbarDirect(A, B, N), |A|, i) == CbarRow(A, B, N, i)
  {
    var parts := CbarRows(A, B, N);
    ConcatShape(parts, |A|, N);
    forall i | 0 <= i < N
      ensures Chunk(CbarDirect(A, B, N), |A|, i) == CbarRow(A, B, N, i)
    {
      ChunkOfConcat(parts, |A|, i);
    }
  }

  /** A (A^k B) == A^(k+1) B, entry s. */
  lemma PowBStep(A: Matrix, B: Matrix, k: nat, s: nat)
    requires LinearPlant(A, B) && s < |A|
    ensures Dot(A[s], Col(PowB(A, B, k), 0)) == PowB(A, B, k + 1)[s][0]
  {
    MulAssoc(A, Pow(A, k), B);
    assert Mul(A, PowB(A, B, k))[s][0] == Dot(A[s], Col(PowB(A, B, k), 0));
  }

  /** The block rows of Cbar obey Cbar_0 = Bbar_0 and
      Cbar_i = A Cbar_(i-1) + Bbar_i: this is (I - Abar) Cbar = Bbar read
      block row by block row. */
  lemma CbarRowFirst(A: Matrix, B: Matrix, N: nat)
    requires LinearPlant(A, B)
    ensures CbarRow(A, B, N, 0) == BbarRow(B, N, 0)
  {
    MulIdentityLeft(B);
    forall s | 0 <= s < |A|
      ensures CbarRow(A, B, N, 0)[s] == BbarRow(B, N, 0)[s]
    {
    }
  }

  lemma CbarRowRecurrence(A: Matrix, B: Matrix, N: nat, i: nat)
    requires LinearPlant(A, B) && i > 0
    ensures CbarRow(A, B, N, i) == Add(Mul(A, CbarRow(A, B, N, i - 1)), BbarRow(B, N, i))
  {
    var n := |A|;
    var prev := CbarRow(A, B, N, i - 1);
    var rhs := Add(Mul(A, prev), BbarRow(B, N, i));
    forall s | 0 <= s < n
      ensures CbarRow(A, B, N, i)[s] == rhs[s]
    {
      forall j | 0 <= j < N
        ensures CbarRow(A, B, N, i)[s][j] == rhs[s][j]
      {
        assert Mul(A, prev)[s][j] == Dot(A[s], Col(prev, j));
        CbarEntryStep(A, B, N, i, s, j);
      }
    }
  }

  /** Entry (s, j) of block row i of Cbar from block row i - 1. */
  lemma CbarEntryStep(A: Matrix, B: Matrix, N: nat, i: nat, s: nat, j: nat)
    requires LinearPlant(A, B) && i > 0 && s < |A| && j < N
    ensures CbarRow(A, B, N, i)[s][j]
         == Dot(A[s], Col(CbarRow(A, B, N, i - 1), j)) + BbarRow(B, N, i)[s][j]
  {
    if j < i {
      CbarEntryBelow(A, B, N, i, s, j);
    } else {
      var prev := CbarRow(A, B, N, i - 1);
      assert Col(prev, j) == ZeroVec(|A|);
      DotZeroRight(A[s], Col(prev, j));
      if j == i {
        MulIdentityLeft(B);
        assert PowB(A, B, 0) == B;
      }
    }
  }

  /** Below the diagonal, A^(i-j) B = A (A^(i-1-j) B). */
  lemma CbarEntryBelow(A: Matrix, B: Matrix, N: nat, i: nat, s: nat, j: nat)
    requires LinearPlant(A, B) && j < i && s < |A| && j < N
    ensures CbarRow(A, B, N, i)[s][j] == Dot(A[s], Col(CbarRow(A, B, N, i - 1), j))
  {
    var prev := CbarRow(A, B, N, i - 1);
    var P := PowB(A, B, i - 1 - j);
    forall r | 0 <= r < |A|
      ensures Col(prev, j)[r] == Col(P, 0)[r]
    {
    }
    assert Col(prev, j) == Col(P, 0);
    PowBStep(A, B, i - 1 - j, s);
  }

  /** Block row i of Bbar applied to u is u[i] B. */
  lemma BbarRowApply(B: Matrix, u: seq<real>, i: nat)
    requires IsMatrix(B, |B|, 1) && i < |u|
    ensures MatVec(BbarRow(B, |u|, i), u) == VScale(u[i], Col(B, 0))
  {
    var N := |u|;
    forall s | 0 <= s < |B|
      ensures MatVec(BbarRow(B, N, i), u)[s] == VScale(u[i], Col(B, 0))[s]
    {
      assert BbarRow(B, N, i)[s] == VScale(B[s][0], Identity(N)[i]);
      DotScaleLeft(B[s][0], Identity(N)[i], u);
      DotUnit(N, i, u);
    }
  }

  /** Block row i of Cbar maps the inputs to x_(i+1) reached from rest. */
  lemma {:induction false} CbarRowResponse(A: Matrix, B: Matrix, u: seq<real>, i: nat)
    requires LinearPlant(A, B) && i < |u|
    ensures MatVec(CbarRow(A, B, |u|, i), u) == StateAt(A, B, ZeroVec(|A|), u, i + 1)
  {
    var n, N := |A|, |u|;
    var zero := ZeroVec(n);
    var b := VScale(u[i], Col(B, 0));
    if i == 0 {
      CbarRowFirst(A, B, N);
      BbarRowApply(B, u, 0);
      forall s | 0 <= s < n
        ensures MatVec(A, zero)[s] == 0.0
      {
        DotZeroRight(A[s], zero);
      }
      assert VAdd(MatVec(A, zero), b) == b;
    } else {
      var prev := CbarRow(A, B, N, i - 1);
      CbarRowRecurrence(A, B, N, i);
      MatVecOfAdd(Mul(A, prev), BbarRow(B, N, i), u);
      MulMatVec(A, prev, u);
      BbarRowApply(B, u, i);
      CbarRowResponse(A, B, u, i - 1);
    }
  }

  /** The batch prediction equals the iterated step:
      chunk i of Ahat x0 + Cbar u is x_(i+1). */
  lemma PredictionChunk(A: Matrix, B: Matrix, x0: Vector, u: seq<real>, i: nat)
    requires LinearPlant(A, B) && |x0| == |A| && i < |u|
    ensures IsMatrix(AhatDirect(A, |u|), |u| * |A|, |A|)
    ensures IsMatrix(CbarDirect(A, B, |u|), |u| * |A|, |u|)
    ensures Chunk(VAdd(MatVec(AhatDirect(A, |u|), x0), MatVec(CbarDirect(A, B, |u|), u)), |A|, i)
         == StateAt(A, B, x0, u, i + 1)
  {
    var n, N := |A|, |u|;
    var Ahat, Cbar := AhatDirect(A, N), CbarDirect(A, B, N);
    AhatDirectShape(A, N);
    CbarDirectShape(A, B, N);
    BlockInRange(i, 0, n, N);
    ChunkOfAdd(MatVec(Ahat, x0), MatVec(Cbar, u), n, i);
    ChunkOfMatVec(Ahat, x0, n, i);
    ChunkOfMatVec(Cbar, u, n, i);
    CbarRowResponse(A, B, u, i);
    StateAtSplits(A, B, x0, u, i + 1);
  }

  /** The whole stacked prediction Ahat x0 + Cbar u is the stacked
      trajectory x_1, ..., x_N of the discrete step. */
  lemma PredictionIsTrajectory(A: Matrix, B: Matrix, x0: Vector, u: seq<real>)
    requires LinearPlant(A, B) && |x0| == |A|
    ensures IsMatrix(AhatDirect(A, |u|), |u| * |A|, |A|)
    ensures IsMatrix(CbarDirect(A, B, |u|), |u| * |A|, |u|)
    ensures VAdd(MatVec(AhatDirect(A, |u|), x0), MatVec(CbarDirect(A, B, |u|), u))
         == Concat(Trajectory(A, B, x0, u))
  {
    var n, N := |A|, |u|;
    AhatDirectShape(A, N);
    CbarDirectShape(A, B, N);
    var lhs := VAdd(MatVec(AhatDirect(A, N), x0), MatVec(CbarDirect(A, B, N), u));
    var xs := Trajectory(A, B, x0, u);
    ConcatLength(xs, n);
    forall i | 0 <= i < N
      ensures Chunk(lhs, n, i) == Chunk(Concat(xs), n, i)
    {
      PredictionChunk(A, B, x0, u, i);
      ChunkOfConcat(xs, n, i);
    }
    ChunksDetermine(lhs, Concat(xs), n, N);
  }

  // ----- weights and the Hessian -----

  /** eye(N) with its last diagonal entry cleared. */
  function StageSelector(N: nat): Matrix
    requires N > 0
  {
    Identity(N)[N - 1 := Identity(N)[N - 1][N - 1 := 0.0]]
  }

  /** zeros((N, N)) with its last diagonal entry set. */
  function TerminalSelector(N: nat): Matrix
    requires N > 0
  {
    Zeros(N, N)[N - 1 := Zeros(N, N)[N - 1][N - 1 := 1.0]]
  }

  /** Qbar = kron(tm1, Q) + kron(tm2, P). */
  function Qbar(Q: Matrix, P: Matrix, N: nat): Matrix
    requires N > 0 && IsSquare(Q) && IsMatrix(P, |Q|, |Q|)
  {
    KronShape(StageSelector(N), Q);
    KronShape(TerminalSelector(N), P);
    Add(Kron(StageSelector(N), Q), Kron(TerminalSelector(N), P))
  }

  /** Rbar = kron(eye(N), R). */
  function Rbar(R: Matrix, N: nat): Matrix
    requires Rect(R)
  {
    Kron(Identity(N), R)
  }

  /** H = Cbar^T Qbar Cbar + Rbar. */
  function Hessian(Cbar: Matrix, Qb: Matrix, Rb: Matrix): Matrix
    requires |Cbar| > 0 && Rect(Cbar) && IsSquare(Qb) && |Qb| == |Cbar|
    requires IsMatrix(Rb, Width(Cbar), Width(Cbar))
  {
    Add(Mul(Mul(Transpose(Cbar), Qb), Cbar), Rb)
  }

  /** F^T = Ahat^T Qbar Cbar. */
  function FTrans(Ahat: Matrix, Qb: Matrix, Cbar: Matrix): Matrix
    requires |Ahat| > 0 && Rect(Ahat) && IsSquare(Qb) && |Qb| == |Ahat|
    requires |Cbar| == |Ahat| && Rect(Cbar)
  {
    Mul(Mul(Transpose(Ahat), Qb), Cbar)
  }

  /** Qbar is block diagonal: Q in the diagonal blocks of stages 0 .. N-2,
      P in the last one, zero off the diagonal. */
  lemma QbarEntry(Q: Matrix, P: Matrix, N: nat, a: nat, s: nat, b: nat, t: nat)
    requires N > 0 && IsSquare(Q) && IsMatrix(P, |Q|, |Q|)
    requires a < N && b < N && s < |Q| && t < |Q|
    ensures IsMatrix(Qbar(Q, P, N), N * |Q|, N * |Q|)
    ensures a * |Q| + s < N * |Q| && b * |Q| + t < N * |Q|
    ensures Qbar(Q, P, N)[a * |Q| + s][b * |Q| + t]
         == if a != b then 0.0 else if a < N - 1 then Q[s][t] else P[s][t]
  {
    assert Width(Q) == |Q| && Width(P) == |Q|;
    KronEntry(StageSelector(N), Q, a, s, b, t);
    KronEntry(TerminalSelector(N), P, a, s, b, t);
  }

  /** Rbar is diagonal with the scalar weight R on the diagonal. */
  lemma RbarEntry(R: Matrix, N: nat, a: nat, b: nat)
    requires IsMatrix(R, 1, 1) && a < N && b < N
    ensures IsMatrix(Rbar(R, N), N, N)
    ensures Rbar(R, N)[a][b] == if a == b then R[0][0] else 0.0
  {
    KronEntry(Identity(N), R, a, 0, b, 0);
  }

  lemma QbarSymmetric(Q: Matrix, P: Matrix, N: nat)
    requires N > 0 && Symmetric(Q) && Symmetric(P) && |P| == |Q|
    ensures Symmetric(Qbar(Q, P, N))
  {
    KronShape(StageSelector(N), Q);
    KronShape(TerminalSelector(N), P);
    KronSymmetric(StageSelector(N), Q);
    KronSymmetric(TerminalSelector(N), P);
    SymmetricAdd(Kron(StageSelector(N), Q), Kron(TerminalSelector(N), P));
  }

  lemma RbarSymmetric(R: Matrix, N: nat)
    requires Symmetric(R)
    ensures Symmetric(Rbar(R, N))
  {
    KronSymmetric(Identity(N), R);
  }

  /** H is symmetric because the weights are. */
  lemma HessianSymmetric(Cbar: Matrix, Qb: Matrix, Rb: Matrix)
    requires |Cbar| > 0 && Rect(Cbar) && Symmetric(Qb) && |Qb| == |Cbar|
    requires Symmetric(Rb) && |Rb| == Width(Cbar)
    ensures Symmetric(Hessian(Cbar, Qb, Rb))
  {
    CongruenceSymmetric(Cbar, Qb);
    SymmetricAdd(Mul(Mul(Transpose(Cbar), Qb), Cbar), Rb);
  }
}
