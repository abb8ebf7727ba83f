/** The receding-horizon controller's route to the prediction matrices. It
    stacks the N steps x_(i+1) = A x_i + B u_i into one linear system
      (I - Abar) X = E x0 + Bbar U,
    with Abar the block sub-diagonal shift carrying A, Bbar = kron(I_N, B)
    and E the first block column of kron(I_N, A), and solves it with the
    inverse of I - Abar:
      Ahat = (I - Abar)^-1 E,   Cbar = (I - Abar)^-1 Bbar.
    This module proves that route gives the same matrices as the direct
    construction, and that I - Abar is invertible whatever A is: its inverse
    is I + Abar + ... + Abar^(N-1), written out block by block. */
module LiftedPrediction {
  import opened Arith
  import opened Matrices
  import opened Blocks
  import opened StateSpace
  import opened Prediction

  /** Abar = vstack(zeros((n, N n)), hstack(kron(eye(N-1), A), zeros((n (N-1), n)))). */
  function Shift(A: Matrix, N: nat): (Abar: Matrix)
    requires IsSquare(A) && |A| > 0 && N > 0
    ensures IsMatrix(Abar, N * |A|, N * |A|)
  {
    var n := |A|;
    KronShape(Identity(N - 1), A);
    assert (N - 1) * n + n == N * n;
    Zeros(n, N * n) + HStack(Kron(Identity(N - 1), A), Zeros((N - 1) * n, n))
  }

  /** I - Abar. */
  function Lifted(A: Matrix, N: nat): (M: Matrix)
    requires IsSquare(A) && |A| > 0 && N > 0
    ensures IsMatrix(M, N * |A|, N * |A|)
  {
    IdentityMinus(Shift(A, N))
  }

  /** Bbar = kron(eye(N), B). */
  function InputMatrix(B: Matrix, N: nat): (Bbar: Matrix)
    requires |B| > 0 && IsMatrix(B, |B|, 1)
    ensures IsMatrix(Bbar, N * |B|, N)
  {
    KronShape(Identity(N), B);
    Kron(Identity(N), B)
  }

  /** E = kron(eye(N), A)[:, 0:n]. */
  function InitialMatrix(A: Matrix, N: nat): (E: Matrix)
    requires IsSquare(A) && |A| > 0 && N > 0
    ensures IsMatrix(E, N * |A|, |A|)
  {
    KronShape(Identity(N), A);
    MulMono(1, N, |A|);
    ColumnRange(Kron(Identity(N), A), 0, |A|)
  }

  // ----- the shift -----

  /** Row s of block row i of Abar, written out: zero in block row 0,
      otherwise A[s] in block column i - 1. */
  function PlacedRow(A: Matrix, N: nat, i: nat, s: nat): Vector
    requires i < N && s < |A|
  {
    if i == 0 then ZeroVec(N * |A|) else OneHot(A[s], i - 1, N)
  }

  /** Block row i of Abar, written out. */
  function PlacedBlock(A: Matrix, N: nat, i: nat): Matrix
    requires i < N
  {
    seq(|A|, s requires 0 <= s < |A| => PlacedRow(A, N, i, s))
  }

  /** S has the rows of Abar. */
  ghost predicate IsShift(S: Matrix, A: Matrix, N: nat) {
    IsSquare(A) && |A| > 0 && IsMatrix(S, N * |A|, N * |A|) &&
    forall i | 0 <= i < N :: Chunk(S, |A|, i) == PlacedBlock(A, N, i)
  }

  /** Row s of block i of a matrix with the rows of Abar. */
  lemma ShiftedRow(S: Matrix, A: Matrix, N: nat, i: nat, s: nat)
    requires IsShift(S, A, N) && i < N && s < |A|
    ensures i * |A| + s < |S| && S[i * |A| + s] == PlacedRow(A, N, i, s)
  {
    ChunkEntry(S, |A|, N, i, s);
    assert Chunk(S, |A|, i) == PlacedBlock(A, N, i);
  }

  /** Row k * n + s of kron(I_m, A) is A[s] in block column k. */
  lemma KronIdentityRow(A: Matrix, m: nat, k: nat, s: nat)
    requires IsSquare(A) && |A| > 0 && k < m && s < |A|
    ensures k * |A| + s < m * |A| == |Kron(Identity(m), A)|
    ensures Kron(Identity(m), A)[k * |A| + s] == OneHot(A[s], k, m)
  {
    var n := |A|;
    var K := Kron(Identity(m), A);
    KronShape(Identity(m), A);
    assert Width(Identity(m)) == m && Width(A) == n;
    BlockInRange(k, s, n, m);
    var row, rhs := K[k * n + s], OneHot(A[s], k, m);
    forall c | 0 <= c < m * n
      ensures row[c] == rhs[c]
    {
      var j, t := Split(c, n, m);
      KronEntry(Identity(m), A, k, s, j, t);
      OneHotEntry(A[s], k, m, j, t);
    }
  }

  /** Abar's rows below the first block row are those of
      hstack(kron(eye(N-1), A), zeros). */
  lemma ShiftLowerRow(A: Matrix, N: nat, i: nat, s: nat)
    requires IsSquare(A) && |A| > 0 && 0 < i < N && s < |A|
    ensures i * |A| + s < N * |A| && (i - 1) * |A| + s < (N - 1) * |A|
    ensures Shift(A, N)[i * |A| + s] == Kron(Identity(N - 1), A)[(i - 1) * |A| + s] + ZeroVec(|A|)
  {
    var n := |A|;
    KronShape(Identity(N - 1), A);
    BlockInRange(i, s, n, N);
    BlockInRange(i - 1, s, n, N - 1);
    AddBlocks(i - 1, 1, i, n);
    var H := HStack(Kron(Identity(N - 1), A), Zeros((N - 1) * n, n));
    assert Shift(A, N) == Zeros(n, N * n) + H;
    assert Shift(A, N)[i * n + s] == H[(i - 1) * n + s];
  }

  /** Row s of block row i of Abar: zero for the first block row, otherwise
      the row A[s] placed in block column i - 1. */
  lemma ShiftRow(A: Matrix, N: nat, i: nat, s: nat)
    requires IsSquare(A) && |A| > 0 && i < N && s < |A|
    ensures i * |A| + s < N * |A|
    ensures Shift(A, N)[i * |A| + s] == PlacedRow(A, N, i, s)
  {
    BlockInRange(i, s, |A|, N);
    if i == 0 {
      MulMono(1, N, |A|);
    } else {
      ShiftLowerRow(A, N, i, s);
      KronIdentityRow(A, N - 1, i - 1, s);
      OneHotExtend(A[s], i - 1, N - 1);
    }
  }

  /** Block row i of Abar is the one PlacedBlock writes out. */
  lemma ShiftBlock(A: Matrix, N: nat, i: nat)
    requires IsSquare(A) && |A| > 0 && i < N
    ensures Chunk(Shift(A, N), |A|, i) == PlacedBlock(A, N, i)
  {
    var n := |A|;
    var C := Chunk(Shift(A, N), n, i);
    ChunkShape(Shift(A, N), n, N, N * n, i);
    assert |C| == n;
    forall s | 0 <= s < n
      ensures C[s] == PlacedRow(A, N, i, s)
    {
      ChunkEntry(Shift(A, N), n, N, i, s);
      ShiftRow(A, N, i, s);
    }
  }

  /** Abar = vstack(zeros, hstack(kron(eye(N-1), A), zeros)) has the rows
      written out by PlacedRow. */
  lemma ShiftRows(A: Matrix, N: nat)
    requires IsSquare(A) && |A| > 0 && N > 0
    ensures IsShift(Shift(A, N), A, N)
  {
    forall i | 0 <= i < N
      ensures Chunk(Shift(A, N), |A|, i) == PlacedBlock(A, N, i)
    {
      ShiftBlock(A, N, i);
    }
  }

  /** Entry (i * n + s, j * n + t) of a matrix with the rows of Abar. */
  lemma ShiftedEntry(S: Matrix, A: Matrix, N: nat, i: nat, s: nat, j: nat, t: nat)
    requires IsShift(S, A, N) && i < N && j < N && s < |A| && t < |A|
    ensures i * |A| + s < N * |A| && j * |A| + t < N * |A|
    ensures S[i * |A| + s][j * |A| + t] == if i == j + 1 then A[s][t] else 0.0
  {
    BlockInRange(j, t, |A|, N);
    ShiftedRow(S, A, N, i, s);
    if i > 0 {
      OneHotEntry(A[s], i - 1, N, j, t);
    }
  }

  /** Block (i, j) of Abar is A when i == j + 1 and zero otherwise: Abar is
      strictly block lower triangular. */
  lemma ShiftEntry(A: Matrix, N: nat, i: nat, s: nat, j: nat, t: nat)
    requires IsSquare(A) && |A| > 0
    requires i < N && j < N && s < |A| && t < |A|
    ensures i * |A| + s < N * |A| && j * |A| + t < N * |A|
    ensures Shift(A, N)[i * |A| + s][j * |A| + t] == if i == j + 1 then A[s][t] else 0.0
  {
    ShiftRows(A, N);
    ShiftedEntry(Shift(A, N), A, N, i, s, j, t);
  }

  /** Row i * n + s of Abar applied to v picks A[s] against block i - 1 of v. */
  lemma ShiftRowDot(S: Matrix, A: Matrix, N: nat, i: nat, s: nat, v: Vector)
    requires IsShift(S, A, N) && i < N && s < |A| && |v| == N * |A|
    ensures i * |A| + s < |S|
    ensures Dot(S[i * |A| + s], v)
         == if i == 0 then 0.0 else Dot(A[s], Chunk(v, |A|, i - 1))
  {
    ShiftedRow(S, A, N, i, s);
    if i == 0 {
      DotZeroLeft(ZeroVec(N * |A|), v);
    } else {
      DotOneHot(A[s], i - 1, N, v);
    }
  }

  /** Entry (i * n + r, j) of Abar X. */
  lemma ShiftTimesEntry(S: Matrix, A: Matrix, N: nat, X: Matrix, i: nat, r: nat, j: nat)
    requires IsShift(S, A, N) && i < N && r < |A|
    requires IsMatrix(X, N * |A|, Width(X)) && j < Width(X)
    ensures i * |A| + r < |S|
    ensures i > 0 ==> IsMatrix(Chunk(X, |A|, i - 1), |A|, Width(X))
    ensures Mul(S, X)[i * |A| + r][j]
         == if i == 0 then 0.0 else Dot(A[r], Col(Chunk(X, |A|, i - 1), j))
  {
    var n := |A|;
    ShiftedRow(S, A, N, i, r);
    var v := Col(X, j);
    assert Mul(S, X)[i * n + r][j] == Dot(S[i * n + r], v);
    ShiftRowDot(S, A, N, i, r, v);
    if i > 0 {
      ChunkOfCol(X, n, N, Width(X), i - 1, j);
    }
  }

  /** Block row i of Abar X is zero for i == 0 and A times block row i - 1
      of X otherwise. */
  lemma ShiftTimes(S: Matrix, A: Matrix, N: nat, X: Matrix, i: nat)
    requires IsShift(S, A, N) && i < N
    requires IsMatrix(X, N * |A|, Width(X))
    ensures i > 0 ==> IsMatrix(Chunk(X, |A|, i - 1), |A|, Width(X))
    ensures Chunk(Mul(S, X), |A|, i)
         == if i == 0 then Zeros(|A|, Width(X)) else Mul(A, Chunk(X, |A|, i - 1))
  {
    var n, c := |A|, Width(X);
    var P := Mul(S, X);
    if i > 0 {
      ChunkShape(X, n, N, c, i - 1);
    }
    ChunkShape(P, n, N, c, i);
    var lhs := Chunk(P, n, i);
    var rhs := if i == 0 then Zeros(n, c) else Mul(A, Chunk(X, n, i - 1));
    forall r | 0 <= r < n
      ensures lhs[r] == rhs[r]
    {
      ChunkEntry(P, n, N, i, r);
      forall j | 0 <= j < c
        ensures lhs[r][j] == rhs[r][j]
      {
        ShiftTimesEntry(S, A, N, X, i, r, j);
      }
    }
  }

  /** I - S. */
  function IdentityMinus(S: Matrix): (M: Matrix)
    requires IsSquare(S)
    ensures IsSquare(M) && |M| == |S|
  {
    Sub(Identity(|S|), S)
  }

  /** Block row i of (I - Abar) X: block 0 unchanged, block i minus A times
      block i - 1 — the prediction recurrence written as a residual. */
  lemma LiftedTimes(S: Matrix, A: Matrix, N: nat, X: Matrix, i: nat)
    requires IsShift(S, A, N) && i < N
    requires IsMatrix(X, N * |A|, Width(X))
    ensures IsMatrix(Chunk(X, |A|, i), |A|, Width(X))
    ensures i > 0 ==> IsMatrix(Chunk(X, |A|, i - 1), |A|, Width(X))
    ensures Chunk(Mul(IdentityMinus(S), X), |A|, i)
         == if i == 0 then Chunk(X, |A|, 0)
            else Sub(Chunk(X, |A|, i), Mul(A, Chunk(X, |A|, i - 1)))
  {
    var n, c := |A|, Width(X);
    BlockInRange(i, 0, n, N);
    ChunkShape(X, n, N, c, i);
    MulSubLeft(Identity(N * n), S, X);
    MulIdentityLeft(X);
    ChunkOfSub(X, Mul(S, X), n, i);
    ShiftTimes(S, A, N, X, i);
    if i == 0 {
      var C0 := Chunk(X, n, 0);
      forall r | 0 <= r < n
        ensures Sub(C0, Zeros(n, c))[r] == C0[r]
      {
      }
    }
  }

  // ----- the three right-hand sides -----

  /** Block row i of kron(I_N, B) is B in block column i. */
  lemma InputMatrixChunk(B: Matrix, N: nat, i: nat)
    requires |B| > 0 && IsMatrix(B, |B|, 1) && i < N
    ensures Chunk(InputMatrix(B, N), |B|, i) == BbarRow(B, N, i)
  {
    var n := |B|;
    var Bb := InputMatrix(B, N);
    BlockInRange(i, 0, n, N);
    forall s | 0 <= s < n
      ensures Chunk(Bb, n, i)[s] == BbarRow(B, N, i)[s]
    {
      ChunkEntry(Bb, n, N, i, s);
      forall j | 0 <= j < N
        ensures Bb[i * n + s][j] == BbarRow(B, N, i)[s][j]
      {
        KronEntry(Identity(N), B, i, s, j, 0);
      }
    }
  }

  /** Block row i of E is A for i == 0 and zero after. */
  lemma InitialMatrixChunk(A: Matrix, N: nat, i: nat)
    requires IsSquare(A) && |A| > 0 && N > 0 && i < N
    ensures Chunk(InitialMatrix(A, N), |A|, i) == if i == 0 then A else Zeros(|A|, |A|)
  {
    var n := |A|;
    var E := InitialMatrix(A, N);
    var K := Kron(Identity(N), A);
    BlockInRange(i, 0, n, N);
    KronShape(Identity(N), A);
    var rhs := if i == 0 then A else Zeros(n, n);
    forall s | 0 <= s < n
      ensures Chunk(E, n, i)[s] == rhs[s]
    {
      ChunkEntry(E, n, N, i, s);
      forall t | 0 <= t < n
        ensures E[i * n + s][t] == rhs[s][t]
      {
        assert Width(A) == n;
        KronEntry(Identity(N), A, i, s, 0, t);
        assert E[i * n + s][t] == K[i * n + s][0 * n + t];
      }
    }
  }

  /** The recurrence Cbar_i = A Cbar_(i-1) + Bbar_i as a residual. */
  lemma CbarResidual(A: Matrix, B: Matrix, N: nat, i: nat)
    requires LinearPlant(A, B) && i > 0
    ensures Sub(CbarRow(A, B, N, i), Mul(A, CbarRow(A, B, N, i - 1))) == BbarRow(B, N, i)
  {
    var row := CbarRow(A, B, N, i);
    var prev := Mul(A, CbarRow(A, B, N, i - 1));
    CbarRowRecurrence(A, B, N, i);
    forall r | 0 <= r < |A|
      ensures Sub(row, prev)[r] == BbarRow(B, N, i)[r]
    {
    }
  }

  /** Block row i of (I - Abar) Cbar: Cbar_0 = Bbar_0 and
      Cbar_i - A Cbar_(i-1) = Bbar_i. */
  lemma LiftedCbarChunk(S: Matrix, A: Matrix, B: Matrix, N: nat, i: nat)
    requires LinearPlant(A, B) && IsShift(S, A, N) && i < N
    ensures IsMatrix(CbarDirect(A, B, N), N * |A|, N)
    ensures Chunk(Mul(IdentityMinus(S), CbarDirect(A, B, N)), |A|, i)
         == Chunk(InputMatrix(B, N), |A|, i)
  {
    var n := |A|;
    var Cbar := CbarDirect(A, B, N);
    CbarDirectShape(A, B, N);
    LiftedTimes(S, A, N, Cbar, i);
    InputMatrixChunk(B, N, i);
    assert Chunk(Cbar, n, i) == CbarRow(A, B, N, i);
    if i == 0 {
      CbarRowFirst(A, B, N);
    } else {
      assert Chunk(Cbar, n, i - 1) == CbarRow(A, B, N, i - 1);
      CbarResidual(A, B, N, i);
    }
  }

  /** (I - Abar) Cbar = Bbar. */
  lemma LiftedCbar(A: Matrix, B: Matrix, N: nat)
    requires LinearPlant(A, B) && N > 0
    ensures IsMatrix(CbarDirect(A, B, N), N * |A|, N)
    ensures Mul(Lifted(A, N), CbarDirect(A, B, N)) == InputMatrix(B, N)
  {
    var S := Shift(A, N);
    ShiftRows(A, N);
    CbarDirectShape(A, B, N);
    var lhs := Mul(IdentityMinus(S), CbarDirect(A, B, N));
    forall i | 0 <= i < N
      ensures Chunk(lhs, |A|, i) == Chunk(InputMatrix(B, N), |A|, i)
    {
      LiftedCbarChunk(S, A, B, N, i);
    }
    ChunksDetermine(lhs, InputMatrix(B, N), |A|, N);
  }

  /** Block row i of (I - Abar) Ahat: A^1 = A, and A^(i+1) - A A^i = 0. */
  lemma LiftedAhatChunk(S: Matrix, A: Matrix, N: nat, i: nat)
    requires IsShift(S, A, N) && i < N
    ensures IsMatrix(AhatDirect(A, N), N * |A|, |A|)
    ensures Chunk(Mul(IdentityMinus(S), AhatDirect(A, N)), |A|, i)
         == Chunk(InitialMatrix(A, N), |A|, i)
  {
    var n := |A|;
    var Ahat := AhatDirect(A, N);
    AhatDirectShape(A, N);
    LiftedTimes(S, A, N, Ahat, i);
    InitialMatrixChunk(A, N, i);
    if i == 0 {
      MulIdentityRight(A, n);
      assert Chunk(Ahat, n, 0) == Pow(A, 1) == A;
    } else {
      var P := Pow(A, i + 1);
      assert Chunk(Ahat, n, i) == P;
      assert Mul(A, Chunk(Ahat, n, i - 1)) == P;
      forall r | 0 <= r < n
        ensures Sub(P, P)[r] == Zeros(n, n)[r]
      {
      }
      assert Sub(P, P) == Zeros(n, n);
    }
  }

  /** (I - Abar) Ahat = E. */
  lemma LiftedAhat(A: Matrix, N: nat)
    requires IsSquare(A) && |A| > 0 && N > 0
    ensures IsMatrix(AhatDirect(A, N), N * |A|, |A|)
    ensures Mul(Lifted(A, N), AhatDirect(A, N)) == InitialMatrix(A, N)
  {
    var S := Shift(A, N);
    ShiftRows(A, N);
    AhatDirectShape(A, N);
    var lhs := Mul(IdentityMinus(S), AhatDirect(A, N));
    forall i | 0 <= i < N
      ensures Chunk(lhs, |A|, i) == Chunk(InitialMatrix(A, N), |A|, i)
    {
      LiftedAhatChunk(S, A, N, i);
    }
    ChunksDetermine(lhs, InitialMatrix(A, N), |A|, N);
  }

  /** With a left inverse of I - Abar, the alternative construction yields
      exactly the direct prediction matrices. */
  lemma AlternativeAgrees(A: Matrix, B: Matrix, N: nat, Mi: Matrix)
    requires LinearPlant(A, B) && N > 0
    requires IsMatrix(Mi, N * |A|, N * |A|)
    requires Mul(Mi, Lifted(A, N)) == Identity(N * |A|)
    ensures Mul(Mi, InitialMatrix(A, N)) == AhatDirect(A, N)
    ensures Mul(Mi, InputMatrix(B, N)) == CbarDirect(A, B, N)
  {
    var M := Lifted(A, N);
    var Ahat, Cbar := AhatDirect(A, N), CbarDirect(A, B, N);
    AhatDirectShape(A, N);
    CbarDirectShape(A, B, N);
    MulMono(1, N, |A|);
    LiftedAhat(A, N);
    LiftedCbar(A, B, N);
    MulAssoc(Mi, M, Ahat);
    MulAssoc(Mi, M, Cbar);
    MulIdentityLeft(Ahat);
    MulIdentityLeft(Cbar);
  }

  // ----- I - Abar is nonsingular -----

  lemma {:induction false} LiftedChunksAgree(S: Matrix, A: Matrix, N: nat, X: Matrix, Y: Matrix, i: nat)
    requires IsShift(S, A, N) && i < N
    requires IsMatrix(X, N * |A|, Width(X)) && IsMatrix(Y, N * |A|, Width(X))
    requires Width(Y) == Width(X)
    requires Mul(IdentityMinus(S), X) == Mul(IdentityMinus(S), Y)
    ensures Chunk(X, |A|, i) == Chunk(Y, |A|, i)
  {
    var n := |A|;
    LiftedTimes(S, A, N, X, i);
    LiftedTimes(S, A, N, Y, i);
    if i > 0 {
      LiftedChunksAgree(S, A, N, X, Y, i - 1);
      var Z := Mul(A, Chunk(X, n, i - 1));
      var Xi, Yi := Chunk(X, n, i), Chunk(Y, n, i);
      assert Sub(Xi, Z) == Sub(Yi, Z);
      forall r | 0 <= r < n
        ensures Xi[r] == Yi[r]
      {
        forall j | 0 <= j < Width(X)
          ensures Xi[r][j] == Yi[r][j]
        {
          assert Sub(Xi, Z)[r][j] == Sub(Yi, Z)[r][j];
        }
      }
    }
  }

  /** (I - Abar) X determines X. */
  lemma LiftedInjective(A: Matrix, N: nat, X: Matrix, Y: Matrix)
    requires IsSquare(A) && |A| > 0 && N > 0
    requires IsMatrix(X, N * |A|, Width(X)) && IsMatrix(Y, N * |A|, Width(X))
    requires Width(Y) == Width(X)
    requires Mul(Lifted(A, N), X) == Mul(Lifted(A, N), Y)
    ensures X == Y
  {
    ShiftRows(A, N);
    forall i | 0 <= i < N
      ensures Chunk(X, |A|, i) == Chunk(Y, |A|, i)
    {
      LiftedChunksAgree(Shift(A, N), A, N, X, Y, i);
    }
    ChunksDetermine(X, Y, |A|, N);
  }

  // ----- the inverse of I - Abar -----

  /** Entry (s, t) of block (i, j) of I + Abar + ... + Abar^(N-1): A^(i-j) on
      and below the block diagonal, zero above it. */
  function InverseBlockEntry(A: Matrix, i: nat, s: nat, j: nat, t: nat): real
    requires IsSquare(A) && s < |A| && t < |A|
  {
    if j <= i then Pow(A, i - j)[s][t] else 0.0
  }

  /** I + Abar + ... + Abar^(N-1), entry by entry. */
  function LiftedInverse(A: Matrix, N: nat): (L: Matrix)
    requires IsSquare(A) && |A| > 0
    ensures IsMatrix(L, N * |A|, N * |A|)
  {
    var n := |A|;
    seq(N * n, r requires 0 <= r < N * n =>
      seq(N * n, c requires 0 <= c < N * n => InverseAt(A, N, r, c)))
  }

  /** Entry (r, c) of LiftedInverse: r and c cut into block and offset. */
  function InverseAt(A: Matrix, N: nat, r: nat, c: nat): real
    requires IsSquare(A) && r < N * |A| && c < N * |A|
  {
    Decompose(r, |A|, N);
    Decompose(c, |A|, N);
    InverseBlockEntry(A, r / |A|, r % |A|, c / |A|, c % |A|)
  }

  lemma LiftedInverseEntry(A: Matrix, N: nat, i: nat, s: nat, j: nat, t: nat)
    requires IsSquare(A) && |A| > 0 && i < N && j < N && s < |A| && t < |A|
    ensures i * |A| + s < N * |A| && j * |A| + t < N * |A|
    ensures LiftedInverse(A, N)[i * |A| + s][j * |A| + t] == InverseBlockEntry(A, i, s, j, t)
  {
    BlockInRange(i, s, |A|, N);
    BlockInRange(j, t, |A|, N);
    DivModOfBlock(i, s, |A|);
    DivModOfBlock(j, t, |A|);
  }

  /** Entry (i * n + s, j * n + t) of the identity is 1 exactly when both the
      blocks and the offsets agree. */
  lemma IdentityBlockEntry(N: nat, n: nat, i: nat, s: nat, j: nat, t: nat)
    requires i < N && j < N && s < n && t < n
    ensures i * n + s < N * n && j * n + t < N * n
    ensures Identity(N * n)[i * n + s][j * n + t] == if i == j && s == t then 1.0 else 0.0
  {
    BlockInRange(i, s, n, N);
    BlockInRange(j, t, n, N);
    DivModOfBlock(i, s, n);
    DivModOfBlock(j, t, n);
  }

  /** Column j * n + t of block row i of the inverse: column t of A^(i-j) on
      and below the diagonal, zero above. */
  lemma InverseColumn(A: Matrix, N: nat, i: nat, j: nat, t: nat)
    requires IsSquare(A) && |A| > 0 && i < N && j < N && t < |A|
    ensures j * |A| + t < N * |A|
    ensures IsMatrix(Chunk(LiftedInverse(A, N), |A|, i), |A|, N * |A|)
    ensures Col(Chunk(LiftedInverse(A, N), |A|, i), j * |A| + t)
         == if j <= i then Col(Pow(A, i - j), t) else ZeroVec(|A|)
  {
    var n, L := |A|, LiftedInverse(A, N);
    ChunkShape(L, n, N, N * n, i);
    BlockInRange(j, t, n, N);
    var lhs := Col(Chunk(L, n, i), j * n + t);
    var rhs := if j <= i then Col(Pow(A, i - j), t) else ZeroVec(n);
    forall r | 0 <= r < n
      ensures lhs[r] == rhs[r]
    {
      ChunkEntry(L, n, N, i, r);
      LiftedInverseEntry(A, N, i, r, j, t);
    }
  }

  /** A times column t of A^(i-1-j) is column t of A^(i-j). */
  lemma PowColumnStep(A: Matrix, k: nat, s: nat, t: nat)
    requires IsSquare(A) && |A| > 0 && s < |A| && t < |A|
    ensures Dot(A[s], Col(Pow(A, k), t)) == Pow(A, k + 1)[s][t]
  {
    assert Pow(A, k + 1) == Mul(A, Pow(A, k));
  }

  /** Block rows i and i - 1 of L, and block row i of the identity, at
      row s and column j * n + t. */
  lemma InverseRowFacts(A: Matrix, N: nat, i: nat, s: nat, j: nat, t: nat)
    requires IsSquare(A) && |A| > 0 && 0 < i < N && j < N && s < |A| && t < |A|
    ensures j * |A| + t < N * |A|
    ensures IsMatrix(Chunk(LiftedInverse(A, N), |A|, i), |A|, N * |A|)
    ensures IsMatrix(Chunk(LiftedInverse(A, N), |A|, i - 1), |A|, N * |A|)
    ensures IsMatrix(Chunk(Identity(N * |A|), |A|, i), |A|, N * |A|)
    ensures Chunk(LiftedInverse(A, N), |A|, i)[s][j * |A| + t] == InverseBlockEntry(A, i, s, j, t)
    ensures Col(Chunk(LiftedInverse(A, N), |A|, i - 1), j * |A| + t)
         == if j <= i - 1 then Col(Pow(A, i - 1 - j), t) else ZeroVec(|A|)
    ensures Chunk(Identity(N * |A|), |A|, i)[s][j * |A| + t] == if i == j && s == t then 1.0 else 0.0
  {
    var n, L := |A|, LiftedInverse(A, N);
    ChunkShape(L, n, N, N * n, i);
    ChunkShape(Identity(N * n), n, N, N * n, i);
    InverseColumn(A, N, i - 1, j, t);
    ChunkEntry(L, n, N, i, s);
    LiftedInverseEntry(A, N, i, s, j, t);
    ChunkEntry(Identity(N * n), n, N, i, s);
    IdentityBlockEntry(N, n, i, s, j, t);
  }

  /** Block row 0 of L and of the identity, at row s and column j * n + t. */
  lemma InverseFirstRowFacts(A: Matrix, N: nat, s: nat, j: nat, t: nat)
    requires IsSquare(A) && |A| > 0 && 0 < N && j < N && s < |A| && t < |A|
    ensures j * |A| + t < N * |A|
    ensures IsMatrix(Chunk(LiftedInverse(A, N), |A|, 0), |A|, N * |A|)
    ensures IsMatrix(Chunk(Identity(N * |A|), |A|, 0), |A|, N * |A|)
    ensures Chunk(LiftedInverse(A, N), |A|, 0)[s][j * |A| + t]
         == Chunk(Identity(N * |A|), |A|, 0)[s][j * |A| + t]
  {
    var n, L := |A|, LiftedInverse(A, N);
    ChunkShape(L, n, N, N * n, 0);
    ChunkShape(Identity(N * n), n, N, N * n, 0);
    ChunkEntry(L, n, N, 0, s);
    LiftedInverseEntry(A, N, 0, s, j, t);
    ChunkEntry(Identity(N * n), n, N, 0, s);
    IdentityBlockEntry(N, n, 0, s, j, t);
  }

  /** Block row i of L minus A times block row i - 1 leaves the identity's
      block row i: A^(i-j) - A A^(i-1-j) = 0 below the diagonal, I - 0 on
      it and 0 - 0 above it. */
  lemma ResidualEntry(A: Matrix, Cur: Matrix, Prev: Matrix, Id: Matrix, i: nat, s: nat, j: nat, t: nat, c: nat)
    requires IsSquare(A) && |A| > 0 && i > 0 && s < |A| && t < |A|
    requires IsMatrix(Cur, |A|, Width(Cur)) && IsMatrix(Prev, |A|, Width(Cur))
    requires IsMatrix(Id, |A|, Width(Cur)) && c < Width(Cur)
    requires Cur[s][c] == InverseBlockEntry(A, i, s, j, t)
    requires Col(Prev, c) == if j <= i - 1 then Col(Pow(A, i - 1 - j), t) else ZeroVec(|A|)
    requires Id[s][c] == if i == j && s == t then 1.0 else 0.0
    ensures Sub(Cur, Mul(A, Prev))[s][c] == Id[s][c]
  {
    assert Mul(A, Prev)[s][c] == Dot(A[s], Col(Prev, c));
    if j <= i - 1 {
      PowColumnStep(A, i - 1 - j, s, t);
    } else {
      DotZeroRight(A[s], ZeroVec(|A|));
    }
  }

  /** Entry (s, c) of the residual LiftedTimes describes, for X = L. */
  lemma InverseChunkEntry(A: Matrix, N: nat, i: nat, s: nat, c: nat)
    requires IsSquare(A) && |A| > 0 && i < N && s < |A| && c < N * |A|
    ensures IsMatrix(Chunk(LiftedInverse(A, N), |A|, i), |A|, N * |A|)
    ensures i > 0 ==> IsMatrix(Chunk(LiftedInverse(A, N), |A|, i - 1), |A|, N * |A|)
    ensures IsMatrix(Chunk(Identity(N * |A|), |A|, i), |A|, N * |A|)
    ensures (if i == 0 then Chunk(LiftedInverse(A, N), |A|, 0)
             else Sub(Chunk(LiftedInverse(A, N), |A|, i),
                      Mul(A, Chunk(LiftedInverse(A, N), |A|, i - 1))))[s][c]
         == Chunk(Identity(N * |A|), |A|, i)[s][c]
  {
    var n, L := |A|, LiftedInverse(A, N);
    ChunkShape(L, n, N, N * n, i);
    ChunkShape(Identity(N * n), n, N, N * n, i);
    var j, t := Split(c, n, N);
    if i == 0 {
      InverseFirstRowFacts(A, N, s, j, t);
    } else {
      InverseRowFacts(A, N, i, s, j, t);
      ResidualEntry(A, Chunk(L, n, i), Chunk(L, n, i - 1), Chunk(Identity(N * n), n, i), i, s, j, t, c);
    }
  }

  /** Block row i of (I - Abar) L is block row i of the identity. */
  lemma LiftedInverseChunk(S: Matrix, A: Matrix, N: nat, i: nat)
    requires IsShift(S, A, N) && i < N
    ensures Chunk(Mul(IdentityMinus(S), LiftedInverse(A, N)), |A|, i) == Chunk(Identity(N * |A|), |A|, i)
  {
    var n, L := |A|, LiftedInverse(A, N);
    LiftedTimes(S, A, N, L, i);
    ChunkShape(Identity(N * n), n, N, N * n, i);
    var lhs := Chunk(Mul(IdentityMinus(S), L), n, i);
    var rhs := Chunk(Identity(N * n), n, i);
    forall s | 0 <= s < n
      ensures lhs[s] == rhs[s]
    {
      forall c | 0 <= c < N * n
        ensures lhs[s][c] == rhs[s][c]
      {
        InverseChunkEntry(A, N, i, s, c);
      }
    }
  }

  /** (I - Abar) L = I. */
  lemma LiftedRightInverse(A: Matrix, N: nat)
    requires IsSquare(A) && |A| > 0 && N > 0
    ensures Mul(Lifted(A, N), LiftedInverse(A, N)) == Identity(N * |A|)
  {
    var S := Shift(A, N);
    ShiftRows(A, N);
    var lhs := Mul(IdentityMinus(S), LiftedInverse(A, N));
    forall i | 0 <= i < N
      ensures Chunk(lhs, |A|, i) == Chunk(Identity(N * |A|), |A|, i)
    {
      LiftedInverseChunk(S, A, N, i);
    }
    ChunksDetermine(lhs, Identity(N * |A|), |A|, N);
  }

  /** I - Abar is invertible whatever A is, with inverse I + Abar + ... +
      Abar^(N-1). The left inverse follows from the right one because
      (I - Abar) (L (I - Abar)) = I - Abar and I - Abar is injective. */
  lemma LiftedInvertible(A: Matrix, N: nat)
    requires IsSquare(A) && |A| > 0 && N > 0
    ensures IsInverse(Lifted(A, N), LiftedInverse(A, N))
  {
    var M, L := Lifted(A, N), LiftedInverse(A, N);
    var I := Identity(N * |A|);
    MulMono(1, N, |A|);
    LiftedRightInverse(A, N);
    MulAssoc(M, L, M);
    MulIdentityLeft(M);
    MulIdentityRight(M, N * |A|);
    LiftedInjective(A, N, Mul(L, M), I);
  }
}
