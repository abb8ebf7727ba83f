/** Dense real matrices as sequences of rows, with the handful of operations
    the controllers use (numpy's `+`, `-`, `*` on matrices, `.T`,
    `matrix_power`), and the algebraic facts the horizon constructions rest
    on. float64 is idealised as exact `real`. */
module Matrices {

  type Vector = seq<real>
  type Matrix = seq<seq<real>>

  /** Number of columns: the length of the first row (0 for no rows). */
  function Width(M: Matrix): nat {
    if |M| == 0 then 0 else |M[0]|
  }

  predicate IsMatrix(M: Matrix, rows: nat, cols: nat) {
    |M| == rows && forall i :: 0 <= i < |M| ==> |M[i]| == cols
  }

  /** All rows have the same length. */
  predicate Rect(M: Matrix) {
    IsMatrix(M, |M|, Width(M))
  }

  predicate IsSquare(M: Matrix) {
    IsMatrix(M, |M|, |M|)
  }

  predicate Symmetric(M: Matrix) {
    IsSquare(M) && forall i, j :: 0 <= i < |M| && 0 <= j < |M| ==> M[i][j] == M[j][i]
  }

  /** X is a two-sided inverse of the square matrix M. */
  predicate IsInverse(M: Matrix, X: Matrix) {
    && IsSquare(M) && IsMatrix(X, |M|, |M|)
    && Mul(M, X) == Identity(|M|) && Mul(X, M) == Identity(|M|)
  }

  function ZeroVec(n: nat): Vector {
    seq(n, _ => 0.0)
  }

  function Zeros(rows: nat, cols: nat): Matrix {
    seq(rows, _ => ZeroVec(cols))
  }

  function Identity(n: nat): Matrix {
    seq(n, i => seq(n, j => if i == j then 1.0 else 0.0))
  }

  /** A column vector as an n x 1 matrix (numpy's shape (n, 1)). */
  function ColumnMatrix(v: Vector): Matrix {
    seq(|v|, i requires 0 <= i < |v| => [v[i]])
  }

  function VAdd(a: Vector, b: Vector): Vector
    requires |a| == |b|
  {
    seq(|a|, i requires 0 <= i < |a| => a[i] + b[i])
  }

  function VSub(a: Vector, b: Vector): Vector
    requires |a| == |b|
  {
    seq(|a|, i requires 0 <= i < |a| => a[i] - b[i])
  }

  function VScale(k: real, a: Vector): Vector {
    seq(|a|, i requires 0 <= i < |a| => k * a[i])
  }

  function Add(X: Matrix, Y: Matrix): Matrix
    requires |X| == |Y| && forall i :: 0 <= i < |X| ==> |X[i]| == |Y[i]|
  {
    seq(|X|, i requires 0 <= i < |X| => VAdd(X[i], Y[i]))
  }

  function Sub(X: Matrix, Y: Matrix): Matrix
    requires |X| == |Y| && forall i :: 0 <= i < |X| ==> |X[i]| == |Y[i]|
  {
    seq(|X|, i requires 0 <= i < |X| => VSub(X[i], Y[i]))
  }

  function Scale(k: real, X: Matrix): Matrix {
    seq(|X|, i requires 0 <= i < |X| => VScale(k, X[i]))
  }

  function Dot(a: Vector, b: Vector): real
    requires |a| == |b|
    decreases |a|
  {
    if |a| == 0 then 0.0 else a[0] * b[0] + Dot(a[1..], b[1..])
  }

  function Col(M: Matrix, j: nat): Vector
    requires forall i :: 0 <= i < |M| ==> j < |M[i]|
  {
    seq(|M|, i requires 0 <= i < |M| => M[i][j])
  }

  function MatVec(M: Matrix, v: Vector): Vector
    requires forall i :: 0 <= i < |M| ==> |M[i]| == |v|
  {
    seq(|M|, i requires 0 <= i < |M| => Dot(M[i], v))
  }

  /** The row vector a times the matrix Y (c columns). */
  function RowTimes(a: Vector, Y: Matrix, c: nat): Vector
    requires IsMatrix(Y, |a|, c)
  {
    seq(c, j requires 0 <= j < c => Dot(a, Col(Y, j)))
  }

  function Mul(X: Matrix, Y: Matrix): Matrix
    requires Rect(Y) && forall i :: 0 <= i < |X| ==> |X[i]| == |Y|
  {
    seq(|X|, i requires 0 <= i < |X| => RowTimes(X[i], Y, Width(Y)))
  }

  function Transpose(M: Matrix): Matrix
    requires Rect(M)
  {
    seq(Width(M), j requires 0 <= j < Width(M) => Col(M, j))
  }

  /** A^k, with A^0 the identity (numpy's matrix_power). */
  function Pow(A: Matrix, k: nat): (r: Matrix)
    requires IsSquare(A)
    ensures IsMatrix(r, |A|, |A|)
  {
    if k == 0 then Identity(|A|) else Mul(A, Pow(A, k - 1))
  }

  // ----- dot products -----

  lemma {:induction false} DotZeroLeft(a: Vector, b: Vector)
    requires |a| == |b| && forall i :: 0 <= i < |a| ==> a[i] == 0.0
    ensures Dot(a, b) == 0.0
    decreases |a|
  {
    if |a| > 0 {
      DotZeroLeft(a[1..], b[1..]);
    }
  }

  lemma {:induction false} DotZeroRight(a: Vector, b: Vector)
    requires |a| == |b| && forall i :: 0 <= i < |b| ==> b[i] == 0.0
    ensures Dot(a, b) == 0.0
    decreases |a|
  {
    if |a| > 0 {
      DotZeroRight(a[1..], b[1..]);
    }
  }

  lemma {:induction false} DotComm(a: Vector, b: Vector)
    requires |a| == |b|
    ensures Dot(a, b) == Dot(b, a)
    decreases |a|
  {
    if |a| > 0 {
      DotComm(a[1..], b[1..]);
    }
  }

  lemma {:induction false} DotAddLeft(a: Vector, b: Vector, v: Vector)
    requires |a| == |b| == |v|
    ensures Dot(VAdd(a, b), v) == Dot(a, v) + Dot(b, v)
    decreases |a|
  {
    if |a| > 0 {
      assert VAdd(a, b)[1..] == VAdd(a[1..], b[1..]);
      DotAddLeft(a[1..], b[1..], v[1..]);
    }
  }

  lemma {:induction false} DotSubLeft(a: Vector, b: Vector, v: Vector)
    requires |a| == |b| == |v|
    ensures Dot(VSub(a, b), v) == Dot(a, v) - Dot(b, v)
    decreases |a|
  {
    if |a| > 0 {
      assert VSub(a, b)[1..] == VSub(a[1..], b[1..]);
      DotSubLeft(a[1..], b[1..], v[1..]);
    }
  }

  lemma {:induction false} DotScaleLeft(k: real, a: Vector, v: Vector)
    requires |a| == |v|
    ensures Dot(VScale(k, a), v) == k * Dot(a, v)
    decreases |a|
  {
    if |a| > 0 {
      forall i | 0 <= i < |a| - 1
        ensures VScale(k, a)[1..][i] == VScale(k, a[1..])[i]
      {
      }
      assert VScale(k, a)[1..] == VScale(k, a[1..]);
      DotScaleLeft(k, a[1..], v[1..]);
    }
  }

  lemma DotAddRight(a: Vector, v: Vector, w: Vector)
    requires |a| == |v| == |w|
    ensures Dot(a, VAdd(v, w)) == Dot(a, v) + Dot(a, w)
  {
    DotComm(a, VAdd(v, w));
    DotAddLeft(v, w, a);
    DotComm(a, v);
    DotComm(a, w);
  }

  lemma {:induction false} DotScaleRight(k: real, a: Vector, v: Vector)
    requires |a| == |v|
    ensures Dot(a, VScale(k, v)) == k * Dot(a, v)
    decreases |a|
  {
    if |a| > 0 {
      forall i | 0 <= i < |v| - 1
        ensures VScale(k, v)[1..][i] == VScale(k, v[1..])[i]
      {
      }
      assert VScale(k, v)[1..] == VScale(k, v[1..]);
      DotScaleRight(k, a[1..], v[1..]);
    }
  }

  /** Row k of the identity picks entry k. */
  lemma {:induction false} DotUnit(n: nat, k: nat, v: Vector)
    requires k < n && |v| == n
    ensures Dot(Identity(n)[k], v) == v[k]
  {
    DotUnitAt(Identity(n)[k], k, v);
  }

  lemma {:induction false} DotUnitAt(e: Vector, k: nat, v: Vector)
    requires k < |e| == |v|
    requires forall j :: 0 <= j < |e| ==> e[j] == if j == k then 1.0 else 0.0
    ensures Dot(e, v) == v[k]
    decreases |e|
  {
    if k == 0 {
      DotZeroLeft(e[1..], v[1..]);
    } else {
      DotUnitAt(e[1..], k - 1, v[1..]);
    }
  }

  /** A dot product splits along a split of its left factor. */
  lemma {:induction false} DotConcat(a1: Vector, a2: Vector, v: Vector)
    requires |a1| + |a2| == |v|
    ensures Dot(a1 + a2, v) == Dot(a1, v[..|a1|]) + Dot(a2, v[|a1|..])
    decreases |a1|
  {
    if |a1| == 0 {
      assert a1 + a2 == a2;
      assert v[|a1|..] == v;
    } else {
      assert (a1 + a2)[1..] == a1[1..] + a2;
      DotConcat(a1[1..], a2, v[1..]);
      assert v[1..][..|a1| - 1] == v[..|a1|][1..];
      assert v[1..][|a1| - 1..] == v[|a1|..];
    }
  }

  /** A row that is zero outside one window picks out that window of v. */
  lemma DotPlaced(p: nat, a: Vector, q: nat, v: Vector)
    requires |v| == p + |a| + q
    ensures Dot(ZeroVec(p) + a + ZeroVec(q), v) == Dot(a, v[p..p + |a|])
  {
    var front := ZeroVec(p) + a;
    var head := v[..p + |a|];
    DotConcat(front, ZeroVec(q), v);
    DotZeroLeft(ZeroVec(q), v[p + |a|..]);
    DotConcat(ZeroVec(p), a, head);
    DotZeroLeft(ZeroVec(p), head[..p]);
    assert head[p..] == v[p..p + |a|];
  }

  // ----- matrix-vector products -----

  /** A column matrix and its only column determine each other. */
  lemma ColumnMatrixRoundTrip(s: Matrix, v: Vector)
    ensures IsMatrix(s, |s|, 1) ==> ColumnMatrix(Col(s, 0)) == s
    ensures Col(ColumnMatrix(v), 0) == v
  {
    if IsMatrix(s, |s|, 1) {
      forall i | 0 <= i < |s|
        ensures ColumnMatrix(Col(s, 0))[i] == s[i]
      {
        assert s[i] == [s[i][0]];
      }
    }
  }

  lemma MatVecAdd(M: Matrix, x: Vector, y: Vector)
    requires |x| == |y| && forall i :: 0 <= i < |M| ==> |M[i]| == |x|
    ensures MatVec(M, VAdd(x, y)) == VAdd(MatVec(M, x), MatVec(M, y))
  {
    forall i | 0 <= i < |M| {
      DotAddRight(M[i], x, y);
    }
  }

  lemma MatVecScale(M: Matrix, k: real, x: Vector)
    requires forall i :: 0 <= i < |M| ==> |M[i]| == |x|
    ensures MatVec(M, VScale(k, x)) == VScale(k, MatVec(M, x))
  {
    forall i | 0 <= i < |M|
      ensures MatVec(M, VScale(k, x))[i] == VScale(k, MatVec(M, x))[i]
    {
      DotScaleRight(k, M[i], x);
    }
  }

  lemma MatVecOfAdd(X: Matrix, Y: Matrix, v: Vector)
    requires IsMatrix(X, |X|, |v|) && IsMatrix(Y, |X|, |v|)
    ensures MatVec(Add(X, Y), v) == VAdd(MatVec(X, v), MatVec(Y, v))
  {
    forall i | 0 <= i < |X| {
      DotAddLeft(X[i], Y[i], v);
    }
  }

  lemma MatVecOfSub(X: Matrix, Y: Matrix, v: Vector)
    requires IsMatrix(X, |X|, |v|) && IsMatrix(Y, |X|, |v|)
    ensures MatVec(Sub(X, Y), v) == VSub(MatVec(X, v), MatVec(Y, v))
  {
    forall i | 0 <= i < |X| {
      DotSubLeft(X[i], Y[i], v);
    }
  }

  lemma MatVecOfScale(k: real, X: Matrix, v: Vector)
    requires IsMatrix(X, |X|, |v|)
    ensures MatVec(Scale(k, X), v) == VScale(k, MatVec(X, v))
  {
    forall i | 0 <= i < |X|
      ensures MatVec(Scale(k, X), v)[i] == VScale(k, MatVec(X, v))[i]
    {
      calc {
        MatVec(Scale(k, X), v)[i];
        Dot(VScale(k, X[i]), v);
        { DotScaleLeft(k, X[i], v); }
        k * Dot(X[i], v);
        VScale(k, MatVec(X, v))[i];
      }
    }
  }

  lemma MatVecIdentity(v: Vector)
    ensures MatVec(Identity(|v|), v) == v
  {
    forall i | 0 <= i < |v| {
      DotUnit(|v|, i, v);
    }
  }

  // ----- associativity -----

  /** The key exchange of summation order: (a Y) . v == a . (Y v). */
  /** a Y is a[0] Y[0] plus the rest of a times the rest of Y. */
  lemma RowTimesFront(a: Vector, Y: Matrix, c: nat)
    requires IsMatrix(Y, |a|, c) && |a| > 0
    ensures RowTimes(a, Y, c) == VAdd(VScale(a[0], Y[0]), RowTimes(a[1..], Y[1..], c))
  {
    var rest := RowTimes(a[1..], Y[1..], c);
    forall j | 0 <= j < c
      ensures RowTimes(a, Y, c)[j] == VAdd(VScale(a[0], Y[0]), rest)[j]
    {
      assert Col(Y, j)[1..] == Col(Y[1..], j);
    }
  }

  /** The dot product of a Y with v, first term split off. */
  lemma RowTimesFrontDot(a: Vector, Y: Matrix, c: nat, v: Vector)
    requires IsMatrix(Y, |a|, c) && |a| > 0 && |v| == c
    ensures Dot(RowTimes(a, Y, c), v)
         == a[0] * Dot(Y[0], v) + Dot(RowTimes(a[1..], Y[1..], c), v)
  {
    var head, rest := VScale(a[0], Y[0]), RowTimes(a[1..], Y[1..], c);
    calc {
      Dot(RowTimes(a, Y, c), v);
      { RowTimesFront(a, Y, c); }
      Dot(VAdd(head, rest), v);
      { DotAddLeft(head, rest, v); }
      Dot(head, v) + Dot(rest, v);
      { DotScaleLeft(a[0], Y[0], v); }
      a[0] * Dot(Y[0], v) + Dot(rest, v);
    }
  }

  lemma {:induction false} RowTimesDot(a: Vector, Y: Matrix, c: nat, v: Vector)
    requires IsMatrix(Y, |a|, c) && |v| == c
    ensures Dot(RowTimes(a, Y, c), v) == Dot(a, MatVec(Y, v))
    decreases |a|
  {
    if |a| == 0 {
      DotZeroLeft(RowTimes(a, Y, c), v);
    } else {
      RowTimesFrontDot(a, Y, c, v);
      RowTimesDot(a[1..], Y[1..], c, v);
      assert MatVec(Y, v)[1..] == MatVec(Y[1..], v);
    }
  }

  lemma MulMatVec(X: Matrix, Y: Matrix, v: Vector)
    requires IsMatrix(X, |X|, |Y|) && IsMatrix(Y, |Y|, |v|) && |Y| > 0
    ensures MatVec(Mul(X, Y), v) == MatVec(X, MatVec(Y, v))
  {
    forall i | 0 <= i < |X| {
      RowTimesDot(X[i], Y, |v|, v);
    }
  }

  lemma ColOfMul(X: Matrix, Y: Matrix, j: nat)
    requires IsMatrix(X, |X|, |Y|) && Rect(Y) && j < Width(Y)
    ensures Col(Mul(X, Y), j) == MatVec(X, Col(Y, j))
  {
  }

  lemma MulAssoc(X: Matrix, Y: Matrix, Z: Matrix)
    requires |Y| > 0 && |Z| > 0
    requires IsMatrix(X, |X|, |Y|) && IsMatrix(Y, |Y|, |Z|) && Rect(Z)
    ensures Mul(Mul(X, Y), Z) == Mul(X, Mul(Y, Z))
  {
    var c := Width(Z);
    forall i | 0 <= i < |X|
      ensures Mul(Mul(X, Y), Z)[i] == Mul(X, Mul(Y, Z))[i]
    {
      forall j | 0 <= j < c
        ensures Mul(Mul(X, Y), Z)[i][j] == Mul(X, Mul(Y, Z))[i][j]
      {
        RowTimesDot(X[i], Y, |Z|, Col(Z, j));
        ColOfMul(Y, Z, j);
      }
    }
  }

  lemma MulIdentityLeft(M: Matrix)
    requires Rect(M)
    ensures Mul(Identity(|M|), M) == M
  {
    forall i | 0 <= i < |M|
      ensures Mul(Identity(|M|), M)[i] == M[i]
    {
      forall j | 0 <= j < Width(M)
        ensures Mul(Identity(|M|), M)[i][j] == M[i][j]
      {
        DotUnit(|M|, i, Col(M, j));
      }
    }
  }

  lemma MulIdentityRight(M: Matrix, c: nat)
    requires IsMatrix(M, |M|, c) && c > 0
    ensures Mul(M, Identity(c)) == M
  {
    forall i | 0 <= i < |M|
      ensures Mul(M, Identity(c))[i] == M[i]
    {
      forall j | 0 <= j < c
        ensures Mul(M, Identity(c))[i][j] == M[i][j]
      {
        assert Col(Identity(c), j) == Identity(c)[j];
        DotComm(M[i], Identity(c)[j]);
        DotUnit(c, j, M[i]);
      }
    }
  }

  lemma MulSubLeft(Y: Matrix, Z: Matrix, X: Matrix)
    requires |X| > 0 && Rect(X) && IsMatrix(Y, |Y|, |X|) && IsMatrix(Z, |Y|, |X|)
    ensures Mul(Sub(Y, Z), X) == Sub(Mul(Y, X), Mul(Z, X))
  {
    forall i | 0 <= i < |Y|
      ensures Mul(Sub(Y, Z), X)[i] == Sub(Mul(Y, X), Mul(Z, X))[i]
    {
      forall j | 0 <= j < Width(X)
        ensures Mul(Sub(Y, Z), X)[i][j] == Sub(Mul(Y, X), Mul(Z, X))[i][j]
      {
        DotSubLeft(Y[i], Z[i], Col(X, j));
      }
    }
  }

  /** A^(k+1) v == A (A^k v). */
  lemma PowStep(A: Matrix, k: nat, v: Vector)
    requires IsSquare(A) && |A| > 0 && |v| == |A|
    ensures MatVec(Pow(A, k + 1), v) == MatVec(A, MatVec(Pow(A, k), v))
  {
    MulMatVec(A, Pow(A, k), v);
  }

  // ----- symmetry -----

  lemma SymmetricAdd(X: Matrix, Y: Matrix)
    requires Symmetric(X) && Symmetric(Y) && |X| == |Y|
    ensures Symmetric(Add(X, Y))
  {
  }

  /** Entry (i, j) of X^T S X is the bilinear form of columns i and j. */
  lemma CongruenceEntry(X: Matrix, S: Matrix, i: nat, j: nat)
    requires |X| > 0 && Rect(X) && IsSquare(S) && |S| == |X| && i < Width(X) && j < Width(X)
    ensures Mul(Mul(Transpose(X), S), X)[i][j] == Dot(Col(X, i), MatVec(S, Col(X, j)))
  {
    var XtS := Mul(Transpose(X), S);
    assert XtS[i] == RowTimes(Col(X, i), S, |S|);
    RowTimesDot(Col(X, i), S, |S|, Col(X, j));
  }

  /** For symmetric S the bilinear form u . (S w) is symmetric in u, w. */
  lemma BilinearSymmetric(S: Matrix, u: Vector, w: Vector)
    requires Symmetric(S) && |u| == |S| && |w| == |S|
    ensures Dot(u, MatVec(S, w)) == Dot(w, MatVec(S, u))
  {
    RowTimesDot(w, S, |S|, u);
    assert RowTimes(w, S, |S|) == MatVec(S, w) by {
      forall c | 0 <= c < |S|
        ensures RowTimes(w, S, |S|)[c] == MatVec(S, w)[c]
      {
        assert Col(S, c) == S[c];
        DotComm(w, S[c]);
      }
    }
    DotComm(MatVec(S, w), u);
  }

  /** X^T S X is symmetric whenever S is. */
  lemma CongruenceSymmetric(X: Matrix, S: Matrix)
    requires |X| > 0 && Rect(X) && Symmetric(S) && |S| == |X|
    ensures Symmetric(Mul(Mul(Transpose(X), S), X))
  {
    var G := Mul(Mul(Transpose(X), S), X);
    forall i, j | 0 <= i < Width(X) && 0 <= j < Width(X)
      ensures G[i][j] == G[j][i]
    {
      CongruenceEntry(X, S, i, j);
      CongruenceEntry(X, S, j, i);
      BilinearSymmetric(S, Col(X, i), Col(X, j));
    }
  }
}
