/** Block structure: cutting a sequence into equal pieces, stacking pieces
    (numpy's `np.r_` / `np.vstack` and `np.c_` / `np.hstack`), column ranges
    (`M[:, lo:hi]`) and the Kronecker product `np.kron`. */
module Blocks {
  import opened Arith
  import opened Matrices

  /** Piece i of s cut into pieces of length n; empty past the end. */
  function Chunk<T>(s: seq<T>, n: nat, i: nat): seq<T> {
    if (i + 1) * n <= |s| then s[i * n .. (i + 1) * n] else []
  }

  /** The pieces one after the other, appended in order as a loop does. */
  function Concat<T>(parts: seq<seq<T>>): seq<T>
    decreases |parts|
  {
    if |parts| == 0 then [] else Concat(parts[..|parts| - 1]) + parts[|parts| - 1]
  }

  predicate AllLength<T>(parts: seq<seq<T>>, n: nat) {
    forall i :: 0 <= i < |parts| ==> |parts[i]| == n
  }

  /** Side-by-side concatenation of two matrices with the same row count. */
  function HStack(X: Matrix, Y: Matrix): Matrix
    requires |X| == |Y|
  {
    seq(|X|, i requires 0 <= i < |X| => X[i] + Y[i])
  }

  /** Columns lo .. hi-1 of every row. */
  function ColumnRange(M: Matrix, lo: nat, hi: nat): Matrix
    requires lo <= hi && forall i :: 0 <= i < |M| ==> hi <= |M[i]|
  {
    seq(|M|, i requires 0 <= i < |M| => M[i][lo..hi])
  }

  /** The Kronecker product: block (a, b) of the result is X[a][b] * Y, the
      blocks of each block row laid side by side and the block rows stacked. */
  function Kron(X: Matrix, Y: Matrix): Matrix {
    Concat(seq(|X|, a requires 0 <= a < |X| => KronBlockRow(X[a], Y)))
  }

  /** The block row x[0] * Y | x[1] * Y | ... */
  function KronBlockRow(x: Vector, Y: Matrix): Matrix {
    seq(|Y|, s requires 0 <= s < |Y| =>
      Concat(seq(|x|, b requires 0 <= b < |x| => VScale(x[b], Y[s]))))
  }

  // ----- pieces -----

  lemma {:induction false} ConcatLength<T>(parts: seq<seq<T>>, n: nat)
    requires AllLength(parts, n)
    ensures |Concat(parts)| == |parts| * n
    decreases |parts|
  {
    if |parts| > 0 {
      ConcatLength(parts[..|parts| - 1], n);
    }
  }

  /** Stacking n-row matrices of width w gives a matrix of width w. */
  lemma {:induction false} ConcatShape(parts: seq<Matrix>, n: nat, w: nat)
    requires forall i :: 0 <= i < |parts| ==> IsMatrix(parts[i], n, w)
    ensures IsMatrix(Concat(parts), |parts| * n, w)
    decreases |parts|
  {
    if |parts| > 0 {
      var k := |parts| - 1;
      var front, last := Concat(parts[..k]), parts[k];
      ConcatShape(parts[..k], n, w);
      assert Concat(parts) == front + last;
      assert |parts| * n == k * n + n;
      forall r | 0 <= r < |parts| * n
        ensures |Concat(parts)[r]| == w
      {
        if r < k * n {
          assert Concat(parts)[r] == front[r];
        } else {
          assert Concat(parts)[r] == last[r - k * n];
        }
      }
    }
  }

  /** Piece i of the concatenation of equal-length pieces is piece i. */
  lemma {:induction false} ChunkOfConcat<T>(parts: seq<seq<T>>, n: nat, i: nat)
    requires AllLength(parts, n) && i < |parts|
    ensures |Concat(parts)| == |parts| * n
    ensures Chunk(Concat(parts), n, i) == parts[i]
    decreases |parts|
  {
    var k := |parts| - 1;
    var front := parts[..k];
    ConcatLength(parts, n);
    ConcatLength(front, n);
    MulMono(i + 1, |parts|, n);
    assert (i + 1) * n == i * n + n;
    if i < k {
      ChunkOfConcat(front, n, i);
      MulMono(i + 1, k, n);
    } else {
      assert i * n == |front| * n;
    }
  }

  /** Two sequences made of count pieces of length n agree when every piece does. */
  lemma ChunksDetermine<T>(s: seq<T>, t: seq<T>, n: nat, count: nat)
    requires |s| == |t| == count * n
    requires forall i :: 0 <= i < count ==> Chunk(s, n, i) == Chunk(t, n, i)
    ensures s == t
  {
    forall r | 0 <= r < |s|
      ensures s[r] == t[r]
    {
      var q, k := Split(r, n, count);
      ChunkEntry(s, n, count, q, k);
      ChunkEntry(t, n, count, q, k);
    }
  }

  /** Entry s of piece i is entry i * n + s of the whole. */
  lemma ChunkEntry<T>(s: seq<T>, n: nat, count: nat, i: nat, k: nat)
    requires |s| == count * n && i < count && k < n
    ensures i * n + k < |s| && |Chunk(s, n, i)| == n && Chunk(s, n, i)[k] == s[i * n + k]
  {
    BlockInRange(i, k, n, count);
  }

  // ----- one-hot block rows -----

  /** The vector a as piece k of m pieces of its length, zero elsewhere. */
  function OneHot(a: Vector, k: nat, m: nat): (r: Vector)
    requires k < m
    ensures |r| == m * |a|
  {
    var n, rest := |a|, m - 1 - k;
    AddBlocks(k, 1, k + 1, n);
    AddBlocks(k + 1, rest, m, n);
    NonNegative(rest, n);
    ZeroVec(k * n) + a + ZeroVec(rest * n)
  }

  /** Entry t of piece j of OneHot(a, k, m): a[t] in piece k, zero elsewhere. */
  lemma OneHotEntry(a: Vector, k: nat, m: nat, j: nat, t: nat)
    requires k < m && j < m && t < |a|
    ensures j * |a| + t < m * |a|
    ensures OneHot(a, k, m)[j * |a| + t] == if j == k then a[t] else 0.0
  {
    var n := |a|;
    var r := OneHot(a, k, m);
    var c := j * n + t;
    BlockInRange(j, t, n, m);
    Distribute(k, 1, n);
    if j < k {
      BlockInRange(j, t, n, k);
      assert c < k * n && r[c] == 0.0;
    } else if j == k {
      assert c == k * n + t && r[c] == a[t];
    } else {
      MulMono(k + 1, j, n);
      assert c >= k * n + n && r[c] == 0.0;
    }
  }

  /** One more zero piece at the end. */
  lemma OneHotExtend(a: Vector, k: nat, m: nat)
    requires k < m
    ensures OneHot(a, k, m) + ZeroVec(|a|) == OneHot(a, k, m + 1)
  {
    var n := |a|;
    Distribute(m - 1 - k, 1, n);
    assert ZeroVec((m - 1 - k) * n) + ZeroVec(n) == ZeroVec((m - k) * n);
    assert ZeroVec(k * n) + a + ZeroVec((m - 1 - k) * n) + ZeroVec(n)
        == ZeroVec(k * n) + a + (ZeroVec((m - 1 - k) * n) + ZeroVec(n));
  }

  /** The zero runs either side of a in OneHot(a, k, m). */
  lemma OneHotParts(a: Vector, k: nat, m: nat) returns (p: nat, q: nat)
    requires k < m
    ensures p == k * |a| && p + |a| == (k + 1) * |a| && p + |a| + q == m * |a|
    ensures OneHot(a, k, m) == ZeroVec(p) + a + ZeroVec(q)
  {
    var n, rest := |a|, m - 1 - k;
    AddBlocks(k, 1, k + 1, n);
    AddBlocks(k + 1, rest, m, n);
    NonNegative(rest, n);
    p, q := k * n, rest * n;
  }

  /** OneHot(a, k, m) applied to v picks a against piece k of v. */
  lemma DotOneHot(a: Vector, k: nat, m: nat, v: Vector)
    requires k < m && |v| == m * |a|
    ensures Dot(OneHot(a, k, m), v) == Dot(a, Chunk(v, |a|, k))
  {
    var p, q := OneHotParts(a, k, m);
    assert Chunk(v, |a|, k) == v[p..p + |a|];
    DotPlaced(p, a, q, v);
  }

  /** Piece i of an n-row-per-piece matrix is an n-row matrix of the same width. */
  lemma ChunkShape(X: Matrix, n: nat, count: nat, w: nat, i: nat)
    requires IsMatrix(X, count * n, w) && i < count
    ensures (i + 1) * n <= |X| && IsMatrix(Chunk(X, n, i), n, w)
  {
    if n > 0 {
      BlockInRange(i, 0, n, count);
    } else {
      assert (i + 1) * n == 0;
    }
  }

  /** Cutting a column into pieces is taking the column of each piece. */
  lemma ChunkOfCol(X: Matrix, n: nat, count: nat, w: nat, i: nat, j: nat)
    requires IsMatrix(X, count * n, w) && i < count && j < w
    ensures IsMatrix(Chunk(X, n, i), n, w)
    ensures Chunk(Col(X, j), n, i) == Col(Chunk(X, n, i), j)
  {
    ChunkShape(X, n, count, w, i);
    var lo := i * n;
    AddBlocks(i, 1, i + 1, n);
    assert |Col(X, j)| == |X|;
    forall r | 0 <= r < n
      ensures Chunk(Col(X, j), n, i)[r] == Col(Chunk(X, n, i), j)[r]
    {
      assert Chunk(X, n, i)[r] == X[lo + r];
    }
  }

  lemma ChunkOfSub(X: Matrix, Y: Matrix, n: nat, i: nat)
    requires |X| == |Y| && forall r :: 0 <= r < |X| ==> |X[r]| == |Y[r]|
    requires (i + 1) * n <= |X|
    ensures Chunk(Sub(X, Y), n, i) == Sub(Chunk(X, n, i), Chunk(Y, n, i))
  {
    var lo := i * n;
    AddBlocks(i, 1, i + 1, n);
    var CX, CY := Chunk(X, n, i), Chunk(Y, n, i);
    assert CX == X[lo..lo + n] && CY == Y[lo..lo + n];
    var L, R := Chunk(Sub(X, Y), n, i), Sub(CX, CY);
    assert L == Sub(X, Y)[lo..lo + n];
    forall k | 0 <= k < n
      ensures L[k] == R[k]
    {
      assert CX[k] == X[lo + k] && CY[k] == Y[lo + k];
      assert L[k] == Sub(X, Y)[lo + k];
    }
  }

  lemma ChunkOfAdd(x: Vector, y: Vector, n: nat, i: nat)
    requires |x| == |y| && (i + 1) * n <= |x|
    ensures Chunk(VAdd(x, y), n, i) == VAdd(Chunk(x, n, i), Chunk(y, n, i))
  {
  }

  /** The rows of a product are the products of the rows. */
  lemma ChunkOfMatVec(M: Matrix, v: Vector, n: nat, i: nat)
    requires forall r :: 0 <= r < |M| ==> |M[r]| == |v|
    requires (i + 1) * n <= |M|
    ensures Chunk(MatVec(M, v), n, i) == MatVec(Chunk(M, n, i), v)
  {
  }

  lemma ChunkOfMul(X: Matrix, Y: Matrix, n: nat, i: nat)
    requires Rect(Y) && forall r :: 0 <= r < |X| ==> |X[r]| == |Y|
    requires (i + 1) * n <= |X|
    ensures Chunk(Mul(X, Y), n, i) == Mul(Chunk(X, n, i), Y)
  {
  }

  // ----- Kronecker product -----

  lemma KronShape(X: Matrix, Y: Matrix)
    requires Rect(X) && Rect(Y)
    ensures IsMatrix(Kron(X, Y), |X| * |Y|, Width(X) * Width(Y))
  {
    var rows := seq(|X|, a requires 0 <= a < |X| => KronBlockRow(X[a], Y));
    assert AllLength(rows, |Y|);
    ConcatLength(rows, |Y|);
    forall r | 0 <= r < |X| * |Y|
      ensures |Kron(X, Y)[r]| == Width(X) * Width(Y)
    {
      var a, s := Split(r, |Y|, |X|);
      ChunkOfConcat(rows, |Y|, a);
      ChunkEntry(Kron(X, Y), |Y|, |X|, a, s);
      var pieces := seq(|X[a]|, b requires 0 <= b < |X[a]| => VScale(X[a][b], Y[s]));
      assert AllLength(pieces, Width(Y));
      ConcatLength(pieces, Width(Y));
    }
  }

  /** Entry (s, t) of block (a, b) of X (x) Y is X[a][b] * Y[s][t]. */
  /** Row s of block row a of kron(X, Y) is X[a][0] Y[s] | X[a][1] Y[s] | ... */
  lemma KronRow(X: Matrix, Y: Matrix, a: nat, s: nat)
    requires Rect(X) && Rect(Y) && a < |X| && s < |Y|
    ensures a * |Y| + s < |X| * |Y| == |Kron(X, Y)|
    ensures Kron(X, Y)[a * |Y| + s] == KronBlockRow(X[a], Y)[s]
  {
    KronShape(X, Y);
    var rows := seq(|X|, a requires 0 <= a < |X| => KronBlockRow(X[a], Y));
    assert AllLength(rows, |Y|);
    ChunkOfConcat(rows, |Y|, a);
    ChunkEntry(Kron(X, Y), |Y|, |X|, a, s);
  }

  lemma KronEntry(X: Matrix, Y: Matrix, a: nat, s: nat, b: nat, t: nat)
    requires Rect(X) && Rect(Y)
    requires a < |X| && s < |Y| && b < Width(X) && t < Width(Y)
    ensures IsMatrix(Kron(X, Y), |X| * |Y|, Width(X) * Width(Y))
    ensures a * |Y| + s < |X| * |Y| && b * Width(Y) + t < Width(X) * Width(Y)
    ensures Kron(X, Y)[a * |Y| + s][b * Width(Y) + t] == X[a][b] * Y[s][t]
  {
    KronShape(X, Y);
    KronRow(X, Y, a, s);
    BlockInRange(b, t, Width(Y), Width(X));
    var pieces := seq(|X[a]|, b requires 0 <= b < |X[a]| => VScale(X[a][b], Y[s]));
    assert KronBlockRow(X[a], Y)[s] == Concat(pieces);
    assert AllLength(pieces, Width(Y));
    ChunkOfConcat(pieces, Width(Y), b);
    ChunkEntry(Concat(pieces), Width(Y), Width(X), b, t);
  }

  lemma KronSymmetric(X: Matrix, Y: Matrix)
    requires Symmetric(X) && Symmetric(Y)
    ensures Symmetric(Kron(X, Y))
  {
    var K := Kron(X, Y);
    var p, n := |X|, |Y|;
    assert Width(X) == p && Width(Y) == n;
    KronShape(X, Y);
    forall r, c | 0 <= r < p * n && 0 <= c < p * n
      ensures K[r][c] == K[c][r]
    {
      var a, s := Split(r, n, p);
      var b, t := Split(c, n, p);
      KronTransposedEntries(X, Y, a, s, b, t);
    }
  }

  lemma KronTransposedEntries(X: Matrix, Y: Matrix, a: nat, s: nat, b: nat, t: nat)
    requires Symmetric(X) && Symmetric(Y)
    requires a < |X| && s < |Y| && b < |X| && t < |Y|
    ensures IsMatrix(Kron(X, Y), |X| * |Y|, |X| * |Y|)
    ensures a * |Y| + s < |X| * |Y| && b * |Y| + t < |X| * |Y|
    ensures Kron(X, Y)[a * |Y| + s][b * |Y| + t] == Kron(X, Y)[b * |Y| + t][a * |Y| + s]
  {
    assert Width(X) == |X| && Width(Y) == |Y|;
    KronEntry(X, Y, a, s, b, t);
    KronEntry(X, Y, b, t, a, s);
  }
}
