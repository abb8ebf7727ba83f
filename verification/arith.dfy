/** Index arithmetic for block matrices: a flat index r of a matrix made of
    blocks with n rows each decomposes as r == i * n + s with 0 <= s < n.
    The solver does not find these facts about products of two variables on
    its own, so they are proved here once. */
module Arith {

  /** Multiplication by a non-negative number is monotone. */
  lemma {:induction false} MulMono(a: int, b: int, n: nat)
    requires a <= b
    ensures a * n <= b * n
  {
    if n > 0 {
      MulMono(a, b, n - 1);
      assert a * n == a * (n - 1) + a;
      assert b * n == b * (n - 1) + b;
    }
  }

  /** Blocks a and b side by side span a + b blocks. */
  lemma Distribute(a: int, b: int, n: int)
    ensures a * n + b * n == (a + b) * n
  {
  }

  /** Division and remainder of i * n + s by n recover the block index i and
      the offset s inside the block. */
  lemma DivModOfBlock(i: int, s: int, n: nat)
    requires n > 0 && 0 <= s < n
    ensures (i * n + s) / n == i && (i * n + s) % n == s
  {
    var r := i * n + s;
    var q, t := r / n, r % n;
    assert q * n + t == r;
    if q > i {
      assert (i + 1) * n == i * n + n;
      MulMono(i + 1, q, n);
    } else if q < i {
      assert (q + 1) * n == q * n + n;
      MulMono(q + 1, i, n);
    }
  }

  /** Blocks a and b side by side make c = a + b blocks. */
  lemma AddBlocks(a: int, b: int, c: int, n: int)
    requires a + b == c
    ensures a * n + b * n == c * n
  {
    Distribute(a, b, n);
  }

  lemma NonNegative(a: nat, b: nat)
    ensures a * b >= 0
  {
    MulMono(0, a, b);
  }

  /** Offset s inside block i of a matrix of count blocks stays inside it. */
  lemma BlockInRange(i: nat, s: nat, n: nat, count: nat)
    requires i < count && s < n
    ensures i * n + s < count * n
    ensures (i + 1) * n <= count * n
  {
    MulMono(i + 1, count, n);
    assert (i + 1) * n == i * n + n;
  }

  /** Every index below count * n lies in some block. */
  lemma Decompose(r: nat, n: nat, count: nat)
    requires r < count * n
    ensures n > 0
    ensures r / n < count && r % n < n && r == (r / n) * n + r % n
  {
    if n > 0 && r / n >= count {
      MulMono(count, r / n, n);
    }
  }

  /** Every index below count * n is offset s in block a, for some a and s. */
  lemma Split(r: nat, n: nat, count: nat) returns (a: nat, s: nat)
    requires r < count * n
    ensures a < count && s < n && r == a * n + s
  {
    Decompose(r, n, count);
    a, s := r / n, r % n;
  }

  /** An index in [q * n, (q + 1) * n) belongs to block q. */
  lemma InBlock(r: nat, n: nat, q: nat)
    requires n > 0 && q * n <= r < (q + 1) * n
    ensures r / n == q && r % n == r - q * n
  {
    assert (q + 1) * n == q * n + n;
    DivModOfBlock(q, r - q * n, n);
  }
}
