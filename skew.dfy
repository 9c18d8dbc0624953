/**
 * The two skew mappings of the workload generator. The random draw `u`
 * (and, for timestamps, `sqrt(u)`) is an input constrained to [0, 1).
 */
module Skew {
  import opened Config

  /** Python's `int(x)` on a float: truncation toward zero. */
  function Trunc(x: real): int {
    if x >= 0.0 then x.Floor else -((-x).Floor)
  }

  /**
   * `_pick_account_id`: `int(num_accounts * u ** ZIPF_SKEW)` for the draw
   * `u = random.random()` in [0, 1). Always a valid account id when there
   * are accounts; 0 when there are none.
   */
  function PickAccountId(numAccounts: nat, u: real): (id: int)
    requires 0.0 <= u < 1.0
    ensures numAccounts > 0 ==> 0 <= id < numAccounts
    ensures numAccounts == 0 ==> id == 0
  {
    SkewIsSquare(u);
    SquareBelowOne(u);
    TruncScaledBelow(numAccounts, u * u);
    Trunc(numAccounts as real * Pow(u, ZipfSkew))
  }

  /** `u ** k` for a natural exponent `k`. */
  function Pow(u: real, k: nat): real {
    if k == 0 then 1.0 else u * Pow(u, k - 1)
  }

  /** With ZIPF_SKEW = 2 the skewed draw is the square of the uniform one. */
  lemma SkewIsSquare(u: real)
    ensures Pow(u, ZipfSkew) == u * u
  {
    assert Pow(u, 1) == u;
  }

  /**
   * The timestamp offset of `generate_transactions`:
   * `int(YEAR_SECONDS * sqrt(u))`, given `r = sqrt(u)` in [0, 1).
   * Every offset lands inside the one-year window.
   */
  function TimestampOffset(r: real): (offset: int)
    requires 0.0 <= r < 1.0
    ensures 0 <= offset < YearSeconds
  {
    TruncScaledBelow(YearSeconds, r);
    Trunc(YearSeconds as real * r)
  }

  lemma SquareBelowOne(u: real)
    requires 0.0 <= u < 1.0
    ensures 0.0 <= u * u < 1.0
  {
    assert u * u <= u;
  }

  /** Scaling by a factor in [0, 1) stays in [0, n), and below n when n > 0. */
  lemma ScaleBelow(n: real, w: real)
    requires 0.0 <= n && 0.0 <= w < 1.0
    ensures 0.0 <= n * w <= n
    ensures n > 0.0 ==> n * w < n
  {
    assert n - n * w == n * (1.0 - w);
  }

  /** `int(n * w)` for a factor `w` in [0, 1) lies in [0, n), and is 0 when n is 0. */
  lemma TruncScaledBelow(n: nat, w: real)
    requires 0.0 <= w < 1.0
    ensures 0 <= Trunc(n as real * w)
    ensures n > 0 ==> Trunc(n as real * w) < n
    ensures n == 0 ==> Trunc(n as real * w) == 0
  {
    var x := n as real * w;
    ScaleBelow(n as real, w);
    assert x.Floor as real <= x;
  }

  lemma FloorMonotone(x: real, y: real)
    requires x <= y
    ensures x.Floor <= y.Floor
  {
  }

  /** A larger draw never picks a smaller id: mass concentrates on low ids. */
  lemma PickAccountIdMonotone(numAccounts: nat, u: real, v: real)
    requires 0.0 <= u <= v < 1.0
    ensures PickAccountId(numAccounts, u) <= PickAccountId(numAccounts, v)
  {
    var n := numAccounts as real;
    SkewIsSquare(u);
    SkewIsSquare(v);
    assert PickAccountId(numAccounts, u) == Trunc(n * (u * u));
    assert PickAccountId(numAccounts, v) == Trunc(n * (v * v));
    ScaledSquareMonotone(n, u, v);
  }

  /** `int(n * u * u)` grows with `u` on [0, 1). */
  lemma ScaledSquareMonotone(n: real, u: real, v: real)
    requires 0.0 <= n && 0.0 <= u <= v
    ensures Trunc(n * (u * u)) <= Trunc(n * (v * v))
  {
    ScaleMonotone(u, 0.0, u);
    ScaleMonotone(u, u, v);
    ScaleMonotone(v, u, v);
    assert 0.0 <= u * u <= u * v <= v * v;
    ScaleMonotone(n, 0.0, u * u);
    ScaleMonotone(n, u * u, v * v);
    TruncMonotone(n * (u * u), n * (v * v));
  }

  lemma TruncMonotone(x: real, y: real)
    requires 0.0 <= x <= y
    ensures Trunc(x) <= Trunc(y)
  {
    FloorMonotone(x, y);
  }

  /** Scaling by a non-negative factor keeps the order. */
  lemma ScaleMonotone(k: real, x: real, y: real)
    requires 0.0 <= k && x <= y
    ensures k * x <= k * y && x * k <= y * k
  {
    assert k * y - k * x == k * (y - x);
  }

  /** Every draw below `1 / sqrt(numAccounts)` lands on the super-node, id 0. */
  lemma PickAccountIdSuperNode(numAccounts: nat, u: real)
    requires 0.0 <= u < 1.0
    requires numAccounts as real * (u * u) < 1.0
    ensures PickAccountId(numAccounts, u) == 0
  {
    SkewIsSquare(u);
    SquareBelowOne(u);
    ScaleMonotone(numAccounts as real, 0.0, u * u);
    assert PickAccountId(numAccounts, u) == Trunc(numAccounts as real * (u * u));
  }

  /** A larger `sqrt(u)` never gives an earlier timestamp. */
  lemma TimestampOffsetMonotone(r: real, s: real)
    requires 0.0 <= r <= s < 1.0
    ensures TimestampOffset(r) <= TimestampOffset(s)
  {
    var y := YearSeconds as real;
    ScaleMonotone(y, r, s);
    FloorMonotone(y * r, y * s);
  }

  /** With 10 accounts the draw 0.5 picks floor(10 * 0.25) = 2. */
  lemma PickAccountIdExample()
    ensures PickAccountId(10, 0.5) == 2
  {
    SkewIsSquare(0.5);
    assert 10.0 * (0.5 * 0.5) == 2.5;
  }
}
