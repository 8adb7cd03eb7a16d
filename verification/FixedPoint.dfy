/** Products, floors and powers of ten on naturals, and what a list of floored shares adds up to. */
module FixedPoint {
  const MAX_UINT256 := 0x1_0000000000000000_0000000000000000_0000000000000000_0000000000000000 - 1

  /** Basis points in a whole. */
  const BPS := 10000

  function Times(a: nat, b: nat): nat { a * b }

  function Over(a: nat, b: nat): nat
    requires b > 0
  {
    a / b
  }

  function Pow10(n: nat): (p: nat)
    ensures p > 0
  {
    if n == 0 then 1 else 10 * Pow10(n - 1)
  }

  lemma {:induction false} Pow10Add(m: nat, n: nat)
    ensures Pow10(m + n) == Times(Pow10(m), Pow10(n))
  {
    if n == 0 {
    } else {
      Pow10Add(m, n - 1);
      assert Pow10(m) * (10 * Pow10(n - 1)) == 10 * (Pow10(m) * Pow10(n - 1));
    }
  }

  function Sum(xs: seq<nat>): nat {
    if xs == [] then 0 else Sum(xs[..|xs| - 1]) + xs[|xs| - 1]
  }

  lemma SumTake(xs: seq<nat>, i: nat)
    requires i < |xs|
    ensures Sum(xs[..i + 1]) == Sum(xs[..i]) + xs[i]
  {
    assert xs[..i + 1][..i] == xs[..i];
  }

  lemma TimesMonotone(a: nat, b: nat, s: nat)
    requires a <= b
    ensures a * s <= b * s
  {
  }

  lemma TimesCommutes(a: nat, b: nat)
    ensures Times(a, b) == Times(b, a)
  {
  }

  lemma TimesAssociates(a: nat, b: nat, c: nat)
    ensures Times(Times(a, b), c) == Times(a, Times(b, c))
  {
  }

  lemma CancelLt(a: nat, b: nat, s: nat)
    requires Times(a, s) < Times(b, s)
    ensures a < b
  {
    if a >= b {
      TimesMonotone(b, a, s);
    }
  }

  lemma CancelLe(a: nat, b: nat, s: nat)
    requires s > 0 && Times(a, s) <= Times(b, s)
    ensures a <= b
  {
    assert (b + 1) * s == b * s + s;
    CancelLt(a, b + 1, s);
  }

  lemma FloorBounds(a: nat, s: nat)
    requires s > 0
    ensures Times(Over(a, s), s) <= a < Times(Over(a, s), s) + s
  {
    assert a == s * (a / s) + a % s;
  }

  /** The quotient a / b, rounded down. */
  ghost predicate IsFloor(q: nat, a: nat, b: nat) { q * b <= a < (q + 1) * b }

  lemma OverIsFloor(a: nat, b: nat)
    requires b > 0
    ensures IsFloor(Over(a, b), a, b)
  {
    var q := Over(a, b);
    FloorBounds(a, b);
    assert (q + 1) * b == q * b + b;
  }

  lemma ScaleUp(value: nat, a: nat, b: nat, ab: nat)
    requires b > 0 && ab == Times(a, b)
    ensures Times(Times(value, a), b) == Times(value, ab) < Times(Times(value, a) + 1, b)
  {
    TimesAssociates(value, a, b);
    var r := Times(value, a);
    assert (r + 1) * b == r * b + b;
  }

  lemma ScaleDown(value: nat, s: nat, k: nat, sk: nat)
    requires s > 0 && k > 0 && sk == Times(s, k)
    ensures Times(Over(value, s), sk) <= Times(value, k) < Times(Over(value, s) + 1, sk)
  {
    var r := Over(value, s);
    FloorBounds(value, s);
    assert (r + 1) * s == r * s + s;
    TimesAssociates(r, s, k);
    TimesAssociates(r + 1, s, k);
    TimesMonotone(Times(r, s), value, k);
    TimesMonotone(value + 1, Times(r + 1, s), k);
    assert (value + 1) * k == value * k + k;
  }

  /** Each `x` as a share of `total` in units of `scale`, floored on its own. */
  function Shares(xs: seq<nat>, scale: nat, total: nat): (fs: seq<nat>)
    requires total > 0
    ensures |fs| == |xs| && forall i :: 0 <= i < |xs| ==> fs[i] == Over(Times(xs[i], scale), total)
  {
    seq(|xs|, i requires 0 <= i < |xs| => Over(Times(xs[i], scale), total))
  }

  lemma SharesStep(p: nat, q: nat, n: nat, x: nat, scale: nat, total: nat)
    requires total > 0
    requires Times(q, total) <= Times(p, scale) && Times(p, scale) <= Times(q + n, total)
    ensures var f := Over(Times(x, scale), total);
            Times(q + f, total) <= Times(p + x, scale) < Times(q + f + (n + 1), total)
  {
    var f := Over(Times(x, scale), total);
    FloorBounds(Times(x, scale), total);
    assert (p + x) * scale == p * scale + x * scale;
    assert (q + f) * total == q * total + f * total;
    assert (q + f + (n + 1)) * total == (q + n) * total + f * total + total;
  }

  lemma {:induction false} SharesBounds(xs: seq<nat>, scale: nat, total: nat)
    requires total > 0
    ensures Times(Sum(Shares(xs, scale, total)), total) <= Times(Sum(xs), scale)
    ensures Times(Sum(xs), scale) <= Times(Sum(Shares(xs, scale, total)) + |xs|, total)
    ensures xs != [] ==> Times(Sum(xs), scale) < Times(Sum(Shares(xs, scale, total)) + |xs|, total)
    decreases |xs|
  {
    if xs == [] {
    } else {
      var pre := xs[..|xs| - 1];
      SharesBounds(pre, scale, total);
      SharesStep(Sum(pre), Sum(Shares(pre, scale, total)), |pre|, xs[|xs| - 1], scale, total);
      assert Shares(xs, scale, total)[..|xs| - 1] == Shares(pre, scale, total);
    }
  }

  lemma WholeShares(f: nat, n: nat, scale: nat, total: nat)
    requires total > 0
    requires Times(f, total) <= Times(total, scale) < Times(f + n, total)
    ensures scale - n < f <= scale
  {
    TimesCommutes(total, scale);
    CancelLe(f, scale, total);
    CancelLt(scale, f + n, total);
  }

  lemma SharesOfTotal(xs: seq<nat>, scale: nat, total: nat, f: nat)
    requires total > 0 && total == Sum(xs) && f == Sum(Shares(xs, scale, total))
    ensures scale - |xs| < f <= scale
  {
    SharesBounds(xs, scale, total);
    WholeShares(f, |xs|, scale, total);
  }

  /** Shares of the whole add up to it, less than one unit per share short. */
  lemma {:induction false} SharesNearlySum(xs: seq<nat>, scale: nat)
    requires Sum(xs) > 0
    ensures scale - |xs| < Sum(Shares(xs, scale, Sum(xs))) <= scale
  {
    SharesOfTotal(xs, scale, Sum(xs), Sum(Shares(xs, scale, Sum(xs))));
  }
}
