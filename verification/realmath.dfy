/** Exact-arithmetic stand-ins for the few numeric primitives the integration
    borrows from Python: `abs`, `sum`, `statistics.mean`, `max`, the built-in
    `round` (half to even) and `int()` on a float (truncation toward zero). */
module RealMath {

  function Abs(x: real): (r: real)
    ensures r >= 0.0
    ensures r == x || r == -x
  {
    if x < 0.0 then -x else x
  }

  function Max(a: real, b: real): (r: real)
    ensures r >= a && r >= b
    ensures r == a || r == b
  {
    if a >= b then a else b
  }

  function MinInt(a: int, b: int): int
  {
    if a <= b then a else b
  }

  function MaxInt(a: int, b: int): int
  {
    if a >= b then a else b
  }

  /** Python's `sum` over a list of floats (exact, so the summation order is irrelevant). */
  function Sum(s: seq<real>): real
  {
    if |s| == 0 then 0.0 else s[0] + Sum(s[1..])
  }

  /** Python's `statistics.mean`, which is only ever applied to non-empty lists here. */
  function Mean(s: seq<real>): real
    requires |s| > 0
  {
    Sum(s) / |s| as real
  }

  /** A sum of `|s|` terms, each in `[lo, hi]`, lies between `|s|*lo` and `|s|*hi`. */
  lemma {:induction false} SumBounds(s: seq<real>, lo: real, hi: real)
    requires forall k :: 0 <= k < |s| ==> lo <= s[k] <= hi
    ensures |s| as real * lo <= Sum(s) <= |s| as real * hi
  {
    if |s| > 0 {
      SumBounds(s[1..], lo, hi);
      var n := (|s| - 1) as real;
      assert |s| as real * lo == n * lo + lo;
      assert |s| as real * hi == n * hi + hi;
    }
  }

  /** The mean of values in `[lo, hi]` is in `[lo, hi]`. */
  lemma MeanBounds(s: seq<real>, lo: real, hi: real)
    requires |s| > 0
    requires forall k :: 0 <= k < |s| ==> lo <= s[k] <= hi
    ensures lo <= Mean(s) <= hi
  {
    SumBounds(s, lo, hi);
    var n := |s| as real;
    assert n * lo <= Sum(s) <= n * hi;
    assert (n * lo) / n == lo;
    assert (n * hi) / n == hi;
    DivMonotone(n * lo, Sum(s), n);
    DivMonotone(Sum(s), n * hi, n);
  }

  lemma DivMonotone(a: real, b: real, n: real)
    requires n > 0.0 && a <= b
    ensures a / n <= b / n
  {
    assert b / n - a / n == (b - a) / n;
  }

  /** The mean of a constant sequence is that constant. */
  lemma MeanConstant(s: seq<real>, c: real)
    requires |s| > 0
    requires forall k :: 0 <= k < |s| ==> s[k] == c
    ensures Mean(s) == c
  {
    MeanBounds(s, c, c);
  }

  /** Python's built-in `round(x)` on a float: the nearest integer, ties to even. */
  function RoundHalfEven(x: real): (r: int)
    ensures Abs(r as real - x) <= 0.5
    ensures Abs(r as real - x) == 0.5 ==> r % 2 == 0
  {
    var f := x.Floor;
    var frac := x - f as real;
    if frac < 0.5 then f
    else if frac > 0.5 then f + 1
    else if f % 2 == 0 then f
    else f + 1
  }

  /** Any integer that is nearest to `x` with ties broken to even is `RoundHalfEven(x)`. */
  lemma RoundHalfEvenUnique(x: real, k: int)
    requires Abs(k as real - x) <= 0.5
    requires Abs(k as real - x) == 0.5 ==> k % 2 == 0
    ensures k == RoundHalfEven(x)
  {
    var r := RoundHalfEven(x);
    assert Abs(k as real - r as real) <= 1.0;
  }

  /** Python's `int(x)` on a float: truncation toward zero. */
  function Trunc(x: real): (r: int)
    ensures x >= 0.0 ==> r >= 0 && r as real <= x < r as real + 1.0
    ensures x < 0.0 ==> r <= 0 && r as real - 1.0 < x <= r as real
  {
    if x >= 0.0 then x.Floor else -((-x).Floor)
  }

  /** `n` copies of `c` added up. */
  function Repeat(n: nat, c: real): real
  {
    if n == 0 then 0.0 else c + Repeat(n - 1, c)
  }

  lemma {:induction false} RepeatIsProduct(n: nat, c: real)
    ensures Repeat(n, c) == n as real * c
  {
    if n > 0 {
      RepeatIsProduct(n - 1, c);
      assert n as real * c == (n - 1) as real * c + c;
    }
  }

  /** `n` copies of `total / n` add up to `total`. */
  lemma RepeatOfShare(n: nat, total: real)
    requires n > 0
    ensures Repeat(n, total / n as real) == total
  {
    RepeatIsProduct(n, total / n as real);
    DivCancel(total, n as real);
    assert n as real * (total / n as real) == (total / n as real) * n as real;
  }

  // Small facts of real arithmetic that the solver finds only when asked.

  lemma MulNonneg(a: real, b: real)
    requires a >= 0.0 && b >= 0.0
    ensures a * b >= 0.0
  {
  }

  lemma MulMonotone(a: real, b: real, c: real)
    requires c >= 0.0 && a <= b
    ensures a * c <= b * c
  {
    MulNonneg(b - a, c);
    assert b * c - a * c == (b - a) * c;
  }

  lemma DivCancel(x: real, s: real)
    requires s != 0.0
    ensures (x / s) * s == x
    ensures (x * s) / s == x
  {
  }

  lemma DivSign(x: real, s: real)
    requires s > 0.0
    ensures x <= 0.0 ==> x / s <= 0.0
    ensures x >= 0.0 ==> x / s >= 0.0
  {
  }

  lemma FloorOfInt(k: int)
    ensures (k as real).Floor == k
  {
  }
}
