/** Python's numeric built-ins on exact reals: `abs`, `round` (to the nearest integer, ties to
    even), `int` of a float (truncation toward zero), `max`/`min`, and `random.uniform`. */
module Numbers {

  function Abs(x: real): (r: real)
    ensures r >= 0.0
    ensures r == x || r == -x
  {
    if x < 0.0 then -x else x
  }

  function AbsInt(x: int): (r: nat)
    ensures r == x || r == -x
  {
    if x < 0 then -x else x
  }

  predicate IsEven(n: int)
  {
    n % 2 == 0
  }

  /** `round(x)` with no digits: the nearest integer, and on a tie the even one. */
  function Round(x: real): (r: int)
    ensures Abs(r as real - x) <= 0.5
    ensures Abs(r as real - x) == 0.5 ==> IsEven(r)
  {
    var fl := x.Floor;
    var frac := x - fl as real;
    if frac < 0.5 then fl
    else if frac > 0.5 then fl + 1
    else if IsEven(fl) then fl
    else fl + 1
  }

  /** No other integer is strictly nearer to x than `Round(x)`, and on a tie the other
      candidate is odd: the rounding is uniquely determined. */
  lemma RoundNearest(x: real, n: int)
    ensures Abs(Round(x) as real - x) <= Abs(n as real - x)
    ensures n != Round(x) && Abs(n as real - x) == Abs(Round(x) as real - x) ==> !IsEven(n)
  {
  }

  /** Rounding keeps order: a value between two others rounds between their roundings. */
  lemma RoundMonotone(x: real, y: real)
    requires x <= y
    ensures Round(x) <= Round(y)
  {
    if x < y {
      assert Round(x) as real <= x + 0.5 && y - 0.5 <= Round(y) as real;
    }
  }

  /** Rounding an integer gives it back. */
  lemma RoundInteger(n: int)
    ensures Round(n as real) == n
  {
  }

  /** `int(x)` for a float x: the integer part, dropping the fraction toward zero. */
  function Trunc(x: real): (r: int)
    ensures x >= 0.0 ==> 0 <= r && r as real <= x < r as real + 1.0
    ensures x < 0.0 ==> r <= 0 && r as real - 1.0 < x <= r as real
  {
    if x >= 0.0 then x.Floor else -((-x).Floor)
  }

  function Max(a: int, b: int): (r: int)
    ensures r >= a && r >= b
    ensures r == a || r == b
  {
    if a >= b then a else b
  }

  /** `max(s)`: the largest element of a nonempty sequence. */
  function MaxOf(s: seq<int>): (r: int)
    requires |s| > 0
    ensures r in s
    ensures forall i :: 0 <= i < |s| ==> s[i] <= r
  {
    if |s| == 1 then s[0] else Max(MaxOf(s[..|s| - 1]), s[|s| - 1])
  }

  /** `min(s)`: the smallest element of a nonempty sequence. */
  function MinOf(s: seq<int>): (r: int)
    requires |s| > 0
    ensures r in s
    ensures forall i :: 0 <= i < |s| ==> r <= s[i]
  {
    if |s| == 1 then s[0]
    else
      var m := MinOf(s[..|s| - 1]);
      if s[|s| - 1] < m then s[|s| - 1] else m
  }

  lemma MulNonNegative(x: real, y: real)
    requires x >= 0.0 && y >= 0.0
    ensures x * y >= 0.0
  {
  }

  lemma UniformBetween(a: real, b: real, f: real, r: real)
    requires 0.0 <= f <= 1.0
    requires r == a + (b - a) * f
    ensures a <= b ==> a <= r <= b
    ensures b <= a ==> b <= r <= a
  {
    MulNonNegative(if a <= b then b - a else a - b, f);
    MulNonNegative(if a <= b then b - a else a - b, 1.0 - f);
  }

  /** `random.uniform(a, b)` returns a + (b - a) * f for a fraction f in [0, 1] that the
      random source supplies: a number between a and b, whichever is larger. */
  function Uniform(a: real, b: real, f: real): (r: real)
    requires 0.0 <= f <= 1.0
    ensures a <= b ==> a <= r <= b
    ensures b <= a ==> b <= r <= a
  {
    var r := a + (b - a) * f;
    UniformBetween(a, b, f, r);
    r
  }

  /** A fraction in [0, 1], as `random.random()` supplies for `random.uniform`. */
  type Unit = f: real | 0.0 <= f <= 1.0

  /** The value the generator uses between lo and hi: the midpoint `(lo + hi) / 2` in
      deterministic mode, otherwise `random.uniform(lo, hi)` made with the fraction f. */
  function MidOrUniform(deterministic: bool, lo: real, hi: real, f: Unit): (r: real)
    ensures lo <= hi ==> lo <= r <= hi
    ensures hi <= lo ==> hi <= r <= lo
  {
    if deterministic then (lo + hi) / 2.0 else Uniform(lo, hi, f)
  }

  /** In deterministic mode the value does not depend on the random fraction. */
  lemma MidOrUniformDeterministic(lo: real, hi: real, f: Unit, g: Unit)
    ensures MidOrUniform(true, lo, hi, f) == MidOrUniform(true, lo, hi, g) == (lo + hi) / 2.0
  {
  }

  lemma MulAtLeast(a: int, n: int)
    requires a >= 1 && n > 0
    ensures a * n >= n
    decreases a
  {
    if a > 1 {
      MulAtLeast(a - 1, n);
      assert a * n == (a - 1) * n + n;
    }
  }
  lemma MulMonotone(a: int, b: int, c: int)
    requires a <= b && c >= 0
    ensures a * c <= b * c
  {
    MulNonNegativeInt(b - a, c);
    assert b * c - a * c == (b - a) * c;
  }

  lemma MulCancelLess(a: int, b: int, c: int)
    requires c >= 1 && a * c < b * c
    ensures a < b
  {
    if a >= b {
      MulMonotone(b, a, c);
    }
  }

  /** Euclidean division by a positive number is monotone. */
  lemma DivMonotone(i: int, j: int, n: int)
    requires i <= j && n >= 1
    ensures i / n <= j / n
  {
    assert (i / n) * n <= i;
    assert j < (j / n + 1) * n;
    MulCancelLess(i / n, j / n + 1, n);
  }

  lemma MulNonNegativeInt(a: int, b: int)
    requires a >= 0 && b >= 0
    ensures a * b >= 0
  {
  }

  /** Euclidean division is determined by its quotient and remainder. */
  lemma DivModUnique(m: int, n: int, q: int, r: int)
    requires n > 0 && 0 <= r < n && m == q * n + r
    ensures m / n == q && m % n == r
  {
    var q', r' := m / n, m % n;
    assert m == q' * n + r';
    assert (q - q') * n == q * n - q' * n;
    if q > q' {
      MulAtLeast(q - q', n);
    } else if q < q' {
      MulAtLeast(q' - q, n);
    }
  }
  /** How the quotient and remainder change from m to m + 1. */
  lemma DivModStep(m: nat, n: nat)
    requires n > 0
    ensures (m + 1) % n == if m % n == n - 1 then 0 else m % n + 1
    ensures (m + 1) / n == if m % n == n - 1 then m / n + 1 else m / n
  {
    var q, r := m / n, m % n;
    assert m == q * n + r;
    if r == n - 1 {
      assert m + 1 == (q + 1) * n + 0;
      DivModUnique(m + 1, n, q + 1, 0);
    } else {
      DivModUnique(m + 1, n, q, r + 1);
    }
  }

  /** n divided by d, rounded up: the least r with r * d >= n. */
  function CeilDiv(n: nat, d: int): (r: nat)
    requires d >= 1
    ensures r * d >= n
    ensures n > 0 ==> (r - 1) * d < n
    ensures n == 0 ==> r == 0
  {
    var r := (n + d - 1) / d;
    CeilDivBound(n, d, r);
    r
  }

  /** A whole number of d's divided by d, rounded up, is that number. */
  lemma CeilDivExact(k: nat, d: int)
    requires d >= 1
    ensures CeilDiv(k * d, d) == k
  {
    var r := CeilDiv(k * d, d);
    MulNonNegativeInt(k, d);
    if k > 0 {
      MulCancelLess(r - 1, k, d);
    }
  }

  lemma CeilDivBound(n: nat, d: int, r: int)
    requires d >= 1 && r == (n + d - 1) / d
    ensures r >= 0
    ensures r * d >= n
    ensures n > 0 ==> (r - 1) * d < n
    ensures n == 0 ==> r == 0
  {
    var m := (n + d - 1) % d;
    assert n + d - 1 == r * d + m;
  }
}
