/**
 * The few JavaScript and p5.js numeric primitives the sketch relies on,
 * written out over Dafny's unbounded `int` and exact `real`.
 */
module JsMath {

  /** Absolute value (`Math.abs`). */
  function Abs(x: real): (r: real)
    ensures r >= 0.0
    ensures r == x || r == -x
  {
    if x < 0.0 then -x else x
  }

  /** `Math.round`: the nearest integer, halves rounded towards +infinity. */
  function Round(x: real): (r: int)
    ensures x - 0.5 < r as real <= x + 0.5
  {
    (x + 0.5).Floor
  }

  /** `Math.floor`. */
  function Floor(x: real): (r: int)
    ensures r as real <= x < r as real + 1.0
  {
    x.Floor
  }

  /** The floor of `x` is the one integer `q` with `q <= x < q + 1`. */
  lemma FloorUnique(x: real, q: int)
    requires q as real <= x < q as real + 1.0
    ensures Floor(x) == q
  {
    var f := Floor(x);
    assert f as real < q as real + 1.0 && q as real < f as real + 1.0;
  }

  /** Converting a product of integers to a real is the product of the converted factors. */
  lemma {:induction false} ProductAsReal(a: int, b: nat)
    ensures (a * b) as real == a as real * b as real
    decreases b
  {
    if b > 0 {
      ProductAsReal(a, b - 1);
      assert a * b == a * (b - 1) + a;
      assert a as real * b as real == a as real * (b - 1) as real + a as real;
    }
  }

  /** The real quotient of `q * d + r` by `d`, with `0 <= r < d`, lies in `[q, q + 1)`. */
  lemma QuotientAsReal(n: nat, d: int, q: nat, r: int)
    requires d >= 1 && n == q * d + r && 0 <= r < d
    ensures q as real <= n as real / d as real < q as real + 1.0
  {
    ProductAsReal(q, d);
    QuotientOfParts(n as real, q as real, r as real, d as real);
  }

  /** `x / c` lies between `a` and `a + 1` when `x` is `a * c` plus a remainder below `c`. */
  lemma QuotientOfParts(x: real, a: real, b: real, c: real)
    requires c > 0.0 && 0.0 <= b < c && x == a * c + b
    ensures a <= x / c < a + 1.0
  {
    FractionBounds(b, c);
    DivSplit(a, b, c);
  }

  /** A quotient of a non-negative number by a larger one is a fraction. */
  lemma FractionBounds(a: real, c: real)
    requires 0.0 <= a < c
    ensures 0.0 <= a / c < 1.0
  {
    var f := a / c;
    assert f * c == a;
    if f < 0.0 {
      MulRight(f, 0.0, c);
    } else if f >= 1.0 {
      MulRight(1.0, f, c);
    }
  }

  /** Division by a positive number distributes over `a * c + b`. */
  lemma DivSplit(a: real, b: real, c: real)
    requires c > 0.0
    ensures (a * c + b) / c == a + b / c
  {
    assert (a + b / c) * c == a * c + b;
  }

  /** `Math.floor(n / d)` of a natural by a positive integer is the integer quotient. */
  lemma FloorOfQuotient(n: nat, d: int)
    requires d >= 1
    ensures Floor(n as real / d as real) == n / d
  {
    var q, r := n / d, n % d;
    assert n == q * d + r && 0 <= q && 0 <= r < d;
    QuotientAsReal(n, d, q, r);
    FloorUnique(n as real / d as real, q);
  }

  /** `Math.trunc`, which is also what p5's `int()` does to a number. */
  function Trunc(x: real): (r: int)
    ensures 0.0 <= x ==> 0 <= r && r as real <= x < r as real + 1.0
    ensures x < 0.0 ==> r <= 0 && r as real - 1.0 < x <= r as real
  {
    if x >= 0.0 then x.Floor else -((-x).Floor)
  }

  /** JavaScript `%` on numbers: the remainder takes the sign of the dividend. */
  function RemReal(x: real, y: real): real
    requires y > 0.0
  {
    x - Trunc(x / y) as real * y
  }

  /** Multiplying both sides of an inequality by a positive factor keeps its direction. */
  lemma MulRight(a: real, b: real, c: real)
    requires c > 0.0
    ensures a <= b ==> a * c <= b * c
    ensures a < b ==> a * c < b * c
  {
    if a < b {
      assert b * c - a * c == (b - a) * c;
    }
  }

  /** JavaScript `%` on integers. */
  function RemInt(x: int, y: int): (r: int)
    requires y > 0
    ensures 0 <= x ==> 0 <= r < y && r == x % y
    ensures x < 0 ==> -y < r <= 0
  {
    if x >= 0 then x % y else -((-x) % y)
  }

  function Min(a: real, b: real): (r: real)
    ensures r <= a && r <= b && (r == a || r == b)
  {
    if a <= b then a else b
  }

  function Max(a: real, b: real): (r: real)
    ensures r >= a && r >= b && (r == a || r == b)
  {
    if a >= b then a else b
  }

  /** p5's `constrain(n, low, high)`, i.e. `Math.max(Math.min(n, high), low)`. */
  function Constrain(n: real, low: real, high: real): (r: real)
    requires low <= high
    ensures low <= r <= high
    ensures low <= n <= high ==> r == n
    ensures n < low ==> r == low
    ensures n > high ==> r == high
  {
    Max(Min(n, high), low)
  }

  /** p5's `constrain` on integers. */
  function ConstrainInt(n: int, low: int, high: int): (r: int)
    requires low <= high
    ensures low <= r <= high
    ensures low <= n <= high ==> r == n
    ensures n < low ==> r == low
    ensures n > high ==> r == high
  {
    if n > high then high else if n < low then low else n
  }

  /** p5's `map(n, start1, stop1, start2, stop2)` without bounds clamping. */
  function MapRange(n: real, start1: real, stop1: real, start2: real, stop2: real): real
    requires start1 != stop1
  {
    (n - start1) / (stop1 - start1) * (stop2 - start2) + start2
  }

  /** p5's `lerp(start, stop, amt)`. */
  function Lerp(start: real, stop: real, amt: real): (r: real)
    ensures amt == 0.0 ==> r == start
    ensures amt == 1.0 ==> r == stop
  {
    amt * (stop - start) + start
  }

  /** A fraction of a difference lies between zero and that difference. */
  lemma ScaleByFraction(t: real, d: real)
    requires 0.0 <= t <= 1.0
    ensures d >= 0.0 ==> 0.0 <= t * d <= d
    ensures d < 0.0 ==> d <= t * d <= 0.0
  {
    assert d - t * d == (1.0 - t) * d;
    if d >= 0.0 {
      MulLeft(t, 0.0, d);
      MulLeft(1.0 - t, 0.0, d);
    } else {
      MulLeft(t, d, 0.0);
      MulLeft(1.0 - t, d, 0.0);
    }
  }

  /** A value between two bounds stays there when it is blended towards another such value. */
  lemma LerpBetween(a: real, b: real, t: real, lo: real, hi: real)
    requires lo <= a <= hi && lo <= b <= hi && 0.0 <= t <= 1.0
    ensures lo <= Lerp(a, b, t) <= hi
  {
    var d := b - a;
    ScaleByFraction(t, d);
    var m := t * d;
    assert Lerp(a, b, t) == a + m;
    if d >= 0.0 {
      assert a <= a + m <= b;
    } else {
      assert b <= a + m <= a;
    }
  }

  /** Multiplying by a non-negative factor on the left keeps a weak inequality. */
  lemma MulLeft(c: real, a: real, b: real)
    requires c >= 0.0 && a <= b
    ensures c * a <= c * b
  {
    assert c * b - c * a == c * (b - a);
  }

  /** A sum of `c` terms between two bounds, divided by `c`, lies between those bounds. */
  lemma DivBetween(sum: real, c: real, lo: real, hi: real)
    requires c > 0.0 && c * lo <= sum <= c * hi
    ensures lo <= sum / c <= hi
  {
    var r := sum / c;
    assert r * c == sum;
    MulRight(r, lo, c);
    MulRight(hi, r, c);
  }

  /** A non-zero number divided by itself is one. */
  lemma DivSelf(d: real)
    requires d != 0.0
    ensures d / d == 1.0
  {
  }

  /** A part of a positive whole, divided by the whole, is a fraction in [0, 1]. */
  lemma FractionInUnit(a: real, d: real)
    requires 0.0 <= a <= d && d > 0.0
    ensures 0.0 <= a / d <= 1.0
  {
    var f := a / d;
    assert f * d == a;
    MulRight(1.0, f, d);
    MulRight(f, 0.0, d);
  }

  /** Left-to-right sum, the order of `acc += x` loops and of `reduce((a, b) => a + b, 0)`. */
  function Sum(s: seq<real>): real
  {
    if s == [] then 0.0 else Sum(s[..|s| - 1]) + s[|s| - 1]
  }

  /** Extending a prefix by one element adds that element to its sum. */
  lemma SumPrefixStep(s: seq<real>, j: nat)
    requires j < |s|
    ensures Sum(s[..j + 1]) == Sum(s[..j]) + s[j]
  {
    assert s[..j + 1][..j] == s[..j];
  }

  /** A sum of non-negative terms grows with the prefix it covers. */
  lemma {:induction false} SumPrefixMonotone(s: seq<real>, i: nat, j: nat)
    requires i <= j <= |s|
    requires forall k :: 0 <= k < |s| ==> s[k] >= 0.0
    ensures Sum(s[..i]) <= Sum(s[..j])
  {
    if i < j {
      SumPrefixMonotone(s, i, j - 1);
      SumPrefixStep(s, j - 1);
    }
  }

  /** With positive terms the growth is strict. */
  lemma {:induction false} SumPrefixStrict(s: seq<real>, i: nat, j: nat)
    requires i < j <= |s|
    requires forall k :: 0 <= k < |s| ==> s[k] > 0.0
    ensures Sum(s[..i]) < Sum(s[..j])
  {
    SumPrefixStep(s, j - 1);
    if i < j - 1 {
      SumPrefixStrict(s, i, j - 1);
    }
  }

  /** The mean of values inside an interval stays inside it. */
  lemma {:induction false} SumBounds(s: seq<real>, lo: real, hi: real)
    requires forall k :: 0 <= k < |s| ==> lo <= s[k] <= hi
    ensures |s| as real * lo <= Sum(s) <= |s| as real * hi
  {
    if s != [] {
      SumBounds(s[..|s| - 1], lo, hi);
    }
  }
}
