/**
 * The JavaScript number operations the client applies to its figures, stated on exact
 * reals: Math.floor, Math.round, the `%` remainder, Number.prototype.toFixed(1) read back
 * with parseFloat, and the `Math.round(x * 10) / 10` idiom.
 */
module JsNumber {

  /** Math.floor: the greatest integer not above x. */
  function Floor(x: real): (r: int)
    ensures r as real <= x < r as real + 1.0
  {
    x.Floor
  }

  /** Math.round: the nearest integer, halves rounded towards +infinity. */
  function Round(x: real): (r: int)
    ensures x - 0.5 < r as real <= x + 0.5
  {
    (x + 0.5).Floor
  }

  /** Math.round never reverses an order. */
  lemma RoundMonotone(a: real, b: real)
    requires a <= b
    ensures Round(a) <= Round(b)
  {
  }

  /** A rounded mean of integers bounded by lo and hi is itself between lo and hi. */
  lemma RoundedMeanBetween(sum: int, n: int, lo: int, hi: int)
    requires n > 0 && n * lo <= sum <= n * hi
    ensures lo <= Round(sum as real / n as real) <= hi
  {
    var mean := sum as real / n as real;
    assert (n * lo) as real == lo as real * n as real;
    assert (n * hi) as real == hi as real * n as real;
    QuotientBetween(sum as real, n as real, lo as real, hi as real);
    RoundMonotone(lo as real, mean);
    RoundMonotone(mean, hi as real);
  }

  /** A quotient x / n with l * n <= x <= h * n lies between l and h. */
  lemma QuotientBetween(x: real, n: real, l: real, h: real)
    requires n > 0.0 && l * n <= x <= h * n
    ensures l <= x / n <= h
  {
    assert x / n - l == (x - l * n) / n;
    assert h - x / n == (h * n - x) / n;
  }

  /** Truncation towards zero, as ToInt32 and the `%` operator use it. */
  function Trunc(x: real): (r: int)
    ensures 0.0 <= x ==> r as real <= x < r as real + 1.0
    ensures x < 0.0 ==> r as real - 1.0 < x <= r as real
  {
    if x >= 0.0 then x.Floor else -((-x).Floor)
  }

  /** `x % 60` on numbers: the remainder keeps the sign of the dividend. */
  function Rem60(x: real): (r: real)
    ensures 0.0 <= x ==> 0.0 <= r < 60.0
    ensures x < 0.0 ==> -60.0 < r <= 0.0
    ensures exists q: int {:trigger q as real} :: x == 60.0 * (q as real) + r
  {
    x - 60.0 * (Trunc(x / 60.0) as real)
  }

  /**
   * `Math.floor(x / 60)` and `Math.round(x % 60)`, the split all three duration formatters
   * make. For x >= 0 the second part can reach 60, since a remainder such as 59.6 rounds up.
   */
  function SplitSixty(x: real): (parts: (int, int))
    ensures parts.0 as real * 60.0 <= x < (parts.0 + 1) as real * 60.0
    ensures x >= 0.0 ==> 0 <= parts.1 <= 60
    ensures x >= 0.0 ==> var rest := x - 60.0 * parts.0 as real;
      rest - 0.5 < parts.1 as real <= rest + 0.5
  {
    (Floor(x / 60.0), Round(Rem60(x)))
  }

  /** On a whole number of units nothing is lost: the parts are the quotient and remainder by 60. */
  lemma SplitSixtyWhole(s: nat)
    ensures SplitSixty(s as real) == (s / 60, s % 60)
  {
    var q := Floor(s as real / 60.0);
    assert q * 60 <= s < (q + 1) * 60;
    var r := Rem60(s as real);
    var q' :| s as real == 60.0 * (q' as real) + r;
    assert q' == s / 60;
    assert r == (s % 60) as real;
  }

  /** `parseFloat(x.toFixed(1))`: x to the nearest tenth, halves rounded away from zero. */
  function ToFixed1(x: real): (r: real)
    ensures 0.0 <= x ==> -0.05 < r - x <= 0.05
    ensures x < 0.0 ==> -0.05 <= r - x < 0.05
    ensures 0.0 <= x ==> 0.0 <= r
    ensures x <= 0.0 ==> r <= 0.0
    ensures exists n: int {:trigger n as real} :: r == n as real / 10.0
  {
    if x >= 0.0 then (x * 10.0 + 0.5).Floor as real / 10.0
    else
      var k := ((-x) * 10.0 + 0.5).Floor;
      assert -(k as real / 10.0) == (-k) as real / 10.0;
      -(k as real / 10.0)
  }

  /** A half-tenth that a double holds exactly is rounded away from zero on either side. */
  lemma ToFixed1Halves()
    ensures ToFixed1(1.25) == 1.3 && ToFixed1(7.25) == 7.3 && ToFixed1(-7.25) == -7.3
  {
  }

  /** `Math.round(x * 10) / 10`: x to the nearest tenth, halves rounded towards +infinity. */
  function RoundTenth(x: real): (r: real)
    ensures -0.05 < r - x <= 0.05
    ensures exists n: int {:trigger n as real} :: r == n as real / 10.0
  {
    Round(x * 10.0) as real / 10.0
  }
}
