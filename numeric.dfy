/** Python's integer conversions on exact rationals: `round` (half to even),
    `round(x, n)`, `int()` (truncation toward zero) and `statistics.mean`.
    Values are `real`; the binary floating-point representation is not modelled. */
module Numeric {

  /** `round(x)`: the nearest integer, ties going to the even neighbour. */
  function RoundHalfEven(x: real): (r: int)
    ensures r as real - 0.5 <= x <= r as real + 0.5
    ensures (x == r as real - 0.5 || x == r as real + 0.5) ==> r % 2 == 0
  {
    var f := x.Floor;
    var frac := x - f as real;
    if frac < 0.5 then f
    else if frac > 0.5 then f + 1
    else if f % 2 == 0 then f
    else f + 1
  }

  /** `int(x)` on a float: drops the fractional part, toward zero. */
  function Trunc(x: real): (r: int)
    ensures 0.0 <= x ==> 0 <= r && r as real <= x < r as real + 1.0
    ensures x < 0.0 ==> r <= 0 && r as real - 1.0 < x <= r as real
  {
    if x >= 0.0 then x.Floor else -((-x).Floor)
  }

  function TenPow(n: nat): (p: real)
    ensures p >= 1.0
  {
    if n == 0 then 1.0 else 10.0 * TenPow(n - 1)
  }

  /** `round(x, digits)`: half-to-even rounding at the given decimal place. */
  function RoundTo(x: real, digits: nat): (r: real)
    ensures -0.5 / TenPow(digits) <= r - x <= 0.5 / TenPow(digits)
  {
    var p := TenPow(digits);
    var k := RoundHalfEven(x * p);
    assert k as real - 0.5 <= x * p <= k as real + 0.5;
    DivBounds(k as real - x * p, p);
    k as real / p
  }

  lemma DivBounds(e: real, p: real)
    requires p >= 1.0 && -0.5 <= e <= 0.5
    ensures -0.5 / p <= e / p <= 0.5 / p
  {
  }

  function Sum(xs: seq<real>): real
  {
    if xs == [] then 0.0 else Sum(xs[..|xs| - 1]) + xs[|xs| - 1]
  }

  /** `statistics.mean`: requires a non-empty list, as Python does (it raises otherwise). */
  function Mean(xs: seq<real>): (m: real)
    requires xs != []
  {
    Sum(xs) / (|xs| as real)
  }

  /** The mean of a list lies between its smallest and its largest element. */
  lemma {:induction false} MeanBetween(xs: seq<real>, lo: real, hi: real)
    requires xs != []
    requires forall i :: 0 <= i < |xs| ==> lo <= xs[i] <= hi
    ensures lo <= Mean(xs) <= hi
  {
    SumBounds(xs, lo, hi);
    var n := |xs| as real;
    assert lo * n <= Sum(xs) <= hi * n;
    assert Mean(xs) == Sum(xs) / n;
  }

  lemma {:induction false} SumBounds(xs: seq<real>, lo: real, hi: real)
    requires forall i :: 0 <= i < |xs| ==> lo <= xs[i] <= hi
    ensures lo * (|xs| as real) <= Sum(xs) <= hi * (|xs| as real)
  {
    if xs != [] {
      SumBounds(xs[..|xs| - 1], lo, hi);
      assert lo <= xs[|xs| - 1] <= hi;
    }
  }
}
