/** The numpy and scipy operations the scripts use, over exact reals: `np.abs`,
    `np.sign`, `np.argmin`, `scipy.integrate.trapz` and `np.around(v, 2)`. */
module Numeric {

  function Abs(v: real): real {
    if v < 0.0 then -v else v
  }

  /** `np.sign`: -1, 0 or 1. */
  function Sign(v: real): int {
    if v < 0.0 then -1 else if v > 0.0 then 1 else 0
  }

  /** `np.argmin`: the position of the smallest element, the first one when
      several are equally small. */
  function ArgMin(s: seq<real>): (k: nat)
    requires |s| > 0
    ensures k < |s|
    ensures forall j | 0 <= j < |s| :: s[k] <= s[j]
    ensures forall j | 0 <= j < k :: s[k] < s[j]
    decreases |s|
  {
    if |s| == 1 then 0
    else
      var k := ArgMin(s[..|s| - 1]);
      if s[|s| - 1] < s[k] then |s| - 1 else k
  }

  /** `[abs(v - c) for v in s]`. */
  function Distances(s: seq<real>, c: real): (r: seq<real>)
    ensures |r| == |s|
    ensures forall i | 0 <= i < |s| :: r[i] == Abs(s[i] - c)
  {
    seq(|s|, i requires 0 <= i < |s| => Abs(s[i] - c))
  }

  /** `np.argmin(np.abs(xs - c))`: the first sample nearest to `c`. */
  function Nearest(xs: seq<real>, c: real): (k: nat)
    requires |xs| > 0
    ensures k < |xs|
    ensures forall j | 0 <= j < |xs| :: Abs(xs[k] - c) <= Abs(xs[j] - c)
    ensures forall j | 0 <= j < k :: Abs(xs[k] - c) < Abs(xs[j] - c)
  {
    ArgMin(Distances(xs, c))
  }

  predicate NonDecreasing(xs: seq<real>) {
    forall i, j | 0 <= i < j < |xs| :: xs[i] <= xs[j]
  }

  /** On samples in ascending order, a point further right never has its
      nearest sample further left. */
  lemma NearestMonotone(xs: seq<real>, c1: real, c2: real)
    requires |xs| > 0 && NonDecreasing(xs) && c1 <= c2
    ensures Nearest(xs, c1) <= Nearest(xs, c2)
  {
    // If the nearest sample e to c2 lay left of the first nearest sample s to
    // c1, then xs[e] < xs[s] and c1 > (xs[e] + xs[s]) / 2 >= c2.
  }

  /** `scipy.integrate.trapz(y, x)`: the trapezoidal rule over the samples (0 for fewer than two). */
  function Trapz(y: seq<real>, x: seq<real>): real
    requires |y| == |x|
    decreases |y|
  {
    if |y| < 2 then 0.0
    else (x[1] - x[0]) * (y[0] + y[1]) / 2.0 + Trapz(y[1..], x[1..])
  }

  // The three lemmas below check `Trapz` against the trapezoidal rule that
  // `scipy.integrate.trapz` implements (additive over adjacent stretches, exact on a
  // straight line, non-negative for a non-negative curve); the area of
  // `calculate_area` is this sum.

  /** The trapezoidal sum is additive: splitting the samples at one of them
      splits the sum. */
  lemma {:induction false} TrapzSplit(y: seq<real>, x: seq<real>, m: nat)
    requires |y| == |x| && m < |y|
    ensures Trapz(y, x) == Trapz(y[..m + 1], x[..m + 1]) + Trapz(y[m..], x[m..])
    decreases m
  {
    if m > 0 {
      TrapzSplit(y[1..], x[1..], m - 1);
      assert y[1..][..m] == y[..m + 1][1..];
      assert x[1..][..m] == x[..m + 1][1..];
      assert y[1..][m - 1..] == y[m..];
      assert x[1..][m - 1..] == x[m..];
    } else {
      assert y[0..] == y && x[0..] == x;
    }
  }

  /** The trapezoidal rule is exact on a straight line `y = a*x + b`. */
  lemma {:induction false} TrapzLinear(y: seq<real>, x: seq<real>, a: real, b: real)
    requires |y| == |x| > 0
    requires forall i | 0 <= i < |x| :: y[i] == a * x[i] + b
    ensures Trapz(y, x) == a * (x[|x| - 1] * x[|x| - 1] - x[0] * x[0]) / 2.0 + b * (x[|x| - 1] - x[0])
    decreases |y|
  {
    if |y| < 2 {
      LinearZero(x[0], a, b);
    } else {
      var x0, x1, xn := x[0], x[1], x[|x| - 1];
      TrapzLinear(y[1..], x[1..], a, b);
      TrapezoidLinear(x0, x1, y[0], y[1], a, b);
      LinearTelescopes(x0, x1, xn, a, b);
    }
  }

  lemma LinearZero(x0: real, a: real, b: real)
    ensures a * (x0 * x0 - x0 * x0) / 2.0 + b * (x0 - x0) == 0.0
  {}

  lemma TrapezoidLinear(x0: real, x1: real, y0: real, y1: real, a: real, b: real)
    requires y0 == a * x0 + b && y1 == a * x1 + b
    ensures (x1 - x0) * (y0 + y1) / 2.0 == a * (x1 * x1 - x0 * x0) / 2.0 + b * (x1 - x0)
  {}

  lemma LinearTelescopes(x0: real, x1: real, xn: real, a: real, b: real)
    ensures a * (x1 * x1 - x0 * x0) / 2.0 + b * (x1 - x0) + (a * (xn * xn - x1 * x1) / 2.0 + b * (xn - x1))
         == a * (xn * xn - x0 * x0) / 2.0 + b * (xn - x0)
  {}

  /** Every trapezoid over ascending abscissas and non-negative ordinates
      has non-negative area. */
  lemma {:induction false} TrapzNonNegative(y: seq<real>, x: seq<real>)
    requires |y| == |x|
    requires NonDecreasing(x)
    requires forall i | 0 <= i < |y| :: y[i] >= 0.0
    ensures Trapz(y, x) >= 0.0
    decreases |y|
  {
    if |y| >= 2 {
      TrapzNonNegative(y[1..], x[1..]);
      assert x[1] - x[0] >= 0.0 && y[0] + y[1] >= 0.0;
    }
  }

  /** `np.around(v, 2)`: `v` to two decimals, ties to the even hundredth. */
  function Round2(v: real): (r: real)
    ensures Abs(r - v) <= 1.0 / 200.0
    ensures (r * 100.0).Floor as real == r * 100.0
    ensures v * 100.0 != (v * 100.0).Floor as real + 0.5 ==> Abs(r - v) < 1.0 / 200.0
    ensures v * 100.0 == (v * 100.0).Floor as real + 0.5 ==> (r * 100.0).Floor % 2 == 0
  {
    var scaled := v * 100.0;
    var f := scaled.Floor;
    var frac := scaled - f as real;
    var n := if frac < 0.5 then f
             else if frac > 0.5 then f + 1
             else if f % 2 == 0 then f else f + 1;
    n as real / 100.0
  }
}
