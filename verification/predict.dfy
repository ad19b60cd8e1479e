/**
 * The least-squares trend predictor of cafeindex-ai/predict.js over exact
 * real numbers: `linearRegression` fits `y = a*x + b` by the closed-form
 * normal equations, and `predictNext` places the observed prices at
 * x = 0..n-1 and extends the fitted line `count` steps forward.
 */
module Predict {
  import opened Common

  // ---------------------------------------------------------------------
  // Sums and pointwise operations on sequences of reals
  // ---------------------------------------------------------------------

  /** Σ s[i] (`reduce((a, b) => a + b, 0)`). */
  function Sum(s: seq<real>): real {
    if |s| == 0 then 0.0 else Sum(s[..|s| - 1]) + s[|s| - 1]
  }

  /** Pointwise products xs[i]·ys[i]; Σx·y is `Sum(Products(xs, ys))`. */
  function Products(xs: seq<real>, ys: seq<real>): (r: seq<real>)
    requires |xs| == |ys|
    ensures |r| == |xs| && forall i :: 0 <= i < |xs| ==> r[i] == xs[i] * ys[i]
  {
    seq(|xs|, i requires 0 <= i < |xs| => xs[i] * ys[i])
  }

  /** Pointwise sum. */
  function Add(r: seq<real>, v: seq<real>): (w: seq<real>)
    requires |r| == |v|
    ensures |w| == |r| && forall i :: 0 <= i < |r| ==> w[i] == r[i] + v[i]
  {
    seq(|r|, i requires 0 <= i < |r| => r[i] + v[i])
  }

  /** Pointwise difference. */
  function Sub(r: seq<real>, v: seq<real>): (w: seq<real>)
    requires |r| == |v|
    ensures |w| == |r| && forall i :: 0 <= i < |r| ==> w[i] == r[i] - v[i]
  {
    seq(|r|, i requires 0 <= i < |r| => r[i] - v[i])
  }

  /** Every element multiplied by c. */
  function Scale(c: real, s: seq<real>): (w: seq<real>)
    ensures |w| == |s| && forall i :: 0 <= i < |s| ==> w[i] == c * s[i]
  {
    seq(|s|, i requires 0 <= i < |s| => c * s[i])
  }

  /** Equal factors give equal products. */
  lemma {:induction false} Times(a: real, b: real, c: real, d: real)
    requires a == c && b == d
    ensures a * b == c * d
  {
  }

  lemma {:induction false} Distribute(c: real, a: real, b: real)
    ensures c * (a + b) == c * a + c * b
  {
  }

  lemma {:induction false} SumAdd(r: seq<real>, v: seq<real>)
    requires |r| == |v|
    ensures Sum(Add(r, v)) == Sum(r) + Sum(v)
  {
    if |r| > 0 {
      var n := |r| - 1;
      assert Add(r, v)[..n] == Add(r[..n], v[..n]);
      SumAdd(r[..n], v[..n]);
    }
  }

  lemma {:induction false} SumSub(r: seq<real>, v: seq<real>)
    requires |r| == |v|
    ensures Sum(Sub(r, v)) == Sum(r) - Sum(v)
  {
    if |r| > 0 {
      var n := |r| - 1;
      assert Sub(r, v)[..n] == Sub(r[..n], v[..n]);
      SumSub(r[..n], v[..n]);
    }
  }

  lemma {:induction false} ScalePrefix(c: real, s: seq<real>, n: nat)
    requires n <= |s|
    ensures Scale(c, s)[..n] == Scale(c, s[..n])
  {
    forall i | 0 <= i < n
      ensures Scale(c, s)[..n][i] == Scale(c, s[..n])[i]
    {
      Times(c, s[..n][i], c, s[i]);
    }
  }

  lemma {:induction false} SumScale(c: real, s: seq<real>)
    ensures Sum(Scale(c, s)) == c * Sum(s)
  {
    if |s| > 0 {
      var n := |s| - 1;
      ScalePrefix(c, s, n);
      SumScale(c, s[..n]);
      Distribute(c, Sum(s[..n]), s[n]);
    }
  }

  lemma {:induction false} SumNonNegative(s: seq<real>)
    requires forall i :: 0 <= i < |s| ==> s[i] >= 0.0
    ensures Sum(s) >= 0.0
  {
    if |s| > 0 {
      SumNonNegative(s[..|s| - 1]);
    }
  }

  lemma {:induction false} ProductsPrefix(xs: seq<real>, ys: seq<real>, n: nat)
    requires |xs| == |ys| && n <= |xs|
    ensures Products(xs, ys)[..n] == Products(xs[..n], ys[..n])
  {
    forall i | 0 <= i < n
      ensures Products(xs, ys)[..n][i] == Products(xs[..n], ys[..n])[i]
    {
      Times(xs[i], ys[i], xs[..n][i], ys[..n][i]);
    }
  }

  // ---------------------------------------------------------------------
  // The four sums of linearRegression
  // ---------------------------------------------------------------------

  /** The count and the four sums n, Σx, Σy, Σxy, Σx² linearRegression reduces its input to. */
  datatype Sums = Sums(n: real, x: real, y: real, xy: real, xx: real) {
    /** The shared denominator `n·Σx² − (Σx)²` of the slope. */
    function Denominator(): real { n * xx - x * x }
  }

  function SumsOf(xs: seq<real>, ys: seq<real>): Sums
    requires |xs| == |ys|
  {
    Sums(|xs| as real, Sum(xs), Sum(ys), Sum(Products(xs, ys)), Sum(Products(xs, xs)))
  }

  /** The denominator of linearRegression on the abscissae xs. */
  function Denominator(xs: seq<real>): real {
    SumsOf(xs, xs).Denominator()
  }

  // ---------------------------------------------------------------------
  // linearRegression
  // ---------------------------------------------------------------------

  datatype Line = Line(slope: real, intercept: real) {
    function At(x: real): real { slope * x + intercept }
  }

  /**
   * The normal equations of least squares: the residuals sum to zero, and
   * so do the residuals weighted by x.
   */
  predicate Normal(s: Sums, l: Line) {
    s.y == l.slope * s.x + s.n * l.intercept
    && s.xy == l.slope * s.xx + l.intercept * s.x
  }

  /** The normal equations, on the points themselves. */
  predicate SolvesNormalEquations(xs: seq<real>, ys: seq<real>, l: Line)
    requires |xs| == |ys|
  {
    Sum(ys) == l.slope * Sum(xs) + |xs| as real * l.intercept
    && Sum(Products(xs, ys)) == l.slope * Sum(Products(xs, xs)) + l.intercept * Sum(xs)
  }

  lemma {:induction false} NormalOfSums(xs: seq<real>, ys: seq<real>, l: Line)
    requires |xs| == |ys|
    ensures SolvesNormalEquations(xs, ys, l) <==> Normal(SumsOf(xs, ys), l)
  {
    NormalOfFields(SumsOf(xs, ys), |xs| as real, Sum(xs), Sum(ys), Sum(Products(xs, ys)), Sum(Products(xs, xs)), l);
  }

  lemma {:induction false} NormalOfFields(s: Sums, n: real, x: real, y: real, xy: real, xx: real, l: Line)
    requires s == Sums(n, x, y, xy, xx)
    ensures Normal(s, l) <==> y == l.slope * x + n * l.intercept && xy == l.slope * xx + l.intercept * x
  {
  }

  /** The closed form of the source, on the sums. */
  function Solve(s: Sums): (r: Option<Line>)
    ensures r.None? <==> s.Denominator() == 0.0 || s.n == 0.0
  {
    if s.Denominator() == 0.0 || s.n == 0.0 then None
    else
      var a := (s.n * s.xy - s.x * s.y) / s.Denominator();
      Some(Line(a, (s.y - a * s.x) / s.n))
  }

  /**
   * `linearRegression(xs, ys)`. `None` stands for the non-finite result the
   * source computes when the denominator is zero (which includes n = 0):
   * NaN from 0/0 or an infinity from a non-zero numerator over 0.
   */
  function LinearRegression(xs: seq<real>, ys: seq<real>): (r: Option<Line>)
    requires |xs| == |ys|
    ensures r.None? <==> Denominator(xs) == 0.0
  {
    var s := SumsOf(xs, ys);
    Times(s.n, s.xx, |xs| as real, Sum(Products(xs, xs)));
    Times(s.x, s.x, Sum(xs), Sum(xs));
    Solve(s)
  }

  /** The closed form solves the two normal equations. */
  lemma {:induction false} SolveIsNormal(s: Sums)
    requires Solve(s).Some?
    ensures Normal(s, Solve(s).value)
  {
    var d := s.Denominator();
    var a := Solve(s).value.slope;
    var b := Solve(s).value.intercept;
    assert a == (s.n * s.xy - s.x * s.y) / d;
    assert s.n * b == s.y - a * s.x;
    assert a * d == s.n * s.xy - s.x * s.y;
    calc {
      s.n * (a * s.xx + b * s.x);
      a * (s.n * s.xx) + (s.n * b) * s.x;
      a * (s.n * s.xx) + (s.y - a * s.x) * s.x;
      a * d + s.x * s.y;
      s.n * s.xy;
    }
  }

  /** When the denominator is non-zero, the normal equations have one solution only. */
  lemma {:induction false} SolveIsUnique(s: Sums, l: Line)
    requires s.Denominator() != 0.0 && s.n != 0.0
    requires Normal(s, l)
    ensures Solve(s) == Some(l)
  {
    var d := s.Denominator();
    var a, b := l.slope, l.intercept;
    calc {
      s.n * s.xy;
      s.n * (a * s.xx) + (s.n * b) * s.x;
      s.n * (a * s.xx) + (s.y - a * s.x) * s.x;
      a * d + s.x * s.y;
    }
    assert a == (s.n * s.xy - s.x * s.y) / d;
    assert b == (s.y - a * s.x) / s.n;
    assert Solve(s).value.slope == a;
    assert Solve(s).value.intercept == b;
  }

  /**
   * The fitted line solves the normal equations (the first of which says
   * that it passes through the mean point).
   */
  lemma {:induction false} RegressionSolvesNormalEquations(xs: seq<real>, ys: seq<real>)
    requires |xs| == |ys|
    requires LinearRegression(xs, ys).Some?
    ensures SolvesNormalEquations(xs, ys, LinearRegression(xs, ys).value)
  {
    SolveIsNormal(SumsOf(xs, ys));
    NormalOfSums(xs, ys, LinearRegression(xs, ys).value);
  }

  /** Any solution of the normal equations is the line the source computes. */
  lemma {:induction false} RegressionIsOnlySolution(xs: seq<real>, ys: seq<real>, l: Line)
    requires |xs| == |ys|
    requires Denominator(xs) != 0.0
    requires SolvesNormalEquations(xs, ys, l)
    ensures LinearRegression(xs, ys) == Some(l)
  {
    var s := SumsOf(xs, ys);
    assert Solve(s).Some?;
    NormalOfSums(xs, ys, l);
    SolveIsUnique(s, l);
  }

  // ---------------------------------------------------------------------
  // Least squares: the fitted line minimises the sum of squared residuals
  // ---------------------------------------------------------------------

  /** The values of `e` at xs. */
  function Values(xs: seq<real>, e: Line): (v: seq<real>)
    ensures |v| == |xs| && forall i :: 0 <= i < |xs| ==> v[i] == e.At(xs[i])
  {
    seq(|xs|, i requires 0 <= i < |xs| => e.At(xs[i]))
  }

  /** The residuals ys[i] − l(xs[i]). */
  function Residuals(xs: seq<real>, ys: seq<real>, l: Line): seq<real>
    requires |xs| == |ys|
  {
    Sub(ys, Values(xs, l))
  }

  /** Σ (ys[i] − l(xs[i]))². */
  function SquaredError(xs: seq<real>, ys: seq<real>, l: Line): real
    requires |xs| == |ys|
  {
    var r := Residuals(xs, ys, l);
    Sum(Products(r, r))
  }

  lemma {:induction false} SquaresNonNegative(s: seq<real>)
    ensures Sum(Products(s, s)) >= 0.0
  {
    var p := Products(s, s);
    forall i | 0 <= i < |s|
      ensures p[i] >= 0.0
    {
      assert p[i] == s[i] * s[i];
    }
    SumNonNegative(p);
  }

  lemma {:induction false} SquareOfSum(a: real, b: real)
    ensures (a + b) * (a + b) == a * a + 2.0 * (a * b) + b * b
  {
  }

  lemma {:induction false} ProductsOfAdd(r: seq<real>, v: seq<real>)
    requires |r| == |v|
    ensures Products(Add(r, v), Add(r, v))
         == Add(Add(Products(r, r), Scale(2.0, Products(r, v))), Products(v, v))
  {
    var w := Add(r, v);
    forall i | 0 <= i < |r|
      ensures Products(w, w)[i]
           == Add(Add(Products(r, r), Scale(2.0, Products(r, v))), Products(v, v))[i]
    {
      SquareOfSum(r[i], v[i]);
    }
  }

  /** Σ(r + v)² = Σr² + 2·Σr·v + Σv². */
  lemma {:induction false} SquaresOfAdd(r: seq<real>, v: seq<real>)
    requires |r| == |v|
    ensures Sum(Products(Add(r, v), Add(r, v)))
         == Sum(Products(r, r)) + 2.0 * Sum(Products(r, v)) + Sum(Products(v, v))
  {
    var rr, rv, vv := Products(r, r), Products(r, v), Products(v, v);
    ProductsOfAdd(r, v);
    SumAdd(Add(rr, Scale(2.0, rv)), vv);
    SumAdd(rr, Scale(2.0, rv));
    SumScale(2.0, rv);
  }

  /** The values a·x + b at each xs[i]. */
  predicate OnValues(v: seq<real>, xs: seq<real>, a: real, b: real) {
    |v| == |xs| && forall i :: 0 <= i < |v| ==> v[i] == a * xs[i] + b
  }

  /** w = a·p + b·q pointwise. */
  predicate Combination(w: seq<real>, a: real, p: seq<real>, b: real, q: seq<real>) {
    |w| == |p| == |q| && forall i :: 0 <= i < |w| ==> w[i] == a * p[i] + b * q[i]
  }

  lemma {:induction false} ProductWithValue(r: real, x: real, v: real, a: real, b: real)
    requires v == a * x + b
    ensures r * v == a * (x * r) + b * r
  {
  }

  lemma {:induction false} ProductsWithValues(r: seq<real>, xs: seq<real>, v: seq<real>, a: real, b: real)
    requires |r| == |xs| && OnValues(v, xs, a, b)
    ensures Combination(Products(r, v), a, Products(xs, r), b, r)
  {
    forall i | 0 <= i < |r|
      ensures Products(r, v)[i] == a * Products(xs, r)[i] + b * r[i]
    {
      ProductWithValue(r[i], xs[i], v[i], a, b);
    }
  }

  /** Σ(a·p + b·q) = a·Σp + b·Σq. */
  lemma {:induction false} SumOfCombination(w: seq<real>, a: real, p: seq<real>, b: real, q: seq<real>)
    requires Combination(w, a, p, b, q)
    ensures Sum(w) == a * Sum(p) + b * Sum(q)
  {
    if |w| > 0 {
      var n := |w| - 1;
      SumOfCombination(w[..n], a, p[..n], b, q[..n]);
      assert a * (Sum(p[..n]) + p[n]) + b * (Sum(q[..n]) + q[n])
          == (a * Sum(p[..n]) + b * Sum(q[..n])) + (a * p[n] + b * q[n]);
    }
  }

  /** Σ r[i]·v[i] = a·Σ xs[i]·r[i] + b·Σ r[i] when v[i] = a·xs[i] + b. */
  lemma {:induction false} SumProductsWithLine(r: seq<real>, xs: seq<real>, v: seq<real>, a: real, b: real)
    requires |r| == |xs| && OnValues(v, xs, a, b)
    ensures Sum(Products(r, v)) == a * Sum(Products(xs, r)) + b * Sum(r)
  {
    ProductsWithValues(r, xs, v, a, b);
    SumOfCombination(Products(r, v), a, Products(xs, r), b, r);
  }

  /** Σ r[i]·e(xs[i]) = e.slope·Σ xs[i]·r[i] + e.intercept·Σ r[i]. */
  lemma {:induction false} SumProductsWithValues(r: seq<real>, xs: seq<real>, e: Line)
    requires |r| == |xs|
    ensures Sum(Products(r, Values(xs, e)))
         == e.slope * Sum(Products(xs, r)) + e.intercept * Sum(r)
  {
    ValuesOnLine(xs, e);
    SumProductsWithLine(r, xs, Values(xs, e), e.slope, e.intercept);
  }

  lemma {:induction false} ValuesOnLine(xs: seq<real>, e: Line)
    ensures OnValues(Values(xs, e), xs, e.slope, e.intercept)
  {
  }

  lemma {:induction false} ProductsOfSub(s: seq<real>, r: seq<real>, v: seq<real>)
    requires |s| == |r| == |v|
    ensures Products(s, Sub(r, v)) == Sub(Products(s, r), Products(s, v))
  {
    forall i | 0 <= i < |s|
      ensures Products(s, Sub(r, v))[i] == Sub(Products(s, r), Products(s, v))[i]
    {
      assert s[i] * (r[i] - v[i]) == s[i] * r[i] - s[i] * v[i];
    }
  }

  /** Σ l(xs[i]) = a·Σx + n·b. */
  lemma {:induction false} SumValues(xs: seq<real>, l: Line)
    ensures Sum(Values(xs, l)) == l.slope * Sum(xs) + |xs| as real * l.intercept
  {
    if |xs| > 0 {
      var n := |xs| - 1;
      assert Values(xs, l)[..n] == Values(xs[..n], l);
      SumValues(xs[..n], l);
      var x, m := xs[n], n as real;
      assert l.slope * (Sum(xs[..n]) + x) + (m + 1.0) * l.intercept
          == (l.slope * Sum(xs[..n]) + m * l.intercept) + (l.slope * x + l.intercept);
    }
  }

  /** Σ residuals = Σy − a·Σx − n·b. */
  lemma {:induction false} SumOfResiduals(xs: seq<real>, ys: seq<real>, l: Line)
    requires |xs| == |ys|
    ensures Sum(Residuals(xs, ys, l)) == Sum(ys) - (l.slope * Sum(xs) + |xs| as real * l.intercept)
  {
    SumSub(ys, Values(xs, l));
    SumValues(xs, l);
  }

  /** Moving the line by `e` moves each residual by e's value at the point. */
  lemma {:induction false} ShiftPoint(x: real, y: real, l: Line, e: Line)
    ensures y - Line(l.slope - e.slope, l.intercept - e.intercept).At(x) == (y - l.At(x)) + e.At(x)
  {
  }

  /** Moving the line by `e` adds e's values to the residuals. */
  lemma {:induction false} ResidualsShift(xs: seq<real>, ys: seq<real>, l: Line, e: Line)
    requires |xs| == |ys|
    ensures Residuals(xs, ys, Line(l.slope - e.slope, l.intercept - e.intercept))
         == Add(Residuals(xs, ys, l), Values(xs, e))
  {
    var m := Line(l.slope - e.slope, l.intercept - e.intercept);
    forall i | 0 <= i < |xs|
      ensures Residuals(xs, ys, m)[i] == Add(Residuals(xs, ys, l), Values(xs, e))[i]
    {
      ShiftPoint(xs[i], ys[i], l, e);
    }
  }

  /** The residuals of a solution of the normal equations sum to zero. */
  lemma {:induction false} ResidualsSumToZero(xs: seq<real>, ys: seq<real>, l: Line)
    requires |xs| == |ys|
    requires SolvesNormalEquations(xs, ys, l)
    ensures Sum(Residuals(xs, ys, l)) == 0.0
  {
    SumOfResiduals(xs, ys, l);
    Cancel(Sum(Residuals(xs, ys, l)), Sum(ys), l.slope * Sum(xs) + |xs| as real * l.intercept);
  }

  /** The residuals of a solution of the normal equations, weighted by x, sum to zero. */
  lemma {:induction false} WeightedResidualsSumToZero(xs: seq<real>, ys: seq<real>, l: Line)
    requires |xs| == |ys|
    requires SolvesNormalEquations(xs, ys, l)
    ensures Sum(Products(xs, Residuals(xs, ys, l))) == 0.0
  {
    WeightedNormalEquation(xs, ys, l);
    WeightedSumVanishes(xs, ys, l);
  }

  /** The second normal equation, Σxy = a·Σx² + b·Σx. */
  lemma {:induction false} WeightedNormalEquation(xs: seq<real>, ys: seq<real>, l: Line)
    requires |xs| == |ys| && SolvesNormalEquations(xs, ys, l)
    ensures Sum(Products(xs, ys)) == l.slope * Sum(Products(xs, xs)) + l.intercept * Sum(xs)
  {
  }

  /** Σ xs[i]·(ys[i] − l(xs[i])) = 0 when l's coefficients solve Σxy = a·Σx² + b·Σx. */
  lemma {:induction false} WeightedSumVanishes(xs: seq<real>, ys: seq<real>, l: Line)
    requires |xs| == |ys|
    requires Sum(Products(xs, ys)) == l.slope * Sum(Products(xs, xs)) + l.intercept * Sum(xs)
    ensures Sum(Products(xs, Residuals(xs, ys, l))) == 0.0
  {
    var v := Values(xs, l);
    ValuesOnLine(xs, l);
    WeightedSumOfLineVanishes(xs, ys, v, l.slope, l.intercept);
    assert Residuals(xs, ys, l) == Sub(ys, v);
  }

  lemma {:induction false} WeightedSumOfLineVanishes(xs: seq<real>, ys: seq<real>, v: seq<real>, a: real, b: real)
    requires |xs| == |ys| && OnValues(v, xs, a, b)
    requires Sum(Products(xs, ys)) == a * Sum(Products(xs, xs)) + b * Sum(xs)
    ensures Sum(Products(xs, Sub(ys, v))) == 0.0
  {
    calc {
      Sum(Products(xs, Sub(ys, v)));
    == { ProductsOfSub(xs, ys, v); }
      Sum(Sub(Products(xs, ys), Products(xs, v)));
    == { SumSub(Products(xs, ys), Products(xs, v)); }
      Sum(Products(xs, ys)) - Sum(Products(xs, v));
    == { SumProductsWithLine(xs, xs, v, a, b); }
      Sum(Products(xs, ys)) - (a * Sum(Products(xs, xs)) + b * Sum(xs));
    ==
      0.0;
    }
  }

  lemma {:induction false} Cancel(w: real, s: real, t: real)
    requires s == t && w == s - t
    ensures w == 0.0
  {
  }

  /** a·p + b·q vanishes when p and q do. */
  lemma {:induction false} VanishingCombination(s: real, a: real, p: real, b: real, q: real)
    requires s == a * p + b * q && p == 0.0 && q == 0.0
    ensures s == 0.0
  {
  }

  /** For a solution of the normal equations the residuals are orthogonal to every line's values. */
  lemma {:induction false} ResidualsOrthogonal(xs: seq<real>, ys: seq<real>, l: Line, e: Line)
    requires |xs| == |ys|
    requires SolvesNormalEquations(xs, ys, l)
    ensures Sum(Products(Residuals(xs, ys, l), Values(xs, e))) == 0.0
  {
    var r := Residuals(xs, ys, l);
    ResidualsSumToZero(xs, ys, l);
    WeightedResidualsSumToZero(xs, ys, l);
    SumProductsWithValues(r, xs, e);
    VanishingCombination(Sum(Products(r, Values(xs, e))), e.slope, Sum(Products(xs, r)), e.intercept, Sum(r));
  }

  /** A solution of the normal equations has no larger squared error than any other line. */
  lemma {:induction false} LeastSquares(xs: seq<real>, ys: seq<real>, l: Line, other: Line)
    requires |xs| == |ys|
    requires SolvesNormalEquations(xs, ys, l)
    ensures SquaredError(xs, ys, l) <= SquaredError(xs, ys, other)
  {
    var e := Line(l.slope - other.slope, l.intercept - other.intercept);
    assert other == Line(l.slope - e.slope, l.intercept - e.intercept);
    var r, v := Residuals(xs, ys, l), Values(xs, e);
    ResidualsShift(xs, ys, l, e);
    assert Residuals(xs, ys, other) == Add(r, v);
    ResidualsOrthogonal(xs, ys, l, e);
    SquaresOfAdd(r, v);
    SquaresNonNegative(v);
  }

  /** linearRegression returns the least-squares line whenever it returns a line. */
  lemma {:induction false} RegressionMinimisesSquaredError(xs: seq<real>, ys: seq<real>, other: Line)
    requires |xs| == |ys|
    requires LinearRegression(xs, ys).Some?
    ensures SquaredError(xs, ys, LinearRegression(xs, ys).value) <= SquaredError(xs, ys, other)
  {
    RegressionSolvesNormalEquations(xs, ys);
    LeastSquares(xs, ys, LinearRegression(xs, ys).value, other);
  }

  // ---------------------------------------------------------------------
  // Exact fit on points that already lie on a line
  // ---------------------------------------------------------------------

  predicate OnLine(xs: seq<real>, ys: seq<real>, l: Line)
    requires |xs| == |ys|
  {
    forall i :: 0 <= i < |xs| ==> ys[i] == l.At(xs[i])
  }

  /** Points on a line solve that line's normal equations. */
  lemma {:induction false} SumsOnLine(xs: seq<real>, ys: seq<real>, l: Line)
    requires |xs| == |ys| && OnLine(xs, ys, l)
    ensures SolvesNormalEquations(xs, ys, l)
  {
    assert ys == Values(xs, l);
    SumValues(xs, l);
    SumProductsWithValues(xs, xs, l);
  }

  /** Points on a line are fitted by exactly that line (when the denominator is non-zero). */
  lemma {:induction false} ExactFit(xs: seq<real>, ys: seq<real>, l: Line)
    requires |xs| == |ys| && OnLine(xs, ys, l)
    requires Denominator(xs) != 0.0
    ensures LinearRegression(xs, ys) == Some(l)
  {
    SumsOnLine(xs, ys, l);
    RegressionIsOnlySolution(xs, ys, l);
  }

  // ---------------------------------------------------------------------
  // The abscissae 0..n-1 of predictNext
  // ---------------------------------------------------------------------

  /** `Array.from({ length: n }, (_, i) => i)`. */
  function Indices(n: nat): (xs: seq<real>)
    ensures |xs| == n && forall i :: 0 <= i < n ==> xs[i] == i as real
  {
    seq(n, i => i as real)
  }

  lemma {:induction false} IndexSumStep(n: nat)
    requires n >= 1
    ensures var r, m := n as real, (n - 1) as real;
            m * (m - 1.0) / 2.0 + m == r * (r - 1.0) / 2.0
  {
    var r, m := n as real, (n - 1) as real;
    assert r - 1.0 == m;
    Times(r, r - 1.0, m + 1.0, m);
  }

  lemma {:induction false} IndexSquareSumStep(n: nat)
    requires n >= 1
    ensures var r, m := n as real, (n - 1) as real;
            m * (m - 1.0) * (2.0 * m - 1.0) / 6.0 + m * m == r * (r - 1.0) * (2.0 * r - 1.0) / 6.0
  {
    var r, m := n as real, (n - 1) as real;
    assert r - 1.0 == m;
    Times(r, r - 1.0, m + 1.0, m);
    Times(r * (r - 1.0), 2.0 * r - 1.0, (m + 1.0) * m, 2.0 * m + 1.0);
  }

  /** Σi = n(n−1)/2 over i = 0..n-1. */
  lemma {:induction false} IndexSum(n: nat)
    ensures var r := n as real; Sum(Indices(n)) == r * (r - 1.0) / 2.0
  {
    if n > 0 {
      IndexSum(n - 1);
      assert Indices(n)[..n - 1] == Indices(n - 1);
      IndexSumStep(n);
    }
  }

  /** Σi² = n(n−1)(2n−1)/6 over i = 0..n-1. */
  lemma {:induction false} IndexSquareSum(n: nat)
    ensures var r := n as real; Sum(Products(Indices(n), Indices(n))) == r * (r - 1.0) * (2.0 * r - 1.0) / 6.0
  {
    if n > 0 {
      IndexSquareSum(n - 1);
      var xs := Indices(n);
      assert xs[..n - 1] == Indices(n - 1);
      ProductsPrefix(xs, xs, n - 1);
      var m := (n - 1) as real;
      Times(xs[n - 1], xs[n - 1], m, m);
      IndexSquareSumStep(n);
    }
  }

  lemma {:induction false} DenominatorAlgebra(r: real)
    ensures r * (r * (r - 1.0) * (2.0 * r - 1.0) / 6.0) - (r * (r - 1.0) / 2.0) * (r * (r - 1.0) / 2.0)
         == r * r * (r * r - 1.0) / 12.0
  {
  }

  /** The denominator for x = 0..n-1 is n²(n²−1)/12: zero for n ≤ 1, positive from n = 2 on. */
  lemma {:induction false} DenominatorOfIndices(n: nat)
    ensures var r := n as real; Denominator(Indices(n)) == r * r * (r * r - 1.0) / 12.0
    ensures n <= 1 <==> Denominator(Indices(n)) == 0.0
  {
    var xs := Indices(n);
    IndexSum(n);
    IndexSquareSum(n);
    var r := n as real;
    var sx, sxx := r * (r - 1.0) / 2.0, r * (r - 1.0) * (2.0 * r - 1.0) / 6.0;
    Times(r, Sum(Products(xs, xs)), r, sxx);
    Times(Sum(xs), Sum(xs), sx, sx);
    DenominatorAlgebra(r);
    if n >= 2 {
      assert r * r >= 4.0;
      assert r * r * (r * r - 1.0) > 0.0;
    }
  }

  // ---------------------------------------------------------------------
  // predictNext
  // ---------------------------------------------------------------------

  /** `count` points of `l` at x = n, n+1, …. */
  function Extend(l: Line, n: nat, count: nat): (r: seq<real>)
    ensures |r| == count
    ensures forall k :: 0 <= k < count ==> r[k] == l.At((n + k) as real)
  {
    seq(count, k => l.At((n + k) as real))
  }

  /**
   * What `predictNext(prices, count)` returns: `count` points of the fitted
   * line at x = n, n+1, … (none when count ≤ 0). `None` stands for the array
   * of NaN values the source returns when fewer than two prices are given.
   */
  function Forecast(prices: seq<real>, count: int): (r: Option<seq<real>>)
    ensures r.None? <==> count > 0 && |prices| < 2
    ensures r.Some? ==> |r.value| == Max(count, 0)
  {
    DenominatorOfIndices(|prices|);
    if count <= 0 then Some([])
    else
      match LinearRegression(Indices(|prices|), prices)
      case None => None
      case Some(l) => Some(Extend(l, |prices|, count))
  }

  /** The k-th prediction (counting from 1) is the fitted line at x = n − 1 + k. */
  lemma {:induction false} ForecastOnFittedLine(prices: seq<real>, count: int, k: nat)
    requires |prices| >= 2 && 1 <= k <= count
    ensures LinearRegression(Indices(|prices|), prices).Some?
    ensures Forecast(prices, count).Some?
    ensures Forecast(prices, count).value[k - 1]
         == LinearRegression(Indices(|prices|), prices).value.At((|prices| - 1 + k) as real)
  {
    DenominatorOfIndices(|prices|);
  }

  lemma {:induction false} LineStep(l: Line, x: real)
    ensures l.At(x + 1.0) - l.At(x) == l.slope
  {
  }

  /** Consecutive predictions differ by exactly the fitted slope. */
  lemma {:induction false} ForecastStep(prices: seq<real>, count: int, k: nat)
    requires |prices| >= 2 && k + 1 < count
    ensures Forecast(prices, count).Some?
    ensures LinearRegression(Indices(|prices|), prices).Some?
    ensures Forecast(prices, count).value[k + 1] - Forecast(prices, count).value[k]
         == LinearRegression(Indices(|prices|), prices).value.slope
  {
    DenominatorOfIndices(|prices|);
    var l := LinearRegression(Indices(|prices|), prices).value;
    assert Forecast(prices, count).value == Extend(l, |prices|, count);
    var x := (|prices| + k) as real;
    assert (|prices| + (k + 1)) as real == x + 1.0;
    LineStep(l, x);
  }

  /** Prices on an exact line α·i + β are extrapolated along that very line. */
  lemma {:induction false} ForecastOfLinearPrices(prices: seq<real>, count: int, l: Line, k: nat)
    requires |prices| >= 2 && k < count
    requires forall i :: 0 <= i < |prices| ==> prices[i] == l.At(i as real)
    ensures Forecast(prices, count).Some?
    ensures Forecast(prices, count).value[k] == l.At((|prices| + k) as real)
  {
    var xs := Indices(|prices|);
    assert OnLine(xs, prices, l);
    DenominatorOfIndices(|prices|);
    ExactFit(xs, prices, l);
  }

  /** Prices on an exact line are forecast as that line's next `count` points. */
  lemma {:induction false} ForecastExtendsLine(prices: seq<real>, count: nat, l: Line)
    requires |prices| >= 2
    requires forall i :: 0 <= i < |prices| ==> prices[i] == l.At(i as real)
    ensures Forecast(prices, count) == Some(Extend(l, |prices|, count))
  {
    var xs := Indices(|prices|);
    assert OnLine(xs, prices, l);
    DenominatorOfIndices(|prices|);
    ExactFit(xs, prices, l);
    if count == 0 {
      assert Extend(l, |prices|, count) == [];
    }
  }

  /** `predictNext([1, 2, 3, 4], 3)` is `[5, 6, 7]`. */
  lemma {:induction false} ForecastExample()
    ensures Forecast([1.0, 2.0, 3.0, 4.0], 3) == Some([5.0, 6.0, 7.0])
  {
    var prices := [1.0, 2.0, 3.0, 4.0];
    var l := Line(1.0, 1.0);
    ForecastOfLinearPrices(prices, 3, l, 0);
    ForecastOfLinearPrices(prices, 3, l, 1);
    ForecastOfLinearPrices(prices, 3, l, 2);
    assert Forecast(prices, 3).value == [5.0, 6.0, 7.0];
  }

  /** Forecast, split on the fit the source computes. */
  lemma {:induction false} ForecastOfFit(prices: seq<real>, count: int, fit: Option<Line>)
    requires fit == LinearRegression(Indices(|prices|), prices)
    ensures fit.None? ==> Forecast(prices, count) == (if count <= 0 then Some([]) else None)
    ensures fit.Some? ==> Forecast(prices, count) == Some(Extend(fit.value, |prices|, Max(count, 0)))
  {
    if count <= 0 && fit.Some? {
      assert Extend(fit.value, |prices|, 0) == [];
    }
  }

  /**
   * `predictNext(prices, count)`: fits the line over x = 0..n-1 and pushes
   * the line's value at x = n − 1 + i for i = 1..count.
   */
  method PredictNext(prices: seq<real>, count: int) returns (preds: Option<seq<real>>)
    ensures preds == Forecast(prices, count)
  {
    var n := |prices|;
    var fit := LinearRegression(Indices(n), prices);
    ForecastOfFit(prices, count, fit);
    if fit.None? {
      // every pushed value would be NaN
      return if count <= 0 then Some([]) else None;
    }
    var out := PushLine(fit.value, n, count);
    preds := Some(out);
  }

  /** The loop of predictNext: `a * x + b` for x = n, …, n + count − 1. */
  method PushLine(line: Line, n: nat, count: int) returns (out: seq<real>)
    ensures out == Extend(line, n, Max(count, 0))
  {
    out := [];
    var i := 1;
    while i <= count
      invariant 1 <= i <= Max(count, 0) + 1
      invariant |out| == i - 1
      invariant forall k :: 0 <= k < |out| ==> out[k] == line.At((n + k) as real)
    {
      var x := n - 1 + i;
      var y := line.slope * x as real + line.intercept;
      assert x == n + |out| && y == line.At(x as real);
      out := out + [y];
      i := i + 1;
    }
  }
}
