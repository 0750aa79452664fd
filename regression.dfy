/**
 * The Linear Regression forecast: an ordinary least-squares line through the
 * points (t, price_t) for the day positions t = 0 .. n - 1 of the cleaned
 * series, evaluated at the positions n .. n + horizon - 1. The fit is the
 * closed form of least squares over the reals.
 */
module Regression {
  import opened Series

  /** The line `price = intercept + slope * t`. */
  datatype Line = Line(intercept: real, slope: real)

  /** The sum of the products `xs[i] * ys[i]`. */
  function Dot(xs: seq<real>, ys: seq<real>): real
    requires |xs| == |ys|
  {
    if |xs| == 0 then 0.0
    else
      var k := |xs| - 1;
      Dot(xs[..k], ys[..k]) + xs[k] * ys[k]
  }

  /**
   * The closed-form least-squares line from the sums of the data: `n` points,
   * x-values summing to `sx`, their squares to `sxx`, y-values to `sy` and
   * products to `sxy`. The slope is the co-variation over the spread of the
   * x-values (both centred on the means and scaled by `n`), and the line passes
   * through the mean point; when the spread is zero the solution of minimum
   * norm has slope zero.
   */
  function FitFromSums(n: real, sx: real, sxx: real, sy: real, sxy: real): Line
    requires n > 0.0
  {
    var spread := n * sxx - sx * sx;
    var covariation := n * sxy - sx * sy;
    var slope := if spread == 0.0 then 0.0 else covariation / spread;
    Line((sy - slope * sx) / n, slope)
  }

  /**
   * The sums determine a single least-squares line: a zero spread `n sxx - sx^2`
   * of the x-values (all of them equal) comes with a zero co-variation.
   */
  predicate Determined(n: real, sx: real, sxx: real, sy: real, sxy: real)
  {
    n * sxx - sx * sx == 0.0 ==> n * sxy - sx * sy == 0.0
  }

  /** The line `l` satisfies the two normal equations of the sums: `sy = n a + b sx` and `sxy = a sx + b sxx`. */
  predicate Through(n: real, sx: real, sxx: real, sy: real, sxy: real, l: Line)
  {
    sy - n * l.intercept - l.slope * sx == 0.0 && sxy - l.intercept * sx - l.slope * sxx == 0.0
  }

  /** The x-values are not all equal: their spread `n sxx - sx^2` is positive. */
  predicate Varied(n: real, sx: real, sxx: real)
  {
    n * sxx - sx * sx > 0.0
  }

  /** The least-squares line through the points `(xs[i], ys[i])`. */
  function FitPoints(xs: seq<real>, ys: seq<real>): Line
    requires |xs| == |ys| > 0
  {
    FitFromSums(|xs| as real, Sum(xs), Dot(xs, xs), Sum(ys), Dot(xs, ys))
  }

  /** The value `l(t)` of the line at the position `t`. */
  function Predict(l: Line, t: real): real
  {
    l.intercept + l.slope * t
  }

  /** The day positions 0 .. n - 1 (`np.arange(n)`). */
  function Positions(n: nat): (r: seq<real>)
    ensures |r| == n
  {
    seq(n, t requires 0 <= t < n => t as real)
  }

  /** `LinearRegression().fit(days, prices)` over the positions 0 .. n - 1. */
  function Fit(y: seq<real>): Line
    requires |y| > 0
  {
    FitPoints(Positions(|y|), y)
  }

  /** `model.predict(arange(n, n + horizon))`: the fitted line at the future positions. */
  function LinearForecast(y: seq<real>, horizon: nat): (r: seq<real>)
    requires |y| > 0
    ensures |r| == horizon
  {
    var l := Fit(y);
    seq(horizon, i requires 0 <= i < horizon => Predict(l, (|y| + i) as real))
  }

  /** The square of `x`. */
  function Sq(x: real): real
  {
    x * x
  }

  /** The residual `y - l(x)` of the point `(x, y)` against the line `l`. */
  function Residual(x: real, y: real, l: Line): real
  {
    y - Predict(l, x)
  }

  /** The gap `f(x) - l(x)` between two lines at `x`. */
  function Gap(x: real, f: Line, l: Line): real
  {
    Predict(f, x) - Predict(l, x)
  }

  /** The sum of the residuals `ys[i] - l(xs[i])`. */
  function ResidualSum(xs: seq<real>, ys: seq<real>, l: Line): real
    requires |xs| == |ys|
  {
    if |xs| == 0 then 0.0
    else
      var k := |xs| - 1;
      ResidualSum(xs[..k], ys[..k], l) + Residual(xs[k], ys[k], l)
  }

  /** The sum of the residuals weighted by their x-value. */
  function WeightedResidualSum(xs: seq<real>, ys: seq<real>, l: Line): real
    requires |xs| == |ys|
  {
    if |xs| == 0 then 0.0
    else
      var k := |xs| - 1;
      WeightedResidualSum(xs[..k], ys[..k], l) + xs[k] * Residual(xs[k], ys[k], l)
  }

  /** The sum of the squared residuals of the line `l` against the points. */
  function SquaredError(xs: seq<real>, ys: seq<real>, l: Line): real
    requires |xs| == |ys|
  {
    if |xs| == 0 then 0.0
    else
      var k := |xs| - 1;
      SquaredError(xs[..k], ys[..k], l) + Sq(Residual(xs[k], ys[k], l))
  }

  /** The sum of the squared gaps `f(xs[i]) - l(xs[i])` between two lines. */
  function GapSquares(xs: seq<real>, f: Line, l: Line): real
  {
    if |xs| == 0 then 0.0
    else
      var k := |xs| - 1;
      GapSquares(xs[..k], f, l) + Sq(Gap(xs[k], f, l))
  }

  /** The residuals sum to the y-values less `n` intercepts and `slope` times the x-values. */
  lemma {:induction false} ResidualsExpand(xs: seq<real>, ys: seq<real>, l: Line)
    requires |xs| == |ys|
    ensures ResidualExpansion(ResidualSum(xs, ys, l), |xs| as real, Sum(xs), Sum(ys), l)
  {
    if |xs| == 0 {
      ResidualZero(l);
    } else {
      var k := |xs| - 1;
      ResidualsExpand(xs[..k], ys[..k], l);
      ExpandStep(ResidualSum(xs, ys, l), ResidualSum(xs[..k], ys[..k], l), |xs| as real, k as real,
        Sum(xs), Sum(xs[..k]), Sum(ys), Sum(ys[..k]), xs[k], ys[k], l);
    }
  }

  /** `r` is the residual sum written through the sums: `sy - n a - b sx`. */
  predicate ResidualExpansion(r: real, n: real, sx: real, sy: real, l: Line)
  {
    r == sy - n * l.intercept - l.slope * sx
  }

  /** The base case of `ResidualsExpand`: no points, no residual. */
  lemma ResidualZero(l: Line)
    ensures ResidualExpansion(0.0, 0.0, 0.0, 0.0, l)
  {
  }

  /** One recursion step of `ResidualsExpand`: adding the point `(x, y)` keeps the expansion. */
  lemma ExpandStep(r: real, r0: real, n: real, n0: real, sx: real, sx0: real, sy: real, sy0: real,
                   x: real, y: real, l: Line)
    requires r == r0 + Residual(x, y, l)
    requires ResidualExpansion(r0, n0, sx0, sy0, l)
    requires n == n0 + 1.0 && sx == sx0 + x && sy == sy0 + y
    ensures ResidualExpansion(r, n, sx, sy, l)
  {
  }

  /** The weighted residuals expand the same way, over the weighted sums. */
  lemma {:induction false} WeightedResidualsExpand(xs: seq<real>, ys: seq<real>, l: Line)
    requires |xs| == |ys|
    ensures WeightedExpansion(WeightedResidualSum(xs, ys, l), Dot(xs, ys), Sum(xs), Dot(xs, xs), l)
  {
    if |xs| == 0 {
      WeightedZero(l);
    } else {
      var k := |xs| - 1;
      WeightedResidualsExpand(xs[..k], ys[..k], l);
      WeightedStep(WeightedResidualSum(xs, ys, l), WeightedResidualSum(xs[..k], ys[..k], l),
        Dot(xs, ys), Dot(xs[..k], ys[..k]), Sum(xs), Sum(xs[..k]), Dot(xs, xs), Dot(xs[..k], xs[..k]),
        xs[k], ys[k], l);
    }
  }

  /** `w` is the weighted residual sum written through the sums: `sxy - a sx - b sxx`. */
  predicate WeightedExpansion(w: real, sxy: real, sx: real, sxx: real, l: Line)
  {
    w == sxy - l.intercept * sx - l.slope * sxx
  }

  /** The base case of `WeightedResidualsExpand`: no points, no weighted residual. */
  lemma WeightedZero(l: Line)
    ensures WeightedExpansion(0.0, 0.0, 0.0, 0.0, l)
  {
  }

  /** One recursion step of `WeightedResidualsExpand`: adding the point `(x, y)` keeps the expansion. */
  lemma WeightedStep(w: real, w0: real, sxy: real, sxy0: real, sx: real, sx0: real, sxx: real, sxx0: real,
                     x: real, y: real, l: Line)
    requires w == w0 + x * Residual(x, y, l)
    requires WeightedExpansion(w0, sxy0, sx0, sxx0, l)
    requires sxy == sxy0 + x * y && sx == sx0 + x && sxx == sxx0 + x * x
    ensures WeightedExpansion(w, sxy, sx, sxx, l)
  {
    assert x * Residual(x, y, l) == x * y - l.intercept * x - l.slope * (x * x);
  }

  /**
   * The normal equations as algebra over the sums: the closed-form line solves
   * `sy = n a + b sx` and `sxy = a sx + b sxx` whenever a zero spread forces a
   * zero co-variation.
   */
  lemma LeastSquaresAlgebra(n: real, sx: real, sxx: real, sy: real, sxy: real)
    requires n > 0.0
    requires Determined(n, sx, sxx, sy, sxy)
    ensures Through(n, sx, sxx, sy, sxy, FitFromSums(n, sx, sxx, sy, sxy))
  {
    var spread, covariation := n * sxx - sx * sx, n * sxy - sx * sy;
    var b := if spread == 0.0 then 0.0 else covariation / spread;
    SlopeSolves(spread, covariation, b);
    var a := (sy - b * sx) / n;
    Quotient(sy - b * sx, n, a);
    NormalAlgebra(n, sx, sxx, sy, sxy, a, b);
  }

  /** The slope times the spread gives back the co-variation, also when both are zero. */
  lemma SlopeSolves(spread: real, covariation: real, b: real)
    requires spread == 0.0 ==> covariation == 0.0
    requires b == if spread == 0.0 then 0.0 else covariation / spread
    ensures b * spread == covariation
  {
  }

  /** The closed-form intercept and slope make both normal equations hold, as plain algebra. */
  lemma NormalAlgebra(n: real, sx: real, sxx: real, sy: real, sxy: real, a: real, b: real)
    requires n > 0.0 && n * a == sy - b * sx
    requires b * (n * sxx - sx * sx) == n * sxy - sx * sy
    ensures sy - n * a - b * sx == 0.0
    ensures sxy - a * sx - b * sxx == 0.0
  {
    var e := sxy - a * sx - b * sxx;
    assert n * e == n * sxy - (n * a) * sx - b * (n * sxx);
    Cancel(n, e);
  }

  /** A product with a positive factor is zero only when the other factor is. */
  lemma Cancel(n: real, e: real)
    requires n > 0.0 && n * e == 0.0
    ensures e == 0.0
  {
    Quotient(n * e, n, e);
  }

  /** Dividing `c = b s` by a non-zero `s` gives back `b`. */
  lemma Quotient(c: real, s: real, b: real)
    requires s != 0.0 && c == b * s
    ensures c / s == b
  {
  }

  /**
   * The closed form recovers a line from the sums of points on it, when the
   * x-values are not all equal.
   */
  lemma RecoverLine(n: real, sx: real, sxx: real, sy: real, sxy: real, l: Line)
    requires n > 0.0 && Varied(n, sx, sxx) && Through(n, sx, sxx, sy, sxy, l)
    ensures FitFromSums(n, sx, sxx, sy, sxy) == l
  {
    CovariationOnLine(n, sx, sxx, sy, sxy, l.intercept, l.slope);
    Quotient(n * sxy - sx * sy, n * sxx - sx * sx, l.slope);
    Quotient(sy - l.slope * sx, n, l.intercept);
  }

  /** For points on the line `a + b x` the co-variation is `b` times the spread. */
  lemma CovariationOnLine(n: real, sx: real, sxx: real, sy: real, sxy: real, a: real, b: real)
    requires sy == n * a + b * sx && sxy == a * sx + b * sxx
    ensures n * sxy - sx * sy == b * (n * sxx - sx * sx)
  {
    assert n * sxy == n * (a * sx) + n * (b * sxx);
    assert sx * sy == sx * (n * a) + sx * (b * sx);
  }

  /**
   * The normal equations of least squares: the residuals of the fitted line sum
   * to zero, and so do the residuals weighted by their x-value. They hold
   * whenever a zero spread of the x-values forces a zero co-variation, as it
   * does for the day positions.
   */
  lemma NormalEquations(xs: seq<real>, ys: seq<real>)
    requires |xs| == |ys| > 0
    requires Determined(|xs| as real, Sum(xs), Dot(xs, xs), Sum(ys), Dot(xs, ys))
    ensures ResidualSum(xs, ys, FitPoints(xs, ys)) == 0.0
    ensures WeightedResidualSum(xs, ys, FitPoints(xs, ys)) == 0.0
  {
    LeastSquaresAlgebra(|xs| as real, Sum(xs), Dot(xs, xs), Sum(ys), Dot(xs, ys));
    ThroughResiduals(xs, ys, FitPoints(xs, ys));
  }

  /**
   * A line satisfies the normal equations of the sums exactly when its
   * residuals, plain and weighted, sum to zero.
   */
  lemma ThroughResiduals(xs: seq<real>, ys: seq<real>, l: Line)
    requires |xs| == |ys|
    ensures Through(|xs| as real, Sum(xs), Dot(xs, xs), Sum(ys), Dot(xs, ys), l)
      <==> ResidualSum(xs, ys, l) == 0.0 && WeightedResidualSum(xs, ys, l) == 0.0
  {
    ResidualsExpand(xs, ys, l);
    WeightedResidualsExpand(xs, ys, l);
    ThroughExpansions(|xs| as real, Sum(xs), Dot(xs, xs), Sum(ys), Dot(xs, ys),
      ResidualSum(xs, ys, l), WeightedResidualSum(xs, ys, l), l);
  }

  /** Through the two expansions, the sum equations hold iff both residual sums are zero. */
  lemma ThroughExpansions(n: real, sx: real, sxx: real, sy: real, sxy: real, r: real, w: real, l: Line)
    requires ResidualExpansion(r, n, sx, sy, l)
    requires WeightedExpansion(w, sxy, sx, sxx, l)
    ensures Through(n, sx, sxx, sy, sxy, l) <==> r == 0.0 && w == 0.0
  {
  }

  /**
   * The cross terms `2 e d` between the residuals `e` of `f` and the gaps `d`
   * from `f` down to another line `l`.
   */
  function CrossSum(xs: seq<real>, ys: seq<real>, f: Line, l: Line): real
    requires |xs| == |ys|
  {
    if |xs| == 0 then 0.0
    else
      var k := |xs| - 1;
      CrossSum(xs[..k], ys[..k], f, l) + 2.0 * Residual(xs[k], ys[k], f) * Gap(xs[k], f, l)
  }

  /**
   * The squared error of any line `l` is that of `f`, plus the cross terms,
   * plus the squared distance between the two lines.
   */
  lemma {:induction false} ErrorDecomposition(xs: seq<real>, ys: seq<real>, f: Line, l: Line)
    requires |xs| == |ys|
    ensures Decomposes(SquaredError(xs, ys, l), SquaredError(xs, ys, f), CrossSum(xs, ys, f, l), GapSquares(xs, f, l))
  {
    if |xs| > 0 {
      var k := |xs| - 1;
      ErrorDecomposition(xs[..k], ys[..k], f, l);
      DecompositionStep(SquaredError(xs, ys, l), SquaredError(xs[..k], ys[..k], l),
        SquaredError(xs, ys, f), SquaredError(xs[..k], ys[..k], f),
        CrossSum(xs, ys, f, l), CrossSum(xs[..k], ys[..k], f, l),
        GapSquares(xs, f, l), GapSquares(xs[..k], f, l), xs[k], ys[k], f, l);
    }
  }

  /** The residual against `l` is the residual against `f` plus the gap from `f` to `l`. */
  lemma ResidualShift(x: real, y: real, f: Line, l: Line)
    ensures Residual(x, y, l) == Residual(x, y, f) + Gap(x, f, l)
  {
  }

  /** The squared error `sl` of a line splits into `sf`, the cross terms `c` and the squared gaps `g`. */
  predicate Decomposes(sl: real, sf: real, c: real, g: real)
  {
    sl == sf + c + g
  }

  /** One recursion step of `ErrorDecomposition`: adding the point `(x, y)` keeps the split. */
  lemma DecompositionStep(sl: real, sl0: real, sf: real, sf0: real, c: real, c0: real, g: real, g0: real,
                          x: real, y: real, f: Line, l: Line)
    requires sl == sl0 + Sq(Residual(x, y, l))
    requires sf == sf0 + Sq(Residual(x, y, f))
    requires c == c0 + 2.0 * Residual(x, y, f) * Gap(x, f, l)
    requires g == g0 + Sq(Gap(x, f, l))
    requires Decomposes(sl0, sf0, c0, g0)
    ensures Decomposes(sl, sf, c, g)
  {
    ResidualShift(x, y, f, l);
    SquareOfSum(Residual(x, y, f), Gap(x, f, l));
  }

  /** `(e + d)^2 = e^2 + 2 e d + d^2`. */
  lemma SquareOfSum(e: real, d: real)
    ensures Sq(e + d) == Sq(e) + 2.0 * e * d + Sq(d)
  {
  }

  /**
   * `c` is the residual sum `r` and the weighted residual sum `w` of `f`,
   * weighted by twice how far `l` is from `f` in intercept and in slope.
   */
  predicate CrossWeights(c: real, r: real, w: real, f: Line, l: Line)
  {
    c == 2.0 * (f.intercept - l.intercept) * r + 2.0 * (f.slope - l.slope) * w
  }

  /** The cross terms are the residual sums of `f`, weighted by how far `l` is from `f`. */
  lemma {:induction false} CrossExpand(xs: seq<real>, ys: seq<real>, f: Line, l: Line)
    requires |xs| == |ys|
    ensures CrossWeights(CrossSum(xs, ys, f, l), ResidualSum(xs, ys, f), WeightedResidualSum(xs, ys, f), f, l)
  {
    if |xs| == 0 {
      CrossZero(f, l);
    } else {
      var k := |xs| - 1;
      CrossExpand(xs[..k], ys[..k], f, l);
      CrossStep(CrossSum(xs, ys, f, l), CrossSum(xs[..k], ys[..k], f, l),
        ResidualSum(xs, ys, f), ResidualSum(xs[..k], ys[..k], f),
        WeightedResidualSum(xs, ys, f), WeightedResidualSum(xs[..k], ys[..k], f),
        Residual(xs[k], ys[k], f), xs[k], f, l);
    }
  }

  /** The base case of `CrossExpand`: no points, no cross term. */
  lemma CrossZero(f: Line, l: Line)
    ensures CrossWeights(0.0, 0.0, 0.0, f, l)
  {
  }

  /** Against zero residual sums the cross terms vanish. */
  lemma CrossVanishes(c: real, f: Line, l: Line)
    requires CrossWeights(c, 0.0, 0.0, f, l)
    ensures c == 0.0
  {
  }

  /** One recursion step of `CrossExpand`: adding a point with residual `e` at `x` keeps the weighting. */
  lemma CrossStep(c: real, c0: real, r: real, r0: real, w: real, w0: real, e: real, x: real, f: Line, l: Line)
    requires c == c0 + 2.0 * e * Gap(x, f, l)
    requires r == r0 + e && w == w0 + x * e
    requires CrossWeights(c0, r0, w0, f, l)
    ensures CrossWeights(c, r, w, f, l)
  {
    var da, db := f.intercept - l.intercept, f.slope - l.slope;
    assert Gap(x, f, l) == da + db * x;
    assert 2.0 * e * (da + db * x) == 2.0 * da * e + 2.0 * db * (x * e);
  }

  /** A square is never negative. */
  lemma SquareSign(x: real)
    ensures Sq(x) >= 0.0
  {
    if x < 0.0 {
      var y := -x;
      assert y * y > 0.0;
      assert x * x == y * y;
    }
  }

  /** A sum of squared gaps is never negative. */
  lemma {:induction false} GapSquaresNonNegative(xs: seq<real>, f: Line, l: Line)
    ensures GapSquares(xs, f, l) >= 0.0
  {
    if |xs| > 0 {
      var k := |xs| - 1;
      GapSquaresNonNegative(xs[..k], f, l);
      AddSquare(GapSquares(xs, f, l), GapSquares(xs[..k], f, l), Gap(xs[k], f, l));
    }
  }

  /** One recursion step of `GapSquaresNonNegative`: adding a square keeps the sum non-negative. */
  lemma AddSquare(g: real, g0: real, d: real)
    requires g == g0 + Sq(d) && g0 >= 0.0
    ensures g >= 0.0
  {
    SquareSign(d);
  }

  /** The least-squares line has the least squared error of all lines. */
  lemma FitMinimises(xs: seq<real>, ys: seq<real>, l: Line)
    requires |xs| == |ys| > 0
    requires Determined(|xs| as real, Sum(xs), Dot(xs, xs), Sum(ys), Dot(xs, ys))
    ensures SquaredError(xs, ys, FitPoints(xs, ys)) <= SquaredError(xs, ys, l)
  {
    var f := FitPoints(xs, ys);
    NormalEquations(xs, ys);
    ErrorDecomposition(xs, ys, f, l);
    CrossExpand(xs, ys, f, l);
    CrossVanishes(CrossSum(xs, ys, f, l), f, l);
    GapSquaresNonNegative(xs, f, l);
  }

  /** Every point `(xs[i], ys[i])` lies on the line `l`. */
  predicate OnLine(xs: seq<real>, ys: seq<real>, l: Line)
    requires |xs| == |ys|
  {
    forall i :: 0 <= i < |ys| ==> ys[i] == Predict(l, xs[i])
  }

  /** Points on a line leave it no residuals, plain or weighted. */
  lemma {:induction false} OnLineResiduals(xs: seq<real>, ys: seq<real>, l: Line)
    requires |xs| == |ys| && OnLine(xs, ys, l)
    ensures ResidualSum(xs, ys, l) == 0.0 && WeightedResidualSum(xs, ys, l) == 0.0
  {
    if |xs| > 0 {
      var k := |xs| - 1;
      assert Residual(xs[k], ys[k], l) == 0.0;
      assert OnLine(xs[..k], ys[..k], l) by {
        assert forall i :: 0 <= i < k ==> xs[..k][i] == xs[i] && ys[..k][i] == ys[i];
      }
      OnLineResiduals(xs[..k], ys[..k], l);
    }
  }

  /** The sums of points on a line satisfy that line's normal equations. */
  lemma LineSums(xs: seq<real>, ys: seq<real>, l: Line)
    requires |xs| == |ys| && OnLine(xs, ys, l)
    ensures Through(|xs| as real, Sum(xs), Dot(xs, xs), Sum(ys), Dot(xs, ys), l)
  {
    OnLineResiduals(xs, ys, l);
    ThroughResiduals(xs, ys, l);
  }

  /** The sum of the positions 0 .. n - 1 is `n (n - 1) / 2`. */
  lemma {:induction false} SumPositions(n: nat)
    ensures Sum(Positions(n)) == (n as real) * ((n as real) - 1.0) / 2.0
  {
    if n > 0 {
      SumPositions(n - 1);
      assert Positions(n)[..n - 1] == Positions(n - 1);
      TriangleStep(n as real);
    }
  }

  /** One recursion step of `SumPositions`: adding the position `m - 1`. */
  lemma TriangleStep(m: real)
    ensures (m - 1.0) * (m - 1.0 - 1.0) / 2.0 + (m - 1.0) == m * (m - 1.0) / 2.0
  {
  }

  /** The sum of the squared positions is `n (n - 1) (2n - 1) / 6`. */
  lemma {:induction false} SumSquaredPositions(n: nat)
    ensures Dot(Positions(n), Positions(n)) == (n as real) * ((n as real) - 1.0) * (2.0 * (n as real) - 1.0) / 6.0
  {
    if n > 0 {
      SumSquaredPositions(n - 1);
      assert Positions(n)[..n - 1] == Positions(n - 1);
      CubicStep(n as real);
    }
  }

  /** One recursion step of `SumSquaredPositions`: adding the square of the position `m - 1`. */
  lemma CubicStep(m: real)
    ensures (m - 1.0) * ((m - 1.0) - 1.0) * (2.0 * (m - 1.0) - 1.0) / 6.0 + (m - 1.0) * (m - 1.0)
      == m * (m - 1.0) * (2.0 * m - 1.0) / 6.0
  {
  }

  /** With two or more prices the spread of the positions is positive. */
  lemma SpreadPositive(n: nat)
    requires n >= 2
    ensures Varied(n as real, Sum(Positions(n)), Dot(Positions(n), Positions(n)))
  {
    SumPositions(n);
    SumSquaredPositions(n);
    SpreadAlgebra(n as real, Sum(Positions(n)), Dot(Positions(n), Positions(n)));
  }

  /** With the closed-form position sums, `m >= 2` positions have a positive spread. */
  lemma SpreadAlgebra(m: real, sx: real, sxx: real)
    requires m >= 2.0
    requires sx == m * (m - 1.0) / 2.0
    requires sxx == m * (m - 1.0) * (2.0 * m - 1.0) / 6.0
    ensures Varied(m, sx, sxx)
  {
    var u := m * (m - 1.0);
    assert u >= m by {
      assert m * (m - 1.0) >= m * 1.0;
    }
    assert m * sxx == u * (m * (2.0 * m - 1.0)) / 6.0;
    assert sx * sx == u * u / 4.0;
    assert u * u == u * (m * (m - 1.0));
    assert m * sxx - sx * sx == u * (m * (m + 1.0)) / 12.0;
    assert m * (m + 1.0) > 0.0;
    assert u * (m * (m + 1.0)) > 0.0;
  }

  /** A positive spread leaves no zero-spread case, so the fit is determined. */
  lemma SpreadDetermines(n: real, sx: real, sxx: real, sy: real, sxy: real)
    requires Varied(n, sx, sxx)
    ensures Determined(n, sx, sxx, sy, sxy)
  {
  }

  /** The sums over the single position 0. */
  lemma OnePosition(y: seq<real>)
    requires |y| == 1
    ensures Sum(y) == y[0]
    ensures Sum(Positions(1)) == 0.0 && Dot(Positions(1), Positions(1)) == 0.0 && Dot(Positions(1), y) == 0.0
  {
    var xs := Positions(1);
    assert y[..0] == [] && xs[..0] == [];
    assert xs[0] == 0.0;
  }

  /** For the day positions a zero spread forces a zero co-variation (only one price). */
  lemma PositionsSpread(y: seq<real>)
    requires |y| > 0
    ensures var xs := Positions(|y|);
      Determined(|y| as real, Sum(xs), Dot(xs, xs), Sum(y), Dot(xs, y))
  {
    if |y| == 1 {
      OnePosition(y);
    } else {
      var xs := Positions(|y|);
      SpreadPositive(|y|);
      SpreadDetermines(|y| as real, Sum(xs), Dot(xs, xs), Sum(y), Dot(xs, y));
    }
  }

  /**
   * The regression forecast is the least-squares fit: of all lines through the
   * points (t, y[t]), none has a smaller squared error.
   */
  lemma FitIsLeastSquares(y: seq<real>, l: Line)
    requires |y| > 0
    ensures SquaredError(Positions(|y|), y, Fit(y)) <= SquaredError(Positions(|y|), y, l)
  {
    PositionsSpread(y);
    FitMinimises(Positions(|y|), y, l);
  }

  /** Every price `y[t]` lies on the line `l` at its position `t`. */
  predicate AlongLine(y: seq<real>, l: Line)
  {
    forall t :: 0 <= t < |y| ==> y[t] == Predict(l, t as real)
  }

  /**
   * When two or more prices lie exactly on a line, least squares recovers that
   * line.
   */
  lemma ExactFit(y: seq<real>, l: Line)
    requires |y| >= 2 && AlongLine(y, l)
    ensures Fit(y) == l
  {
    assert OnLine(Positions(|y|), y, l);
    LineSums(Positions(|y|), y, l);
    FitFromLineSums(y, l);
  }

  /** A line that satisfies both sum equations over the positions is the fit. */
  lemma FitFromLineSums(y: seq<real>, l: Line)
    requires |y| >= 2
    requires Through(|y| as real, Sum(Positions(|y|)), Dot(Positions(|y|), Positions(|y|)), Sum(y), Dot(Positions(|y|), y), l)
    ensures Fit(y) == l
  {
    SpreadPositive(|y|);
    RecoverLine(|y| as real, Sum(Positions(|y|)), Dot(Positions(|y|), Positions(|y|)), Sum(y), Dot(Positions(|y|), y), l);
  }

  /**
   * Prices lying exactly on a line are forecast by continuing that line at
   * the positions after the last price.
   */
  lemma ForecastContinuesLine(y: seq<real>, l: Line, horizon: nat)
    requires |y| >= 2 && AlongLine(y, l)
    ensures forall i :: 0 <= i < horizon ==> LinearForecast(y, horizon)[i] == Predict(l, (|y| + i) as real)
  {
    ExactFit(y, l);
    ForecastOfFit(y, l, horizon);
  }

  /** The forecast evaluates the fitted line at the positions after the last price. */
  lemma ForecastOfFit(y: seq<real>, l: Line, horizon: nat)
    requires |y| > 0 && Fit(y) == l
    ensures forall i :: 0 <= i < horizon ==> LinearForecast(y, horizon)[i] == Predict(l, (|y| + i) as real)
  {
  }

  /** A single price is forecast as a flat line at that price. */
  lemma SinglePriceFlat(y: seq<real>, horizon: nat)
    requires |y| == 1
    ensures forall i :: 0 <= i < horizon ==> LinearForecast(y, horizon)[i] == y[0]
  {
    OnePosition(y);
    var l := Line(y[0], 0.0);
    assert FitFromSums(1.0, 0.0, 0.0, y[0], 0.0) == l;
    ForecastOfFit(y, l, horizon);
    assert forall t :: Predict(l, t) == y[0];
  }

  /**
   * The regression forecast is not clamped: falling prices 1.0, 0.5 are
   * forecast to reach 0.0 on the next day, below the 0.1 floor of the other
   * two methods.
   */
  lemma NoFloor()
    ensures LinearForecast([1.0, 0.5], 1) == [0.0]
  {
    ExactFit([1.0, 0.5], Line(1.0, -0.5));
    ForecastOfFit([1.0, 0.5], Line(1.0, -0.5), 1);
    assert Predict(Line(1.0, -0.5), 2.0) == 0.0;
  }

  /**
   * Sixty prices 100, 102, ..., 218 rising by 2 a day are forecast at the
   * positions 60 .. 64 as 220, 222, 224, 226, 228.
   */
  lemma SteadyRiseExample()
    ensures LinearForecast(seq(60, t requires 0 <= t < 60 => 100.0 + 2.0 * (t as real)), 5)
      == [220.0, 222.0, 224.0, 226.0, 228.0]
  {
    var y := seq(60, t requires 0 <= t < 60 => 100.0 + 2.0 * (t as real));
    ForecastContinuesLine(y, Line(100.0, 2.0), 5);
  }
}
