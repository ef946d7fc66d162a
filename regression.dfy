/** Simple least-squares regression of one numeric column on another (`performLinearRegression`,
    js/ml-analyzer.js): the closed-form slope and intercept from the four sums, the fitted values, and the
    coefficient of determination. Numbers are exact reals, so the identities the closed form promises hold
    exactly. */
module Regression {
  import opened Cells
  import opened Numeric

  /** `x.reduce((sum, xi, i) => sum + xi * y[i], 0)`, a left fold over the paired values. */
  function SumProducts(xs: seq<real>, ys: seq<real>): real
    requires |xs| == |ys|
  {
    if xs == [] then 0.0 else SumProducts(xs[..|xs| - 1], ys[..|ys| - 1]) + Times(xs[|xs| - 1], ys[|ys| - 1])
  }

  /** `xi * y[i]`, one term of a sum of products. */
  function Times(x: real, y: real): real {
    x * y
  }

  /** `x.map(xi => slope * xi + intercept)`: the fitted value of every `x`. */
  function Predictions(xs: seq<real>, slope: real, intercept: real): (r: seq<real>)
    ensures |r| == |xs|
    ensures forall i :: 0 <= i < |xs| ==> r[i] == slope * xs[i] + intercept
  {
    seq(|xs|, i requires 0 <= i < |xs| => slope * xs[i] + intercept)
  }

  /** `sum + Math.pow(y[i] - predicted, 2)` summed: the residual sum of squares of a line. */
  function ResidualSquares(xs: seq<real>, ys: seq<real>, slope: real, intercept: real): (r: real)
    requires |xs| == |ys|
    ensures r >= 0.0
  {
    if xs == [] then 0.0
    else
      var d := ys[|ys| - 1] - (slope * xs[|xs| - 1] + intercept);
      SquareNonNegative(d);
      ResidualSquares(xs[..|xs| - 1], ys[..|ys| - 1], slope, intercept) + Square(d)
  }

  /** The fitted line. `rSquared` is `None` when every `y` is the same: the code then divides by a total sum
      of squares of 0. `xs` and `ys` are the paired values the fit was computed from. */
  datatype Line = Line(slope: real, intercept: real, rSquared: Option<real>, predictions: seq<real>,
                       xs: seq<real>, ys: seq<real>)

  /** A fit is a line, or not finite: with the denominator `n * sum(x^2) - sum(x)^2` equal to 0 (every `x` the
      same) the code divides by zero and reports a slope that is not a finite number. */
  datatype Fit = Fitted(line: Line) | NotFinite

  /** `n * sumXY - sumX * sumY`. */
  function SlopeNumerator(n: real, sx: real, sy: real, sxy: real): real {
    n * sxy - sx * sy
  }

  /** `n * sumXX - sumX * sumX`. */
  function SlopeDenominator(n: real, sx: real, sxx: real): real {
    n * sxx - sx * sx
  }

  /** `performLinearRegression` on the two columns' values, paired up to the shorter length. */
  function LinearRegression(xData: seq<real>, yData: seq<real>): (r: Result<Fit>)
    ensures r.Err? <==> MinLength(xData, yData) < 2
    ensures r.Err? ==> r.error == InsufficientData
  {
    var n := MinLength(xData, yData);
    if n < 2 then Err(InsufficientData) else Ok(FitPairs(xData[..n], yData[..n]))
  }

  /** The fit of the paired values `x` and `y`. */
  function FitPairs(x: seq<real>, y: seq<real>): Fit
    requires |x| == |y| > 0
  {
    var n := |x| as real;
    var sx, sy, sxx := Sum(x), Sum(y), SumProducts(x, x);
    var den := SlopeDenominator(n, sx, sxx);
    if den == 0.0 then NotFinite
    else
      var slope := SlopeNumerator(n, sx, sy, SumProducts(x, y)) / den;
      Fitted(LineOf(x, y, slope, Intercept(slope, sx, sy, n)))
  }

  /** `(sumY - slope * sumX) / n`. */
  function Intercept(slope: real, sx: real, sy: real, n: real): real
    requires n > 0.0
  {
    (sy - slope * sx) / n
  }

  /** The report for the line `slope * x + intercept` through the pairs. */
  function LineOf(x: seq<real>, y: seq<real>, slope: real, intercept: real): Line
    requires |x| == |y| > 0
  {
    Line(slope, intercept, RSquared(x, y, slope, intercept), Predictions(x, slope, intercept), x, y)
  }

  /** `1 - residualSumSquares / totalSumSquares`, with `None` for a total sum of squares of 0. */
  function RSquared(x: seq<real>, y: seq<real>, slope: real, intercept: real): Option<real>
    requires |x| == |y| > 0
  {
    var total := SquaredDeviations(y, Sum(y) / |y| as real);
    if total == 0.0 then None else Some(1.0 - ResidualSquares(x, y, slope, intercept) / total)
  }

  /** On `Ok` the fit is the fit of the pairs, cut to the shorter length. */
  lemma LinearRegressionPairs(xData: seq<real>, yData: seq<real>)
    requires LinearRegression(xData, yData).Ok?
    ensures var n := MinLength(xData, yData);
      n >= 2 && LinearRegression(xData, yData).value == FitPairs(xData[..n], yData[..n])
  {
  }

  /** Values past the end of the shorter column never change the fit: it is that of the two columns cut to
      the same length. */
  lemma {:induction false} RegressionUsesPairsOnly(xData: seq<real>, yData: seq<real>)
    ensures var n := MinLength(xData, yData);
      LinearRegression(xData, yData) == LinearRegression(xData[..n], yData[..n])
  {
    var n := MinLength(xData, yData);
    assert MinLength(xData[..n], yData[..n]) == n;
    assert xData[..n][..n] == xData[..n] && yData[..n][..n] == yData[..n];
  }

  lemma PredictionsPrefix(xs: seq<real>, a: real, b: real)
    requires xs != []
    ensures Predictions(xs, a, b)[..|xs| - 1] == Predictions(xs[..|xs| - 1], a, b)
    ensures Predictions(xs, a, b)[|xs| - 1] == a * xs[|xs| - 1] + b
  {
    var p, q := Predictions(xs, a, b), Predictions(xs[..|xs| - 1], a, b);
    forall i | 0 <= i < |xs| - 1 ensures p[i] == q[i] {
      assert xs[..|xs| - 1][i] == xs[i];
    }
  }

  /** `a * s + n * b`: the sum of `n` values `a * x + b` whose `x` sum to `s`. */
  function AffineSum(a: real, s: real, n: real, b: real): real {
    a * s + n * b
  }

  lemma AffineSumStep(a: real, s: real, n: real, b: real, x: real)
    ensures AffineSum(a, s, n, b) + (a * x + b) == AffineSum(a, s + x, n + 1.0, b)
  {
  }

  /** Summing fitted values sums the line: `sum(a * x + b) = a * sum(x) + n * b`. */
  lemma {:induction false} SumPredictions(xs: seq<real>, a: real, b: real)
    ensures Sum(Predictions(xs, a, b)) == AffineSum(a, Sum(xs), |xs| as real, b)
  {
    if xs != [] {
      var front := xs[..|xs| - 1];
      var p := Predictions(xs, a, b);
      PredictionsPrefix(xs, a, b);
      SumPredictions(front, a, b);
      AffineSumStep(a, Sum(front), |front| as real, b, xs[|xs| - 1]);
    }
  }

  /** `sum(x * (a * x + b)) = a * sum(x^2) + b * sum(x)`. */
  lemma {:induction false} SumProductsWithLine(xs: seq<real>, a: real, b: real)
    ensures SumProducts(xs, Predictions(xs, a, b)) == Weighted(a, SumProducts(xs, xs), b, Sum(xs))
  {
    if xs != [] {
      var front := xs[..|xs| - 1];
      var p := Predictions(xs, a, b);
      PredictionsPrefix(xs, a, b);
      SumProductsWithLine(front, a, b);
      var x := xs[|xs| - 1];
      var P, Q := SumProducts(front, Predictions(front, a, b)), SumProducts(front, front);
      assert SumProducts(xs, p) == P + Times(x, p[|xs| - 1]);
      assert SumProducts(xs, xs) == Q + Times(x, x);
      ProductsStep(P, Q, Sum(front), a, b, x, p[|xs| - 1]);
    }
  }

  /** `a * q + b * s`. */
  function Weighted(a: real, q: real, b: real, s: real): real {
    a * q + b * s
  }

  lemma ProductsStep(P: real, Q: real, S: real, a: real, b: real, x: real, y: real)
    requires P == Weighted(a, Q, b, S) && y == a * x + b
    ensures P + Times(x, y) == Weighted(a, Q + Times(x, x), b, S + x)
  {
  }

  /** The intercept puts the line through the mean point, so the fitted values sum to the sum of `y`. */
  lemma InterceptBalances(slope: real, intercept: real, sx: real, sy: real, n: real)
    requires n > 0.0 && intercept == Intercept(slope, sx, sy, n)
    ensures AffineSum(slope, sx, n, intercept) == sy
  {
    assert n * intercept == sy - slope * sx;
  }

  /** The fitted values: one per pair, each the line's value at the paired `x` (`Predictions` states them
      index by index). */
  lemma RegressionPredictions(xData: seq<real>, yData: seq<real>)
    requires LinearRegression(xData, yData).Ok? && LinearRegression(xData, yData).value.Fitted?
    ensures var line := LinearRegression(xData, yData).value.line;
      var n := MinLength(xData, yData);
      && |line.predictions| == n && line.xs == xData[..n] && line.ys == yData[..n]
      && line.predictions == Predictions(xData[..n], line.slope, line.intercept)
  {
    LinearRegressionPairs(xData, yData);
  }

  /** The fitted values sum to the sum of the observed `y`. */
  lemma PredictionsSumToObserved(xData: seq<real>, yData: seq<real>)
    requires LinearRegression(xData, yData).Ok? && LinearRegression(xData, yData).value.Fitted?
    ensures var line := LinearRegression(xData, yData).value.line;
      Sum(line.predictions) == Sum(line.ys)
  {
    LinearRegressionPairs(xData, yData);
    var n := MinLength(xData, yData);
    FittedValuesBalance(xData[..n], yData[..n]);
  }

  lemma FittedValuesBalance(x: seq<real>, y: seq<real>)
    requires |x| == |y| > 0 && FitPairs(x, y).Fitted?
    ensures Sum(FitPairs(x, y).line.predictions) == Sum(y)
  {
    var line := FitPairs(x, y).line;
    var n := |x| as real;
    assert line == LineOf(x, y, line.slope, Intercept(line.slope, Sum(x), Sum(y), n));
    SumPredictions(x, line.slope, line.intercept);
    InterceptBalances(line.slope, line.intercept, Sum(x), Sum(y), n);
  }

  /** On plain numbers: sums of exactly linear data give back the line. */
  lemma ClosedFormRecoversLine(n: real, sx: real, sy: real, sxx: real, sxy: real, a: real, b: real)
    requires n > 0.0 && SlopeDenominator(n, sx, sxx) != 0.0
    requires sy == AffineSum(a, sx, n, b) && sxy == Weighted(a, sxx, b, sx)
    ensures SlopeNumerator(n, sx, sy, sxy) / SlopeDenominator(n, sx, sxx) == a
    ensures Intercept(a, sx, sy, n) == b
  {
    var den := SlopeDenominator(n, sx, sxx);
    assert SlopeNumerator(n, sx, sy, sxy) == a * den by {
      assert n * sxy == n * a * sxx + n * b * sx;
      assert sx * sy == a * sx * sx + n * b * sx;
    }
    assert sy - a * sx == n * b;
  }

  /** `q - 2 m s + n m^2`: the squared deviations from `m` of `n` values that sum to `s` and whose squares sum
      to `q`. */
  function Expanded(q: real, s: real, n: real, m: real): real {
    q - 2.0 * m * s + n * m * m
  }

  lemma ExpandedStep(q: real, s: real, n: real, m: real, x: real)
    ensures Expanded(q, s, n, m) + Square(x - m) == Expanded(q + Times(x, x), s + x, n + 1.0, m)
  {
    assert Square(x - m) == x * x - 2.0 * m * x + m * m;
  }

  /** The sum of squared deviations, expanded into the sums the closed form uses. */
  lemma {:induction false} DeviationsExpand(xs: seq<real>, m: real)
    ensures SquaredDeviations(xs, m) == Expanded(SumProducts(xs, xs), Sum(xs), |xs| as real, m)
  {
    if xs != [] {
      var front, x := xs[..|xs| - 1], xs[|xs| - 1];
      DeviationsExpand(front, m);
      assert SquaredDeviations(xs, m) == SquaredDeviations(front, m) + Square(x - m);
      assert SumProducts(xs, xs) == SumProducts(front, front) + Times(x, x);
      assert Sum(xs) == Sum(front) + x;
      ExpandedStep(SumProducts(front, front), Sum(front), |front| as real, m, x);
    }
  }

  /** On plain numbers: the denominator is `n` times the expanded spread about the mean `s / n`. */
  lemma SpreadIdentity(n: real, s: real, q: real, e: real)
    requires n > 0.0 && e == Expanded(q, s, n, s / n)
    ensures SlopeDenominator(n, s, q) == n * e
  {
    var m := s / n;
    assert m * n == s;
    assert n * (2.0 * m * s) == 2.0 * s * s;
    assert n * (n * m * m) == (m * n) * (m * n);
  }

  /** The slope's denominator `n * sum(x^2) - sum(x)^2` is `n` times the spread of `x` about its mean. */
  lemma {:induction false} DenominatorIsSpread(xs: seq<real>)
    requires |xs| > 0
    ensures SlopeDenominator(|xs| as real, Sum(xs), SumProducts(xs, xs))
      == |xs| as real * SquaredDeviations(xs, Sum(xs) / |xs| as real)
  {
    var n, s, q := |xs| as real, Sum(xs), SumProducts(xs, xs);
    var spread := SquaredDeviations(xs, s / n);
    DeviationsExpand(xs, s / n);
    SpreadIdentity(n, s, q, spread);
  }

  /** One squared deviation is at most their sum. */
  lemma {:induction false} DeviationBelowSpread(xs: seq<real>, m: real, i: nat)
    requires i < |xs|
    ensures Square(xs[i] - m) <= SquaredDeviations(xs, m)
  {
    var front, last := xs[..|xs| - 1], xs[|xs| - 1];
    assert SquaredDeviations(xs, m) == SquaredDeviations(front, m) + Square(last - m);
    if i < |front| {
      DeviationBelowSpread(front, m, i);
      assert front[i] == xs[i];
      SquareNonNegative(last - m);
    }
  }

  /** Values that all equal `c` sum to `n * c` and do not deviate from `c`. */
  lemma {:induction false} ConstantHasNoSpread(xs: seq<real>, c: real)
    requires forall i :: 0 <= i < |xs| ==> xs[i] == c
    ensures Sum(xs) == |xs| as real * c && SquaredDeviations(xs, c) == 0.0
  {
    if xs != [] {
      var front := xs[..|xs| - 1];
      assert forall i :: 0 <= i < |front| ==> front[i] == xs[i];
      ConstantHasNoSpread(front, c);
    }
  }

  /** Two different values spread about any centre. */
  lemma UnequalSpread(xs: seq<real>, m: real, i: nat)
    requires i < |xs| && xs[i] != xs[0]
    ensures SquaredDeviations(xs, m) > 0.0
  {
    var d := if xs[i] != m then xs[i] - m else xs[0] - m;
    DeviationBelowSpread(xs, m, i);
    DeviationBelowSpread(xs, m, 0);
    assert d != 0.0 && Square(d) <= SquaredDeviations(xs, m);
    SquarePositive(d);
  }

  lemma FittedIffDenominator(x: seq<real>, y: seq<real>)
    requires |x| == |y| > 0
    ensures FitPairs(x, y).Fitted? <==> SlopeDenominator(|x| as real, Sum(x), SumProducts(x, x)) != 0.0
  {
  }

  /** The slope is finite exactly when the paired `x` are not all the same. */
  lemma FitPairsFitted(x: seq<real>, y: seq<real>)
    requires |x| == |y| > 0
    ensures FitPairs(x, y).Fitted? <==> exists i :: 0 <= i < |x| && x[i] != x[0]
  {
    var n := |x| as real;
    var m := Sum(x) / n;
    FittedIffDenominator(x, y);
    DenominatorIsSpread(x);
    if i :| 0 <= i < |x| && x[i] != x[0] {
      UnequalSpread(x, m, i);
      assert n * SquaredDeviations(x, m) > 0.0;
    } else {
      ConstantHasNoSpread(x, x[0]);
      assert m == x[0];
    }
  }

  /** `performLinearRegression` reports a finite line exactly when the paired `x` values are not all the same. */
  lemma SlopeIsFinite(xData: seq<real>, yData: seq<real>)
    requires LinearRegression(xData, yData).Ok?
    ensures LinearRegression(xData, yData).value.Fitted? <==>
      exists i :: 0 <= i < MinLength(xData, yData) && xData[i] != xData[0]
  {
    var n := MinLength(xData, yData);
    var x := xData[..n];
    LinearRegressionPairs(xData, yData);
    FitPairsFitted(x, yData[..n]);
    assert forall i :: 0 <= i < n ==> x[i] == xData[i];
  }

  /** Exactly linear data `y = a * x + b` whose `x` are not all the same is fitted with slope `a` and intercept
      `b`, and every fitted value is the observed one. */
  lemma ExactLineIsRecovered(xs: seq<real>, a: real, b: real)
    requires |xs| >= 2 && exists i :: 0 <= i < |xs| && xs[i] != xs[0]
    ensures LinearRegression(xs, Predictions(xs, a, b)).Ok? && LinearRegression(xs, Predictions(xs, a, b)).value.Fitted?
    ensures var line := LinearRegression(xs, Predictions(xs, a, b)).value.line;
      line.slope == a && line.intercept == b && line.predictions == Predictions(xs, a, b)
  {
    var ys := Predictions(xs, a, b);
    var n := |xs|;
    assert MinLength(xs, ys) == n;
    LinearRegressionPairs(xs, ys);
    assert xs[..n] == xs && ys[..n] == ys;
    FitPairsFitted(xs, ys);
    SumPredictions(xs, a, b);
    SumProductsWithLine(xs, a, b);
    ClosedFormRecoversLine(n as real, Sum(xs), Sum(ys), SumProducts(xs, xs), SumProducts(xs, ys), a, b);
  }

  /** The coefficient of determination is at most 1, since the residual sum of squares is never negative. */
  lemma RSquaredAtMostOne(xData: seq<real>, yData: seq<real>)
    requires LinearRegression(xData, yData).Ok? && LinearRegression(xData, yData).value.Fitted?
    requires LinearRegression(xData, yData).value.line.rSquared.Some?
    ensures LinearRegression(xData, yData).value.line.rSquared.value <= 1.0
  {
    LinearRegressionPairs(xData, yData);
    var n := MinLength(xData, yData);
    var x, y := xData[..n], yData[..n];
    var line := FitPairs(x, y).line;
    var total := SquaredDeviations(y, Sum(y) / n as real);
    NonNegativeQuotient(ResidualSquares(x, y, line.slope, line.intercept), total);
  }

  lemma NonNegativeQuotient(a: real, b: real)
    requires a >= 0.0 && b > 0.0
    ensures a / b >= 0.0
  {
  }

  /** `[1, 2, 3]` against `[2, 4, 6]`: slope 2, intercept 0, a perfect fit. */
  lemma RegressionExample()
    ensures LinearRegression([1.0, 2.0, 3.0], [2.0, 4.0, 6.0]) ==
      Ok(Fitted(Line(2.0, 0.0, Some(1.0), [2.0, 4.0, 6.0], [1.0, 2.0, 3.0], [2.0, 4.0, 6.0])))
  {
    var x, y := [1.0, 2.0, 3.0], [2.0, 4.0, 6.0];
    assert MinLength(x, y) == 3;
    assert x[..3] == x && y[..3] == y;
    ExampleFit();
    ExampleLine();
  }

  lemma ExampleFit()
    ensures FitPairs([1.0, 2.0, 3.0], [2.0, 4.0, 6.0]) == Fitted(LineOf([1.0, 2.0, 3.0], [2.0, 4.0, 6.0], 2.0, 0.0))
  {
    ExampleSums();
    assert SlopeDenominator(3.0, 6.0, 14.0) == 6.0 && SlopeNumerator(3.0, 6.0, 12.0, 28.0) == 12.0;
    assert Intercept(2.0, 6.0, 12.0, 3.0) == 0.0;
  }

  lemma ExampleSums()
    ensures Sum([1.0, 2.0, 3.0]) == 6.0 && Sum([2.0, 4.0, 6.0]) == 12.0
    ensures SumProducts([1.0, 2.0, 3.0], [2.0, 4.0, 6.0]) == 28.0
    ensures SumProducts([1.0, 2.0, 3.0], [1.0, 2.0, 3.0]) == 14.0
  {
    var x, y := [1.0, 2.0, 3.0], [2.0, 4.0, 6.0];
    assert x[..2] == [1.0, 2.0] && [1.0, 2.0][..1] == [1.0] && [1.0][..0] == [];
    assert y[..2] == [2.0, 4.0] && [2.0, 4.0][..1] == [2.0] && [2.0][..0] == [];
  }

  lemma ExampleLine()
    ensures LineOf([1.0, 2.0, 3.0], [2.0, 4.0, 6.0], 2.0, 0.0) ==
      Line(2.0, 0.0, Some(1.0), [2.0, 4.0, 6.0], [1.0, 2.0, 3.0], [2.0, 4.0, 6.0])
  {
    var x, y := [1.0, 2.0, 3.0], [2.0, 4.0, 6.0];
    assert x[..2] == [1.0, 2.0] && [1.0, 2.0][..1] == [1.0] && [1.0][..0] == [];
    assert y[..2] == [2.0, 4.0] && [2.0, 4.0][..1] == [2.0] && [2.0][..0] == [];
    ExampleSums();
    assert SquaredDeviations(y, 4.0) == 8.0;
    assert ResidualSquares(x, y, 2.0, 0.0) == 0.0;
    assert Predictions(x, 2.0, 0.0) == [2.0, 4.0, 6.0];
  }
}
