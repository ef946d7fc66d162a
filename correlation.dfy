/** Pearson correlation of two numeric columns and its banding (`calculateCorrelation`,
    `getCorrelationStrength`, `getCorrelationInterpretation`, js/ml-analyzer.js). The coefficient is
    `numerator / sqrt(xVariance * yVariance)`; without square roots the model keeps the three sums and the
    exact square of the coefficient, and decides the bands from them. */
module Correlation {
  import opened Numeric

  datatype Strength = Strong | Moderate | Weak

  datatype Interpretation =
    | StrongPositive | ModeratePositive | WeakPositive
    | WeakNegative | ModerateNegative | StrongNegative

  /** `getCorrelationStrength`: `|r| >= 0.7` strong, `|r| >= 0.3` moderate, weak otherwise. */
  function StrengthOf(r: real): Strength {
    if Abs(r) >= 0.7 then Strong else if Abs(r) >= 0.3 then Moderate else Weak
  }

  /** `getCorrelationInterpretation`: strict thresholds 0.7, 0.3, 0, -0.3, -0.7 from the top. */
  function InterpretationOf(r: real): Interpretation {
    if r > 0.7 then StrongPositive
    else if r > 0.3 then ModeratePositive
    else if r > 0.0 then WeakPositive
    else if r > -0.3 then WeakNegative
    else if r > -0.7 then ModerateNegative
    else StrongNegative
  }

  /** Because all thresholds are strict, a coefficient of exactly 0 reads as a weak negative correlation. */
  lemma ZeroIsWeakNegative()
    ensures StrengthOf(0.0) == Weak && InterpretationOf(0.0) == WeakNegative
  {
  }

  /** The two bandings agree on strong correlations; they part only at `r = 0.7` and `r = 0.3`, where the
      strength band is closed and the interpretation band is open. */
  lemma BandingsAgree(r: real)
    ensures InterpretationOf(r) in {StrongPositive, StrongNegative} ==> StrengthOf(r) == Strong
    ensures InterpretationOf(r) in {ModeratePositive, ModerateNegative} ==> StrengthOf(r) == Moderate || r == 0.7
    ensures InterpretationOf(r) in {WeakPositive, WeakNegative} ==> StrengthOf(r) == Weak || r == 0.3
    ensures StrengthOf(0.7) == Strong && InterpretationOf(0.7) == ModeratePositive
  {
  }

  /** `sum((x - mx) * (y - my))` over the paired values, accumulated front to back. */
  function CrossDeviations(xs: seq<real>, ys: seq<real>, mx: real, my: real): real
    requires |xs| == |ys|
  {
    if xs == [] then 0.0
    else CrossDeviations(xs[..|xs| - 1], ys[..|ys| - 1], mx, my) + Prod(xs[|xs| - 1] - mx, ys[|ys| - 1] - my)
  }

  /** `xDiff * yDiff`: the contribution of one pair of deviations. */
  function Prod(u: real, v: real): real {
    u * v
  }

  /** What `calculateCorrelation` reports: the three sums, the squared coefficient (0 when the product of the
      variances is 0, where the code reports a coefficient of 0), and the two bands. */
  datatype CorrelationResult = CorrelationResult(
    numerator: real, xVariance: real, yVariance: real, rSquared: real,
    strength: Strength, interpretation: Interpretation)

  /** The squared coefficient `numerator^2 / product`, reported as 0 when the product is 0. */
  function RSquaredOf(numerator: real, product: real): real {
    if product == 0.0 then 0.0 else numerator * numerator / product
  }

  /** The strength band of `numerator / sqrt(product)`, decided without the square root. */
  function StrengthFromSums(numerator: real, product: real): Strength {
    if product == 0.0 then StrengthOf(0.0)
    else if numerator * numerator >= 0.49 * product then Strong
    else if numerator * numerator >= 0.09 * product then Moderate
    else Weak
  }

  /** The interpretation band of `numerator / sqrt(product)`, decided without the square root. */
  function InterpretationFromSums(numerator: real, product: real): Interpretation {
    if product == 0.0 then InterpretationOf(0.0)
    else if numerator > 0.0 && numerator * numerator > 0.49 * product then StrongPositive
    else if numerator > 0.0 && numerator * numerator > 0.09 * product then ModeratePositive
    else if numerator > 0.0 then WeakPositive
    else if numerator * numerator < 0.09 * product then WeakNegative
    else if numerator * numerator < 0.49 * product then ModerateNegative
    else StrongNegative
  }

  lemma MulPositive(x: real, y: real)
    requires x > 0.0 && y > 0.0
    ensures x * y > 0.0
  {
  }

  lemma MulNonNegative(x: real, y: real)
    requires x >= 0.0 && y >= 0.0
    ensures x * y >= 0.0
  {
  }

  /** For a bound `t >= 0`: `r^2` reaches `t^2` exactly when `|r|` reaches `t`. */
  lemma SquareCompare(r: real, t: real)
    requires t >= 0.0
    ensures r * r >= t * t <==> Abs(r) >= t
    ensures r * r > t * t <==> Abs(r) > t
  {
    var a := Abs(r);
    AbsSquare(r);
    DifferenceOfSquares(a, t);
    if a > t {
      MulPositive(a - t, a + t);
    } else if a < t {
      MulPositive(t - a, t + a);
    }
  }

  lemma AbsSquare(r: real)
    ensures r * r == Abs(r) * Abs(r)
  {
    if r < 0.0 {
      assert Abs(r) * Abs(r) == (-r) * (-r);
    }
  }

  lemma DifferenceOfSquares(a: real, t: real)
    ensures a * a - t * t == (a - t) * (a + t)
    ensures t * t - a * a == (t - a) * (t + a)
  {
  }

  /** Deciding the bands from the sums agrees with banding the coefficient itself: for any `r` with
      `r^2 * product == numerator^2` and the sign of `numerator`, as `numerator / sqrt(product)` is when
      `product > 0`; and for `product == 0` the code's coefficient 0 is banded. */
  lemma {:induction false} BandsFromSumsAreBandsOfCoefficient(r: real, numerator: real, product: real)
    requires product > 0.0
    requires r * r * product == numerator * numerator
    requires (r > 0.0 <==> numerator > 0.0) && (r < 0.0 <==> numerator < 0.0)
    ensures StrengthFromSums(numerator, product) == StrengthOf(r)
    ensures InterpretationFromSums(numerator, product) == InterpretationOf(r)
  {
    var n2 := numerator * numerator;
    var r2 := r * r;
    assert n2 == r2 * product;
    assert n2 >= 0.49 * product <==> r2 >= 0.49 by { ScaleCompare(r2, 0.49, product); }
    assert n2 >= 0.09 * product <==> r2 >= 0.09 by { ScaleCompare(r2, 0.09, product); }
    assert n2 > 0.49 * product <==> r2 > 0.49 by { ScaleCompare(r2, 0.49, product); }
    assert n2 > 0.09 * product <==> r2 > 0.09 by { ScaleCompare(r2, 0.09, product); }
    SquareCompare(r, 0.7);
    SquareCompare(r, 0.3);
  }

  lemma ScaleCompare(a: real, b: real, p: real)
    requires p > 0.0
    ensures a * p >= b * p <==> a >= b
    ensures a * p > b * p <==> a > b
  {
    if a >= b {
      assert a * p - b * p == (a - b) * p;
    } else {
      assert b * p - a * p == (b - a) * p;
    }
  }

  /** The report built from the three sums. */
  function Summarize(numerator: real, xVariance: real, yVariance: real): CorrelationResult {
    var product := xVariance * yVariance;
    CorrelationResult(
      numerator, xVariance, yVariance, RSquaredOf(numerator, product),
      StrengthFromSums(numerator, product), InterpretationFromSums(numerator, product))
  }

  /** `calculateCorrelation` on the two columns' values. */
  function CorrelationOf(xData: seq<real>, yData: seq<real>): (r: Result<CorrelationResult>)
    ensures r.Err? <==> MinLength(xData, yData) < 2
    ensures r.Err? ==> r.error == InsufficientData
  {
    var n := MinLength(xData, yData);
    var x, y := xData[..n], yData[..n];
    if n < 2 then Err(InsufficientData)
    else
      var xMean, yMean := Sum(x) / n as real, Sum(y) / n as real;
      Ok(Summarize(CrossDeviations(x, y, xMean, yMean), SquaredDeviations(x, xMean), SquaredDeviations(y, yMean)))
  }

  /** Values past the end of the shorter column never change the correlation: it is that of the two columns
      cut to the same length. */
  lemma {:induction false} CorrelationUsesPairsOnly(xData: seq<real>, yData: seq<real>)
    ensures var n := MinLength(xData, yData);
      CorrelationOf(xData, yData) == CorrelationOf(xData[..n], yData[..n])
  {
    var n := MinLength(xData, yData);
    assert MinLength(xData[..n], yData[..n]) == n;
    assert xData[..n][..n] == xData[..n] && yData[..n][..n] == yData[..n];
  }

  /** The loop of `calculateCorrelation`, accumulating the three sums in one pass. */
  method CalculateCorrelation(xData: seq<real>, yData: seq<real>) returns (r: Result<CorrelationResult>)
    ensures r == CorrelationOf(xData, yData)
  {
    var n := MinLength(xData, yData);
    var x, y := xData[..n], yData[..n];
    if n < 2 {
      return Err(InsufficientData);
    }
    var xMean, yMean := Sum(x) / n as real, Sum(y) / n as real;
    var numerator, xVariance, yVariance := 0.0, 0.0, 0.0;
    var i := 0;
    while i < n
      invariant 0 <= i <= n
      invariant numerator == CrossDeviations(x[..i], y[..i], xMean, yMean)
      invariant xVariance == SquaredDeviations(x[..i], xMean)
      invariant yVariance == SquaredDeviations(y[..i], yMean)
    {
      var xDiff := x[i] - xMean;
      var yDiff := y[i] - yMean;
      assert x[..i + 1][..i] == x[..i] && y[..i + 1][..i] == y[..i];
      numerator := numerator + Prod(xDiff, yDiff);
      xVariance := xVariance + Square(xDiff);
      yVariance := yVariance + Square(yDiff);
      i := i + 1;
    }
    assert x[..n] == x && y[..n] == y;
    r := Ok(Summarize(numerator, xVariance, yVariance));
  }

  lemma {:induction false} CrossDeviationsSymmetric(xs: seq<real>, ys: seq<real>, mx: real, my: real)
    requires |xs| == |ys|
    ensures CrossDeviations(xs, ys, mx, my) == CrossDeviations(ys, xs, my, mx)
  {
    if xs != [] {
      CrossDeviationsSymmetric(xs[..|xs| - 1], ys[..|ys| - 1], mx, my);
    }
  }

  /** Correlation is symmetric: swapping the columns swaps the two variances and changes nothing else. */
  lemma CorrelationSymmetric(xData: seq<real>, yData: seq<real>)
    ensures CorrelationOf(xData, yData).Err? == CorrelationOf(yData, xData).Err?
    ensures CorrelationOf(xData, yData).Ok? ==>
      var a, b := CorrelationOf(xData, yData).value, CorrelationOf(yData, xData).value;
      && a.numerator == b.numerator && a.xVariance == b.yVariance && a.yVariance == b.xVariance
      && a.rSquared == b.rSquared && a.strength == b.strength && a.interpretation == b.interpretation
  {
    var n := MinLength(xData, yData);
    assert MinLength(yData, xData) == n;
    if n >= 2 {
      var x, y := xData[..n], yData[..n];
      CrossDeviationsSymmetric(x, y, Sum(x) / n as real, Sum(y) / n as real);
      var xv, yv := SquaredDeviations(x, Sum(x) / n as real), SquaredDeviations(y, Sum(y) / n as real);
      assert xv * yv == yv * xv;
    }
  }

  /** With a constant column the product of the variances is 0: the coefficient is reported as 0, weak and
      weak negative. */
  lemma ZeroProductIsZeroCorrelation(xData: seq<real>, yData: seq<real>)
    requires CorrelationOf(xData, yData).Ok?
    requires CorrelationOf(xData, yData).value.xVariance * CorrelationOf(xData, yData).value.yVariance == 0.0
    ensures CorrelationOf(xData, yData).value.rSquared == 0.0
    ensures CorrelationOf(xData, yData).value.strength == Weak
    ensures CorrelationOf(xData, yData).value.interpretation == WeakNegative
  {
  }

  /** The Lagrange term `sum(((x - mx) * b - a * (y - my))^2)` for a pair `(a, b)` of weights: a sum of
      squares, so never negative. */
  function LagrangeTerm(xs: seq<real>, ys: seq<real>, mx: real, my: real, a: real, b: real): (r: real)
    requires |xs| == |ys|
    ensures r >= 0.0
  {
    if xs == [] then 0.0
    else LagrangeTerm(xs[..|xs| - 1], ys[..|ys| - 1], mx, my, a, b) + LagrangeSquare(xs[|xs| - 1] - mx, ys[|ys| - 1] - my, a, b)
  }

  /** One pair's square `(u * b - a * v)^2` in the Lagrange term. */
  function LagrangeSquare(u: real, v: real, a: real, b: real): (r: real)
    ensures r >= 0.0
  {
    SquareNonNegative(u * b - a * v);
    Square(u * b - a * v)
  }

  /** The quadratic form `b^2 * A + a^2 * B - 2ab * C` in the weights `(a, b)`. */
  function Quadratic(A: real, B: real, C: real, a: real, b: real): real {
    b * b * A + a * a * B - 2.0 * a * b * C
  }

  /** One more pair of deviations `(u, v)` adds its Lagrange square to the quadratic form of the sums. */
  lemma QuadraticStep(A: real, B: real, C: real, a: real, b: real, u: real, v: real)
    ensures Quadratic(A, B, C, a, b) + LagrangeSquare(u, v, a, b) ==
      Quadratic(A + Square(u), B + Square(v), C + Prod(u, v), a, b)
  {
  }

  /** The Lagrange term expands into the quadratic form of the three sums; so that form is never negative. */
  lemma {:induction false} LagrangeTermExpands(xs: seq<real>, ys: seq<real>, mx: real, my: real, a: real, b: real)
    requires |xs| == |ys|
    ensures LagrangeTerm(xs, ys, mx, my, a, b) ==
      Quadratic(SquaredDeviations(xs, mx), SquaredDeviations(ys, my), CrossDeviations(xs, ys, mx, my), a, b)
  {
    if xs != [] {
      var fx, fy := xs[..|xs| - 1], ys[..|ys| - 1];
      LagrangeTermExpands(fx, fy, mx, my, a, b);
      QuadraticStep(SquaredDeviations(fx, mx), SquaredDeviations(fy, my), CrossDeviations(fx, fy, mx, my),
        a, b, xs[|xs| - 1] - mx, ys[|ys| - 1] - my);
    }
  }

  /** One step of Cauchy-Schwarz, on plain numbers: the inequality survives one more pair `(a, b)` when the
      quadratic form of the sums before it is not negative at the weights `(a, b)`. */
  lemma CauchySchwarzStep(A: real, B: real, C: real, a: real, b: real)
    requires Square(C) <= Prod(A, B)
    requires Quadratic(A, B, C, a, b) >= 0.0
    ensures Square(C + Prod(a, b)) <= Prod(A + Square(a), B + Square(b))
  {
    ProductIdentity(A, B, C, a, b);
  }

  /** `(A + a^2)(B + b^2) - (C + ab)^2 = (AB - C^2) + (b^2 A + a^2 B - 2abC)`. */
  lemma ProductIdentity(A: real, B: real, C: real, a: real, b: real)
    ensures (A + a * a) * (B + b * b) - (C + a * b) * (C + a * b) ==
      (A * B - C * C) + (b * b * A + a * a * B - 2.0 * a * b * C)
  {
  }

  /** Cauchy-Schwarz for the deviations: `numerator^2 <= xVariance * yVariance`. */
  lemma {:induction false} CauchySchwarz(xs: seq<real>, ys: seq<real>, mx: real, my: real)
    requires |xs| == |ys|
    ensures Square(CrossDeviations(xs, ys, mx, my)) <= Prod(SquaredDeviations(xs, mx), SquaredDeviations(ys, my))
  {
    if xs != [] {
      var fx, fy := xs[..|xs| - 1], ys[..|ys| - 1];
      CauchySchwarz(fx, fy, mx, my);
      var a, b := xs[|xs| - 1] - mx, ys[|ys| - 1] - my;
      LagrangeTermExpands(fx, fy, mx, my, a, b);
      CauchySchwarzStep(SquaredDeviations(fx, mx), SquaredDeviations(fy, my), CrossDeviations(fx, fy, mx, my), a, b);
    }
  }

  /** A squared coefficient built from sums that satisfy Cauchy-Schwarz lies in `[0, 1]`. */
  lemma RSquaredBounds(numerator: real, xVariance: real, yVariance: real)
    requires xVariance >= 0.0 && yVariance >= 0.0
    requires Square(numerator) <= Prod(xVariance, yVariance)
    ensures 0.0 <= Summarize(numerator, xVariance, yVariance).rSquared <= 1.0
  {
    var product := xVariance * yVariance;
    var n2 := numerator * numerator;
    MulNonNegative(xVariance, yVariance);
    SquareNonNegative(numerator);
    if product != 0.0 {
      DivideBounded(n2, product, n2 / product);
    }
  }

  lemma DivideBounded(a: real, p: real, q: real)
    requires p > 0.0 && 0.0 <= a <= p && q == a / p
    ensures 0.0 <= q <= 1.0
  {
    assert q * p == a;
    if q > 1.0 {
      ScaleCompare(q, 1.0, p);
    }
    if q < 0.0 {
      ScaleCompare(q, 0.0, p);
    }
  }

  /** The squared coefficient lies in `[0, 1]`, so the coefficient lies in `[-1, 1]`. */
  lemma RSquaredInUnitInterval(xData: seq<real>, yData: seq<real>)
    requires CorrelationOf(xData, yData).Ok?
    ensures 0.0 <= CorrelationOf(xData, yData).value.rSquared <= 1.0
  {
    var n := MinLength(xData, yData);
    var x, y := xData[..n], yData[..n];
    var mx, my := Sum(x) / n as real, Sum(y) / n as real;
    CauchySchwarz(x, y, mx, my);
    RSquaredBounds(CrossDeviations(x, y, mx, my), SquaredDeviations(x, mx), SquaredDeviations(y, my));
  }

  /** `[1, 2, 3]` against `[2, 4, 6]`: numerator 4, variances 2 and 8, a perfect strong positive correlation. */
  lemma CorrelationExample()
    ensures CorrelationOf([1.0, 2.0, 3.0], [2.0, 4.0, 6.0]) ==
      Ok(CorrelationResult(4.0, 2.0, 8.0, 1.0, Strong, StrongPositive))
  {
    var x, y := [1.0, 2.0, 3.0], [2.0, 4.0, 6.0];
    assert x[..3] == x && y[..3] == y;
    assert x[..2] == [1.0, 2.0] && [1.0, 2.0][..1] == [1.0] && [1.0][..0] == [];
    assert y[..2] == [2.0, 4.0] && [2.0, 4.0][..1] == [2.0] && [2.0][..0] == [];
    assert Sum(x) == 6.0 && Sum(y) == 12.0;
    assert CrossDeviations(x, y, 2.0, 4.0) == 4.0;
    assert SquaredDeviations(x, 2.0) == 2.0 && SquaredDeviations(y, 4.0) == 8.0;
  }
}
