/** Outlier detection on one numeric column (`detectOutliers`, js/ml-analyzer.js). The IQR method flags the
    values outside the fences `q1 - 1.5 iqr` and `q3 + 1.5 iqr`. The z-score method flags the values more
    than two standard deviations from the mean; since the deviation is a square root, the rule is written
    with the variance as `(v - mean)^2 > 4 variance`, and `ZScoreRule` relates it to the division the code
    performs. Any other method name flags nothing. */
module Outliers {
  import opened Numeric
  import opened Statistics

  /** A `method` name that selects no rule. */
  type UnknownName = s: string | s != "iqr" && s != "zscore" witness ""

  /** The `method` argument: `'iqr'`, `'zscore'`, or any other string. */
  datatype OutlierMethod = Iqr | ZScore | Unrecognised(name: UnknownName)

  /** The rule a `method` string selects, as the two `if (method === ...)` tests read it. */
  function MethodOf(name: string): (m: OutlierMethod)
    ensures m == Iqr <==> name == "iqr"
    ensures m == ZScore <==> name == "zscore"
    ensures m.Unrecognised? ==> m.name == name
  {
    if name == "iqr" then Iqr else if name == "zscore" then ZScore else Unrecognised(name)
  }

  /** `type: 'low'` or `'high'` of an IQR outlier. A z-score outlier carries its score instead; the score is a
      quotient by a square root and is not part of this model. */
  datatype Kind = Low | High | Deviant

  /** An outlier: its 1-based position among the column's values, the value, and its kind. */
  datatype Outlier = Outlier(index: nat, value: real, kind: Kind)

  /** What `detectOutliers` returns on success. The percentage is kept exact; the code formats it with
      `toFixed(2)`. */
  datatype Report = Report(
    outliers: seq<Outlier>, outlierMethod: OutlierMethod, totalCount: nat, outlierCount: nat, outlierPercentage: real)

  function LowerFence(s: Stats): real {
    s.q1 - 1.5 * s.iqr
  }

  function UpperFence(s: Stats): real {
    s.q3 + 1.5 * s.iqr
  }

  /** Whether a value is reported by method `m` against the column's statistics `s`. */
  predicate Flagged(m: OutlierMethod, s: Stats, v: real) {
    match m
    case Iqr => v < LowerFence(s) || v > UpperFence(s)
    case ZScore => Square(v - s.mean) > 4.0 * s.variance
    case Unrecognised(_) => false
  }

  /** The kind reported with a flagged value. */
  function KindOf(m: OutlierMethod, s: Stats, v: real): Kind {
    if m == ZScore then Deviant else if v < LowerFence(s) then Low else High
  }

  /** The outliers of `data` in order of position: what the `forEach` pushes. */
  function OutliersOf(data: seq<real>, m: OutlierMethod, s: Stats): (r: seq<Outlier>)
    ensures |r| <= |data|
  {
    if data == [] then []
    else
      var v := data[|data| - 1];
      OutliersOf(data[..|data| - 1], m, s) + if Flagged(m, s, v) then [Outlier(|data|, v, KindOf(m, s, v))] else []
  }

  /** `detectOutliers` on the column's values: the statistics' error for an empty column, otherwise the
      report. */
  function DetectOutliers(data: seq<real>, m: OutlierMethod): (r: Result<Report>)
    ensures r.Err? <==> data == []
    ensures r.Err? ==> r.error == InsufficientData
  {
    match CalculateStatistics(data)
    case Err(e) => Err(e)
    case Ok(s) =>
      var outliers := OutliersOf(data, m, s);
      Ok(Report(outliers, m, |data|, |outliers|, Percentage(|outliers|, |data|)))
  }

  /** `count / total * 100`. */
  function Percentage(count: nat, total: nat): real
    requires total > 0
  {
    count as real / total as real * 100.0
  }

  lemma PercentageBounds(count: nat, total: nat)
    requires 0 < total && count <= total
    ensures 0.0 <= Percentage(count, total) <= 100.0
  {
    var q := count as real / total as real;
    assert q * total as real == count as real;
    assert 0.0 <= q <= 1.0;
  }

  /** The two `forEach` loops of `detectOutliers`, one per method. */
  method FindOutliers(data: seq<real>, m: OutlierMethod, s: Stats) returns (outliers: seq<Outlier>)
    ensures outliers == OutliersOf(data, m, s)
  {
    outliers := [];
    if m == Iqr {
      var lowerBound, upperBound := LowerFence(s), UpperFence(s);
      for i := 0 to |data|
        invariant outliers == OutliersOf(data[..i], m, s)
      {
        assert data[..i + 1][..i] == data[..i];
        var value := data[i];
        if value < lowerBound || value > upperBound {
          outliers := outliers + [Outlier(i + 1, value, if value < lowerBound then Low else High)];
        }
      }
    } else if m == ZScore {
      for i := 0 to |data|
        invariant outliers == OutliersOf(data[..i], m, s)
      {
        assert data[..i + 1][..i] == data[..i];
        var value := data[i];
        if Square(value - s.mean) > 4.0 * s.variance {
          outliers := outliers + [Outlier(i + 1, value, Deviant)];
        }
      }
    } else {
      UnrecognisedFlagsNothing(data, m, s);
    }
    assert data[..|data|] == data;
  }

  /** Every reported outlier is the flagged value at its position, with its kind. */
  lemma {:induction false} OutliersSound(data: seq<real>, m: OutlierMethod, s: Stats)
    ensures forall k :: 0 <= k < |OutliersOf(data, m, s)| ==>
      var o := OutliersOf(data, m, s)[k];
      1 <= o.index <= |data| && data[o.index - 1] == o.value && Flagged(m, s, o.value) && o.kind == KindOf(m, s, o.value)
  {
    if data != [] {
      var front := data[..|data| - 1];
      OutliersSound(front, m, s);
      assert forall j :: 0 <= j < |front| ==> front[j] == data[j];
    }
  }

  /** Every flagged value is reported, at its position. */
  lemma {:induction false} OutliersComplete(data: seq<real>, m: OutlierMethod, s: Stats, i: nat)
    requires i < |data| && Flagged(m, s, data[i])
    ensures Outlier(i + 1, data[i], KindOf(m, s, data[i])) in OutliersOf(data, m, s)
  {
    var front := data[..|data| - 1];
    if i < |front| {
      OutliersComplete(front, m, s, i);
      assert front[i] == data[i];
    }
  }

  /** The outliers are listed by strictly increasing position. */
  lemma {:induction false} OutliersIncreasing(data: seq<real>, m: OutlierMethod, s: Stats)
    ensures forall a, b :: 0 <= a < b < |OutliersOf(data, m, s)| ==>
      OutliersOf(data, m, s)[a].index < OutliersOf(data, m, s)[b].index
  {
    if data != [] {
      var front := data[..|data| - 1];
      OutliersIncreasing(front, m, s);
      OutliersSound(front, m, s);
    }
  }

  /** A method name other than `'iqr'` and `'zscore'` reports no outlier. */
  lemma {:induction false} UnrecognisedFlagsNothing(data: seq<real>, m: OutlierMethod, s: Stats)
    requires m.Unrecognised?
    ensures OutliersOf(data, m, s) == []
  {
    if data != [] {
      UnrecognisedFlagsNothing(data[..|data| - 1], m, s);
    }
  }

  /** The counts of a report: the outliers are at most all of the values, and the percentage is between 0
      and 100. */
  lemma ReportCounts(data: seq<real>, m: OutlierMethod)
    requires DetectOutliers(data, m).Ok?
    ensures var r := DetectOutliers(data, m).value;
      && r.totalCount == |data| && r.outlierCount == |r.outliers| <= r.totalCount
      && 0.0 <= r.outlierPercentage <= 100.0
  {
    var r := DetectOutliers(data, m).value;
    PercentageBounds(r.outlierCount, |data|);
  }

  /** IQR outliers lie outside the quartiles: a low one below `q1`, a high one above `q3`. */
  lemma IqrOutliersBeyondQuartiles(data: seq<real>)
    requires data != []
    ensures var s := CalculateStatistics(data).value;
      forall o :: o in OutliersOf(data, Iqr, s) ==>
        (o.kind == Low && o.value < s.q1) || (o.kind == High && o.value > s.q3)
  {
    var s := CalculateStatistics(data).value;
    StatisticsOrder(data);
    OutliersSound(data, Iqr, s);
  }

  /** The z-score rule is the code's `Math.abs((v - mean) / sd) > 2` for `sd` the square root of the variance.
      With `sd = 0` the quotient is infinite, and so above 2, unless `v` is the mean, where it is not a number
      and the comparison fails. */
  lemma ZScoreRule(s: Stats, v: real, sd: real)
    requires sd >= 0.0 && Square(sd) == s.variance
    ensures Flagged(ZScore, s, v) <==> if sd > 0.0 then Abs(v - s.mean) / sd > 2.0 else v != s.mean
  {
    var a := Abs(v - s.mean);
    assert Square(v - s.mean) == Square(a);
    assert 4.0 * s.variance == Square(2.0 * sd);
    SquareOrder(a, 2.0 * sd);
    if sd > 0.0 {
      DividedAbove(a, sd);
    } else {
      assert Square(2.0 * sd) == 0.0;
    }
  }

  /** For non-negative numbers, the squares are ordered as the numbers. */
  lemma SquareOrder(a: real, b: real)
    requires a >= 0.0 && b >= 0.0
    ensures Square(a) > Square(b) <==> a > b
  {
    var t := a + b;
    if a > b {
      var d := a - b;
      ProductSign(d, t);
      assert Square(a) - Square(b) == d * t;
    } else {
      var d := b - a;
      ProductSign(d, t);
      assert Square(b) - Square(a) == d * t;
    }
  }

  lemma ProductSign(x: real, y: real)
    requires x >= 0.0 && y >= 0.0
    ensures x * y >= 0.0
    ensures x > 0.0 && y > 0.0 ==> x * y > 0.0
  {
  }

  lemma DividedAbove(a: real, sd: real)
    requires sd > 0.0
    ensures a / sd > 2.0 <==> a > 2.0 * sd
  {
    assert a == (a / sd) * sd;
  }
}
