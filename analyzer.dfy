/** The analysis object (`MLAnalyzer`, js/ml-analyzer.js): it holds the loaded table and its typed columns, and
    each analysis reads the numeric values of one or two columns and hands them to the computations of the
    modules `Statistics`, `Correlation`, `Regression`, `KMeans` and `Outliers`. Reading the values of a column
    with no entry in the column list throws; regression and clustering catch that exception and return it as
    an error value, while statistics, correlation and outlier detection let it escape. */
module Analyzer {
  import opened Cells
  import opened Columns
  import opened Numeric
  import opened Statistics
  import opened Correlation
  import opened Regression
  import opened KMeans
  import opened Outliers

  /** The outcome of an analysis that has no `try`: it returns a value (possibly the `{ error }` object), or the
      exception of the column lookup escapes to the caller. */
  datatype Reply<+T> = Returned(result: Result<T>) | Threw

  /** The columns `getNumericColumns` lists: those typed as numbers, in order. */
  function NumericColumns(cols: seq<Column>): (r: seq<Column>)
    ensures |r| <= |cols|
    ensures forall c :: c in r <==> c in cols && c.kind == Number
  {
    if cols == [] then []
    else NumericColumns(cols[..|cols| - 1]) + if cols[|cols| - 1].kind == Number then [cols[|cols| - 1]] else []
  }

  /** The loop of `performKMeansClusteringSimple` that pairs the two columns' values into points. */
  method PairPoints(xData: seq<real>, yData: seq<real>) returns (points: seq<Point>)
    ensures points == PairUp(xData, yData)
  {
    var minLength := MinLength(xData, yData);
    points := [];
    for i := 0 to minLength
      invariant points == PairUp(xData, yData)[..i]
    {
      points := points + [Point(xData[i], yData[i])];
    }
  }

  /** A column yields no values exactly when no cell of it below the header parses as a number. */
  lemma {:induction false} NoNumbersIsEmpty(data: seq<Row>, cols: seq<Column>, i: int)
    requires GetColumnData(data, cols, i).Ok?
    ensures GetColumnData(data, cols, i).value == [] <==> forall k :: 1 <= k < |data| ==> ParseNum(CellAt(data[k], i)).None?
  {
    var cells := ColumnCells(data, i);
    assert GetColumnData(data, cols, i).value == NumbersOf(cells);
    if NumbersOf(cells) == [] {
      EmptyMeansNoParse(data, i);
    } else {
      ValueMeansParse(data, i);
    }
  }

  lemma {:induction false} EmptyMeansNoParse(data: seq<Row>, i: int)
    requires NumbersOf(ColumnCells(data, i)) == []
    ensures forall k :: 1 <= k < |data| ==> ParseNum(CellAt(data[k], i)).None?
  {
    var cells := ColumnCells(data, i);
    forall k | 1 <= k < |data| ensures ParseNum(CellAt(data[k], i)).None? {
      NoneParsesInEmpty(cells, k - 1);
      assert cells[k - 1] == CellAt(data[k], i);
    }
  }

  lemma NoneParsesInEmpty(cells: seq<Cell>, j: nat)
    requires NumbersOf(cells) == [] && j < |cells|
    ensures ParseNum(cells[j]).None?
  {
    if ParseNum(cells[j]).Some? {
      NumbersOfComplete(cells, j, ParseNum(cells[j]).value);
    }
  }

  lemma {:induction false} ValueMeansParse(data: seq<Row>, i: int)
    requires NumbersOf(ColumnCells(data, i)) != []
    ensures exists k :: 1 <= k < |data| && ParseNum(CellAt(data[k], i)).Some?
  {
    var cells := ColumnCells(data, i);
    NumbersOfSound(cells, NumbersOf(cells)[0]);
    var j :| 0 <= j < |cells| && ParseNum(cells[j]) == Some(NumbersOf(cells)[0]);
    assert cells[j] == CellAt(data[j + 1], i);
  }

  class MLAnalyzer {
    var data: seq<Row>
    var columns: seq<Column>

    constructor ()
      ensures data == [] && columns == []
    {
      data := [];
      columns := [];
    }

    /** `setData`: the table becomes `d`; the column list is rebuilt from its header unless `d` is empty. */
    method SetData(d: seq<Row>)
      modifies this
      ensures data == d
      ensures columns == if |d| > 0 then ColumnsOf(d) else old(columns)
    {
      data := d;
      if |d| > 0 {
        columns := ColumnsOf(d);
      }
    }

    /** `calculateStatistics(i)`: the statistics of column `i`'s values; the lookup exception escapes. */
    method CalculateStatistics(i: int) returns (r: Reply<Stats>)
      ensures r.Threw? <==> |data| > 1 && !(0 <= i < |columns|)
      ensures r.Returned? ==> r.result == Statistics.CalculateStatistics(GetColumnData(data, columns, i).value)
      ensures r.Returned? ==> (r.result.Err? <==> forall k :: 1 <= k < |data| ==> ParseNum(CellAt(data[k], i)).None?)
    {
      var values := GetColumnData(data, columns, i);
      if values.Err? {
        return Threw;
      }
      NoNumbersIsEmpty(data, columns, i);
      r := Returned(Statistics.CalculateStatistics(values.value));
    }

    /** `calculateCorrelation(x, y)`: the correlation of the two columns' values, paired up to the shorter
        length; the lookup exception of either column escapes. */
    method CalculateCorrelation(x: int, y: int) returns (r: Reply<CorrelationResult>)
      ensures r.Threw? <==> GetColumnData(data, columns, x).Err? || GetColumnData(data, columns, y).Err?
      ensures r.Returned? ==>
        r.result == CorrelationOf(GetColumnData(data, columns, x).value, GetColumnData(data, columns, y).value)
    {
      var xData := GetColumnData(data, columns, x);
      var yData := GetColumnData(data, columns, y);
      if xData.Err? || yData.Err? {
        return Threw;
      }
      var c := Correlation.CalculateCorrelation(xData.value, yData.value);
      r := Returned(c);
    }

    /** `performLinearRegression(x, y)`: the fit of the two columns' values; the lookup exception is caught and
        returned as an error, so an error means a missing column entry or fewer than two pairs. */
    method PerformLinearRegression(x: int, y: int) returns (r: Result<Fit>)
      ensures GetColumnData(data, columns, x).Err? || GetColumnData(data, columns, y).Err? ==> r == Err(Exception)
      ensures GetColumnData(data, columns, x).Ok? && GetColumnData(data, columns, y).Ok? ==>
        r == LinearRegression(GetColumnData(data, columns, x).value, GetColumnData(data, columns, y).value)
      ensures r.Err? <==>
        || GetColumnData(data, columns, x).Err? || GetColumnData(data, columns, y).Err?
        || MinLength(GetColumnData(data, columns, x).value, GetColumnData(data, columns, y).value) < 2
    {
      var xData := GetColumnData(data, columns, x);
      var yData := GetColumnData(data, columns, y);
      if xData.Err? || yData.Err? {
        return Err(Exception);
      }
      r := LinearRegression(xData.value, yData.value);
    }

    /** `performKMeansClusteringSimple(x, y, k)`: the clustering of the paired values into `k` clusters, with
        `randoms` standing for the draws of `Math.random`; every exception is caught and returned as an error. */
    method PerformKMeansClusteringSimple(x: int, y: int, k: int, randoms: seq<real>) returns (r: Result<Clustering>)
      requires k <= |randoms| && ValidDraws(randoms)
      ensures GetColumnData(data, columns, x).Err? || GetColumnData(data, columns, y).Err? ==> r == Err(Exception)
      ensures GetColumnData(data, columns, x).Ok? && GetColumnData(data, columns, y).Ok? ==>
        r == KMeansClustering(PairUp(GetColumnData(data, columns, x).value, GetColumnData(data, columns, y).value), k, randoms)
    {
      var xData := GetColumnData(data, columns, x);
      var yData := GetColumnData(data, columns, y);
      if xData.Err? || yData.Err? {
        return Err(Exception);
      }
      var points := PairPoints(xData.value, yData.value);
      if |points| < k {
        return Err(TooFewPoints(|points|, k));
      }
      if k < 0 || (k == 0 && |points| > 0) {
        return Err(Exception);
      }
      if k == 0 {
        return Ok(Clustering([], 0, points, []));
      }
      var clusters := SimpleKMeans(points, k, randoms, MaxIterations);
      RunPartitionsPoints(points, InitialCentroids(points, randoms, k), MaxIterations, []);
      r := Ok(Clustering(clusters, k, points, seq(|clusters|, j requires 0 <= j < |clusters| => clusters[j].centroid)));
    }

    /** `detectOutliers(i, method)`: the outliers of column `i`'s values by the rule `method` names; the
        statistics' error is returned as it is, and the lookup exception escapes. */
    method DetectOutliers(i: int, methodName: string) returns (r: Reply<Report>)
      ensures r.Threw? <==> |data| > 1 && !(0 <= i < |columns|)
      ensures r.Returned? ==> r.result == Outliers.DetectOutliers(GetColumnData(data, columns, i).value, MethodOf(methodName))
    {
      var m := MethodOf(methodName);
      var values := GetColumnData(data, columns, i);
      if values.Err? {
        return Threw;
      }
      var stats := Statistics.CalculateStatistics(values.value);
      if stats.Err? {
        return Returned(Err(stats.error));
      }
      var outliers := FindOutliers(values.value, m, stats.value);
      r := Returned(Ok(Report(outliers, m, |values.value|, |outliers|, Percentage(|outliers|, |values.value|))));
    }
  }
}
