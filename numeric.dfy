/** Numeric helpers of the analysis engine (`MLAnalyzer`, js/ml-analyzer.js): the error outcome of an
    analysis, sums as `reduce((a, b) => a + b, 0)` computes them, the numeric column extractor, and the
    positional pairing of two columns. Numbers are exact reals. */
module Numeric {
  import opened Cells
  import opened Columns

  /** Why an analysis produced no result: too few values, fewer points than clusters (with both counts,
      as the message shows them), or a JavaScript exception caught or propagated. */
  datatype AnalysisError = InsufficientData | TooFewPoints(points: nat, k: int) | Exception

  datatype Result<+T> = Ok(value: T) | Err(error: AnalysisError)

  /** `xs.reduce((a, b) => a + b, 0)`: a left fold, so the sum of a prefix extends by the next element. */
  function Sum(xs: seq<real>): real {
    if xs == [] then 0.0 else Sum(xs[..|xs| - 1]) + xs[|xs| - 1]
  }

  lemma {:induction false} SumAppend(xs: seq<real>, ys: seq<real>)
    ensures Sum(xs + ys) == Sum(xs) + Sum(ys)
    decreases |ys|
  {
    if ys == [] {
      assert xs + ys == xs;
    } else {
      assert (xs + ys)[..|xs + ys| - 1] == xs + ys[..|ys| - 1];
      assert (xs + ys)[|xs + ys| - 1] == ys[|ys| - 1];
      SumAppend(xs, ys[..|ys| - 1]);
    }
  }

  /** Every element between `lo` and `hi` bounds the sum between `n * lo` and `n * hi`. */
  lemma {:induction false} SumBounds(xs: seq<real>, lo: real, hi: real)
    requires forall i :: 0 <= i < |xs| ==> lo <= xs[i] <= hi
    ensures |xs| as real * lo <= Sum(xs) <= |xs| as real * hi
  {
    if xs != [] {
      var k := (|xs| - 1) as real;
      SumBounds(xs[..|xs| - 1], lo, hi);
      assert |xs| as real * lo == k * lo + lo && |xs| as real * hi == k * hi + hi;
    }
  }

  /** The arithmetic mean; the callers only divide for a non-empty sequence. */
  function Mean(xs: seq<real>): real
    requires |xs| > 0
  {
    Sum(xs) / |xs| as real
  }

  /** The mean lies between any bounds of the elements. */
  lemma MeanBounds(xs: seq<real>, lo: real, hi: real)
    requires |xs| > 0
    requires forall i :: 0 <= i < |xs| ==> lo <= xs[i] <= hi
    ensures lo <= Mean(xs) <= hi
  {
    SumBounds(xs, lo, hi);
    var n := |xs| as real;
    assert Mean(xs) * n == Sum(xs);
  }

  /** `xs.reduce((acc, v) => acc + Math.pow(v - m, 2), 0)`: squared deviations from `m`, summed. */
  function SquaredDeviations(xs: seq<real>, m: real): (r: real)
    ensures r >= 0.0
  {
    if xs == [] then 0.0
    else
      SquareNonNegative(xs[|xs| - 1] - m);
      SquaredDeviations(xs[..|xs| - 1], m) + Square(xs[|xs| - 1] - m)
  }

  /** `Math.pow(d, 2)`. */
  function Square(d: real): real {
    d * d
  }

  lemma SquareNonNegative(d: real)
    ensures d * d >= 0.0
  {
    if d < 0.0 {
      assert d * d == (-d) * (-d);
    }
  }

  /** Only 0 has square 0. */
  lemma SquarePositive(d: real)
    requires d != 0.0
    ensures Square(d) > 0.0
  {
    var a := if d < 0.0 then -d else d;
    SquareGap(a, 0.0);
    assert Square(d) == Square(a);
  }

  lemma SquareGap(a: real, b: real)
    requires a > b >= 0.0
    ensures Square(a) > Square(b)
  {
    var d, t := a - b, a + b;
    assert d * t > 0.0;
    assert Square(a) - Square(b) == d * t;
  }

  /** `Math.abs`. */
  function Abs(r: real): real {
    if r < 0.0 then -r else r
  }

  /** The numbers of `cells` that parse, in order: the map-then-filter of `getColumnData`. */
  function NumbersOf(cells: seq<Cell>): (r: seq<real>)
    ensures |r| <= |cells|
  {
    if cells == [] then []
    else
      NumbersOf(cells[..|cells| - 1]) +
      match ParseNum(cells[|cells| - 1]) case Some(v) => [v] case None => []
  }

  /** The extracted numbers are exactly the values of the cells that parse. */
  lemma NumbersOfMember(cells: seq<Cell>, x: real)
    ensures x in NumbersOf(cells) <==> exists j :: 0 <= j < |cells| && ParseNum(cells[j]) == Some(x)
  {
    if x in NumbersOf(cells) {
      NumbersOfSound(cells, x);
    }
    if exists j :: 0 <= j < |cells| && ParseNum(cells[j]) == Some(x) {
      var j :| 0 <= j < |cells| && ParseNum(cells[j]) == Some(x);
      NumbersOfComplete(cells, j, x);
    }
  }

  lemma {:induction false} NumbersOfSound(cells: seq<Cell>, x: real)
    requires x in NumbersOf(cells)
    ensures exists j :: 0 <= j < |cells| && ParseNum(cells[j]) == Some(x)
  {
    var front := cells[..|cells| - 1];
    if x in NumbersOf(front) {
      NumbersOfSound(front, x);
      var j :| 0 <= j < |front| && ParseNum(front[j]) == Some(x);
      assert cells[j] == front[j];
    } else {
      assert ParseNum(cells[|cells| - 1]) == Some(x);
    }
  }

  lemma {:induction false} NumbersOfComplete(cells: seq<Cell>, j: nat, x: real)
    requires j < |cells| && ParseNum(cells[j]) == Some(x)
    ensures x in NumbersOf(cells)
  {
    var front := cells[..|cells| - 1];
    if j < |front| {
      assert front[j] == cells[j];
      NumbersOfComplete(front, j, x);
    }
  }

  /** A column whose cells all parse loses none of them. */
  lemma {:induction false} NumbersOfAllNumeric(cells: seq<Cell>)
    requires forall j :: 0 <= j < |cells| ==> IsNumeric(cells[j])
    ensures |NumbersOf(cells)| == |cells|
  {
    if cells != [] {
      var front := cells[..|cells| - 1];
      assert forall j :: 0 <= j < |front| ==> front[j] == cells[j];
      NumbersOfAllNumeric(front);
    }
  }

  /** Column `i` of the data rows (the header row excluded). */
  function ColumnCells(data: seq<Row>, i: int): (r: seq<Cell>)
    ensures |data| > 0 ==> |r| == |data| - 1
    ensures |data| > 0 ==> forall k :: 0 <= k < |r| ==> r[k] == CellAt(data[k + 1], i)
  {
    if |data| == 0 then [] else seq(|data| - 1, k requires 0 <= k < |data| - 1 => CellAt(data[k + 1], i))
  }

  /** `getColumnData(i)`: the numeric values of column `i` below the header. Reading the type of a column with
      no entry throws a `TypeError` once there is a data row to map; with no data row nothing is read. */
  function GetColumnData(data: seq<Row>, cols: seq<Column>, i: int): (r: Result<seq<real>>)
    ensures r.Err? <==> |data| > 1 && !(0 <= i < |cols|)
    ensures r.Ok? ==> |r.value| <= if |data| > 0 then |data| - 1 else 0
  {
    if |data| > 1 && !(0 <= i < |cols|) then Err(Exception) else Ok(NumbersOf(ColumnCells(data, i)))
  }

  /** Every extracted value is a number parsed from column `i` of a data row, and every parseable cell of that
      column below the header is extracted. */
  lemma GetColumnDataValues(data: seq<Row>, cols: seq<Column>, i: int)
    requires GetColumnData(data, cols, i).Ok?
    ensures forall x :: x in GetColumnData(data, cols, i).value <==>
      exists k :: 1 <= k < |data| && ParseNum(CellAt(data[k], i)) == Some(x)
  {
    var cells := ColumnCells(data, i);
    forall x ensures x in NumbersOf(cells) <==> exists k :: 1 <= k < |data| && ParseNum(CellAt(data[k], i)) == Some(x) {
      NumbersOfMember(cells, x);
      if exists k :: 1 <= k < |data| && ParseNum(CellAt(data[k], i)) == Some(x) {
        var k :| 1 <= k < |data| && ParseNum(CellAt(data[k], i)) == Some(x);
        assert cells[k - 1] == CellAt(data[k], i);
      }
      if x in NumbersOf(cells) {
        var j :| 0 <= j < |cells| && ParseNum(cells[j]) == Some(x);
        assert cells[j] == CellAt(data[j + 1], i);
      }
    }
  }

  /** `Math.min(xs.length, ys.length)`. */
  function MinLength(xs: seq<real>, ys: seq<real>): nat {
    if |xs| < |ys| then |xs| else |ys|
  }
}
