/** Column metadata derived from a table: each column is a number column or a text column, decided
    from a sample of its first data rows. The filter and the analyzer both type their columns this way. */
module Columns {
  import opened Cells

  datatype ColumnType = Number | Text

  /** An entry of the `columns` list: position, header cell and inferred type. */
  datatype Column = Column(index: nat, name: Cell, kind: ColumnType)

  /** The cells of column `i` in the sampled data rows 1..5 (`data.slice(1, 6)`). */
  function Sample(data: seq<Row>, i: int): (r: seq<Cell>)
    ensures |r| == if |data| <= 1 then 0 else if |data| < 6 then |data| - 1 else 5
  {
    var rows := if |data| <= 1 then [] else data[1..if |data| < 6 then |data| else 6];
    seq(|rows|, k requires 0 <= k < |rows| => CellAt(rows[k], i))
  }

  /** How many of `cells` hold a number. */
  function NumericCount(cells: seq<Cell>): (n: nat)
    ensures n <= |cells|
  {
    if cells == [] then 0 else (if IsNumeric(cells[0]) then 1 else 0) + NumericCount(cells[1..])
  }

  /** `detectColumnType`: text when there is no data row; otherwise number when at least 70% of the
      sampled cells hold a number. */
  function DetectColumnType(data: seq<Row>, i: int): ColumnType {
    if |data| < 2 then Text
    else
      var sample := Sample(data, i);
      if NumericCount(sample) as real >= |sample| as real * 0.7 then Number else Text
  }

  /** The 70% rule in whole numbers: with at least one data row, a column is a number column
      exactly when ten times its numeric sample count reaches seven times the sample size. */
  lemma DetectColumnTypeRule(data: seq<Row>, i: int)
    ensures |data| < 2 ==> DetectColumnType(data, i) == Text
    ensures |data| >= 2 ==>
      (DetectColumnType(data, i) == Number <==> 10 * NumericCount(Sample(data, i)) >= 7 * |Sample(data, i)|)
  {
  }

  /** Only the header and the first five data rows decide a column's type. */
  lemma DetectColumnTypeSamplesSixRows(data: seq<Row>, i: int)
    ensures DetectColumnType(data, i) == DetectColumnType(data[..if |data| < 6 then |data| else 6], i)
  {
    var front := data[..if |data| < 6 then |data| else 6];
    assert Sample(data, i) == Sample(front, i);
  }

  /** A one-cell sample is typed by that cell alone; with five sampled cells, four numeric ones suffice and three do not. */
  lemma DetectColumnTypeThresholds(data: seq<Row>, i: int)
    requires |data| >= 2
    ensures |Sample(data, i)| == 1 ==> (DetectColumnType(data, i) == Number <==> IsNumeric(CellAt(data[1], i)))
    ensures |Sample(data, i)| == 5 ==> (DetectColumnType(data, i) == Number <==> NumericCount(Sample(data, i)) >= 4)
  {
    var sample := Sample(data, i);
    if |sample| == 1 {
      assert sample[0] == CellAt(data[1], i);
      assert NumericCount(sample) == (if IsNumeric(sample[0]) then 1 else 0) + NumericCount(sample[1..]);
    }
  }

  /** `updateColumns`: one entry per header cell, typed from the data. */
  function ColumnsOf(data: seq<Row>): (cols: seq<Column>)
    requires |data| > 0
    ensures |cols| == |data[0]|
    ensures forall i :: 0 <= i < |cols| ==> cols[i] == Column(i, data[0][i], DetectColumnType(data, i))
  {
    seq(|data[0]|, i requires 0 <= i < |data[0]| => Column(i, data[0][i], DetectColumnType(data, i)))
  }

  /** `columns[i]?.type || 'text'`: the type of column `i`, and text for an index with no entry. */
  function TypeAt(cols: seq<Column>, i: int): (t: ColumnType)
    ensures !(0 <= i < |cols|) ==> t == Text
  {
    if 0 <= i < |cols| then cols[i].kind else Text
  }

  /** After `updateColumns`, the type a condition on column `i` is compared by is the type detected for that
      column, and text for an index past the header. */
  lemma ColumnsOfTypes(data: seq<Row>, i: int)
    requires |data| > 0
    ensures TypeAt(ColumnsOf(data), i) == if 0 <= i < |data[0]| then DetectColumnType(data, i) else Text
  {
  }
}
