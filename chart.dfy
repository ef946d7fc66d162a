/** The chart base class (`Chart`, js/chart-base.js): a container id, the table to draw, and a drawing
    configuration merged from defaults and the caller's options. The class prepares data for drawing: it checks
    the table, drops the header and the blank rows, reads one column, and names a column by its header cell.
    Drawing itself is left to the chart kinds and is not part of this model. */
module ChartBase {
  import opened Cells
  import opened Seqs
  import Numeric

  /** The exceptions `validateData` throws, and the `TypeError` of reading the header of a missing table. */
  datatype ChartError = InvalidData | NoDataRows | MissingTable

  datatype Result<+T> = Ok(value: T) | Err(error: ChartError)

  /** The drawing configuration. */
  datatype ChartConfig = ChartConfig(title: string, xLabel: string, yLabel: string, colors: seq<string>)

  /** The options a caller passes; an option left out is `None`. */
  datatype ConfigOptions = ConfigOptions(
    title: Option<string>, xLabel: Option<string>, yLabel: Option<string>, colors: Option<seq<string>>)

  const NoOptions := ConfigOptions(None, None, None, None)

  /** The constructor's defaults: no title, no axis labels, and six colours. */
  const DefaultConfig := ChartConfig("", "", "", ["#FF6384", "#36A2EB", "#FFCE56", "#4BC0C0", "#9966FF", "#FF9F40"])

  function Pick<T>(option: Option<T>, default: T): T {
    if option.Some? then option.value else default
  }

  /** `{ ...defaults, ...options }`: each option given replaces its default. */
  function Merge(defaults: ChartConfig, options: ConfigOptions): ChartConfig {
    ChartConfig(
      Pick(options.title, defaults.title), Pick(options.xLabel, defaults.xLabel),
      Pick(options.yLabel, defaults.yLabel), Pick(options.colors, defaults.colors))
  }

  /** Field by field, the merged configuration holds the option when one is given and the default otherwise;
      merging no options gives the defaults back, and merging the same options again changes nothing. */
  lemma MergeFieldByField(defaults: ChartConfig, options: ConfigOptions)
    ensures var c := Merge(defaults, options);
      && (options.title.Some? ==> c.title == options.title.value) && (options.title.None? ==> c.title == defaults.title)
      && (options.xLabel.Some? ==> c.xLabel == options.xLabel.value) && (options.xLabel.None? ==> c.xLabel == defaults.xLabel)
      && (options.yLabel.Some? ==> c.yLabel == options.yLabel.value) && (options.yLabel.None? ==> c.yLabel == defaults.yLabel)
      && (options.colors.Some? ==> c.colors == options.colors.value) && (options.colors.None? ==> c.colors == defaults.colors)
    ensures Merge(defaults, NoOptions) == defaults
    ensures Merge(Merge(defaults, options), options) == Merge(defaults, options)
  {
  }

  /** A cell `validateData` counts as content: neither `null` nor `''`. */
  predicate Filled(c: Cell) {
    !c.Empty? && c != Str("")
  }

  /** `row.some(cell => cell !== null && cell !== '')`. */
  predicate HasContent(row: Row) {
    exists j :: 0 <= j < |row| && Filled(row[j])
  }

  /** `validateData`: a missing table or one with fewer than two rows is refused; otherwise the rows below the
      header that have some content. The second check of the code, for no rows below the header, can then
      never fire. */
  function ValidateData(data: Option<seq<Row>>): (r: Result<seq<Row>>)
    ensures r.Err? <==> data.None? || |data.value| < 2
    ensures r.Err? ==> r.error == InvalidData
    ensures r.Ok? ==> IsSubsequence(r.value, data.value[1..])
    ensures r.Ok? ==> forall row :: row in r.value <==> row in data.value[1..] && HasContent(row)
  {
    if data.None? || |data.value| < 2 then Err(InvalidData)
    else
      var rows := data.value[1..];
      if rows == [] then Err(NoDataRows)
      else
        KeepIsSubsequence(rows, HasContent);
        Ok(Keep(rows, HasContent))
  }

  /** Each row below the header is kept as many times as it occurs when it has content, and dropped otherwise. */
  lemma ValidateDataCounts(data: seq<Row>, row: Row)
    requires |data| >= 2
    ensures multiset(ValidateData(Some(data)).value)[row] == if HasContent(row) then multiset(data[1..])[row] else 0
  {
    KeepMultiplicity(data[1..], HasContent, row);
  }

  /** `row[i]` for each row, in order. */
  function ColumnOf(rows: seq<Row>, i: int): (r: seq<Cell>)
    ensures |r| == |rows|
    ensures forall k :: 0 <= k < |rows| ==> r[k] == CellAt(rows[k], i)
  {
    seq(|rows|, k requires 0 <= k < |rows| => CellAt(rows[k], i))
  }

  /** The chart and the analyser read the same column: the chart's cells of the rows below the header are the
      cells the analyser parses. */
  lemma ColumnOfMatchesAnalyzer(data: seq<Row>, i: int)
    requires |data| > 0
    ensures ColumnOf(data[1..], i) == Numeric.ColumnCells(data, i)
  {
  }

  /** The template literal `${n}` for any integer. */
  function IntToString(n: int): string {
    if n < 0 then "-" + NatToString(-n) else NatToString(n)
  }

  class Chart {
    var containerId: string
    var data: Option<seq<Row>>
    var config: ChartConfig

    /** The constructor: the options given override the defaults one field at a time. */
    constructor (id: string, table: Option<seq<Row>>, options: ConfigOptions)
      ensures containerId == id && data == table
      ensures config == Merge(DefaultConfig, options)
    {
      containerId := id;
      data := table;
      config := Merge(DefaultConfig, options);
    }

    /** `getColumnData(i, filteredData)`: column `i` of the rows given, or, when none are given, of the rows
        `validateData` returns, with its error when it refuses the table. */
    function GetColumnData(i: int, filteredData: Option<seq<Row>>): (r: Result<seq<Cell>>)
      reads this
      ensures filteredData.Some? ==> r.Ok? && r.value == ColumnOf(filteredData.value, i)
      ensures filteredData.None? ==> (r.Err? <==> data.None? || |data.value| < 2)
      ensures filteredData.None? && r.Ok? ==>
        |r.value| == |ValidateData(data).value| &&
        forall k :: 0 <= k < |r.value| ==> r.value[k] == CellAt(ValidateData(data).value[k], i)
    {
      if filteredData.Some? then Ok(ColumnOf(filteredData.value, i))
      else
        match ValidateData(data)
        case Err(e) => Err(e)
        case Ok(rows) => Ok(ColumnOf(rows, i))
    }

    /** `getColumnHeader(i)`: the header cell of column `i` when it is truthy, else the label `Column i+1`; a
        missing or empty table has no header row to read. The label is never blank. */
    function GetColumnHeader(i: int): (r: Result<Cell>)
      reads this
      ensures r.Err? <==> data.None? || |data.value| == 0
      ensures r.Ok? ==> Truthy(r.value)
      ensures r.Ok? && Truthy(CellAt(data.value[0], i)) ==> r.value == CellAt(data.value[0], i)
      ensures r.Ok? && !Truthy(CellAt(data.value[0], i)) ==> r.value == Str("Column " + IntToString(i + 1))
    {
      if data.None? || |data.value| == 0 then Err(MissingTable)
      else
        var header := CellAt(data.value[0], i);
        if Truthy(header) then Ok(header) else Ok(Str("Column " + IntToString(i + 1)))
    }

    /** `setTitle`: only the title changes, and the chart itself is returned. */
    method SetTitle(title: string) returns (self: Chart)
      modifies this
      ensures self == this
      ensures config == old(config).(title := title)
      ensures data == old(data) && containerId == old(containerId)
    {
      config := config.(title := title);
      self := this;
    }

    /** `setLabels`: only the two axis labels change, and the chart itself is returned. */
    method SetLabels(xLabel: string, yLabel: string) returns (self: Chart)
      modifies this
      ensures self == this
      ensures config == old(config).(xLabel := xLabel, yLabel := yLabel)
      ensures data == old(data) && containerId == old(containerId)
    {
      config := config.(xLabel := xLabel, yLabel := yLabel);
      self := this;
    }

    /** `setColors`: only the colours change, and the chart itself is returned. */
    method SetColors(colors: seq<string>) returns (self: Chart)
      modifies this
      ensures self == this
      ensures config == old(config).(colors := colors)
      ensures data == old(data) && containerId == old(containerId)
    {
      config := config.(colors := colors);
      self := this;
    }
  }
}
