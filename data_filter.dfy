/** The table filter engine (`DataFilter` in js/data-filter.js): typed conditions on single columns,
    combined with AND or OR over the data rows, and top-N / bottom-N limiting by a sort column.
    The values the page's controls supply (the AND/OR choice, the limit mode, the count and the sort
    column) are parameters here. */
module DataFilter {
  import opened Cells
  import opened Columns
  import opened Seqs
  import opened Sorting

  /** Comparison operators: the first six for number columns, the rest for text columns. */
  datatype Operator =
    | Eq | Ne | Gt | Gte | Lt | Lte
    | Contains | NotContains | Equals | NotEquals | StartsWith | EndsWith | IsEmpty | NotEmpty

  /** One filter condition. `id` is the number in the element id `condition_<id>`. */
  datatype Condition = Condition(id: nat, column: nat, op: Operator, value: string)

  /** How conditions combine; the page offers 'and' and 'or', and anything but 'and' combines with OR. */
  datatype Logic = And | Or

  /** The limit mode: 'all', 'top' or 'bottom'. */
  datatype LimitType = All | Top | Bottom

  /** `getOperatorsForType`: the operators offered for a column of type `t`, in menu order. */
  function OperatorsFor(t: ColumnType): (ops: seq<Operator>)
    ensures |ops| > 0
  {
    if t == Number then [Eq, Ne, Gt, Gte, Lt, Lte]
    else [Contains, NotContains, Equals, NotEquals, StartsWith, EndsWith, IsEmpty, NotEmpty]
  }

  /** The number operators and the text operators are disjoint, and every operator belongs to one of them. */
  lemma OperatorsPartition(op: Operator)
    ensures op in OperatorsFor(Number) <==> op !in OperatorsFor(Text)
  {
  }

  /** `empty` and `not_empty` are the operators that take no value. */
  predicate NeedsValue(op: Operator) {
    op != IsEmpty && op != NotEmpty
  }

  /** The value-clearing rule of `updateValueInput`: an operator that takes no value clears the condition's value. */
  function ClearUnneededValue(c: Condition): (r: Condition)
    ensures r.id == c.id && r.column == c.column && r.op == c.op
    ensures !NeedsValue(c.op) ==> r.value == ""
    ensures NeedsValue(c.op) ==> r == c
  {
    if NeedsValue(c.op) then c else c.(value := "")
  }

  /** A number operator applied to a parsed cell value `x` and a parsed condition value `v`. */
  function CompareNumbers(op: Operator, x: real, v: real): bool {
    match op
    case Eq => x == v
    case Ne => x != v
    case Gt => x > v
    case Gte => x >= v
    case Lt => x < v
    case Lte => x <= v
    case _ => false
  }

  /** A text operator applied to the lower-cased cell text `s` and the lower-cased condition value `v`. */
  function CompareText(op: Operator, s: string, v: string): bool {
    match op
    case Contains => Includes(s, v)
    case NotContains => !Includes(s, v)
    case Equals => s == v
    case NotEquals => s != v
    case StartsWith => HasPrefix(s, v)
    case EndsWith => HasSuffix(s, v)
    case IsEmpty => s == ""
    case NotEmpty => s != ""
    case _ => false
  }

  /** `evaluateCondition`: whether `row` satisfies `c`, with the column typed by `cols`. A number condition is
      false when the cell or the value does not parse; a text condition compares lower-cased text, reading an
      absent or falsy cell as `''`. An operator of the other type is false. */
  function EvaluateCondition(row: Row, c: Condition, cols: seq<Column>): bool {
    var cell := CellAt(row, c.column);
    if TypeAt(cols, c.column) == Number then
      match (ParseNum(cell), ParseDecimal(c.value))
      case (Some(x), Some(v)) => CompareNumbers(c.op, x, v)
      case _ => false
    else CompareText(c.op, Lower(CellText(cell)), Lower(c.value))
  }

  /** A number condition fails closed: when the cell or the value does not parse, no operator holds. */
  lemma NumberConditionFailsClosed(row: Row, c: Condition, cols: seq<Column>)
    requires TypeAt(cols, c.column) == Number
    requires ParseNum(CellAt(row, c.column)).None? || ParseDecimal(c.value).None?
    ensures !EvaluateCondition(row, c, cols)
  {
  }

  /** On parsed numbers the operators pair up as complements; unparsed, both members of a pair are false. */
  lemma NumberComplements(row: Row, c: Condition, cols: seq<Column>)
    requires TypeAt(cols, c.column) == Number
    ensures ParseNum(CellAt(row, c.column)).Some? && ParseDecimal(c.value).Some? ==>
      && EvaluateCondition(row, c.(op := Ne), cols) == !EvaluateCondition(row, c.(op := Eq), cols)
      && EvaluateCondition(row, c.(op := Lte), cols) == !EvaluateCondition(row, c.(op := Gt), cols)
      && EvaluateCondition(row, c.(op := Gte), cols) == !EvaluateCondition(row, c.(op := Lt), cols)
    ensures ParseNum(CellAt(row, c.column)).None? ==>
      !EvaluateCondition(row, c.(op := Ne), cols) && !EvaluateCondition(row, c.(op := Eq), cols)
  {
    match (ParseNum(CellAt(row, c.column)), ParseDecimal(c.value))
    case (Some(x), Some(v)) =>
      assert EvaluateCondition(row, c.(op := Ne), cols) == (x != v);
      assert EvaluateCondition(row, c.(op := Eq), cols) == (x == v);
      assert EvaluateCondition(row, c.(op := Lte), cols) == (x <= v);
      assert EvaluateCondition(row, c.(op := Gt), cols) == (x > v);
      assert EvaluateCondition(row, c.(op := Gte), cols) == (x >= v);
      assert EvaluateCondition(row, c.(op := Lt), cols) == (x < v);
    case _ =>
  }

  /** An operator that the column's type does not offer never holds. */
  lemma ForeignOperatorIsFalse(row: Row, c: Condition, cols: seq<Column>)
    requires c.op !in OperatorsFor(TypeAt(cols, c.column))
    ensures !EvaluateCondition(row, c, cols)
  {
    if TypeAt(cols, c.column) == Number {
      assert !c.op.Eq? && !c.op.Ne? && !c.op.Gt? && !c.op.Gte? && !c.op.Lt? && !c.op.Lte?;
      assert forall x, v :: !CompareNumbers(c.op, x, v);
    } else {
      assert c.op.Eq? || c.op.Ne? || c.op.Gt? || c.op.Gte? || c.op.Lt? || c.op.Lte?;
    }
  }

  /** On a text column, `not_contains` and `not_equals` are the exact complements of `contains` and `equals`. */
  lemma TextComplements(row: Row, c: Condition, cols: seq<Column>)
    requires TypeAt(cols, c.column) == Text
    ensures EvaluateCondition(row, c.(op := NotContains), cols) == !EvaluateCondition(row, c.(op := Contains), cols)
    ensures EvaluateCondition(row, c.(op := NotEquals), cols) == !EvaluateCondition(row, c.(op := Equals), cols)
    ensures EvaluateCondition(row, c.(op := NotEmpty), cols) == !EvaluateCondition(row, c.(op := IsEmpty), cols)
  {
  }

  /** Text conditions ignore case: two cells whose texts agree up to case, compared with two values that agree
      up to case, get the same verdict from every operator. */
  lemma TextIgnoresCase(row1: Row, row2: Row, c1: Condition, c2: Condition, cols: seq<Column>)
    requires c1.column == c2.column && c1.op == c2.op
    requires TypeAt(cols, c1.column) == Text
    requires Lower(CellText(CellAt(row1, c1.column))) == Lower(CellText(CellAt(row2, c1.column)))
    requires Lower(c1.value) == Lower(c2.value)
    ensures EvaluateCondition(row1, c1, cols) == EvaluateCondition(row2, c2, cols)
  {
  }

  /** Case folding reaches past ASCII: `Ä` equals `ä`, but not `a`. */
  lemma TextFoldsAccents()
    ensures var cols := [Column(0, Str("name"), Text)];
      && EvaluateCondition([Str("\U{00C4}")], Condition(0, 0, Equals, "\U{00E4}"), cols)
      && !EvaluateCondition([Str("\U{00C4}")], Condition(0, 0, Equals, "a"), cols)
  {
    assert Lower("\U{00C4}") == "\U{00E4}" == Lower("\U{00E4}");
    assert Lower("a") == "a";
  }

  /** Full-width text folds too: `ＡＢＣ` contains `ａ`. */
  lemma TextFoldsFullWidth()
    ensures EvaluateCondition([Str("\U{FF21}\U{FF22}\U{FF23}")], Condition(0, 0, Contains, "\U{FF41}"), [Column(0, Str("name"), Text)])
  {
    var full := "\U{FF21}\U{FF22}\U{FF23}";
    assert Lower(full) == "\U{FF41}\U{FF42}\U{FF43}";
    assert Lower("\U{FF41}") == "\U{FF41}";
    assert HasPrefix(Lower(full), "\U{FF41}");
  }

  /** A cell beyond the end of the row is the empty text: `empty` holds of it on a text column. */
  lemma AbsentCellIsEmptyText(row: Row, c: Condition, cols: seq<Column>)
    requires TypeAt(cols, c.column) == Text && c.column >= |row|
    ensures EvaluateCondition(row, c.(op := IsEmpty), cols)
    ensures !EvaluateCondition(row, c.(op := NotEmpty), cols)
  {
  }

  /** A column index with no entry in `cols` is compared as text. */
  lemma UntypedColumnIsText(row: Row, c: Condition, cols: seq<Column>)
    requires c.column >= |cols|
    ensures EvaluateCondition(row, c, cols) == EvaluateCondition(row, c, [])
    ensures EvaluateCondition(row, c.(op := Eq), cols) == false
  {
  }

  /** `empty` and `not_empty` do not look at the condition's value, so clearing it changes no verdict. */
  lemma ClearingKeepsVerdict(row: Row, c: Condition, cols: seq<Column>, v: string)
    requires !NeedsValue(c.op)
    ensures EvaluateCondition(row, c, cols) == EvaluateCondition(row, c.(value := v), cols)
    ensures EvaluateCondition(row, ClearUnneededValue(c), cols) == EvaluateCondition(row, c, cols)
  {
    var c1, c2 := c.(value := v), ClearUnneededValue(c);
    assert c1.op == c2.op == c.op && c1.column == c2.column == c.column;
    if TypeAt(cols, c.column) == Number {
      assert forall x, w :: !CompareNumbers(c.op, x, w);
    } else {
      var s := Lower(CellText(CellAt(row, c.column)));
      assert forall w :: CompareText(c.op, s, w) == (if c.op == IsEmpty then s == "" else s != "");
    }
  }

  /** A row passes a condition list: every condition under AND, some condition under OR. */
  predicate RowMatches(row: Row, conds: seq<Condition>, cols: seq<Column>, logic: Logic) {
    if logic == And then forall i :: 0 <= i < |conds| ==> EvaluateCondition(row, conds[i], cols)
    else exists i :: 0 <= i < |conds| && EvaluateCondition(row, conds[i], cols)
  }

  /** `data[0]`; the empty row stands for the `undefined` header of an empty table. */
  function Header(data: seq<Row>): Row {
    if |data| > 0 then data[0] else []
  }

  /** `data.slice(1)`. */
  function DataRows(data: seq<Row>): (rows: seq<Row>)
    ensures |data| > 0 ==> rows == data[1..]
    ensures |data| == 0 ==> rows == []
  {
    if |data| > 0 then data[1..] else []
  }

  /** What `applyFilter` makes of `original`: a copy when there are no conditions, otherwise the header
      followed by the data rows that match. */
  function FilterTable(original: seq<Row>, conds: seq<Condition>, cols: seq<Column>, logic: Logic): seq<Row> {
    if |conds| == 0 then original
    else [Header(original)] + Keep(DataRows(original), row => RowMatches(row, conds, cols, logic))
  }

  /** The filtered table: the original with no conditions; otherwise the original header in front of the
      matching data rows, in their original order, each kept as often as it occurs when it matches. */
  lemma {:induction false} FilterTableSpec(original: seq<Row>, conds: seq<Condition>, cols: seq<Column>, logic: Logic)
    ensures |conds| == 0 ==> FilterTable(original, conds, cols, logic) == original
    ensures |conds| > 0 ==>
      var r := FilterTable(original, conds, cols, logic);
      && |r| >= 1 && r[0] == Header(original)
      && IsSubsequence(r[1..], DataRows(original))
      && (forall row :: row in r[1..] <==> row in DataRows(original) && RowMatches(row, conds, cols, logic))
      && (forall row :: multiset(r[1..])[row] ==
            if RowMatches(row, conds, cols, logic) then multiset(DataRows(original))[row] else 0)
  {
    if |conds| > 0 {
      var p := row => RowMatches(row, conds, cols, logic);
      var r := FilterTable(original, conds, cols, logic);
      assert r[1..] == Keep(DataRows(original), p);
      KeepIsSubsequence(DataRows(original), p);
      forall row ensures multiset(r[1..])[row] ==
        if RowMatches(row, conds, cols, logic) then multiset(DataRows(original))[row] else 0
      {
        KeepMultiplicity(DataRows(original), p, row);
      }
    }
  }

  /** Filtering a filtered table again with the same conditions, types and logic changes nothing. */
  lemma {:induction false} FilterTableIdempotent(original: seq<Row>, conds: seq<Condition>, cols: seq<Column>, logic: Logic)
    ensures FilterTable(FilterTable(original, conds, cols, logic), conds, cols, logic) == FilterTable(original, conds, cols, logic)
  {
    if |conds| > 0 {
      var p := row => RowMatches(row, conds, cols, logic);
      var once := FilterTable(original, conds, cols, logic);
      assert DataRows(once) == Keep(DataRows(original), p);
      KeepIdempotent(DataRows(original), p);
    }
  }

  /** The descending order `applyLimit` sorts by, as "may come first": on a number column by parsed value,
      larger first, with unparsable cells last; on a text column by the cell text, larger first. */
  function DescendingBy(col: int, t: ColumnType): (Row, Row) -> bool {
    (a: Row, b: Row) =>
      if t == Number then
        match (ParseNum(CellAt(a, col)), ParseNum(CellAt(b, col)))
        case (Some(x), Some(y)) => x >= y
        case (Some(_), None) => true
        case (None, Some(_)) => false
        case (None, None) => true
      else StrLeq(CellText(CellAt(b, col)), CellText(CellAt(a, col)))
  }

  /** The reverse order: "`a` may come first" in ascending order. */
  function AscendingBy(col: int, t: ColumnType): (Row, Row) -> bool {
    (a: Row, b: Row) => DescendingBy(col, t)(b, a)
  }

  /** The sort order is one a comparator can describe, so a stable sort by it is well defined. */
  lemma DescendingIsTotalPreorder(col: int, t: ColumnType)
    ensures TotalPreorder(DescendingBy(col, t))
  {
    var before := DescendingBy(col, t);
    forall x: Row, y: Row ensures before(x, y) || before(y, x) {
      StrLeqTotal(CellText(CellAt(x, col)), CellText(CellAt(y, col)));
    }
    forall x: Row, y: Row, z: Row | before(x, y) && before(y, z) ensures before(x, z) {
      if t == Text {
        StrLeqTransitive(CellText(CellAt(z, col)), CellText(CellAt(y, col)), CellText(CellAt(x, col)));
      }
    }
  }

  /** The data rows of `table` in the order `applyLimit` lists them before truncating. */
  function LimitOrder(table: seq<Row>, limit: LimitType, col: int, t: ColumnType): seq<Row> {
    var sorted := SortBy(DataRows(table), DescendingBy(col, t));
    if limit == Bottom then Reverse(sorted) else sorted
  }

  /** What `applyLimit` returns for `table`: the table itself for 'all' or when there are no data rows;
      otherwise the header and the first `count` data rows in limit order (JavaScript `slice(0, count)`). */
  function LimitRows(table: seq<Row>, limit: LimitType, count: int, col: int, t: ColumnType): seq<Row> {
    if limit == All || |table| <= 1 then table
    else
      var ordered := LimitOrder(table, limit, col, t);
      [table[0]] + ordered[..SliceEnd(count, |ordered|)]
  }

  /** Limiting keeps the header, keeps at most `count` data rows (exactly `count` when there are enough),
      and takes them from the table's own data rows without adding any. */
  lemma LimitRowsShape(table: seq<Row>, limit: LimitType, count: int, col: int, t: ColumnType)
    ensures limit == All || |table| <= 1 ==> LimitRows(table, limit, count, col, t) == table
    ensures limit != All && |table| > 1 ==>
      var r := LimitRows(table, limit, count, col, t);
      && |r| >= 1 && r[0] == table[0]
      && (count >= 0 ==> |r| - 1 == if count < |table| - 1 then count else |table| - 1)
      && multiset(r[1..]) <= multiset(table[1..])
  {
    if limit != All && |table| > 1 {
      var ordered := LimitOrder(table, limit, col, t);
      var m := SliceEnd(count, |ordered|);
      LimitOrderMultiset(table, limit, col, t);
      var r := LimitRows(table, limit, count, col, t);
      assert r == [table[0]] + ordered[..m];
      assert r[1..] == ordered[..m];
      PrefixSubMultiset(ordered, m);
    }
  }

  /** A negative `count` (`slice(0, -k)`) drops the last `k` rows of the limit order, and keeps none when there
      are no more than `k`. */
  lemma LimitRowsNegativeCount(table: seq<Row>, limit: LimitType, count: int, col: int, t: ColumnType)
    requires limit != All && |table| > 1 && count < 0
    ensures var kept := LimitRows(table, limit, count, col, t)[1..];
      && |kept| == (if |table| - 1 + count > 0 then |table| - 1 + count else 0)
      && kept == LimitOrder(table, limit, col, t)[..|kept|]
  {
    var ordered := LimitOrder(table, limit, col, t);
    LimitOrderMultiset(table, limit, col, t);
    var m := SliceEnd(count, |ordered|);
    assert LimitRows(table, limit, count, col, t)[1..] == ordered[..m];
  }

  lemma PrefixSubMultiset<T>(s: seq<T>, m: nat)
    requires m <= |s|
    ensures multiset(s[..m]) <= multiset(s)
  {
    assert s == s[..m] + s[m..];
  }

  /** The limit order holds exactly the data rows. */
  lemma LimitOrderMultiset(table: seq<Row>, limit: LimitType, col: int, t: ColumnType)
    requires |table| > 0
    ensures multiset(LimitOrder(table, limit, col, t)) == multiset(table[1..])
    ensures |LimitOrder(table, limit, col, t)| == |table| - 1
  {
    var sorted := SortBy(DataRows(table), DescendingBy(col, t));
    SortByMultiset(DataRows(table), DescendingBy(col, t));
    ReverseMultiset(sorted);
    assert |multiset(sorted)| == |sorted|;
  }

  /** 'top' lists the kept rows in descending order and 'bottom' in ascending order. */
  lemma LimitRowsSorted(table: seq<Row>, limit: LimitType, count: int, col: int, t: ColumnType)
    requires limit != All && |table| > 1
    ensures limit == Top ==> SortedBy(LimitRows(table, limit, count, col, t)[1..], DescendingBy(col, t))
    ensures limit == Bottom ==> SortedBy(LimitRows(table, limit, count, col, t)[1..], AscendingBy(col, t))
  {
    var ordered := LimitOrder(table, limit, col, t);
    var m := SliceEnd(count, |ordered|);
    assert LimitRows(table, limit, count, col, t)[1..] == ordered[..m];
    LimitOrderSorted(table, limit, col, t);
    assert DataRows(table) == table[1..];
    assert multiset(table[1..]) == multiset(ordered);
    if limit == Top {
      SortedPrefix(ordered, m, DescendingBy(col, t));
    } else {
      SortedPrefix(ordered, m, AscendingBy(col, t));
    }
  }

  /** The limit order sorts the data rows: descending for 'top', ascending for 'bottom', without adding or
      losing any row. */
  lemma LimitOrderSorted(table: seq<Row>, limit: LimitType, col: int, t: ColumnType)
    requires limit != All
    ensures multiset(LimitOrder(table, limit, col, t)) == multiset(DataRows(table))
    ensures limit == Top ==> SortedBy(LimitOrder(table, limit, col, t), DescendingBy(col, t))
    ensures limit == Bottom ==> SortedBy(LimitOrder(table, limit, col, t), AscendingBy(col, t))
  {
    var before := DescendingBy(col, t);
    var sorted := SortBy(DataRows(table), before);
    DescendingIsTotalPreorder(col, t);
    SortBySorted(DataRows(table), before);
    SortByMultiset(DataRows(table), before);
    if limit == Bottom {
      ReverseMultiset(sorted);
      ReverseSorted(sorted, before, AscendingBy(col, t));
    }
  }

  /** 'top' keeps rows that may come before every row it drops (the N largest); 'bottom' keeps rows that every
      dropped row may come before (the N smallest). */
  lemma LimitRowsExtremes(table: seq<Row>, limit: LimitType, count: int, col: int, t: ColumnType)
    requires limit != All && |table| > 1
    ensures var kept := LimitRows(table, limit, count, col, t)[1..];
      forall k, d :: k in kept && d in multiset(table[1..]) - multiset(kept) ==>
        if limit == Top then DescendingBy(col, t)(k, d) else DescendingBy(col, t)(d, k)
  {
    var ordered := LimitOrder(table, limit, col, t);
    var m := SliceEnd(count, |ordered|);
    var kept := LimitRows(table, limit, count, col, t)[1..];
    assert kept == ordered[..m];
    LimitOrderSorted(table, limit, col, t);
    assert DataRows(table) == table[1..];
    var before := if limit == Top then DescendingBy(col, t) else AscendingBy(col, t);
    PrefixPrecedesRest(ordered, m, before, table[1..]);
  }

  /** A sorted sequence's prefix precedes every element of the same rows that the prefix leaves out. */
  lemma PrefixPrecedesRest(s: seq<Row>, m: nat, before: (Row, Row) -> bool, rows: seq<Row>)
    requires SortedBy(s, before) && m <= |s| && multiset(rows) == multiset(s)
    ensures forall k, d :: k in s[..m] && d in multiset(rows) - multiset(s[..m]) ==> before(k, d)
  {
    SortedPrefixPrecedes(s, m, before);
  }

  /** The filter's state: the condition list, the id counter, the column types and the two tables. */
  class Filter {
    var conditions: seq<Condition>
    var conditionCounter: nat
    var columns: seq<Column>
    var originalData: seq<Row>
    var filteredData: seq<Row>

    /** Every condition id was handed out by the counter, and no two conditions share an id. */
    ghost predicate Valid()
      reads this
    {
      && (forall i :: 0 <= i < |conditions| ==> conditions[i].id < conditionCounter)
      && DistinctIds(conditions)
    }

    constructor ()
      ensures Valid()
      ensures conditions == [] && conditionCounter == 0 && columns == []
      ensures originalData == [] && filteredData == []
    {
      conditions := [];
      conditionCounter := 0;
      columns := [];
      originalData := [];
      filteredData := [];
    }

    /** `setData`: both tables become `data`; the column list is rebuilt unless `data` is empty. */
    method SetData(data: seq<Row>)
      modifies this
      ensures originalData == data && filteredData == data
      ensures columns == if |data| > 0 then ColumnsOf(data) else old(columns)
      ensures conditions == old(conditions) && conditionCounter == old(conditionCounter)
    {
      originalData := data;
      filteredData := data;
      if |data| > 0 {
        columns := ColumnsOf(data);
      }
    }

    /** `addCondition`: appends a `contains` condition on column 0 with an empty value, under a fresh id. */
    method AddCondition() returns (id: nat)
      requires Valid()
      modifies this
      ensures Valid()
      ensures id == old(conditionCounter) && conditionCounter == old(conditionCounter) + 1
      ensures conditions == old(conditions) + [Condition(id, 0, Contains, "")]
      ensures forall i :: 0 <= i < |old(conditions)| ==> old(conditions)[i].id != id
      ensures columns == old(columns) && originalData == old(originalData) && filteredData == old(filteredData)
    {
      id := conditionCounter;
      conditionCounter := conditionCounter + 1;
      conditions := conditions + [Condition(id, 0, Contains, "")];
      assert forall i :: 0 <= i < |old(conditions)| ==> conditions[i] == old(conditions)[i];
    }

    /** `removeCondition`: drops the conditions with this id and keeps the others in order. */
    method RemoveCondition(id: nat)
      requires Valid()
      modifies this`conditions
      ensures Valid()
      ensures conditions == Keep(old(conditions), (c: Condition) => c.id != id)
      ensures forall c :: c in conditions <==> c in old(conditions) && c.id != id
    {
      conditions := Keep(conditions, (c: Condition) => c.id != id);
      KeepIsSubsequence(old(conditions), (c: Condition) => c.id != id);
      SubsequenceKeepsValid(conditions, old(conditions));
      assert forall c :: c in old(conditions) ==> c.id < conditionCounter;
    }

    /** The change handler of a condition's operator menu: set the operator, then apply the value-clearing rule. */
    method SetOperator(id: nat, op: Operator)
      requires Valid()
      modifies this`conditions
      ensures Valid()
      ensures |conditions| == |old(conditions)|
      ensures forall i :: 0 <= i < |conditions| ==>
        conditions[i] == (if old(conditions)[i].id == id then ClearUnneededValue(old(conditions)[i].(op := op)) else old(conditions)[i])
    {
      conditions := seq(|conditions|, i requires 0 <= i < |conditions| reads this =>
        if conditions[i].id == id then ClearUnneededValue(conditions[i].(op := op)) else conditions[i]);
    }

    /** The change handler of a condition's column menu: set the column and reset the operator to the first one
        the new column's type offers (`updateOperatorSelect`); that operator takes a value, so the value stays. */
    method SetColumn(id: nat, column: nat)
      requires Valid()
      modifies this`conditions
      ensures Valid()
      ensures |conditions| == |old(conditions)|
      ensures forall i :: 0 <= i < |conditions| ==>
        conditions[i] == (if old(conditions)[i].id == id
                          then old(conditions)[i].(column := column, op := OperatorsFor(TypeAt(columns, column))[0])
                          else old(conditions)[i])
    {
      var op := OperatorsFor(TypeAt(columns, column))[0];
      conditions := seq(|conditions|, i requires 0 <= i < |conditions| reads this =>
        if conditions[i].id == id then ClearUnneededValue(conditions[i].(column := column, op := op)) else conditions[i]);
    }

    /** The input handler of a condition's value field. */
    method SetValue(id: nat, value: string)
      requires Valid()
      modifies this`conditions
      ensures Valid()
      ensures |conditions| == |old(conditions)|
      ensures forall i :: 0 <= i < |conditions| ==>
        conditions[i] == (if old(conditions)[i].id == id then old(conditions)[i].(value := value) else old(conditions)[i])
    {
      conditions := seq(|conditions|, i requires 0 <= i < |conditions| reads this =>
        if conditions[i].id == id then conditions[i].(value := value) else conditions[i]);
    }

    /** `applyFilter`: recomputes the filtered table from the original table, never from the previous result,
        so calling it again with the same conditions and logic gives the same table. */
    method ApplyFilter(logic: Logic) returns (result: seq<Row>)
      modifies this`filteredData
      ensures filteredData == FilterTable(originalData, conditions, columns, logic)
      ensures result == filteredData
    {
      if |conditions| == 0 {
        filteredData := originalData;
        return filteredData;
      }
      var header := Header(originalData);
      var dataRows := DataRows(originalData);
      var conds, cols := conditions, columns;
      var filteredRows := Keep(dataRows, row => RowMatches(row, conds, cols, logic));
      filteredData := [header] + filteredRows;
      result := filteredData;
    }

    /** `applyLimit`: sorts a copy of the filtered data rows in place (descending, reversed for 'bottom') and
        returns the header with the first `count` of them; the filtered table itself is left as it is. */
    method ApplyLimit(limit: LimitType, count: int, sortColumn: int) returns (result: seq<Row>)
      ensures result == LimitRows(filteredData, limit, count, sortColumn, TypeAt(columns, sortColumn))
    {
      if limit == All {
        return filteredData;
      }
      var data := filteredData;
      if |data| <= 1 {
        return data;
      }
      var header := data[0];
      var t := TypeAt(columns, sortColumn);
      var rows := new Row[|data| - 1](i requires 0 <= i < |data| - 1 => data[i + 1]);
      assert rows[..] == DataRows(data);
      InsertionSort(rows, DescendingBy(sortColumn, t));
      if limit == Bottom {
        ReverseInPlace(rows);
      }
      result := [header] + rows[..SliceEnd(count, rows.Length)];
    }

    /** `reset`: no conditions, the counter back to 0, and the filtered table back to the original. */
    method Reset()
      modifies this`conditions, this`conditionCounter, this`filteredData
      ensures Valid()
      ensures conditions == [] && conditionCounter == 0 && filteredData == originalData
    {
      conditions := [];
      conditionCounter := 0;
      filteredData := originalData;
    }
  }

  /** No two conditions share an id. */
  ghost predicate DistinctIds(s: seq<Condition>) {
    forall i, j :: 0 <= i < j < |s| ==> s[i].id != s[j].id
  }

  lemma DistinctIdsTail(s: seq<Condition>)
    requires s != [] && DistinctIds(s)
    ensures DistinctIds(s[1..])
  {
    forall i, j | 0 <= i < j < |s| - 1 ensures s[1..][i].id != s[1..][j].id {
      assert s[1..][i] == s[i + 1] && s[1..][j] == s[j + 1];
    }
  }

  /** Removing conditions keeps ids distinct and below the counter. */
  lemma {:induction false} SubsequenceKeepsValid(kept: seq<Condition>, all: seq<Condition>)
    requires IsSubsequence(kept, all)
    ensures forall c :: c in kept ==> c in all
    ensures DistinctIds(all) ==> DistinctIds(kept)
    decreases |all|
  {
    if kept != [] {
      if kept[0] == all[0] && IsSubsequence(kept[1..], all[1..]) {
        SubsequenceKeepsValid(kept[1..], all[1..]);
        assert kept == [kept[0]] + kept[1..];
        assert all == [all[0]] + all[1..];
        if DistinctIds(all) {
          DistinctIdsTail(all);
          forall i, j | 0 <= i < j < |kept| ensures kept[i].id != kept[j].id {
            assert kept[j] == kept[1..][j - 1];
            assert kept[j] in kept[1..];
            if i == 0 {
              var k :| 0 <= k < |all[1..]| && all[1..][k] == kept[j];
              assert all[0].id != all[k + 1].id;
            } else {
              assert kept[1..][i - 1] == kept[i];
            }
          }
        }
      } else {
        SubsequenceKeepsValid(kept, all[1..]);
        assert all == [all[0]] + all[1..];
        if DistinctIds(all) {
          DistinctIdsTail(all);
        }
      }
    }
  }
}
