/**
 * The report runner: a queued report request is read back, its filters
 * select the item IDs, its columns are filled, and the result is either
 * returned as a table or written as a workbook.
 */
module Reports {
  import opened Text
  import opened Values
  import opened Sorting
  import opened ReportFilters
  import opened ReportColumns
  import opened ReportExcel

  /** What the filter step reads from the database: every item ID, and each filter query's result. */
  datatype Database = Database(items: seq<int>, results: Query -> seq<int>)

  /**
   * A report answer: the JSON table, or a workbook whose title sits in A1
   * merged over the range `merged`, whose header fills row 3 and whose
   * cells fill the rows from row 4 on.
   */
  datatype Response =
    | Table(status: string, title: Value, columns: seq<string>, rows: seq<seq<Value>>)
    | Workbook(filename: string, title: Value, merged: string, header: seq<string>, cells: seq<seq<Cell>>)

  /** The requested column names, in order; anything but a list requests none. */
  function ColumnNames(v: Value): (names: seq<string>)
    ensures v.List? ==> |names| == |v.items|
  {
    if v.List? then seq(|v.items|, i requires 0 <= i < |v.items| => PhpString(v.items[i])) else []
  }

  /** The cells of a workbook: every value coerced, rows and columns kept in place. */
  function CoercedRows(rows: seq<seq<Value>>): (cells: seq<seq<Cell>>)
    ensures |cells| == |rows|
    ensures forall r :: 0 <= r < |rows| ==>
      |cells[r]| == |rows[r]| && forall c :: 0 <= c < |rows[r]| ==> cells[r][c] == CoerceCell(rows[r][c])
  {
    seq(|rows|, r requires 0 <= r < |rows| => CoercedRow(rows[r]))
  }

  /** One row of cells, each value coerced in place. */
  function CoercedRow(row: seq<Value>): (line: seq<Cell>)
    ensures |line| == |row| && forall c :: 0 <= c < |row| ==> line[c] == CoerceCell(row[c])
  {
    seq(|row|, c requires 0 <= c < |row| => CoerceCell(row[c]))
  }

  lemma {:induction false} QueriesSnoc(p: Record, fs: seq<Filter>, f: Filter)
    ensures Queries(p, fs + [f]) ==
      Queries(p, fs) + (if FilterQuery(p, f).Some? then [FilterQuery(p, f).value] else [])
  {
    if fs != [] {
      assert (fs + [f])[1..] == fs[1..] + [f];
      QueriesSnoc(p, fs[1..], f);
    }
  }

  lemma ResultsAppend(db: Query -> seq<int>, a: seq<Query>, b: seq<Query>)
    ensures Results(db, a + b) == Results(db, a) + Results(db, b)
  {
  }

  /** One more filter pushes its query's ID set exactly when it is active. */
  lemma ResultsSnoc(p: Record, db: Query -> seq<int>, fs: seq<Filter>, f: Filter)
    ensures Results(db, Queries(p, fs + [f])) ==
      Results(db, Queries(p, fs)) + (if FilterQuery(p, f).Some? then [db(FilterQuery(p, f).value)] else [])
  {
    QueriesSnoc(p, fs, f);
    var tail := if FilterQuery(p, f).Some? then [FilterQuery(p, f).value] else [];
    ResultsAppend(db, Queries(p, fs), tail);
  }

  /** The ID sets pushed so far: the item list, then one set per active filter of fs. */
  function PushedSets(db: Database, p: Record, fs: seq<Filter>): seq<seq<int>> {
    [db.items] + Results(db.results, Queries(p, fs))
  }

  /** Running the next filter pushes its query's set exactly when the filter is active. */
  lemma PushedSetsStep(db: Database, p: Record, fs: seq<Filter>, k: nat)
    requires k < |fs|
    ensures PushedSets(db, p, fs[..k + 1]) ==
      PushedSets(db, p, fs[..k]) + (if FilterQuery(p, fs[k]).Some? then [db.results(FilterQuery(p, fs[k]).value)] else [])
  {
    assert fs[..k + 1] == fs[..k] + [fs[k]];
    ResultsSnoc(p, db.results, fs[..k], fs[k]);
  }

  /**
   * The filter_by_* calls of apply_filters(): the item list, then one ID set
   * pushed per active filter of fs, in order.
   */
  method CollectSets(p: Record, db: Database, fs: seq<Filter>) returns (sets: seq<seq<int>>)
    ensures sets == [db.items] + Results(db.results, Queries(p, fs))
  {
    sets := [db.items];
    assert fs[..0] == [];
    for k := 0 to |fs|
      invariant sets == PushedSets(db, p, fs[..k])
    {
      var query := FilterQuery(p, fs[k]);
      PushedSetsStep(db, p, fs, k);
      if query.Some? {
        sets := sets + [db.results(query.value)];
      }
    }
    assert fs[..|fs|] == fs;
  }

  /** One column's strategy: the switch on the column type. */
  method ColumnStrategy(t: ColumnType, ids: seq<int>, fetched: ColumnRows, previous: seq<Value>, src: Source)
    returns (values: seq<Value>)
    ensures values == ColumnValues(t, ids, fetched, previous, src)
  {
    match t
    case Multiple =>
      values := CollectMultiple(ids, fetched.pairs);
    case PersonColumn =>
      values := PersonValues(fetched.people);
    case _ =>
      values := ColumnValues(t, ids, fetched, previous, src);
  }

  /** `for ($i = 0; $i < count($rows); ++$i) $rows[$i][] = $values[$i];` */
  method AppendValues(table: seq<seq<Value>>, values: seq<Value>) returns (result: seq<seq<Value>>)
    ensures result == AppendColumn(table, values)
  {
    result := table;
    for i := 0 to |table|
      invariant |result| == |table|
      invariant forall j :: 0 <= j < i ==> result[j] == table[j] + [At(values, j)]
      invariant forall j :: i <= j < |table| ==> result[j] == table[j]
    {
      result := result[i := result[i] + [At(values, i)]];
    }
  }

  /** The inner loop of the workbook writer: one row's values coerced in order. */
  method CoerceRow(row: seq<Value>) returns (line: seq<Cell>)
    ensures line == CoercedRow(row)
  {
    line := [];
    for c := 0 to |row|
      invariant |line| == c && forall k :: 0 <= k < c ==> line[k] == CoerceCell(row[k])
    {
      line := line + [CoerceCell(row[c])];
    }
  }

  /**
   * apply_filters(): the item list plus one ID set per active filter,
   * intersected and sorted ascending.
   */
  method ApplyFilters(parameters: Record, db: Database) returns (ids: seq<int>)
    ensures ids == SelectedItems(parameters, db.results, db.items)
  {
    var sets := CollectSets(parameters, db, Filters);
    var keys := Intersect(sets[0], sets[1..]);
    ids := SortBy(keys, IntLe);
  }

  /**
   * assemble_values(): each requested column's values appended to every
   * row in turn, then the rows ordered.
   */
  method AssembleValues(itemIds: seq<int>, columns: seq<string>, src: Source, sorting: Value)
    returns (result: seq<seq<Value>>)
    ensures result == ReportRows(itemIds, columns, src, sorting)
  {
    var table: seq<seq<Value>> := seq(|itemIds|, i => []);
    var values: seq<Value> := [];
    for c := 0 to |columns|
      invariant (table, values) == Fill(itemIds, columns[..c], src)
    {
      var column := columns[c];
      values := ColumnStrategy(TypeOf(src, column), itemIds, src.fetch(column), values, src);
      table := AppendValues(table, values);
      assert columns[..c + 1][..c] == columns[..c];
    }
    assert columns[..|columns|] == columns;
    result := OrderRows(table, src.translit, sorting);
  }

  /** The workbook write_excel() builds: file name, title cell and its merged range, header and coerced cells. */
  method WriteExcel(id: int, title: Value, columns: seq<string>, rows: seq<seq<Value>>, stamp: string)
    returns (response: Response)
    ensures response == Workbook(WorkbookFilename(title, stamp, id), title,
      "A1:" + ColumnLetters(|columns|) + "1", columns, CoercedRows(rows))
  {
    var filename := WorkbookFilename(title, stamp, id);
    var lastCell := ColumnRow(|columns|, 1);
    var cells: seq<seq<Cell>> := [];
    ghost var coerced := CoercedRows(rows);
    for r := 0 to |rows|
      invariant cells == coerced[..r]
    {
      var line := CoerceRow(rows[r]);
      assert coerced[..r + 1] == coerced[..r] + [line];
      cells := cells + [line];
    }
    assert coerced[..|rows|] == coerced;
    response := Workbook(filename, title, "A1:" + lastCell, columns, cells);
  }

  /** A report request being run: what get() and its helpers keep on `$this`. */
  class Report {
    var id: int
    var parameters: Record
    var title: Value
    var format: Value
    var columns: seq<string>
    var itemIds: seq<int>
    var rows: seq<seq<Value>>

    constructor()
      ensures id == 0 && parameters == map[] && title == Null && format == Null
      ensures columns == [] && itemIds == [] && rows == []
    {
      id := 0;
      parameters := map[];
      title := Null;
      format := Null;
      columns := [];
      itemIds := [];
      rows := [];
    }

    /**
     * The first half of get(): the stored parameters, title, format and
     * columns are loaded, the filters select the items and the columns are
     * filled. The format defaults to 'html'.
     */
    method Load(requestId: int, stored: Record, db: Database, src: Source)
      modifies this
      ensures id == requestId && parameters == stored
      ensures title == Values.Get(stored, "report-title")
      ensures format == Coalesce(Values.Get(stored, "report-format"), Str("html"))
      ensures columns == ColumnNames(Values.Get(stored, "report-columns"))
      ensures itemIds == SelectedItems(stored, db.results, db.items)
      ensures rows == ReportRows(itemIds, columns, src, Values.Get(stored, "report-sorting"))
    {
      var names := ColumnNames(Values.Get(stored, "report-columns"));
      var ids := ApplyFilters(stored, db);
      var table := AssembleValues(ids, names, src, Values.Get(stored, "report-sorting"));
      id := requestId;
      parameters := stored;
      title := Values.Get(stored, "report-title");
      format := Coalesce(Values.Get(stored, "report-format"), Str("html"));
      columns := names;
      itemIds := ids;
      rows := table;
    }

    /**
     * get(): runs the queued report with the stored parameters; only the
     * exact format 'excel' produces a workbook, any other a table.
     */
    method Get(requestId: int, stored: Record, db: Database, src: Source, stamp: string)
      returns (response: Response)
      modifies this
      ensures id == requestId && parameters == stored
      ensures title == Values.Get(stored, "report-title")
      ensures format == Coalesce(Values.Get(stored, "report-format"), Str("html"))
      ensures columns == ColumnNames(Values.Get(stored, "report-columns"))
      ensures itemIds == SelectedItems(stored, db.results, db.items)
      ensures rows == ReportRows(itemIds, columns, src, Values.Get(stored, "report-sorting"))
      ensures format == Str("excel") ==> response == Workbook(WorkbookFilename(title, stamp, id), title,
        "A1:" + ColumnLetters(|columns|) + "1", columns, CoercedRows(rows))
      ensures format != Str("excel") ==> response == Table("success", title, columns, rows)
      ensures Values.Get(stored, "report-format") == Null ==> response.Table?
    {
      Load(requestId, stored, db, src);
      if format == Str("excel") {
        response := WriteExcel(id, title, columns, rows, stamp);
      } else {
        response := Table("success", title, columns, rows);
      }
    }
  }
}
