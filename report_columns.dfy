/**
 * The column strategies of the report engine and the row step that
 * follows them: each requested column yields one value per selected
 * item, the values are laid out as rows, and the rows are sorted
 * case-insensitively and optionally reversed.
 *
 * The rows a column's query returns are an input (`ColumnRows`), as are
 * sprintf (`Formatter`), PHP's sort() order on key strings and iconv's
 * transliteration to ASCII.
 */
module ReportColumns {
  import opened Text
  import opened Values
  import opened Sorting
  import opened Names

  /** A column's configured type. A column without a known type is `Unrecognised`. */
  datatype ColumnType =
    | KeyColumn(format: string)
    | Direct(format: string)
    | PersonColumn
    | Multiple
    | Lookup
    | Inventory
    | LastPerformance
    | Unrecognised

  /** One row of a person column's query: LastName, FirstName, Dates. */
  datatype PersonRow = PersonRow(last: Value, first: Value, dates: Value)

  /**
   * What a column's query returns, in item order: single values (direct,
   * lookup, inventory, last-performance), person rows, or (item ID, value)
   * pairs in value order (multiple). Each column type reads one part.
   */
  datatype ColumnRows = ColumnRows(cells: seq<Value>, people: seq<PersonRow>, pairs: seq<(int, Value)>)

  /** Everything outside the engine that the column step reads. */
  datatype Source = Source(
    config: map<string, ColumnType>,
    fetch: string -> ColumnRows,
    sprintf: (string, Value) -> string,
    keyLe: (string, string) -> bool,
    translit: string -> string)

  function TypeOf(src: Source, column: string): ColumnType {
    if column in src.config then src.config[column] else Unrecognised
  }

  // ---------------------------------------------------------------------
  // Key and direct columns
  // ---------------------------------------------------------------------

  /** The key column: each selected ID formatted, then sorted on its own. */
  function KeyValues(format: string, ids: seq<int>, src: Source): seq<Value> {
    SortBy(seq(|ids|, i requires 0 <= i < |ids| => Str(src.sprintf(format, Int(ids[i])))), KeyLe(src))
  }

  function KeyLe(src: Source): (Value, Value) -> bool {
    (a: Value, b: Value) => src.keyLe(PhpString(a), PhpString(b))
  }

  /**
   * The key column holds exactly the formatted IDs, one per ID, and is
   * ordered by the key order when that order is a total preorder.
   */
  lemma KeyColumnSpec(format: string, ids: seq<int>, src: Source)
    ensures var keys := KeyValues(format, ids, src);
      |keys| == |ids|
      && multiset(keys) == multiset(seq(|ids|, i requires 0 <= i < |ids| => Str(src.sprintf(format, Int(ids[i])))))
      && (TotalPreorder(KeyLe(src)) ==> SortedBy(keys, KeyLe(src)))
  {
    var formatted := seq(|ids|, i requires 0 <= i < |ids| => Str(src.sprintf(format, Int(ids[i]))));
    SortByPermutes(formatted, KeyLe(src));
    if TotalPreorder(KeyLe(src)) {
      SortBySorted(formatted, KeyLe(src));
    }
  }

  /** A direct column with a format: falsy values become '', others are formatted. */
  function DirectValues(format: string, cells: seq<Value>, src: Source): (values: seq<Value>)
    ensures |values| == |cells|
    ensures !PhpTruthy(Str(format)) ==> values == cells
    ensures PhpTruthy(Str(format)) ==> forall i :: 0 <= i < |cells| ==>
      (values[i] == Str("") <== !PhpTruthy(cells[i]))
      && (PhpTruthy(cells[i]) ==> values[i] == Str(src.sprintf(format, cells[i])))
  {
    if PhpTruthy(Str(format)) then
      seq(|cells|, i requires 0 <= i < |cells| =>
        if PhpTruthy(cells[i]) then Str(src.sprintf(format, cells[i])) else Str(""))
    else cells
  }

  // ---------------------------------------------------------------------
  // Person columns
  // ---------------------------------------------------------------------

  /** Trimmed last name, then ", first" and " (dates)" when those are truthy after trimming. */
  function PersonDisplay(row: PersonRow): string {
    FullName(PhpTrim(PhpString(row.last)), PhpTrim(PhpString(row.first)),
             PhpTrim(PhpString(row.dates)), PhpTruthyString)
  }

  /** The person strategy's fetch loop: one display string per returned row. */
  method PersonValues(rows: seq<PersonRow>) returns (values: seq<Value>)
    ensures |values| == |rows|
    ensures forall i :: 0 <= i < |rows| ==> values[i] == Str(PersonDisplay(rows[i]))
  {
    values := [];
    var k := 0;
    while k < |rows|
      invariant 0 <= k <= |rows| && |values| == k
      invariant forall i :: 0 <= i < k ==> values[i] == Str(PersonDisplay(rows[i]))
    {
      values := values + [Str(PersonDisplay(rows[k]))];
      k := k + 1;
    }
  }

  /**
   * A person's display: the trimmed last name, the trimmed first name after
   * ", " only when it is neither '' nor '0', and the trimmed dates in
   * parentheses only when they are neither '' nor '0'.
   */
  lemma PersonDisplaySpec(row: PersonRow)
    ensures var last, first, dates :=
        PhpTrim(PhpString(row.last)), PhpTrim(PhpString(row.first)), PhpTrim(PhpString(row.dates));
      PersonDisplay(row) ==
        last + (if first != "" && first != "0" then ", " + first else "")
             + (if dates != "" && dates != "0" then " (" + dates + ")" else "")
  {
    var first, dates := PhpTrim(PhpString(row.first)), PhpTrim(PhpString(row.dates));
    PhpStringTruthy(first);
    PhpStringTruthy(dates);
  }

  // ---------------------------------------------------------------------
  // Multiple-valued columns
  // ---------------------------------------------------------------------

  /** Reference definition: the truthy values paired with id, in query order, as strings. */
  function ValuesFor(id: int, pairs: seq<(int, Value)>): (vs: seq<string>)
    ensures forall v :: v in vs ==> v != "" && v != "0"
  {
    if pairs == [] then []
    else
      var rest := ValuesFor(id, pairs[1..]);
      if pairs[0].0 == id && PhpTruthy(pairs[0].1) then
        assert PhpString(pairs[0].1) != "" && PhpString(pairs[0].1) != "0" by {
          TruthyString(pairs[0].1);
        }
        [PhpString(pairs[0].1)] + rest
      else rest
  }

  lemma TruthyString(v: Value)
    requires PhpTruthy(v)
    ensures PhpString(v) != "" && PhpString(v) != "0"
  {
    match v
    case Int(i) =>
      if i < 0 {
        assert PhpString(v)[0] == '-';
      } else {
        var s := NatToString(i);
        if s == "0" {
          NatToStringValue(i);
        }
      }
    case _ =>
  }

  /** The map the multiple strategy's fetch loop builds from the first n pairs. */
  function Grouped(pairs: seq<(int, Value)>): map<int, seq<string>>
  {
    if pairs == [] then map[]
    else
      var m := Grouped(pairs[..|pairs| - 1]);
      var (id, v) := pairs[|pairs| - 1];
      if PhpTruthy(v) then
        m[id := (if id in m then m[id] else []) + [PhpString(v)]]
      else m
  }

  lemma {:induction false} ValuesForSnoc(id: int, pairs: seq<(int, Value)>, p: (int, Value))
    ensures ValuesFor(id, pairs + [p]) ==
      ValuesFor(id, pairs) + (if p.0 == id && PhpTruthy(p.1) then [PhpString(p.1)] else [])
  {
    if pairs != [] {
      assert (pairs + [p])[1..] == pairs[1..] + [p];
      ValuesForSnoc(id, pairs[1..], p);
    }
  }

  /** An ID has an entry in the map exactly when it has a truthy value, and the entry lists them in order. */
  lemma {:induction false} GroupedSpec(pairs: seq<(int, Value)>)
    ensures forall id :: id in Grouped(pairs) <==> ValuesFor(id, pairs) != []
    ensures forall id :: id in Grouped(pairs) ==> Grouped(pairs)[id] == ValuesFor(id, pairs)
  {
    if pairs != [] {
      var init := pairs[..|pairs| - 1];
      var p := pairs[|pairs| - 1];
      GroupedSpec(init);
      assert pairs == init + [p];
      forall id ensures ValuesFor(id, pairs) ==
        ValuesFor(id, init) + (if p.0 == id && PhpTruthy(p.1) then [PhpString(p.1)] else [])
      {
        ValuesForSnoc(id, init, p);
      }
    }
  }

  /** The multiple column: each ID's entry joined with "; ", or '' when it has none. */
  function MultipleValues(ids: seq<int>, pairs: seq<(int, Value)>): seq<Value> {
    var m := Grouped(pairs);
    seq(|ids|, i requires 0 <= i < |ids| => Str(if ids[i] in m then Join(m[ids[i]], "; ") else ""))
  }

  /**
   * Each selected ID gets its truthy values joined with "; " in query
   * order; the cell is '' exactly when the ID has no truthy value.
   */
  lemma MultipleValuesSpec(ids: seq<int>, pairs: seq<(int, Value)>)
    ensures var values := MultipleValues(ids, pairs);
      |values| == |ids|
      && forall i :: 0 <= i < |ids| ==>
           values[i] == Str(Join(ValuesFor(ids[i], pairs), "; "))
           && (values[i] == Str("") <==> ValuesFor(ids[i], pairs) == [])
  {
    GroupedSpec(pairs);
    forall i | 0 <= i < |ids|
      ensures Join(ValuesFor(ids[i], pairs), "; ") == "" <==> ValuesFor(ids[i], pairs) == []
    {
      var vs := ValuesFor(ids[i], pairs);
      if vs != [] {
        assert vs[0] in vs;
        JoinNonEmpty(vs, "; ");
      }
    }
  }

  lemma JoinNonEmpty(parts: seq<string>, sep: string)
    requires |parts| >= 1 && parts[0] != ""
    ensures Join(parts, sep) != ""
  {
    if |parts| > 1 {
      assert |Join(parts, sep)| >= |parts[0]|;
    }
  }

  /** The multiple strategy: the fetch loop filling the map, then the loop over the selected IDs. */
  method CollectMultiple(ids: seq<int>, pairs: seq<(int, Value)>) returns (values: seq<Value>)
    ensures values == MultipleValues(ids, pairs)
  {
    var m: map<int, seq<string>> := map[];
    var k := 0;
    while k < |pairs|
      invariant 0 <= k <= |pairs|
      invariant m == Grouped(pairs[..k])
    {
      var (id, v) := pairs[k];
      assert pairs[..k + 1][..k] == pairs[..k];
      if PhpTruthy(v) {
        if id !in m {
          m := m[id := []];
        }
        m := m[id := m[id] + [PhpString(v)]];
      }
      k := k + 1;
    }
    assert pairs[..k] == pairs;
    values := [];
    for i := 0 to |ids|
      invariant |values| == i
      invariant forall j :: 0 <= j < i ==>
        values[j] == Str(if ids[j] in m then Join(m[ids[j]], "; ") else "")
    {
      if ids[i] in m {
        values := values + [Str(Join(m[ids[i]], "; "))];
      } else {
        values := values + [Str("")];
      }
    }
  }

  // ---------------------------------------------------------------------
  // One column
  // ---------------------------------------------------------------------

  /**
   * The values of one column. A column of unrecognised type matches no
   * case of the switch and reuses the previous column's values.
   */
  function ColumnValues(t: ColumnType, ids: seq<int>, rows: ColumnRows, previous: seq<Value>, src: Source): seq<Value> {
    match t
    case KeyColumn(format) => KeyValues(format, ids, src)
    case Direct(format) => DirectValues(format, rows.cells, src)
    case PersonColumn => seq(|rows.people|, i requires 0 <= i < |rows.people| => Str(PersonDisplay(rows.people[i])))
    case Multiple => MultipleValues(ids, rows.pairs)
    case Lookup => rows.cells
    case Inventory => rows.cells
    case LastPerformance => rows.cells
    case Unrecognised => previous
  }

  /** `$rows[$i][] = $values[$i]` for every row; a missing value reads as null. */
  function AppendColumn(rows: seq<seq<Value>>, values: seq<Value>): (r: seq<seq<Value>>)
    ensures |r| == |rows|
    ensures forall i :: 0 <= i < |rows| ==> r[i] == rows[i] + [At(values, i)]
  {
    seq(|rows|, i requires 0 <= i < |rows| => rows[i] + [At(values, i)])
  }

  /** The rows after the given columns have been filled, with the last column's values. */
  function Fill(ids: seq<int>, columns: seq<string>, src: Source): (r: (seq<seq<Value>>, seq<Value>))
    ensures |r.0| == |ids|
    decreases |columns|
  {
    if columns == [] then (seq(|ids|, i => []), [])
    else
      var (rows, previous) := Fill(ids, columns[..|columns| - 1], src);
      var column := columns[|columns| - 1];
      var values := ColumnValues(TypeOf(src, column), ids, src.fetch(column), previous, src);
      (AppendColumn(rows, values), values)
  }

  /** The values column c yields (for a column of unrecognised type, those of the column before it). */
  function ColumnOutput(ids: seq<int>, columns: seq<string>, c: nat, src: Source): seq<Value>
    requires c < |columns|
  {
    Fill(ids, columns[..c + 1], src).1
  }

  /**
   * One row per selected item, each with exactly one value per requested
   * column, in column order: row i holds, at position c, the i-th value of
   * column c (null when that column returned fewer values).
   */
  lemma {:induction false} FillSpec(ids: seq<int>, columns: seq<string>, src: Source)
    ensures var rows := Fill(ids, columns, src).0;
      |rows| == |ids|
      && forall i :: 0 <= i < |ids| ==>
           |rows[i]| == |columns|
           && forall c :: 0 <= c < |columns| ==> rows[i][c] == At(ColumnOutput(ids, columns, c, src), i)
    decreases |columns|
  {
    if columns != [] {
      var init := columns[..|columns| - 1];
      FillSpec(ids, init, src);
      forall c | 0 <= c < |init| ensures ColumnOutput(ids, init, c, src) == ColumnOutput(ids, columns, c, src) {
        assert init[..c + 1] == columns[..c + 1];
      }
      assert columns[..|columns|] == columns;
    }
  }

  // ---------------------------------------------------------------------
  // Ordering the rows
  // ---------------------------------------------------------------------

  /** join("\t", $row). */
  function RowText(row: seq<Value>): string {
    Join(seq(|row|, i requires 0 <= i < |row| => PhpString(row[i])), "\t")
  }

  /** The text the row comparison looks at: transliterated to ASCII, then case-folded as strcasecmp does. */
  function RowKey(row: seq<Value>, translit: string -> string): string {
    Lower(translit(RowText(row)))
  }

  /** strcasecmp(iconv(join a), iconv(join b)) <= 0. */
  function RowLe(translit: string -> string): (seq<Value>, seq<Value>) -> bool {
    (a: seq<Value>, b: seq<Value>) => LexLe(RowKey(a, translit), RowKey(b, translit))
  }

  lemma RowLeTotalPreorder(translit: string -> string)
    ensures TotalPreorder(RowLe(translit))
  {
    var le := RowLe(translit);
    forall a, b ensures le(a, b) || le(b, a) {
      LexLeTotal(RowKey(a, translit), RowKey(b, translit));
    }
    forall a, b, c | le(a, b) && le(b, c) ensures le(a, c) {
      LexLeTransitive(RowKey(a, translit), RowKey(b, translit), RowKey(c, translit));
    }
  }

  function Reverse<T>(s: seq<T>): (r: seq<T>)
    ensures |r| == |s| && forall i :: 0 <= i < |s| ==> r[i] == s[|s| - 1 - i]
  {
    if s == [] then [] else Reverse(s[1..]) + [s[0]]
  }

  lemma {:induction false} ReversePermutes<T>(s: seq<T>)
    ensures multiset(Reverse(s)) == multiset(s)
  {
    if s != [] {
      ReversePermutes(s[1..]);
      assert s == [s[0]] + s[1..];
    }
  }

  /** usort by RowLe, then array_reverse when report-sorting is exactly 'reversed'. */
  function OrderRows(rows: seq<seq<Value>>, translit: string -> string, sorting: Value): seq<seq<Value>> {
    var sorted := SortBy(rows, RowLe(translit));
    if sorting == Str("reversed") then Reverse(sorted) else sorted
  }

  /** Reversing reverses the order of every class of equally ranked elements. */
  lemma {:induction false} EquivalentsReverse<T>(s: seq<T>, x: T, le: (T, T) -> bool)
    ensures Equivalents(Reverse(s), x, le) == Reverse(Equivalents(s, x, le))
  {
    if s != [] {
      var head, tail := s[0], s[1..];
      EquivalentsReverse(tail, x, le);
      EquivalentsAppend(Reverse(tail), [head], x, le);
      var e := Equivalents(tail, x, le);
      if le(x, head) && le(head, x) {
        assert ([head] + e)[1..] == e;
      } else {
        assert [] + e == e;
      }
    }
  }

  /**
   * Ordering keeps exactly the rows it is given; they come out ascending
   * by case-insensitive row text, rows of equal text in their input order
   * (usort is stable). When the sorting is exactly 'reversed' the sorted
   * list is reversed: descending, and rows of equal text in reverse input
   * order.
   */
  lemma OrderRowsSpec(rows: seq<seq<Value>>, translit: string -> string, sorting: Value)
    ensures var r := OrderRows(rows, translit, sorting);
      var le := RowLe(translit);
      multiset(r) == multiset(rows)
      && (sorting != Str("reversed") ==>
            SortedBy(r, le) && forall row :: Equivalents(r, row, le) == Equivalents(rows, row, le))
      && (sorting == Str("reversed") ==>
            r == Reverse(SortBy(rows, le))
            && (forall i, j :: 0 <= i < j < |r| ==> le(r[j], r[i]))
            && forall row :: Equivalents(r, row, le) == Reverse(Equivalents(rows, row, le)))
  {
    var le := RowLe(translit);
    var sorted := SortBy(rows, le);
    RowLeTotalPreorder(translit);
    SortBySorted(rows, le);
    SortByPermutes(rows, le);
    ReversePermutes(sorted);
    forall row ensures Equivalents(sorted, row, le) == Equivalents(rows, row, le) {
      SortByStable(rows, row, le);
    }
    forall row ensures Equivalents(Reverse(sorted), row, le) == Reverse(Equivalents(sorted, row, le)) {
      EquivalentsReverse(sorted, row, le);
    }
  }

  /** The rows a report returns for the selected IDs and requested columns. */
  function ReportRows(ids: seq<int>, columns: seq<string>, src: Source, sorting: Value): seq<seq<Value>> {
    OrderRows(Fill(ids, columns, src).0, src.translit, sorting)
  }

  /** Every reported row has one value per requested column, and there is one row per selected ID. */
  lemma ReportRowsShape(ids: seq<int>, columns: seq<string>, src: Source, sorting: Value)
    ensures var rows := ReportRows(ids, columns, src, sorting);
      |rows| == |ids| && forall row :: row in rows ==> |row| == |columns|
  {
    var filled := Fill(ids, columns, src).0;
    FillSpec(ids, columns, src);
    OrderRowsSpec(filled, src.translit, sorting);
    var rows := ReportRows(ids, columns, src, sorting);
    assert |rows| == |multiset(rows)| == |multiset(filled)| == |filled|;
    forall row | row in rows ensures |row| == |columns| {
      assert row in multiset(rows);
      assert row in multiset(filled);
    }
  }
}
