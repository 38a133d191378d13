/**
 * The catalogue item handler: the three sort keys stored with every
 * item, the column and value lists of its INSERT and UPDATE statements,
 * the search conditions and paging of the item list, and the keys under
 * which an item's related records are returned.
 */
module Items {
  import opened Text
  import opened Values

  /** The tables of records that belong to one item, in the order they are loaded. */
  const Multiples: seq<string> := ["Performance", "Inventory", "Part", "Loan"]

  /** The key an item's related records are returned under. */
  function PluralName(name: string): (plural: string)
    ensures EndsWith(plural, "s") && |plural| > |name|
    ensures name != "Inventory" ==> StartsWith(plural, name)
  {
    var plural := if name == "Inventory" then "Inventories" else name + "s";
    assert plural[|plural| - 1..] == "s";
    plural
  }

  /** The four related tables are returned under four different keys. */
  lemma MultiplesPlurals()
    ensures seq(|Multiples|, i requires 0 <= i < |Multiples| => PluralName(Multiples[i]))
      == ["Performances", "Inventories", "Parts", "Loans"]
    ensures forall i, j :: 0 <= i < j < |Multiples| ==> PluralName(Multiples[i]) != PluralName(Multiples[j])
  {
    assert PluralName("Performance") == "Performances";
    assert PluralName("Part") == "Parts";
    assert PluralName("Loan") == "Loans";
  }

  // ---------------------------------------------------------------------
  // Sort keys
  // ---------------------------------------------------------------------

  /** mb_convert_encoding($s, 'ASCII', 'UTF-8') on one character: anything outside ASCII becomes '?'. */
  function AsciiChar(c: char): char {
    if c as int < 128 then c else '?'
  }

  function Ascii(s: string): (r: string)
    ensures |r| == |s| && forall k :: 0 <= k < |s| ==> r[k] == AsciiChar(s[k])
  {
    seq(|s|, k requires 0 <= k < |s| => AsciiChar(s[k]))
  }

  function AsciiAll(parts: seq<string>): (r: seq<string>)
    ensures |r| == |parts| && forall k :: 0 <= k < |parts| ==> r[k] == Ascii(parts[k])
  {
    seq(|parts|, k requires 0 <= k < |parts| => Ascii(parts[k]))
  }

  /**
   * One sort key: the text fields and the zero-padded row id, separated
   * by tabs (`sprintf("%s\t...\t%06d", ...)`), converted to ASCII.
   */
  function SortKey(fields: seq<string>, rowId: nat): string {
    Ascii(Join(fields + [Pad6(rowId)], "\t"))
  }

  /** The composer's last name, first name and search key as the item's sort keys read them. */
  datatype PersonKeys = PersonKeys(last: Value, first: Value, searchKey: Value)

  /** The three sort keys of an item: by title, by composer and by arranger. */
  function ItemSortKeys(title: string, composer: PersonKeys, arrangerKey: string, rowId: nat): seq<string> {
    [SortKey([title, PhpString(composer.last), PhpString(composer.first)], rowId),
     SortKey([PhpString(composer.searchKey), title], rowId),
     SortKey([arrangerKey, title], rowId)]
  }

  /**
   * make_item_sort_keys(): the person rows are looked up only for a
   * truthy ComposerID and ArrangerID; otherwise their parts are empty.
   * `composerRow` and `arrangerKey` stand for the two lookups.
   */
  method MakeItemSortKeys(rec: Record, rowId: nat, composerRow: Value -> PersonKeys, arrangerKey: Value -> Value)
    returns (keys: seq<string>)
    ensures |keys| == 3
    ensures var composerId := Get(rec, "ComposerID");
      var arrangerId := Get(rec, "ArrangerID");
      keys == ItemSortKeys(PhpString(Get(rec, "ItemTitle")),
        if PhpTruthy(composerId) then composerRow(composerId) else PersonKeys(Str(""), Str(""), Str("")),
        if PhpTruthy(arrangerId) then PhpString(arrangerKey(arrangerId)) else "",
        rowId)
  {
    keys := [];
    var composerId := Get(rec, "ComposerID");
    var arrangerId := Get(rec, "ArrangerID");
    var title := PhpString(Get(rec, "ItemTitle"));
    var last, first, searchKey;
    if PhpTruthy(composerId) {
      var row := composerRow(composerId);
      last, first, searchKey := row.last, row.first, row.searchKey;
    } else {
      last, first, searchKey := Str(""), Str(""), Str("");
    }
    keys := keys + [SortKey([title, PhpString(last), PhpString(first)], rowId)];
    keys := keys + [SortKey([PhpString(searchKey), title], rowId)];
    var arranger := "";
    if PhpTruthy(arrangerId) {
      arranger := PhpString(arrangerKey(arrangerId));
    }
    keys := keys + [SortKey([arranger, title], rowId)];
  }

  lemma AsciiAppend(a: string, b: string)
    ensures Ascii(a + b) == Ascii(a) + Ascii(b)
  {
  }

  /** Converting a joined string converts each piece; the tab separator is ASCII already. */
  lemma {:induction false} AsciiJoin(parts: seq<string>)
    ensures Ascii(Join(parts, "\t")) == Join(AsciiAll(parts), "\t")
    decreases |parts|
  {
    if |parts| >= 2 {
      AsciiJoin(parts[1..]);
      AsciiAppend(parts[0] + "\t", Join(parts[1..], "\t"));
      AsciiAppend(parts[0], "\t");
      assert AsciiAll(parts)[1..] == AsciiAll(parts[1..]);
    } else if |parts| == 1 {
      assert AsciiAll(parts) == [Ascii(parts[0])];
    }
  }

  lemma AsciiKeepsTabFree(s: string)
    requires NoneOf(s, "\t")
    ensures NoneOf(Ascii(s), "\t")
  {
  }

  /**
   * A sort key splits at its tabs into the converted fields followed by the
   * zero-padded row id, which reads back as the row id: keys of different
   * rows never collide, and fields sort before the id.
   */
  lemma SortKeyParts(fields: seq<string>, rowId: nat)
    requires forall k :: 0 <= k < |fields| ==> NoneOf(fields[k], "\t")
    ensures Split(SortKey(fields, rowId), "\t") == AsciiAll(fields) + [Pad6(rowId)]
    ensures DigitsValue(Pad6(rowId)) == rowId
  {
    var parts := fields + [Pad6(rowId)];
    AsciiJoin(parts);
    var converted := AsciiAll(parts);
    forall k | 0 <= k < |converted| ensures NoneOf(converted[k], "\t") {
      AsciiKeepsTabFree(parts[k]);
    }
    SplitJoin(converted, "\t");
    assert Ascii(Pad6(rowId)) == Pad6(rowId);
    assert converted == AsciiAll(fields) + [Pad6(rowId)];
    Pad6Spec(rowId);
  }

  /** Sort keys of two different rows differ, whatever their fields. */
  lemma SortKeysOfRowsDiffer(fields1: seq<string>, fields2: seq<string>, id1: nat, id2: nat)
    requires forall k :: 0 <= k < |fields1| ==> NoneOf(fields1[k], "\t")
    requires forall k :: 0 <= k < |fields2| ==> NoneOf(fields2[k], "\t")
    requires |fields1| == |fields2| && id1 != id2
    ensures SortKey(fields1, id1) != SortKey(fields2, id2)
  {
    SortKeyParts(fields1, id1);
    SortKeyParts(fields2, id2);
    assert Split(SortKey(fields1, id1), "\t")[|fields1|] == Pad6(id1);
    assert Split(SortKey(fields2, id2), "\t")[|fields2|] == Pad6(id2);
  }

  /** Without a composer the composer key starts with its tab; without an arranger, so does the arranger key. */
  lemma SortKeysWithoutPeople(title: string, rowId: nat)
    ensures var keys := ItemSortKeys(title, PersonKeys(Str(""), Str(""), Str("")), "", rowId);
      keys[1] == keys[2] && StartsWith(keys[1], "\t")
      && keys[0] == Ascii(title) + "\t\t\t" + Pad6(rowId)
  {
    var key := SortKey(["", title], rowId);
    var p := Pad6(rowId);
    JoinCons(title, [p], "\t");
    JoinCons("", [title, p], "\t");
    assert ["", title] + [p] == [""] + [title, p];
    assert Join(["", title] + [p], "\t") == "\t" + (title + "\t" + p);
    JoinCons("", [p], "\t");
    JoinCons("", ["", p], "\t");
    JoinCons(title, ["", "", p], "\t");
    assert [title, "", ""] + [p] == [title] + ["", "", p];
    assert ["", "", p] == [""] + ["", p];
    assert Join([title, "", ""] + [p], "\t") == title + "\t\t\t" + p;
    AsciiAppend(title, "\t\t\t" + Pad6(rowId));
    AsciiAppend("\t", title + "\t" + Pad6(rowId));
    assert Ascii("\t\t\t" + Pad6(rowId)) == "\t\t\t" + Pad6(rowId);
  }

  // ---------------------------------------------------------------------
  // INSERT and UPDATE
  // ---------------------------------------------------------------------

  /** One configured item column and its default (null when it has none). */
  datatype ItemColumn = ItemColumn(name: string, default: Value)

  /** `$data[$name] ?? $default`. */
  function ColumnValue(column: ItemColumn, data: Record): Value {
    Coalesce(Get(data, column.name), column.default)
  }

  /** `isset($value)`: the request or the default supplies a non-null value. */
  predicate Supplied(column: ItemColumn, data: Record) {
    ColumnValue(column, data) != Null
  }

  /** The configured columns an INSERT sets, in configuration order. */
  function SuppliedColumns(config: seq<ItemColumn>, data: Record): (r: seq<ItemColumn>)
    ensures |r| <= |config|
    ensures forall c :: c in r <==> c in config && Supplied(c, data)
  {
    if config == [] then []
    else
      var init := config[..|config| - 1];
      var last := config[|config| - 1];
      assert config == init + [last];
      SuppliedColumns(init, data) + (if Supplied(last, data) then [last] else [])
  }

  function Names(columns: seq<ItemColumn>): (r: seq<string>)
    ensures |r| == |columns| && forall k :: 0 <= k < |columns| ==> r[k] == columns[k].name
  {
    seq(|columns|, k requires 0 <= k < |columns| => columns[k].name)
  }

  function ColumnValues(columns: seq<ItemColumn>, data: Record): (r: seq<Value>)
    ensures |r| == |columns| && forall k :: 0 <= k < |columns| ==> r[k] == ColumnValue(columns[k], data)
  {
    seq(|columns|, k requires 0 <= k < |columns| => ColumnValue(columns[k], data))
  }

  const FixedColumns: seq<string> := ["SortKey", "ComposerSortKey", "ArrangerSortKey", "DateAdded", "AddedBy"]

  datatype ItemInsert = ItemInsert(columns: seq<string>, placeholders: seq<string>, values: seq<Value>)

  lemma SuppliedPrefix(config: seq<ItemColumn>, data: Record, i: nat)
    requires i < |config|
    ensures var c := config[i];
      SuppliedColumns(config[..i + 1], data) == SuppliedColumns(config[..i], data) + (if Supplied(c, data) then [c] else [])
  {
    assert config[..i + 1][..i] == config[..i];
  }

  lemma NamesValuesSnoc(columns: seq<ItemColumn>, c: ItemColumn, data: Record)
    ensures Names(columns + [c]) == Names(columns) + [c.name]
    ensures ColumnValues(columns + [c], data) == ColumnValues(columns, data) + [ColumnValue(c, data)]
  {
  }

  /** One pass of post()'s loop: a column with a value extends the names and the values, any other leaves both. */
  lemma SuppliedStep(config: seq<ItemColumn>, data: Record, i: nat, columns: seq<string>, values: seq<Value>)
    requires i < |config|
    requires columns == Names(SuppliedColumns(config[..i], data))
    requires values == ColumnValues(SuppliedColumns(config[..i], data), data)
    ensures var v := ColumnValue(config[i], data);
      Names(SuppliedColumns(config[..i + 1], data)) == columns + (if v != Null then [config[i].name] else [])
      && ColumnValues(SuppliedColumns(config[..i + 1], data), data) == values + (if v != Null then [v] else [])
  {
    SuppliedPrefix(config, data, i);
    NamesValuesSnoc(SuppliedColumns(config[..i], data), config[i], data);
    if !Supplied(config[i], data) {
      assert SuppliedColumns(config[..i + 1], data) == SuppliedColumns(config[..i], data) + [];
    }
  }

  lemma SuppliedValuesSet(config: seq<ItemColumn>, data: Record)
    ensures forall k :: 0 <= k < |SuppliedColumns(config, data)| ==> ColumnValues(SuppliedColumns(config, data), data)[k] != Null
  {
    var r := SuppliedColumns(config, data);
    forall k | 0 <= k < |r| ensures ColumnValues(r, data)[k] != Null {
      assert r[k] in r;
    }
  }

  /** The loop of post(): the supplied configured columns, a placeholder for each, and their values. */
  method CollectSupplied(config: seq<ItemColumn>, data: Record)
    returns (columns: seq<string>, placeholders: seq<string>, values: seq<Value>)
    ensures columns == Names(SuppliedColumns(config, data))
    ensures values == ColumnValues(SuppliedColumns(config, data), data)
    ensures |placeholders| == |columns| && forall k :: 0 <= k < |placeholders| ==> placeholders[k] == "?"
  {
    columns, placeholders, values := [], [], [];
    for i := 0 to |config|
      invariant columns == Names(SuppliedColumns(config[..i], data))
      invariant values == ColumnValues(SuppliedColumns(config[..i], data), data)
      invariant |placeholders| == |columns| && forall k :: 0 <= k < |placeholders| ==> placeholders[k] == "?"
    {
      SuppliedStep(config, data, i, columns, values);
      var column := config[i];
      var value := ColumnValue(column, data);
      if value != Null {
        placeholders := placeholders + ["?"];
        columns := columns + [column.name];
        values := values + [value];
      }
    }
    assert config[..|config|] == config;
  }

  /**
   * post(): five fixed columns (the sort keys are filled in afterwards),
   * then every configured column whose request value or default is set.
   */
  method Post(config: seq<ItemColumn>, data: Record, localtime: Value, user: Value) returns (ins: ItemInsert)
    ensures ins.columns == FixedColumns + Names(SuppliedColumns(config, data))
    ensures ins.values == [Str(""), Str(""), Str(""), localtime, user] + ColumnValues(SuppliedColumns(config, data), data)
    ensures |ins.placeholders| == |ins.columns| == |ins.values|
    ensures forall k :: 0 <= k < |ins.placeholders| ==> ins.placeholders[k] == "?"
  {
    var columns, placeholders, values := CollectSupplied(config, data);
    ins := ItemInsert(FixedColumns + columns, ["?", "?", "?", "?", "?"] + placeholders,
      [Str(""), Str(""), Str(""), localtime, user] + values);
  }

  datatype ItemUpdate = ItemUpdate(assignments: seq<string>, values: seq<Value>)

  /**
   * put(): DateModified and ModifiedBy, then every configured column
   * (null when neither the request nor the default supplies it), and the
   * record id last for the WHERE clause. A falsy record id stops the request.
   */
  method Put(config: seq<ItemColumn>, data: Record, recordId: Value, localtime: Value, user: Value)
    returns (result: Result<ItemUpdate>)
    ensures !PhpTruthy(recordId) <==> result == Err("Missing record ID")
    ensures result.Ok? ==> var u := result.value;
      |u.assignments| == |config| + 2 && |u.values| == |config| + 3
      && u.assignments[..2] == ["DateModified = ?", "ModifiedBy = ?"]
      && u.values[..2] == [localtime, user]
      && (forall k :: 0 <= k < |config| ==>
            u.assignments[k + 2] == config[k].name + " = ?" && u.values[k + 2] == ColumnValue(config[k], data))
      && u.values[|u.values| - 1] == recordId
  {
    if !PhpTruthy(recordId) {
      return Err("Missing record ID");
    }
    var assignments := ["DateModified = ?", "ModifiedBy = ?"];
    var values := [localtime, user];
    for i := 0 to |config|
      invariant |assignments| == i + 2 && |values| == i + 2
      invariant assignments[..2] == ["DateModified = ?", "ModifiedBy = ?"] && values[..2] == [localtime, user]
      invariant forall k :: 0 <= k < i ==>
        assignments[k + 2] == config[k].name + " = ?" && values[k + 2] == ColumnValue(config[k], data)
    {
      values := values + [ColumnValue(config[i], data)];
      assignments := assignments + [config[i].name + " = ?"];
    }
    values := values + [recordId];
    result := Ok(ItemUpdate(assignments, values));
  }

  /** The supplied columns keep their configuration order. */
  lemma {:induction false} SuppliedColumnsOrdered(config: seq<ItemColumn>, data: Record, i: nat, j: nat)
    requires i < j < |SuppliedColumns(config, data)|
    ensures exists a, b ::
      (0 <= a < b < |config| && config[a] == SuppliedColumns(config, data)[i] && config[b] == SuppliedColumns(config, data)[j])
    decreases |config|
  {
    var init := config[..|config| - 1];
    var last := config[|config| - 1];
    var r := SuppliedColumns(config, data);
    var r0 := SuppliedColumns(init, data);
    assert r == r0 + (if Supplied(last, data) then [last] else []);
    if j < |r0| {
      SuppliedColumnsOrdered(init, data, i, j);
      var a, b :| 0 <= a < b < |init| && init[a] == r0[i] && init[b] == r0[j];
      assert config[a] == r[i] && config[b] == r[j];
    } else {
      assert r[j] == last;
      assert r[i] in r0;
      var a :| 0 <= a < |init| && init[a] == r[i];
      assert config[a] == r[i] && config[|config| - 1] == r[j];
    }
  }

  // ---------------------------------------------------------------------
  // The item list
  // ---------------------------------------------------------------------

  /** `$term === '0' || $term`: after trimming, a search term applies unless it is empty. */
  predicate Applies(term: string) {
    term == "0" || PhpTruthy(Str(term))
  }

  lemma AppliesIffNonEmpty(term: string)
    ensures Applies(term) <==> term != ""
  {
  }

  const TitleCondition := "(i.ItemTitle LIKE ? OR i.OtherTitle LIKE ?)"
  const PersonCondition := "(c.SearchKey LIKE ? OR a.SearchKey LIKE ?)"

  /** A trimmed query parameter, '' when absent. */
  function Term(query: map<string, string>, name: string): string {
    PhpTrim(if name in query then query[name] else "")
  }

  /** The conditions, bound values and paging clauses of the item list queries. */
  datatype ItemListQuery = ItemListQuery(conditions: seq<string>, values: seq<string>, where: string, paging: string)

  function Pattern(term: string): string { "%" + term + "%" }

  /** The conditions list() applies for a trimmed title term and a trimmed composer/arranger term. */
  function Conditions(title: string, person: string): seq<string> {
    (if title != "" then [TitleCondition] else []) + (if person != "" then [PersonCondition] else [])
  }

  /** The values bound to those conditions: each term's pattern twice. */
  function Bindings(title: string, person: string): seq<string> {
    (if title != "" then [Pattern(title), Pattern(title)] else [])
      + (if person != "" then [Pattern(person), Pattern(person)] else [])
  }

  /** Every condition binds two values, and there is a condition iff some term is non-empty. */
  lemma ConditionsBindings(title: string, person: string)
    ensures |Bindings(title, person)| == 2 * |Conditions(title, person)|
    ensures Conditions(title, person) == [] <==> title == "" && person == ""
    ensures title != "" ==>
      Conditions(title, person)[0] == TitleCondition && Bindings(title, person)[..2] == [Pattern(title), Pattern(title)]
    ensures person != "" ==>
      var n := |Conditions(title, person)|;
      var m := |Bindings(title, person)|;
      Conditions(title, person)[n - 1] == PersonCondition && Bindings(title, person)[m - 2..] == [Pattern(person), Pattern(person)]
  {
  }

  /** The search conditions of list(), each with its pattern bound twice. */
  method SearchConditions(query: map<string, string>) returns (conditions: seq<string>, values: seq<string>)
    ensures conditions == Conditions(Term(query, "title"), Term(query, "composer_arranger"))
    ensures values == Bindings(Term(query, "title"), Term(query, "composer_arranger"))
  {
    var title := Term(query, "title");
    var person := Term(query, "composer_arranger");
    conditions, values := AddCondition([], [], title, TitleCondition);
    assert conditions == (if title != "" then [TitleCondition] else []);
    assert values == (if title != "" then [Pattern(title), Pattern(title)] else []);
    conditions, values := AddCondition(conditions, values, person, PersonCondition);
  }

  /** One search term: its condition and its pattern twice, when it applies. */
  method AddCondition(conditions: seq<string>, values: seq<string>, term: string, condition: string)
    returns (conditions': seq<string>, values': seq<string>)
    ensures conditions' == conditions + (if term != "" then [condition] else [])
    ensures values' == values + (if term != "" then [Pattern(term), Pattern(term)] else [])
  {
    conditions', values' := conditions, values;
    AppliesIffNonEmpty(term);
    if Applies(term) {
      var pattern := Pattern(term);
      conditions' := conditions' + [condition];
      values' := values' + [pattern, pattern];
    }
  }

  /** LIMIT and OFFSET, each only when its integer value is non-zero. */
  function PagingClause(query: map<string, string>, toInt: string -> int): string {
    var limit := toInt(if "limit" in query then query["limit"] else "0");
    var offset := toInt(if "offset" in query then query["offset"] else "0");
    (if limit != 0 then " LIMIT " + IntToString(limit) else "")
    + (if offset != 0 then " OFFSET " + IntToString(offset) else "")
  }

  /** Without limit and offset parameters the query is not paged. */
  lemma UnpagedWithoutParameters(query: map<string, string>, toInt: string -> int)
    requires "limit" !in query && "offset" !in query && toInt("0") == 0
    ensures PagingClause(query, toInt) == ""
  {
  }

  method Paging(query: map<string, string>, toInt: string -> int) returns (paging: string)
    ensures paging == PagingClause(query, toInt)
  {
    paging := "";
    var limit := toInt(if "limit" in query then query["limit"] else "0");
    if limit != 0 {
      paging := paging + (" LIMIT " + IntToString(limit));
      assert paging == " LIMIT " + IntToString(limit);
    }
    var offset := toInt(if "offset" in query then query["offset"] else "0");
    if offset != 0 {
      paging := paging + (" OFFSET " + IntToString(offset));
    }
  }

  /**
   * list(): the conditions joined with AND under one WHERE when any
   * applies, and the paging clauses. `toInt` stands for PHP's (int) cast
   * of a query string.
   */
  method List(query: map<string, string>, toInt: string -> int) returns (q: ItemListQuery)
    ensures q.conditions == Conditions(Term(query, "title"), Term(query, "composer_arranger"))
    ensures q.values == Bindings(Term(query, "title"), Term(query, "composer_arranger"))
    ensures q.conditions == [] ==> q.where == ""
    ensures q.conditions != [] ==> q.where == "WHERE " + Join(q.conditions, " AND ")
    ensures q.paging == PagingClause(query, toInt)
  {
    var conditions, values := SearchConditions(query);
    var where := "";
    if |conditions| > 0 {
      where := "WHERE " + Join(conditions, " AND ");
    }
    var paging := Paging(query, toInt);
    q := ItemListQuery(conditions, values, where, paging);
  }
}
