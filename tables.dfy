/**
 * The lookup-table handler: the search key stored with a person, the
 * column lists of an INSERT and the assignments of an UPDATE (as data,
 * not SQL text), and the display strings of the tag and person picklists.
 */
module Tables {
  import opened Text
  import opened Values
  import opened Names

  /** The configuration of one lookup table. */
  datatype TableConfig = TableConfig(columns: seq<string>, display: string, primaryKey: string)

  // ---------------------------------------------------------------------
  // Person search key
  // ---------------------------------------------------------------------


  /** A field of the request, trimmed; a missing field reads as ''. */
  function Field(data: Record, name: string): string {
    PhpTrim(PhpString(Coalesce(Get(data, name), Str(""))))
  }

  /**
   * The search key of a person, from trimmed parts: the first name follows
   * ", " only when the key so far is truthy, and the dates follow " (" with
   * one more ' ' in front when the key so far is truthy.
   */
  function SearchKey(last: string, first: string, dates: string): string {
    WithDates(WithFirstName(last, first), dates)
  }

  function WithFirstName(key: string, first: string): string {
    if PhpTruthyString(first) then (if PhpTruthyString(key) then key + ", " else key) + first else key
  }

  function WithDates(key: string, dates: string): string {
    if PhpTruthyString(dates) then (if PhpTruthyString(key) then key + " " else key) + " (" + dates + ")" else key
  }

  /** make_person_search_key($data): the key built by successive appends. */
  method MakePersonSearchKey(data: Record) returns (key: string)
    ensures key == SearchKey(Field(data, "LastName"), Field(data, "FirstName"), Field(data, "Dates"))
  {
    key := Field(data, "LastName");
    var firstName := Field(data, "FirstName");
    var dates := Field(data, "Dates");
    if PhpTruthyString(firstName) {
      if PhpTruthyString(key) {
        key := key + ", ";
      }
      key := key + firstName;
    }
    assert key == WithFirstName(Field(data, "LastName"), firstName);
    if PhpTruthyString(dates) {
      if PhpTruthyString(key) {
        key := key + " ";
      }
      key := key + " (" + dates + ")";
    }
  }

  /**
   * With a last name, the search key is the displayed name except that the
   * dates are preceded by two spaces instead of one.
   */
  lemma SearchKeyVersusName(last: string, first: string, dates: string)
    requires PhpTruthyString(last)
    ensures PhpTruthyString(dates) ==>
      SearchKey(last, first, dates) == FullName(last, first, "", PhpTruthyString) + "  (" + dates + ")"
    ensures !PhpTruthyString(dates) ==> SearchKey(last, first, dates) == FullName(last, first, dates, PhpTruthyString)
  {
    var key := if PhpTruthyString(first) then last + ", " + first else last;
    assert PhpTruthyString(key) by {
      assert |key| >= |last| && key[..|last|] == last;
      if |last| == 1 {
        assert key[0] == last[0];
        if PhpTruthyString(first) {
          assert |key| > 1;
        }
      }
    }
  }

  /** Without a last name the key starts at the first name, or at " (" when only dates are given. */
  lemma SearchKeyWithoutLastName(first: string, dates: string)
    ensures PhpTruthyString(first) && PhpTruthyString(dates) ==> SearchKey("", first, dates) == first + "  (" + dates + ")"
    ensures PhpTruthyString(first) && !PhpTruthyString(dates) ==> SearchKey("", first, dates) == first
    ensures !PhpTruthyString(first) && PhpTruthyString(dates) ==> SearchKey("", first, dates) == " (" + dates + ")"
    ensures !PhpTruthyString(first) && !PhpTruthyString(dates) ==> SearchKey("", first, dates) == ""
  {
  }

  lemma SearchKeyExample()
    ensures SearchKey("Bach", "Johann Sebastian", "1685-1750") == "Bach, Johann Sebastian  (1685-1750)"
  {
    var key := WithFirstName("Bach", "Johann Sebastian");
    assert key == "Bach, Johann Sebastian";
    assert PhpTruthyString(key);
  }

  // ---------------------------------------------------------------------
  // INSERT
  // ---------------------------------------------------------------------

  /** A column is inserted when its value is truthy or exactly the string "0". */
  predicate Inserted(v: Value) { v == Str("0") || PhpTruthy(v) }

  /** The configured columns that post() inserts, in configuration order. */
  function InsertedColumns(columns: seq<string>, data: Record): (r: seq<string>)
    ensures |r| <= |columns|
    ensures forall c :: c in r <==> c in columns && Inserted(Get(data, c))
  {
    if columns == [] then []
    else
      var rest := InsertedColumns(columns[1..], data);
      assert columns == [columns[0]] + columns[1..];
      if Inserted(Get(data, columns[0])) then [columns[0]] + rest else rest
  }

  /** Dropping the first of the remaining columns: it is inserted ahead of the rest or skipped. */
  lemma InsertedColumnsStep(columns: seq<string>, data: Record, i: int)
    requires 0 <= i < |columns|
    ensures InsertedColumns(columns[i..], data) ==
      (if Inserted(Get(data, columns[i])) then [columns[i]] else []) + InsertedColumns(columns[i + 1..], data)
  {
    assert columns[i..][1..] == columns[i + 1..];
  }

  /** The data of an INSERT: column names, one '?' per column, and the bound values. */
  datatype Insert = Insert(columns: seq<string>, placeholders: seq<string>, values: seq<Value>, display: string)

  /** One '?' per column name and, for each, the value the record holds for it. */
  predicate Bound(names: seq<string>, placeholders: seq<string>, values: seq<Value>, data: Record) {
    |placeholders| == |names| && (forall k :: 0 <= k < |names| ==> placeholders[k] == "?")
    && |values| == |names| && forall k :: 0 <= k < |names| ==> values[k] == Get(data, names[k])
  }

  /** Binding one more column in front keeps the placeholders and values in step with the names. */
  lemma BoundPrepend(name: string, names: seq<string>, placeholders: seq<string>, values: seq<Value>, data: Record)
    requires Bound(names, placeholders, values, data)
    ensures Bound([name] + names, ["?"] + placeholders, [Get(data, name)] + values, data)
  {
  }

  /** The foreach loop of post(): the columns whose value is set. */
  method CollectInsert(columns: seq<string>, data: Record)
    returns (names: seq<string>, placeholders: seq<string>, values: seq<Value>)
    ensures names == InsertedColumns(columns, data)
    ensures Bound(names, placeholders, values, data)
  {
    names, placeholders, values := [], [], [];
    var i := |columns|;
    while i > 0
      invariant 0 <= i <= |columns|
      invariant names == InsertedColumns(columns[i..], data)
      invariant Bound(names, placeholders, values, data)
    {
      InsertedColumnsStep(columns, data, i - 1);
      i := i - 1;
      var value := Get(data, columns[i]);
      if value == Str("0") || PhpTruthy(value) {
        BoundPrepend(columns[i], names, placeholders, values, data);
        placeholders := ["?"] + placeholders;
        values := [value] + values;
        names := [columns[i]] + names;
      }
    }
    assert columns[0..] == columns;
  }

  /**
   * The INSERT post() builds for a record of a configured table: the
   * inserted columns with their values, plus the search key for a person,
   * whose key is also the display value; other records display their
   * trimmed display field.
   */
  predicate InsertFor(person: bool, table: TableConfig, data: Record, ins: Insert) {
    var inserted := InsertedColumns(table.columns, data);
    |ins.placeholders| == |ins.columns| == |ins.values|
    && (forall k :: 0 <= k < |ins.placeholders| ==> ins.placeholders[k] == "?")
    && |inserted| <= |ins.columns|
    && (forall k :: 0 <= k < |inserted| ==> ins.values[k] == Get(data, ins.columns[k]))
    && (person ==>
          ins.columns == inserted + ["SearchKey"]
          && ins.display == SearchKey(Field(data, "LastName"), Field(data, "FirstName"), Field(data, "Dates"))
          && ins.values[|ins.values| - 1] == Str(ins.display))
    && (!person ==> ins.columns == inserted && ins.display == Field(data, table.display))
  }

  /** The body of post() once the table is known. */
  method BuildInsert(person: bool, table: TableConfig, data: Record) returns (ins: Insert)
    ensures InsertFor(person, table, data, ins)
  {
    var columns, placeholders, values := CollectInsert(table.columns, data);
    if person {
      var key := MakePersonSearchKey(data);
      ins := Insert(columns + ["SearchKey"], placeholders + ["?"], values + [Str(key)], key);
    } else {
      ins := Insert(columns, placeholders, values, Field(data, table.display));
    }
  }

  /**
   * post(): an unknown or unconfigured record type is an error; otherwise
   * the INSERT for the new record.
   */
  method Post(recordType: Value, endpoint: string, tables: map<string, TableConfig>, data: Record)
    returns (result: Result<Insert>)
    ensures !PhpTruthy(recordType) ==> result == Err("Record type " + endpoint + " not recognized")
    ensures PhpTruthy(recordType) && PhpString(recordType) !in tables ==>
      result == Err("configuration missing for " + PhpString(recordType) + " records")
    ensures result.Ok? <==> PhpTruthy(recordType) && PhpString(recordType) in tables
    ensures result.Ok? ==>
      InsertFor(recordType == Str("LibraryPerson"), tables[PhpString(recordType)], data, result.value)
  {
    if !PhpTruthy(recordType) {
      return Err("Record type " + endpoint + " not recognized");
    }
    var name := PhpString(recordType);
    if name !in tables {
      return Err("configuration missing for " + name + " records");
    }
    var ins := BuildInsert(recordType == Str("LibraryPerson"), tables[name], data);
    result := Ok(ins);
  }

  // ---------------------------------------------------------------------
  // UPDATE
  // ---------------------------------------------------------------------

  /** The data of an UPDATE: "column = ?" assignments and their values, then the record id. */
  datatype Update = Update(assignments: seq<string>, values: seq<Value>, display: string)

  /** One "column = ?" assignment per configured column. */
  function Assignments(columns: seq<string>): (r: seq<string>)
    ensures |r| == |columns| && forall k :: 0 <= k < |columns| ==> r[k] == columns[k] + " = ?"
  {
    seq(|columns|, k requires 0 <= k < |columns| => columns[k] + " = ?")
  }

  /** Each configured column's request value, null when the request lacks it. */
  function AssignedValues(columns: seq<string>, data: Record): (r: seq<Value>)
    ensures |r| == |columns| && forall k :: 0 <= k < |columns| ==> r[k] == Get(data, columns[k])
  {
    seq(|columns|, k requires 0 <= k < |columns| => Get(data, columns[k]))
  }

  /** The foreach loop of put(). */
  method CollectAssignments(columns: seq<string>, data: Record)
    returns (assignments: seq<string>, values: seq<Value>)
    ensures assignments == Assignments(columns) && values == AssignedValues(columns, data)
  {
    assignments, values := [], [];
    for k := 0 to |columns|
      invariant |assignments| == |values| == k
      invariant forall j :: 0 <= j < k ==>
        assignments[j] == columns[j] + " = ?" && values[j] == Get(data, columns[j])
    {
      values := values + [Get(data, columns[k])];
      assignments := assignments + [columns[k] + " = ?"];
    }
  }

  /**
   * The UPDATE put() builds for a table: every configured column is
   * assigned, null when the request lacks it; a person's search key comes
   * first; the record id is bound last.
   */
  predicate UpdateFor(person: bool, table: TableConfig, data: Record, recordId: Value, u: Update) {
    if person then
      u.display == SearchKey(Field(data, "LastName"), Field(data, "FirstName"), Field(data, "Dates"))
      && u.assignments == ["SearchKey = ?"] + Assignments(table.columns)
      && u.values == [Str(u.display)] + AssignedValues(table.columns, data) + [recordId]
    else
      u.display == Field(data, table.display)
      && u.assignments == Assignments(table.columns)
      && u.values == AssignedValues(table.columns, data) + [recordId]
  }

  /** The body of put() once the table is known. */
  method BuildUpdate(person: bool, table: TableConfig, data: Record, recordId: Value) returns (u: Update)
    ensures UpdateFor(person, table, data, recordId, u)
  {
    var assignments: seq<string> := [];
    var values: seq<Value> := [];
    var display;
    if person {
      display := MakePersonSearchKey(data);
      assignments := ["SearchKey = ?"];
      values := [Str(display)];
    } else {
      display := Field(data, table.display);
    }
    var columnAssignments, columnValues := CollectAssignments(table.columns, data);
    assignments := assignments + columnAssignments;
    values := values + columnValues + [recordId];
    u := Update(assignments, values, display);
  }

  /** put(): the error cases, then the UPDATE for the configured table. */
  method Put(recordType: Value, endpoint: string, recordId: Value, tables: map<string, TableConfig>, data: Record)
    returns (result: Result<Update>)
    ensures !PhpTruthy(recordType) ==> result == Err("Record type " + endpoint + " not recognized")
    ensures PhpTruthy(recordType) && !PhpTruthy(recordId) ==> result == Err("Missing record ID")
    ensures PhpTruthy(recordType) && PhpTruthy(recordId) && PhpString(recordType) !in tables ==>
      result == Err("configuration missing for " + PhpString(recordType) + " records")
    ensures result.Ok? <==>
      PhpTruthy(recordType) && PhpTruthy(recordId) && PhpString(recordType) in tables
    ensures result.Ok? ==>
      UpdateFor(recordType == Str("LibraryPerson"), tables[PhpString(recordType)], data, recordId, result.value)
  {
    if !PhpTruthy(recordType) {
      return Err("Record type " + endpoint + " not recognized");
    }
    if !PhpTruthy(recordId) {
      return Err("Missing record ID");
    }
    var name := PhpString(recordType);
    if name !in tables {
      return Err("configuration missing for " + name + " records");
    }
    var u := BuildUpdate(recordType == Str("LibraryPerson"), tables[name], data, recordId);
    result := Ok(u);
  }

  // ---------------------------------------------------------------------
  // Picklists
  // ---------------------------------------------------------------------

  datatype TagRow = TagRow(id: Value, group: Value, tag: Value, comments: Value)

  datatype PersonEntry = PersonEntry(id: Value, last: Value, first: Value, dates: Value)

  /** A tag is shown as "Group: Tag" from the trimmed names. */
  function TagDisplay(row: TagRow): string {
    PhpTrim(PhpString(row.group)) + ": " + PhpTrim(PhpString(row.tag))
  }

  /** A person is shown as Last[, First][ (Dates)], untrimmed. */
  function PersonListDisplay(row: PersonEntry): string {
    FullName(PhpString(row.last), PhpString(row.first), PhpString(row.dates), PhpTruthyString)
  }

  function TagEntry(row: TagRow): Record {
    map["id" := row.id, "display" := Str(TagDisplay(row)), "comments" := row.comments]
  }

  function PersonListEntry(row: PersonEntry): Record {
    map["id" := row.id, "display" := Str(PersonListDisplay(row))]
  }

  /** The lookup tables whose picklist is the query's rows as they are. */
  predicate PlainPicklist(recordType: string) {
    recordType in {"LibraryCollection", "LibraryAccompaniment", "LibraryArrangement",
      "LibraryFormat", "LibraryHandbellEnsemble", "LibraryKey", "LibraryKeyword",
      "LibraryOwner", "LibrarySeason", "LibrarySkill", "LibraryCompany",
      "LibraryTagGroup", "login_account"}
  }

  datatype Picklist =
    | Entries(entries: seq<Record>)
    | Unsupported(status: int, error: string)

  /** The query results list() reads: plain rows, tag rows and person rows. */
  datatype PicklistSource = PicklistSource(rows: seq<Record>, tags: seq<TagRow>, people: seq<PersonEntry>)

  /** list(): the picklist of a record type. */
  method List(recordType: string, src: PicklistSource) returns (result: Picklist)
    ensures PlainPicklist(recordType) ==> result == Entries(src.rows)
    ensures recordType == "LibraryTag" ==>
      result.Entries? && |result.entries| == |src.tags|
      && forall k :: 0 <= k < |src.tags| ==> result.entries[k] == TagEntry(src.tags[k])
    ensures recordType == "LibraryPerson" ==>
      result.Entries? && |result.entries| == |src.people|
      && forall k :: 0 <= k < |src.people| ==> result.entries[k] == PersonListEntry(src.people[k])
    ensures !PlainPicklist(recordType) && recordType != "LibraryTag" && recordType != "LibraryPerson" ==>
      result == Unsupported(400, recordType + " records not supported")
  {
    if PlainPicklist(recordType) {
      return Entries(src.rows);
    }
    if recordType == "LibraryTag" {
      var payload := Payload(src.tags, TagEntry);
      return Entries(payload);
    }
    if recordType == "LibraryPerson" {
      var payload := Payload(src.people, PersonListEntry);
      return Entries(payload);
    }
    result := Unsupported(400, recordType + " records not supported");
  }

  /** The loops of list() for tags and people: one entry per row, in order. */
  method Payload<T>(rows: seq<T>, entry: T -> Record) returns (payload: seq<Record>)
    ensures |payload| == |rows| && forall k :: 0 <= k < |rows| ==> payload[k] == entry(rows[k])
  {
    payload := [];
    for k := 0 to |rows|
      invariant |payload| == k
      invariant forall j :: 0 <= j < k ==> payload[j] == entry(rows[j])
    {
      payload := payload + [entry(rows[k])];
    }
  }

  /** The picklist name is untrimmed, unlike the report column and the search key. */
  lemma PersonListExample()
    ensures PersonListDisplay(PersonEntry(Int(1), Str("Person"), Str("Test"), Str("1900-1999")))
      == "Person, Test (1900-1999)"
    ensures PersonListDisplay(PersonEntry(Int(1), Str(" Person"), Null, Null)) == " Person"
  {
  }
}
