/**
 * The printable record of one catalogue item: for every fieldset of the
 * client configuration, one block of labelled values per record (the item
 * itself, or each related record of a multiple fieldset), keeping only the
 * fields that have something to show.
 */
module Print {
  import opened Text
  import opened Values
  import opened Names
  import ReportColumns

  /** One field of a fieldset row in the client configuration. */
  datatype PrintField = PrintField(name: string, caption: Value, picklist: Value, multiple: Value)

  /** A fieldset: its block title (`singular` for a multiple fieldset), and its rows of fields. */
  datatype Fieldset = Fieldset(name: Value, singular: Value, multiple: Value, rows: seq<seq<PrintField>>)

  datatype Entry = Entry(caption: Value, display: Value)

  datatype Block = Block(title: Value, values: seq<Entry>)

  /**
   * What the lookups return. For a picklist: how many display columns its
   * lookup table has, the value of a one-column lookup, the row of a
   * person lookup (last name, first name, dates), and the values linked to
   * the item through a multiple picklist.
   */
  datatype Lookups = Lookups(
    columnCount: string -> nat,
    single: (string, Value) -> Value,
    person: (string, Value) -> seq<Value>,
    multiple: string -> seq<Value>)

  // ---------------------------------------------------------------------
  // Values
  // ---------------------------------------------------------------------

  /** load_multiple_values(): the linked values joined with "; ". */
  function LoadMultipleValues(picklist: string, lookups: Lookups): (v: Value)
    ensures v.Str?
    ensures var values := lookups.multiple(picklist);
      v == Str("") <==> values == [] || (|values| == 1 && PhpString(values[0]) == "")
  {
    var values := lookups.multiple(picklist);
    var texts := seq(|values|, i requires 0 <= i < |values| => PhpString(values[i]));
    JoinEmpty(texts);
    Str(Join(texts, "; "))
  }

  lemma {:induction false} JoinEmpty(parts: seq<string>)
    ensures Join(parts, "; ") == "" <==> parts == [] || (|parts| == 1 && parts[0] == "")
  {
    if |parts| >= 2 {
      assert |Join(parts, "; ")| >= 2;
    }
  }

  /** Linked values that contain no ';' or ' ' are recovered by splitting the joined text. */
  lemma MultipleValuesRoundTrip(picklist: string, lookups: Lookups)
    requires |lookups.multiple(picklist)| >= 1
    requires forall i :: 0 <= i < |lookups.multiple(picklist)| ==> NoneOf(PhpString(lookups.multiple(picklist)[i]), "; ")
    ensures var values := lookups.multiple(picklist);
      Split(LoadMultipleValues(picklist, lookups).s, "; ") == seq(|values|, i requires 0 <= i < |values| => PhpString(values[i]))
  {
    var values := lookups.multiple(picklist);
    SplitJoin(seq(|values|, i requires 0 <= i < |values| => PhpString(values[i])), "; ");
  }

  /**
   * load_single_value(): an empty value or picklist is returned as it is;
   * a one-column lookup returns the looked-up value; otherwise the person
   * row is rendered Last[, First][ (Dates)] from its trimmed parts.
   */
  function LoadSingleValue(value: Value, picklist: Value, lookups: Lookups): (v: Value)
    ensures !PhpTruthy(value) || !PhpTruthy(picklist) ==> v == value
    ensures PhpTruthy(value) && PhpTruthy(picklist) && lookups.columnCount(PhpString(picklist)) == 1 ==>
      v == lookups.single(PhpString(picklist), value)
    ensures PhpTruthy(value) && PhpTruthy(picklist) && lookups.columnCount(PhpString(picklist)) != 1 ==>
      var row := lookups.person(PhpString(picklist), value);
      var last := PhpTrim(PhpString(At(row, 0)));
      v.Str? && StartsWith(v.s, last)
      && (PhpTruthyString(PhpTrim(PhpString(At(row, 2)))) ==> EndsWith(v.s, " (" + PhpTrim(PhpString(At(row, 2))) + ")"))
  {
    if !PhpTruthy(value) || !PhpTruthy(picklist) then value
    else
      var table := PhpString(picklist);
      if lookups.columnCount(table) == 1 then lookups.single(table, value)
      else
        var row := lookups.person(table, value);
        Str(FullName(PhpTrim(PhpString(At(row, 0))), PhpTrim(PhpString(At(row, 1))),
                     PhpTrim(PhpString(At(row, 2))), PhpTruthyString))
  }

  /** A person looked up for the printable record reads exactly as in a report's person column. */
  lemma PersonLookupAsInReports(value: Value, picklist: Value, lookups: Lookups)
    requires PhpTruthy(value) && PhpTruthy(picklist) && lookups.columnCount(PhpString(picklist)) != 1
    ensures var row := lookups.person(PhpString(picklist), value);
      LoadSingleValue(value, picklist, lookups)
        == Str(ReportColumns.PersonDisplay(ReportColumns.PersonRow(At(row, 0), At(row, 1), At(row, 2))))
  {
  }

  /** `!empty($val) || $val === 0 || $val === '0'`: everything but the empty values, zero included. */
  predicate Included(v: Value) {
    PhpTruthy(v) || v == Int(0) || v == Str("0")
  }

  /** What a field shows: IsCollection as Yes or No, anything else as it is. */
  function Display(name: string, v: Value): Value {
    if name == "IsCollection" then Str(if v == Str("Y") then "Yes" else "No") else v
  }

  /** The value a field takes for one record. */
  function FieldValue(field: PrintField, record: Record, lookups: Lookups): Value {
    if PhpTruthy(field.multiple) then LoadMultipleValues(PhpString(field.picklist), lookups)
    else LoadSingleValue(Coalesce(Get(record, field.name), Str("")), field.picklist, lookups)
  }

  /** The entry a field contributes to a block. */
  function FieldEntry(field: PrintField, record: Record, lookups: Lookups): (e: seq<Entry>) {
    var v := FieldValue(field, record, lookups);
    if Included(v) then [Entry(field.caption, Display(field.name, v))] else []
  }

  /**
   * A field contributes one entry exactly when its value is included, with
   * the field's caption and, for IsCollection, Yes for 'Y' and No otherwise.
   */
  lemma FieldEntrySpec(field: PrintField, record: Record, lookups: Lookups)
    ensures var e := FieldEntry(field, record, lookups);
      var v := FieldValue(field, record, lookups);
      |e| <= 1
      && (e != [] <==> Included(v))
      && (e != [] ==> e[0].caption == field.caption)
      && (e != [] && field.name == "IsCollection" ==> e[0].display == (if v == Str("Y") then Str("Yes") else Str("No")))
      && (e != [] && field.name != "IsCollection" ==> e[0].display == v)
  {
  }

  /** The entries of a sequence of fields, in order. */
  function FieldEntries(fields: seq<PrintField>, record: Record, lookups: Lookups): (es: seq<Entry>)
    ensures |es| <= |fields|
  {
    if fields == [] then []
    else
      var init := fields[..|fields| - 1];
      FieldEntries(init, record, lookups) + FieldEntry(fields[|fields| - 1], record, lookups)
  }

  /** The fields of all rows, row after row. */
  function Flatten(rows: seq<seq<PrintField>>): seq<PrintField> {
    if rows == [] then [] else Flatten(rows[..|rows| - 1]) + rows[|rows| - 1]
  }

  lemma {:induction false} FieldEntriesAppend(a: seq<PrintField>, b: seq<PrintField>, record: Record, lookups: Lookups)
    ensures FieldEntries(a + b, record, lookups) == FieldEntries(a, record, lookups) + FieldEntries(b, record, lookups)
    decreases |b|
  {
    if b != [] {
      var init, last := b[..|b| - 1], b[|b| - 1];
      var ea, ei, el := FieldEntries(a, record, lookups), FieldEntries(init, record, lookups), FieldEntry(last, record, lookups);
      assert (a + b)[..|a + b| - 1] == a + init;
      assert (a + b)[|a + b| - 1] == last;
      assert FieldEntries(a + b, record, lookups) == FieldEntries(a + init, record, lookups) + el;
      FieldEntriesAppend(a, init, record, lookups);
      assert FieldEntries(b, record, lookups) == ei + el;
      assert (ea + ei) + el == ea + (ei + el);
    } else {
      assert a + b == a;
    }
  }

  /** A field is shown for a record exactly when its value is included, at its place in the rows. */
  lemma {:induction false} FieldEntriesMembers(fields: seq<PrintField>, record: Record, lookups: Lookups)
    ensures forall e :: e in FieldEntries(fields, record, lookups) ==>
      exists k :: 0 <= k < |fields| && FieldEntry(fields[k], record, lookups) == [e]
    decreases |fields|
  {
    if fields != [] {
      var init := fields[..|fields| - 1];
      FieldEntriesMembers(init, record, lookups);
      forall e | e in FieldEntries(fields, record, lookups)
        ensures exists k :: 0 <= k < |fields| && FieldEntry(fields[k], record, lookups) == [e]
      {
        if e in FieldEntries(init, record, lookups) {
          var k :| 0 <= k < |init| && FieldEntry(init[k], record, lookups) == [e];
          assert fields[k] == init[k];
        } else {
          var last := FieldEntry(fields[|fields| - 1], record, lookups);
          assert e in last;
          assert last == [e];
        }
      }
    }
  }

  // ---------------------------------------------------------------------
  // Blocks
  // ---------------------------------------------------------------------

  /** A multiple fieldset is titled with its singular name and covers each related record; any other covers the item. */
  function BlockTitle(fs: Fieldset): Value {
    if PhpTruthy(fs.multiple) then fs.singular else fs.name
  }

  function FieldsetRecords(fs: Fieldset, item: Record, records: Fieldset -> seq<Record>): seq<Record> {
    if PhpTruthy(fs.multiple) then records(fs) else [item]
  }

  /** One block per record that shows at least one value. */
  function RecordBlocks(title: Value, recs: seq<Record>, fields: seq<PrintField>, lookups: Lookups): (bs: seq<Block>)
    ensures |bs| <= |recs|
    ensures forall b :: b in bs ==> b.title == title && b.values != [] && |b.values| <= |fields|
  {
    if recs == [] then []
    else
      var values := FieldEntries(fields, recs[|recs| - 1], lookups);
      RecordBlocks(title, recs[..|recs| - 1], fields, lookups) + (if values != [] then [Block(title, values)] else [])
  }

  function FieldsetBlocks(fs: Fieldset, item: Record, records: Fieldset -> seq<Record>, lookups: Lookups): seq<Block> {
    RecordBlocks(BlockTitle(fs), FieldsetRecords(fs, item, records), Flatten(fs.rows), lookups)
  }

  /** The blocks of all fieldsets, in configuration order. */
  function AllBlocks(fieldsets: seq<Fieldset>, item: Record, records: Fieldset -> seq<Record>, lookups: Lookups): seq<Block> {
    if fieldsets == [] then []
    else
      AllBlocks(fieldsets[..|fieldsets| - 1], item, records, lookups)
        + FieldsetBlocks(fieldsets[|fieldsets| - 1], item, records, lookups)
  }

  lemma RecordBlocksPrefix(title: Value, recs: seq<Record>, fields: seq<PrintField>, lookups: Lookups, j: nat)
    requires j < |recs|
    ensures var values := FieldEntries(fields, recs[j], lookups);
      RecordBlocks(title, recs[..j + 1], fields, lookups)
        == RecordBlocks(title, recs[..j], fields, lookups) + (if values != [] then [Block(title, values)] else [])
  {
    assert recs[..j + 1][..j] == recs[..j];
  }

  lemma AllBlocksPrefix(fieldsets: seq<Fieldset>, item: Record, records: Fieldset -> seq<Record>, lookups: Lookups, k: nat)
    requires k < |fieldsets|
    ensures AllBlocks(fieldsets[..k + 1], item, records, lookups)
      == AllBlocks(fieldsets[..k], item, records, lookups) + FieldsetBlocks(fieldsets[k], item, records, lookups)
  {
    assert fieldsets[..k + 1][..k] == fieldsets[..k];
  }

  /** A fieldset that is not multiple gives at most one block, made from the item. */
  lemma SingleFieldsetBlock(fs: Fieldset, item: Record, records: Fieldset -> seq<Record>, lookups: Lookups)
    requires !PhpTruthy(fs.multiple)
    ensures var bs := FieldsetBlocks(fs, item, records, lookups);
      var values := FieldEntries(Flatten(fs.rows), item, lookups);
      bs == (if values != [] then [Block(fs.name, values)] else [])
  {
    assert [item][..0] == [];
  }

  /** Every block has at least one value and is titled by one of the fieldsets. */
  lemma {:induction false} BlocksShowSomething(fieldsets: seq<Fieldset>, item: Record, records: Fieldset -> seq<Record>, lookups: Lookups)
    ensures forall b :: b in AllBlocks(fieldsets, item, records, lookups) ==>
      b.values != [] && exists k :: 0 <= k < |fieldsets| && b.title == BlockTitle(fieldsets[k])
    decreases |fieldsets|
  {
    if fieldsets != [] {
      var init := fieldsets[..|fieldsets| - 1];
      var fs := fieldsets[|fieldsets| - 1];
      BlocksShowSomething(init, item, records, lookups);
      forall b | b in AllBlocks(fieldsets, item, records, lookups)
        ensures b.values != [] && exists k :: 0 <= k < |fieldsets| && b.title == BlockTitle(fieldsets[k])
      {
        if b in AllBlocks(init, item, records, lookups) {
          var k :| 0 <= k < |init| && b.title == BlockTitle(init[k]);
          assert fieldsets[k] == init[k];
        } else {
          assert b in FieldsetBlocks(fs, item, records, lookups);
          assert b.title == BlockTitle(fieldsets[|fieldsets| - 1]);
        }
      }
    }
  }

  /** The inner loop over one row's fields. */
  method AddRowEntries(values: seq<Entry>, fields: seq<PrintField>, record: Record, lookups: Lookups)
    returns (result: seq<Entry>)
    ensures result == values + FieldEntries(fields, record, lookups)
  {
    result := values;
    for i := 0 to |fields|
      invariant result == values + FieldEntries(fields[..i], record, lookups)
    {
      assert fields[..i + 1][..i] == fields[..i];
      var field := fields[i];
      var val := FieldValue(field, record, lookups);
      if Included(val) {
        val := Display(field.name, val);
        result := result + [Entry(field.caption, val)];
      }
    }
    assert fields[..|fields|] == fields;
  }

  /** The values of one record: every row's fields in turn. */
  method RecordValues(rows: seq<seq<PrintField>>, record: Record, lookups: Lookups) returns (values: seq<Entry>)
    ensures values == FieldEntries(Flatten(rows), record, lookups)
  {
    values := [];
    for r := 0 to |rows|
      invariant values == FieldEntries(Flatten(rows[..r]), record, lookups)
    {
      assert rows[..r + 1][..r] == rows[..r];
      FieldEntriesAppend(Flatten(rows[..r]), rows[r], record, lookups);
      values := AddRowEntries(values, rows[r], record, lookups);
    }
    assert rows[..|rows|] == rows;
  }

  /** The blocks the records of one fieldset give, record by record. */
  method CollectBlocks(title: Value, recs: seq<Record>, rows: seq<seq<PrintField>>, lookups: Lookups)
    returns (blocks: seq<Block>)
    ensures blocks == RecordBlocks(title, recs, Flatten(rows), lookups)
  {
    blocks := [];
    for j := 0 to |recs|
      invariant blocks == RecordBlocks(title, recs[..j], Flatten(rows), lookups)
    {
      RecordBlocksPrefix(title, recs, Flatten(rows), lookups, j);
      var values := RecordValues(rows, recs[j], lookups);
      if |values| > 0 {
        blocks := blocks + [Block(title, values)];
      }
    }
    assert recs[..|recs|] == recs;
  }

  /** The loop of load_blocks(): every fieldset in turn. */
  method CollectAllBlocks(fieldsets: seq<Fieldset>, item: Record, records: Fieldset -> seq<Record>, lookups: Lookups)
    returns (blocks: seq<Block>)
    ensures blocks == AllBlocks(fieldsets, item, records, lookups)
  {
    blocks := [];
    for k := 0 to |fieldsets|
      invariant blocks == AllBlocks(fieldsets[..k], item, records, lookups)
    {
      AllBlocksPrefix(fieldsets, item, records, lookups, k);
      var fs := fieldsets[k];
      var added := CollectBlocks(BlockTitle(fs), FieldsetRecords(fs, item, records), fs.rows, lookups);
      blocks := blocks + added;
    }
    assert fieldsets[..|fieldsets|] == fieldsets;
  }

  /** The response of the print endpoint. */
  datatype PrintResponse = PrintResponse(status: string, title: string, id: Value, blocks: seq<Block>)

  class Job {
    var id: Value
    var item: Record
    var blocks: seq<Block>

    /** The job for one item: its blocks are loaded at once. */
    constructor(recordId: Value, itemRow: Record, fieldsets: seq<Fieldset>,
                records: Fieldset -> seq<Record>, lookups: Lookups)
      ensures id == recordId && item == itemRow
      ensures blocks == AllBlocks(fieldsets, itemRow, records, lookups)
    {
      id := recordId;
      item := itemRow;
      blocks := [];
      new;
      ghost var all := AllBlocks(fieldsets, itemRow, records, lookups);
      assert [] + all == all;
      LoadBlocks(fieldsets, records, lookups);
    }

    /** load_blocks(): the blocks of every fieldset, appended to the job's blocks. */
    method LoadBlocks(fieldsets: seq<Fieldset>, records: Fieldset -> seq<Record>, lookups: Lookups)
      modifies this
      ensures id == old(id) && item == old(item)
      ensures blocks == old(blocks) + AllBlocks(fieldsets, item, records, lookups)
    {
      var added := CollectAllBlocks(fieldsets, item, records, lookups);
      blocks := blocks + added;
    }

    /** get(): the trimmed item title, the id and the blocks. */
    method Response() returns (r: PrintResponse)
      ensures r == PrintResponse("success", PhpTrim(PhpString(Values.Get(item, "ItemTitle"))), id, blocks)
    {
      r := PrintResponse("success", PhpTrim(PhpString(Values.Get(item, "ItemTitle"))), id, blocks);
    }
  }
}
