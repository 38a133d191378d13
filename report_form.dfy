/**
 * The report request form: the defaults its fields start with, the
 * parameter map a submitted request carries, the reset to defaults, and
 * what happens with the request id the API returns.
 */
module ReportForm {
  import opened Text
  import opened Values
  import opened Forms
  import Validation
  import FrontRequests
  import Utilities

  /** The report part of the configuration: its fieldsets and the default column choice. */
  datatype ReportConfig = ReportConfig(fieldsets: seq<FormFieldset>, defaultColumns: seq<string>)

  const ColumnsField := "report-columns"

  /** The companion parameter holding a filter's operator. */
  function LogicName(name: string): string { name + "-logic" }

  /** The keys one field may set: its own name and its "-logic" companion. */
  predicate TouchedBy(field: FormField, key: string) {
    key == field.name || key == LogicName(field.name)
  }

  // ---------------------------------------------------------------------
  // Visiting every field
  // ---------------------------------------------------------------------

  /**
   * The map the nested `forEach` loops build when each field contributes
   * some entries: field after field, a later entry replacing an earlier
   * one of the same key.
   */
  function Accumulate(fields: seq<FormField>, entries: FormField -> map<string, Value>): map<string, Value> {
    if fields == [] then map[]
    else
      var n := |fields| - 1;
      Accumulate(fields[..n], entries) + entries(fields[n])
  }

  /** Accumulating over two runs of fields: the second run's entries over the first's. */
  lemma {:induction false} AccumulateAppend(a: seq<FormField>, b: seq<FormField>, entries: FormField -> map<string, Value>)
    ensures Accumulate(a + b, entries) == Accumulate(a, entries) + Accumulate(b, entries)
    decreases |b|
  {
    if b == [] {
      assert a + b == a;
    } else {
      var n := |b| - 1;
      var ab := a + b;
      var last := entries(b[n]);
      assert ab[..|ab| - 1] == a + b[..n] && ab[|ab| - 1] == b[n];
      assert Accumulate(ab, entries) == Accumulate(a + b[..n], entries) + last;
      AccumulateAppend(a, b[..n], entries);
      UnionAssociative(Accumulate(a, entries), Accumulate(b[..n], entries), last);
    }
  }

  lemma UnionAssociative(a: map<string, Value>, b: map<string, Value>, c: map<string, Value>)
    ensures (a + b) + c == a + (b + c)
  {
  }

  /** The innermost loop: the entries of one row's fields, in order. */
  method AddRow(acc: map<string, Value>, row: seq<FormField>, entries: FormField -> map<string, Value>)
    returns (r: map<string, Value>)
    ensures r == acc + Accumulate(row, entries)
  {
    r := acc;
    for k := 0 to |row|
      invariant r == acc + Accumulate(row[..k], entries)
    {
      assert row[..k + 1][..k] == row[..k];
      r := r + entries(row[k]);
    }
    assert row[..|row|] == row;
  }

  /** The loop over the rows of one fieldset. */
  method AddFieldset(acc: map<string, Value>, rows: seq<seq<FormField>>, entries: FormField -> map<string, Value>)
    returns (r: map<string, Value>)
    ensures r == acc + Accumulate(RowFields(rows), entries)
  {
    r := acc;
    for j := 0 to |rows|
      invariant r == acc + Accumulate(RowFields(rows[..j]), entries)
    {
      assert rows[..j + 1][..j] == rows[..j];
      ghost var done := Accumulate(RowFields(rows[..j]), entries);
      assert RowFields(rows[..j + 1]) == RowFields(rows[..j]) + rows[j];
      AccumulateAppend(RowFields(rows[..j]), rows[j], entries);
      r := AddRow(r, rows[j], entries);
      UnionAssociative(acc, done, Accumulate(rows[j], entries));
    }
    assert rows[..|rows|] == rows;
  }

  /** The loops over fieldsets, rows and fields, adding each field's entries. */
  method CollectEntries(fieldsets: seq<FormFieldset>, entries: FormField -> map<string, Value>)
    returns (acc: map<string, Value>)
    ensures acc == Accumulate(AllFields(fieldsets), entries)
  {
    acc := map[];
    for i := 0 to |fieldsets|
      invariant acc == Accumulate(AllFields(fieldsets[..i]), entries)
    {
      assert fieldsets[..i + 1][..i] == fieldsets[..i];
      assert AllFields(fieldsets[..i + 1]) == AllFields(fieldsets[..i]) + RowFields(fieldsets[i].rows);
      AccumulateAppend(AllFields(fieldsets[..i]), RowFields(fieldsets[i].rows), entries);
      acc := AddFieldset(acc, fieldsets[i].rows, entries);
    }
    assert fieldsets[..|fieldsets|] == fieldsets;
  }

  /** No field's keys are another field's: names differ, and no name is another's "-logic" companion. */
  predicate SeparateKeys(fields: seq<FormField>) {
    forall i, j :: 0 <= i < |fields| && 0 <= j < |fields| && i != j ==>
      fields[i].name != fields[j].name && fields[i].name != LogicName(fields[j].name)
  }

  /**
   * With separate keys, each key of the map is set by exactly the field
   * that owns it, and holds that field's entry.
   */
  lemma {:induction false} AccumulateAt(fields: seq<FormField>, entries: FormField -> map<string, Value>, i: nat, key: string)
    requires forall f, key :: key in entries(f) ==> TouchedBy(f, key)
    requires SeparateKeys(fields) && i < |fields| && TouchedBy(fields[i], key)
    ensures key in Accumulate(fields, entries) <==> key in entries(fields[i])
    ensures key in entries(fields[i]) ==> Accumulate(fields, entries)[key] == entries(fields[i])[key]
    decreases |fields|
  {
    var n := |fields| - 1;
    var init := fields[..n];
    assert SeparateKeys(init) by {
      forall a, b | 0 <= a < |init| && 0 <= b < |init| && a != b
        ensures init[a].name != init[b].name && init[a].name != LogicName(init[b].name)
      {
        assert init[a] == fields[a] && init[b] == fields[b];
      }
    }
    OthersDoNotSet(fields, entries, i, key);
    if i < n {
      assert init[i] == fields[i];
      AccumulateAt(init, entries, i, key);
    } else {
      forall j | 0 <= j < |init| ensures key !in entries(init[j]) {
        assert init[j] == fields[j];
      }
      AccumulateUnset(init, entries, key);
    }
  }

  /** With separate keys, no other field sets a key its owner may set. */
  lemma OthersDoNotSet(fields: seq<FormField>, entries: FormField -> map<string, Value>, i: nat, key: string)
    requires forall f, key :: key in entries(f) ==> TouchedBy(f, key)
    requires SeparateKeys(fields) && i < |fields| && TouchedBy(fields[i], key)
    ensures forall j :: 0 <= j < |fields| && j != i ==> key !in entries(fields[j])
  {
    forall j | 0 <= j < |fields| && j != i ensures key !in entries(fields[j]) {
      assert fields[j].name != fields[i].name && fields[j].name != LogicName(fields[i].name);
      assert fields[i].name != LogicName(fields[j].name);
      LogicNamesDiffer(fields[i].name, fields[j].name);
      assert !TouchedBy(fields[j], key);
    }
  }

  /** A key no field sets is not in the map. */
  lemma {:induction false} AccumulateUnset(fields: seq<FormField>, entries: FormField -> map<string, Value>, key: string)
    requires forall j :: 0 <= j < |fields| ==> key !in entries(fields[j])
    ensures key !in Accumulate(fields, entries)
    decreases |fields|
  {
    if fields != [] {
      var n := |fields| - 1;
      forall j | 0 <= j < n ensures key !in entries(fields[..n][j]) {
        assert fields[..n][j] == fields[j];
      }
      AccumulateUnset(fields[..n], entries, key);
    }
  }

  /** Two names with the same "-logic" companion are the same name. */
  lemma LogicNamesDiffer(a: string, b: string)
    requires a != b
    ensures LogicName(a) != LogicName(b)
  {
    assert LogicName(a)[..|a|] == a && LogicName(b)[..|b|] == b;
  }

  /** Every key of the map was set by some field. */
  lemma {:induction false} AccumulateKeys(fields: seq<FormField>, entries: FormField -> map<string, Value>, key: string)
    requires key in Accumulate(fields, entries)
    ensures exists i :: 0 <= i < |fields| && key in entries(fields[i])
    decreases |fields|
  {
    var n := |fields| - 1;
    if key !in entries(fields[n]) {
      AccumulateKeys(fields[..n], entries, key);
      var i :| 0 <= i < n && key in entries(fields[..n][i]);
      assert fields[..n][i] == fields[i];
    }
  }

  // ---------------------------------------------------------------------
  // Defaults
  // ---------------------------------------------------------------------

  /** A selected value that counts: any truthy one, and also the empty string. */
  predicate Chosen(selected: Value) { JsTruthy(selected) || selected == Str("") }

  /**
   * The defaults one field sets: its default, then its selected value
   * over it (even an empty one), and the selected operator of its logic.
   */
  function DefaultEntries(field: FormField): (m: map<string, Value>)
    ensures forall key :: key in m ==> TouchedBy(field, key)
  {
    var m := if JsTruthy(field.default) then map[field.name := field.default] else map[];
    var m := if Chosen(field.selected) then m[field.name := field.selected] else m;
    if field.logic.Some? then m[LogicName(field.name) := field.logic.value] else m
  }

  /** The form's initial data. */
  function Defaults(config: ReportConfig): map<string, Value> {
    Accumulate(AllFields(config.fieldsets), DefaultEntries)
  }

  /**
   * A field starts with its selected value when it has one, even '';
   * otherwise with its truthy default; otherwise it is absent. Its
   * operator starts as the logic's selected one.
   */
  lemma DefaultsSpec(config: ReportConfig, i: nat)
    requires SeparateKeys(AllFields(config.fieldsets)) && i < |AllFields(config.fieldsets)|
    ensures var field := AllFields(config.fieldsets)[i];
      var d := Defaults(config);
      (field.name in d <==> Chosen(field.selected) || JsTruthy(field.default))
      && (Chosen(field.selected) ==> d[field.name] == field.selected)
      && (!Chosen(field.selected) && JsTruthy(field.default) ==> d[field.name] == field.default)
      && (LogicName(field.name) in d <==> field.logic.Some?)
      && (field.logic.Some? ==> d[LogicName(field.name)] == field.logic.value)
  {
    var fields := AllFields(config.fieldsets);
    var field := fields[i];
    AccumulateAt(fields, DefaultEntries, i, field.name);
    AccumulateAt(fields, DefaultEntries, i, LogicName(field.name));
    assert field.name != LogicName(field.name) by {
      assert |LogicName(field.name)| == |field.name| + 6;
    }
  }

  // ---------------------------------------------------------------------
  // The request
  // ---------------------------------------------------------------------

  /** A value that is sent: truthy, or the number 0, or the string '0'. */
  predicate Sent(v: Value) { JsTruthy(v) || v == Int(0) || v == Str("0") }

  /** The column list as a JSON array of names. */
  function ColumnList(columns: seq<string>): (v: Value)
    ensures v.List? && |v.items| == |columns|
    ensures forall k :: 0 <= k < |columns| ==> v.items[k] == Str(columns[k])
  {
    List(seq(|columns|, k requires 0 <= k < |columns| => Str(columns[k])))
  }

  /**
   * The parameters one field adds: the ordered column list for the column
   * field; otherwise its value when sent, and its operator with it.
   */
  function ParmEntries(formData: Record, columns: seq<string>, field: FormField): (m: map<string, Value>)
    ensures forall key :: key in m ==> TouchedBy(field, key)
  {
    var value := Coalesce(Get(formData, field.name), Null);
    if field.name == ColumnsField then map[field.name := ColumnList(columns)]
    else if Sent(value) then
      var m := map[field.name := value];
      if field.logic.Some? then m[LogicName(field.name) := Get(formData, LogicName(field.name))] else m
    else map[]
  }

  function Parms(config: ReportConfig, formData: Record, columns: seq<string>): map<string, Value> {
    Accumulate(AllFields(config.fieldsets), f => ParmEntries(formData, columns, f))
  }

  /**
   * The column choice is always sent, as the ordered list; any other field
   * is sent exactly when its value is, and its operator exactly along with
   * it.
   */
  lemma ParmsSpec(config: ReportConfig, formData: Record, columns: seq<string>, i: nat)
    requires SeparateKeys(AllFields(config.fieldsets)) && i < |AllFields(config.fieldsets)|
    ensures var field := AllFields(config.fieldsets)[i];
      var p := Parms(config, formData, columns);
      var value := Get(formData, field.name);
      (field.name == ColumnsField ==> field.name in p && p[field.name] == ColumnList(columns))
      && (field.name != ColumnsField ==>
            (field.name in p <==> Sent(value))
            && (field.name in p ==> p[field.name] == value)
            && (LogicName(field.name) in p <==> Sent(value) && field.logic.Some?)
            && (LogicName(field.name) in p ==> p[LogicName(field.name)] == Get(formData, LogicName(field.name))))
  {
    var fields := AllFields(config.fieldsets);
    var field := fields[i];
    var entries := f => ParmEntries(formData, columns, f);
    assert forall f, key :: key in entries(f) ==> TouchedBy(f, key);
    AccumulateAt(fields, entries, i, field.name);
    AccumulateAt(fields, entries, i, LogicName(field.name));
    assert field.name != LogicName(field.name) by {
      assert |LogicName(field.name)| == |field.name| + 6;
    }
  }

  /** Nothing but the form's own fields and their operators is sent. */
  lemma ParmsKeys(config: ReportConfig, formData: Record, columns: seq<string>, key: string)
    requires key in Parms(config, formData, columns)
    ensures exists i :: 0 <= i < |AllFields(config.fieldsets)| && TouchedBy(AllFields(config.fieldsets)[i], key)
  {
    var fields := AllFields(config.fieldsets);
    var entries := f => ParmEntries(formData, columns, f);
    AccumulateKeys(fields, entries, key);
    var i :| 0 <= i < |fields| && key in entries(fields[i]);
    assert TouchedBy(fields[i], key);
  }

  /** The body of the report request: the account and the parameters. */
  datatype ReportRequest = ReportRequest(user: Value, parms: map<string, Value>)

  /**
   * submitRequest(): no request when the form has validation errors;
   * otherwise the account and the parameters.
   */
  function SubmitRequest(config: ReportConfig, formData: Record, columns: seq<string>, user: Value,
                         patterns: Validation.Patterns): (r: Option<ReportRequest>)
    ensures r.Some? <==> Validation.FormErrors(AllFields(config.fieldsets), formData, columns, patterns) == map[]
    ensures r.Some? ==> r.value == ReportRequest(user, Parms(config, formData, columns))
  {
    if Validation.FormErrors(AllFields(config.fieldsets), formData, columns, patterns) == map[]
    then Some(ReportRequest(user, Parms(config, formData, columns)))
    else None
  }

  /** A form with a column field cannot be submitted without a column. */
  lemma NoColumnsNoRequest(config: ReportConfig, formData: Record, user: Value, patterns: Validation.Patterns, i: nat)
    requires i < |AllFields(config.fieldsets)|
    requires AllFields(config.fieldsets)[i].name == ColumnsField && AllFields(config.fieldsets)[i].fieldset == ""
    ensures SubmitRequest(config, formData, [], user, patterns) == None
  {
    var fields := AllFields(config.fieldsets);
    Validation.FormErrorsEmpty(fields, formData, [], patterns);
    assert !Validation.FieldPasses(fields[i], formData, [], patterns);
  }

  // ---------------------------------------------------------------------
  // After the request is stored
  // ---------------------------------------------------------------------

  /** What the page does with the stored request: download the workbook, or open the report page. */
  datatype Destination = Download(url: string) | OpenReport(url: string)

  /** The excel format downloads the report from the API; any other format opens the report page. */
  function AfterSubmit(parms: map<string, Value>, requestId: Value, debugging: bool): (r: Destination)
    ensures r.Download? <==> Get(parms, "report-format") == Str("excel")
    ensures r.Download? ==> r.url == "/library/api/report/" + JsString(requestId) + FrontRequests.Debug(debugging)
    ensures r.OpenReport? ==> r.url == "/library/report/" + JsString(requestId) + FrontRequests.Debug(debugging)
  {
    if Get(parms, "report-format") == Str("excel")
    then Download("/library/api/report/" + JsString(requestId) + FrontRequests.Debug(debugging))
    else OpenReport("/library/report/" + JsString(requestId) + FrontRequests.Debug(debugging))
  }

  /** The download reaches the API's report endpoint with the stored request's id. */
  lemma DownloadRouted(parms: map<string, Value>, requestId: int, debugging: bool, recordTypes: map<string, Value>)
    requires Get(parms, "report-format") == Str("excel") && requestId > 0
    ensures var r := Utilities.ParseRequest(AfterSubmit(parms, Int(requestId), debugging).url, recordTypes);
      r.Ok? && r.value.endpoint == Str("report") && r.value.recordId == Str(IntToString(requestId))
  {
    FrontRequests.NumericIdPathPart(requestId);
    assert FrontRequests.PathPart("report") by { assert NoneOf("report", "/?"); }
    FrontRequests.UpdateRouted("report", Int(requestId), debugging, recordTypes);
    DownloadUrl(parms, requestId, debugging);
  }

  /** The download URL is the URI a save of the request's own record would use. */
  lemma DownloadUrl(parms: map<string, Value>, requestId: int, debugging: bool)
    requires Get(parms, "report-format") == Str("excel") && requestId > 0
    ensures AfterSubmit(parms, Int(requestId), debugging).url
      == FrontRequests.SaveRequestFor("report", Int(requestId), debugging).uri
  {
    FrontRequests.SaveUri("report", Int(requestId), debugging);
  }

  // ---------------------------------------------------------------------
  // Form state
  // ---------------------------------------------------------------------

  /** The form's state: the field values and the ordered column choice. */
  class ReportsScreen {
    const config: ReportConfig
    var formData: map<string, Value>
    var columns: seq<string>

    /** The form opens with the defaults and the default columns. */
    constructor (config: ReportConfig)
      ensures this.config == config
      ensures formData == Defaults(config) && columns == config.defaultColumns
    {
      this.config := config;
      formData := Defaults(config);
      columns := config.defaultColumns;
    }

    /** onChange(): the named field takes the new value. */
    method OnChange(name: string, value: Value)
      modifies this`formData
      ensures formData == old(formData)[name := value]
    {
      formData := formData[name := value];
    }

    /** The column picker replaces the column choice. */
    method SetColumns(chosen: seq<string>)
      modifies this`columns
      ensures columns == chosen
    {
      columns := chosen;
    }

    /** onClear(): back to the defaults and the default columns, whatever was changed. */
    method OnClear()
      modifies this`formData, this`columns
      ensures formData == Defaults(config) && columns == config.defaultColumns
    {
      formData := Defaults(config);
      columns := config.defaultColumns;
    }
  }
}
