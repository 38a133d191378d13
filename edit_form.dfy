/**
 * The catalogue's editing form: how a change event updates the form
 * data (a plain field, the collection checkbox, or a field of one
 * instance of a repeated fieldset), how instances are added and removed,
 * the legend of each instance, and the field list validated on save.
 */
module EditForm {
  import opened Text
  import opened Values
  import opened Forms
  import Validation
  import FormRow

  // ---------------------------------------------------------------------
  // Change events
  // ---------------------------------------------------------------------

  /** The parts of `e.target` that handleChange() reads. */
  datatype ChangeEvent = ChangeEvent(name: string, value: Value, checked: bool)

  const CollectionFlag := "IsCollection"

  /** The value a top-level control stores: the collection checkbox stores "Y" or "N". */
  function TopValue(e: ChangeEvent): (v: Value)
    ensures e.name == CollectionFlag ==> (v == Str("Y") <==> e.checked) && (v == Str("N") <==> !e.checked)
    ensures e.name != CollectionFlag ==> v == e.value
  {
    if e.name == CollectionFlag then Str(if e.checked then "Y" else "N") else e.value
  }

  /**
   * `newState[fieldset][position]`: the instance a position names, when
   * the fieldset holds an array, the position is an array index within it
   * and the element is an object. Anything else makes the assignment
   * throw a TypeError.
   */
  function InstanceAt(formData: Record, fieldset: string, position: string): (r: Option<nat>)
    ensures r.Some? ==>
      && fieldset in formData && formData[fieldset].List?
      && r.value < |formData[fieldset].items| && formData[fieldset].items[r.value].Obj?
      && position == NatToString(r.value)
  {
    if fieldset in formData && formData[fieldset].List? && IsCanonicalNat(position)
      && DigitsValue(position) < |formData[fieldset].items|
      && formData[fieldset].items[DigitsValue(position)].Obj?
    then
      CanonicalNatRoundTrip(position);
      Some(DigitsValue(position))
    else None
  }

  /** The form data with field `name` of instance `index` of a fieldset set to a value. */
  function SetInstanceField(formData: Record, fieldset: string, index: nat, name: string, value: Value): (r: Record)
    requires fieldset in formData && formData[fieldset].List?
    requires index < |formData[fieldset].items| && formData[fieldset].items[index].Obj?
    ensures r.Keys == formData.Keys && r[fieldset].List?
    ensures forall key :: key in formData && key != fieldset ==> r[key] == formData[key]
  {
    var items := formData[fieldset].items;
    var instance := items[index].fields;
    formData[fieldset := List(items[index := Obj(instance[name := value])])]
  }

  /**
   * handleChange(): a name of exactly three "__" parts updates one field
   * of one instance of a repeated fieldset; any other name updates the
   * top-level entry of that name. A nested name that does not reach an
   * object instance is a TypeError.
   */
  function HandleChange(formData: Record, e: ChangeEvent): (r: Result<Record>)
    ensures |Split(e.name, Separator)| != 3 ==>
      && r.Ok?
      && r.value.Keys == formData.Keys + {e.name} && r.value[e.name] == TopValue(e)
      && forall key :: key in formData && key != e.name ==> r.value[key] == formData[key]
    ensures |Split(e.name, Separator)| == 3 ==>
      var parts := Split(e.name, Separator);
      (r.Ok? <==> InstanceAt(formData, parts[0], parts[1]).Some?)
      && (r.Ok? ==> r.value.Keys == formData.Keys
                    && forall key :: key in formData && key != parts[0] ==> r.value[key] == formData[key])
  {
    var parts := Split(e.name, Separator);
    if |parts| == 3 then
      match InstanceAt(formData, parts[0], parts[1])
      case Some(index) => Ok(SetInstanceField(formData, parts[0], index, parts[2], e.value))
      case None => Err("TypeError")
    else
      Ok(formData[e.name := TopValue(e)])
  }

  /**
   * The control a FormRow names for field `name` of instance `index`
   * updates exactly that field of that instance: every other instance and
   * every other field keeps its value.
   */
  lemma NestedChangeRoundTrip(formData: Record, fieldset: string, index: nat, name: string, value: Value, checked: bool)
    requires fieldset != "" && PlainPart(fieldset) && PlainPart(name)
    requires fieldset in formData && formData[fieldset].List?
    requires index < |formData[fieldset].items| && formData[fieldset].items[index].Obj?
    ensures var r := HandleChange(formData, ChangeEvent(FieldName(fieldset, index, name), value, checked));
      var before := formData[fieldset].items;
      r.Ok? && r.value[fieldset].List? && |r.value[fieldset].items| == |before|
      && r.value[fieldset].items[index].Obj?
      && r.value[fieldset].items[index].fields == before[index].fields[name := value]
      && (forall j :: 0 <= j < |before| && j != index ==> r.value[fieldset].items[j] == before[j])
  {
    var parts := Split(FieldName(fieldset, index, name), Separator);
    assert parts == [fieldset, NatToString(index), name];
    NatToStringValue(index);
    assert InstanceAt(formData, fieldset, NatToString(index)) == Some(index);
  }

  /** The collection checkbox round trip: the stored flag renders the box as it was clicked. */
  lemma CollectionCheckboxRoundTrip(formData: Record, value: Value, checked: bool, field: FormField)
    requires field.name == CollectionFlag
    ensures var r := HandleChange(formData, ChangeEvent(CollectionFlag, value, checked));
      r.Ok? && FormRow.Checked(r.value, field) == checked
  {
    assert Split(CollectionFlag, Separator) == [CollectionFlag] by {
      assert NoneOf(CollectionFlag, Separator);
      SplitJoin([CollectionFlag], Separator);
    }
  }

  // ---------------------------------------------------------------------
  // Adding and removing instances
  // ---------------------------------------------------------------------

  /** The placeholder a new instance starts as. */
  const NewInstance := Obj(map["newInstance" := Bool(true)])

  /** A fieldset slot that the array spread accepts: missing, falsy or an array. */
  predicate Spreadable(v: Value) { !JsTruthy(v) || v.List? }

  /** `formData[name] ? [...formData[name]] : []`. */
  function CurrentInstances(formData: Record, name: string): seq<Value> {
    var v := Get(formData, name);
    if JsTruthy(v) && v.List? then v.items else []
  }

  /**
   * addNewInstance(): the fieldset's instances with one new placeholder
   * appended, an empty array made first when there is none.
   */
  function AddNewInstance(formData: Record, name: string): (r: Record)
    requires Spreadable(Get(formData, name))
    ensures r.Keys == formData.Keys + {name}
    ensures r[name].List? && r[name].items == CurrentInstances(formData, name) + [NewInstance]
    ensures forall key :: key in formData && key != name ==> r[key] == formData[key]
  {
    formData[name := List(CurrentInstances(formData, name) + [NewInstance])]
  }

  /** `[...a].splice(i, 1)` for an index of the array: the element at i taken out. */
  function Without(items: seq<Value>, i: nat): (r: seq<Value>)
    requires i < |items|
    ensures |r| == |items| - 1
    ensures forall k :: 0 <= k < i ==> r[k] == items[k]
    ensures forall k :: i <= k < |r| ==> r[k] == items[k + 1]
  {
    items[..i] + items[i + 1..]
  }

  /** takeOutTrash(): the instance at index i removed, the others kept in order. */
  function TakeOutTrash(formData: Record, name: string, i: nat): (r: Record)
    requires name in formData && formData[name].List? && i < |formData[name].items|
    ensures r.Keys == formData.Keys
    ensures r[name].List? && r[name].items == Without(formData[name].items, i)
    ensures forall key :: key in formData && key != name ==> r[key] == formData[key]
  {
    formData[name := List(Without(formData[name].items, i))]
  }

  /** Trashing the instance just added gives back the form data as it was. */
  lemma TrashUndoesAdd(formData: Record, name: string)
    requires name in formData && formData[name].List?
    ensures var added := AddNewInstance(formData, name);
      TakeOutTrash(added, name, |formData[name].items|) == formData
  {
    var added := AddNewInstance(formData, name);
    var items := formData[name].items;
    assert CurrentInstances(formData, name) == items;
    assert Without(items + [NewInstance], |items|) == items;
  }

  // ---------------------------------------------------------------------
  // Legends of the instances
  // ---------------------------------------------------------------------

  /** The repeated fieldsets that have a legend rule. */
  predicate Labelled(fieldset: string) {
    fieldset in {"Performances", "Inventories", "Parts", "Loans"}
  }

  /** The field a legend names its instance by. */
  function LegendKey(fieldset: string): string {
    match fieldset
    case "Performances" => "PerformanceDate"
    case "Inventories" => "InStockDate"
    case "Parts" => "PartName"
    case _ => "LoanRecipient"
  }

  /** The name of one instance of a fieldset. */
  function Subject(fieldset: string): string {
    match fieldset
    case "Performances" => "Performance"
    case "Inventories" => "Inventory"
    case "Parts" => "Part"
    case _ => "Loan"
  }

  /** The legend of an instance saved without its naming field. */
  function Fallback(fieldset: string): string {
    match fieldset
    case "Performances" => "Undated Performance"
    case "Inventories" => "Undated Inventory"
    case "Parts" => "Unnamed Part"
    case _ => "Loan To Anonymous Recipient"
  }

  /** `s.substring(0, 4)`: the year of a date string. */
  function Year(date: string): (y: string)
    ensures |y| == if |date| < 4 then |date| else 4
    ensures y <= date
  {
    date[..if |date| < 4 then |date| else 4]
  }

  const Incomplete := "makeLengendLabel() incomplete"

  /**
   * makeLegendLabel(): a dated instance shows its year, a named one its
   * name; without that field an instance not yet saved (no LibraryItem)
   * is "New …", a saved one gets the fallback.
   */
  function MakeLegendLabel(fieldset: string, values: Record): (r: string)
    ensures !Labelled(fieldset) ==> r == Incomplete
  {
    var key := Get(values, LegendKey(fieldset));
    var saved := JsTruthy(Get(values, "LibraryItem"));
    match fieldset
    case "Performances" =>
      if JsTruthy(key) then Year(JsString(key)) + " Performance"
      else if !saved then "New Performance" else "Undated Performance"
    case "Inventories" =>
      if JsTruthy(key) then Year(JsString(key)) + " Inventory"
      else if !saved then "New Inventory" else "Undated Inventory"
    case "Parts" =>
      if JsTruthy(key) then "Part For " + JsString(key)
      else if !saved then "New Part" else "Unnamed Part"
    case "Loans" =>
      if JsTruthy(key) then "Loan To " + JsString(key)
      else if !saved then "New Loan" else "Loan To Anonymous Recipient"
    case _ => Incomplete
  }

  /**
   * The legend of an instance of a labelled fieldset: the year and subject
   * of a dated performance or inventory, the part or recipient when named;
   * without that field, "New …" before the instance is saved, the fallback
   * after.
   */
  lemma LegendLabelSpec(fieldset: string, values: Record)
    requires Labelled(fieldset)
    ensures var r := MakeLegendLabel(fieldset, values);
      var key := Get(values, LegendKey(fieldset));
      (JsTruthy(key) && fieldset in {"Performances", "Inventories"} ==> r == Year(JsString(key)) + " " + Subject(fieldset))
      && (JsTruthy(key) && fieldset == "Parts" ==> r == "Part For " + JsString(key))
      && (JsTruthy(key) && fieldset == "Loans" ==> r == "Loan To " + JsString(key))
      && (!JsTruthy(key) ==>
            r == if JsTruthy(Get(values, "LibraryItem")) then Fallback(fieldset) else "New " + Subject(fieldset))
  {
    var key := Get(values, LegendKey(fieldset));
    if JsTruthy(key) && fieldset in {"Performances", "Inventories"} {
      var year := Year(JsString(key));
      if fieldset == "Performances" {
        assert year + " Performance" == year + " " + "Performance";
      } else {
        assert year + " Inventory" == year + " " + "Inventory";
      }
    } else if !JsTruthy(key) {
      assert "New Performance" == "New " + "Performance";
      assert "New Inventory" == "New " + "Inventory";
      assert "New Part" == "New " + "Part";
      assert "New Loan" == "New " + "Loan";
    }
  }

  /** The instance addNewInstance() appends is labelled as new. */
  lemma NewInstanceLabel(formData: Record, fieldset: string)
    requires Labelled(fieldset) && Spreadable(Get(formData, fieldset))
    ensures var items := AddNewInstance(formData, fieldset)[fieldset].items;
      items[|items| - 1].Obj?
      && MakeLegendLabel(fieldset, items[|items| - 1].fields) == "New " + Subject(fieldset)
  {
    var items := AddNewInstance(formData, fieldset)[fieldset].items;
    assert items[|items| - 1] == NewInstance;
    var fields := NewInstance.fields;
    assert LegendKey(fieldset) != "newInstance" && "LibraryItem" != "newInstance";
    assert Get(fields, LegendKey(fieldset)) == Null;
    assert Get(fields, "LibraryItem") == Null;
    LegendLabelSpec(fieldset, fields);
  }

  /** A dated performance or inventory is labelled by the first four characters of its date. */
  lemma DatedLabel(fieldset: string, values: Record, date: string)
    requires fieldset in {"Performances", "Inventories"}
    requires Get(values, LegendKey(fieldset)) == Str(date) && |date| >= 4
    ensures MakeLegendLabel(fieldset, values) == date[..4] + " " + Subject(fieldset)
  {
    LegendLabelSpec(fieldset, values);
    assert Year(JsString(Str(date))) == date[..4];
  }

  // ---------------------------------------------------------------------
  // Saving
  // ---------------------------------------------------------------------

  /** `{ ...field, fieldset: fieldset.name }` for a field of a repeated fieldset. */
  function Tag(fieldset: FormFieldset, field: FormField): FormField {
    if fieldset.multiple then field.(fieldset := fieldset.name) else field
  }

  /** The fields of some rows of one fieldset, each tagged. */
  function TaggedRows(fieldset: FormFieldset, rows: seq<seq<FormField>>): (r: seq<FormField>)
    ensures |r| == |RowFields(rows)|
    ensures forall k :: 0 <= k < |r| ==> r[k] == Tag(fieldset, RowFields(rows)[k])
  {
    if rows == [] then []
    else
      var n := |rows| - 1;
      var r := TaggedRows(fieldset, rows[..n]) + TaggedRow(fieldset, rows[n]);
      assert RowFields(rows) == RowFields(rows[..n]) + rows[n];
      r
  }

  /** The fields of one row, each tagged. */
  function TaggedRow(fieldset: FormFieldset, row: seq<FormField>): (r: seq<FormField>)
    ensures |r| == |row| && forall k :: 0 <= k < |row| ==> r[k] == Tag(fieldset, row[k])
  {
    seq(|row|, k requires 0 <= k < |row| => Tag(fieldset, row[k]))
  }

  /** The rows loop of handleSaveItem(): one more row appends that row's tagged fields. */
  lemma TaggedRowsStep(fieldset: FormFieldset, rows: seq<seq<FormField>>, j: nat)
    requires j < |rows|
    ensures TaggedRows(fieldset, rows[..j + 1]) == TaggedRows(fieldset, rows[..j]) + TaggedRow(fieldset, rows[j])
  {
    assert rows[..j + 1][..j] == rows[..j];
  }

  /** The fields loop of handleSaveItem(): one more field appends it, tagged. */
  lemma TaggedRowStep(fieldset: FormFieldset, row: seq<FormField>, k: nat)
    requires k < |row|
    ensures TaggedRow(fieldset, row[..k + 1]) == TaggedRow(fieldset, row[..k]) + [Tag(fieldset, row[k])]
  {
  }

  /** The fields handleSaveItem() validates, fieldset after fieldset and row after row. */
  function TaggedFields(fieldsets: seq<FormFieldset>): (r: seq<FormField>)
    ensures |r| == |AllFields(fieldsets)|
    ensures forall k :: 0 <= k < |r| ==> r[k].name == AllFields(fieldsets)[k].name
  {
    if fieldsets == [] then []
    else
      var n := |fieldsets| - 1;
      var r := TaggedFields(fieldsets[..n]) + TaggedRows(fieldsets[n], fieldsets[n].rows);
      assert AllFields(fieldsets) == AllFields(fieldsets[..n]) + RowFields(fieldsets[n].rows);
      r
  }

  /**
   * handleSaveItem(): the nested loops copy every field of the
   * configuration, tagging those of repeated fieldsets with the fieldset's
   * name.
   */
  method CollectFields(fieldsets: seq<FormFieldset>) returns (fields: seq<FormField>)
    ensures fields == TaggedFields(fieldsets)
  {
    fields := [];
    for i := 0 to |fieldsets|
      invariant fields == TaggedFields(fieldsets[..i])
    {
      TaggedFieldsStep(fieldsets, i);
      fields := AddTaggedRows(fields, fieldsets[i]);
    }
    assert fieldsets[..|fieldsets|] == fieldsets;
  }

  /** The rows loop of handleSaveItem() for one fieldset. */
  method AddTaggedRows(fields: seq<FormField>, fieldset: FormFieldset) returns (r: seq<FormField>)
    ensures r == fields + TaggedRows(fieldset, fieldset.rows)
  {
    r := fields;
    for j := 0 to |fieldset.rows|
      invariant r == fields + TaggedRows(fieldset, fieldset.rows[..j])
    {
      TaggedRowsStep(fieldset, fieldset.rows, j);
      r := AddTaggedRow(r, fieldset, fieldset.rows[j]);
    }
    assert fieldset.rows[..|fieldset.rows|] == fieldset.rows;
  }

  /** The fields loop of handleSaveItem() for one row. */
  method AddTaggedRow(fields: seq<FormField>, fieldset: FormFieldset, row: seq<FormField>) returns (r: seq<FormField>)
    ensures r == fields + TaggedRow(fieldset, row)
  {
    r := fields;
    for k := 0 to |row|
      invariant r == fields + TaggedRow(fieldset, row[..k])
    {
      TaggedRowStep(fieldset, row, k);
      r := r + [Tag(fieldset, row[k])];
    }
    assert row[..|row|] == row;
  }

  /** The fieldsets loop of handleSaveItem(): one more fieldset appends its tagged rows. */
  lemma TaggedFieldsStep(fieldsets: seq<FormFieldset>, i: nat)
    requires i < |fieldsets|
    ensures TaggedFields(fieldsets[..i + 1]) == TaggedFields(fieldsets[..i]) + TaggedRows(fieldsets[i], fieldsets[i].rows)
  {
    assert fieldsets[..i + 1][..i] == fieldsets[..i];
  }

  /** Every field of a repeated fieldset is validated once per instance under its nested name. */
  lemma RepeatedFieldsTagged(fieldsets: seq<FormFieldset>, i: nat, k: nat)
    requires i < |fieldsets| && fieldsets[i].multiple && k < |RowFields(fieldsets[i].rows)|
    ensures Tag(fieldsets[i], RowFields(fieldsets[i].rows)[k]) in TaggedFields(fieldsets)
    ensures Tag(fieldsets[i], RowFields(fieldsets[i].rows)[k]).fieldset == fieldsets[i].name
    decreases |fieldsets|
  {
    var n := |fieldsets| - 1;
    assert TaggedFields(fieldsets) == TaggedFields(fieldsets[..n]) + TaggedRows(fieldsets[n], fieldsets[n].rows);
    if i < n {
      assert fieldsets[..n][i] == fieldsets[i];
      RepeatedFieldsTagged(fieldsets[..n], i, k);
    } else {
      assert TaggedRows(fieldsets[n], fieldsets[n].rows)[k] in TaggedRows(fieldsets[n], fieldsets[n].rows);
    }
  }

  /**
   * handleSaveItem(): the form data goes to the catalogue's save exactly
   * when the tagged fields have no validation errors. The editing form
   * passes no column list; `columns` stands for it and matters only to a
   * field named report-columns, which this form does not have.
   */
  function SaveItem(fieldsets: seq<FormFieldset>, formData: Record, columns: seq<string>, patterns: Validation.Patterns)
    : (r: Option<Record>)
    ensures r.Some? <==> forall k :: 0 <= k < |TaggedFields(fieldsets)| ==>
      Validation.FieldPasses(TaggedFields(fieldsets)[k], formData, columns, patterns)
    ensures r.Some? ==> r.value == formData
  {
    var fields := TaggedFields(fieldsets);
    Validation.FormErrorsEmpty(fields, formData, columns, patterns);
    if Validation.FormErrors(fields, formData, columns, patterns) == map[] then Some(formData) else None
  }
}
