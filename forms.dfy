/**
 * The form configuration the React front end renders and validates:
 * fields grouped in rows and fieldsets, and the names under which the
 * controls of a repeated fieldset instance are posted.
 */
module Forms {
  import opened Text
  import opened Values

  /**
   * One field of a form configuration. `fieldset` is "" unless the field
   * belongs to a repeated fieldset; `logic` is the selected operator of a
   * report filter that has one.
   */
  datatype FormField = FormField(
    name: string,
    caption: string,
    required: bool,
    kind: string,
    fieldset: string,
    picklist: string,
    default: Value,
    selected: Value,
    logic: Option<Value>)

  /** A fieldset of the configuration; `multiple` marks one that repeats per record. */
  datatype FormFieldset = FormFieldset(name: string, multiple: bool, rows: seq<seq<FormField>>)

  const Separator := "__"

  /** The control name of a field in instance `index` of a repeated fieldset. */
  function NestedName(fieldset: string, index: nat, name: string): string {
    Join([fieldset, NatToString(index), name], Separator)
  }

  /** A name part that survives splitting at "__": it has no underscore. */
  predicate PlainPart(s: string) { NoneOf(s, Separator) }

  /**
   * The control name of a field: the nested name inside a fieldset, the
   * plain field name otherwise. A nested name splits back into its three
   * parts.
   */
  function FieldName(fieldset: string, index: nat, name: string): (r: string)
    ensures fieldset == "" ==> r == name
    ensures fieldset != "" && PlainPart(fieldset) && PlainPart(name) ==>
      Split(r, Separator) == [fieldset, NatToString(index), name]
  {
    if fieldset == "" then name
    else if PlainPart(fieldset) && PlainPart(name) then
      NestedNameRoundTrip(fieldset, index, name);
      NestedName(fieldset, index, name)
    else NestedName(fieldset, index, name)
  }

  /** Splitting a nested name at "__" gives back the fieldset, the index and the field name. */
  lemma NestedNameRoundTrip(fieldset: string, index: nat, name: string)
    requires PlainPart(fieldset) && PlainPart(name)
    ensures Split(NestedName(fieldset, index, name), Separator) == [fieldset, NatToString(index), name]
  {
    var digits := NatToString(index);
    assert PlainPart(digits) by {
      forall k | 0 <= k < |digits| ensures digits[k] !in Separator {
        assert IsDigit(digits[k]);
      }
    }
    var parts := [fieldset, digits, name];
    assert forall k :: 0 <= k < |parts| ==> NoneOf(parts[k], Separator);
    SplitJoin(parts, Separator);
  }

  /** Distinct instances or fields of a fieldset post under distinct names. */
  lemma NestedNamesDistinct(fieldset: string, i: nat, a: string, j: nat, b: string)
    requires PlainPart(fieldset) && PlainPart(a) && PlainPart(b)
    requires NestedName(fieldset, i, a) == NestedName(fieldset, j, b)
    ensures i == j && a == b
  {
    NestedNameRoundTrip(fieldset, i, a);
    NestedNameRoundTrip(fieldset, j, b);
    NatToStringInjective(i, j);
  }

  /** The fields of some rows, row after row. */
  function RowFields(rows: seq<seq<FormField>>): seq<FormField> {
    if rows == [] then [] else RowFields(rows[..|rows| - 1]) + rows[|rows| - 1]
  }

  /** `fieldsets.flatMap(f => f.rows).flatMap(r => r)`: every field of the form, in order. */
  function AllFields(fieldsets: seq<FormFieldset>): seq<FormField> {
    if fieldsets == [] then []
    else AllFields(fieldsets[..|fieldsets| - 1]) + RowFields(fieldsets[|fieldsets| - 1].rows)
  }
}
