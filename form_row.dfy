/**
 * One row of form controls: the preselected options of a typeahead, the
 * value a typeahead selection stores, the checkbox state and the column
 * width. Control names are Forms.FieldName.
 */
module FormRow {
  import opened Values
  import opened Forms

  /** An entry of a picklist: the stored id and the text shown for it. */
  datatype PickOption = PickOption(id: Value, display: string)

  /** The options whose id is among the ids, in picklist order (`filter(o => ids.includes(o.id))`). */
  function Selected(options: seq<PickOption>, ids: seq<Value>): (r: seq<PickOption>)
    ensures |r| <= |options|
  {
    if options == [] then []
    else
      var n := |options| - 1;
      Selected(options[..n], ids) + (if options[n].id in ids then [options[n]] else [])
  }

  /** Exactly the options whose id is among the ids are kept. */
  lemma {:induction false} SelectedMembers(options: seq<PickOption>, ids: seq<Value>)
    ensures forall o :: o in Selected(options, ids) <==> o in options && o.id in ids
    decreases |options|
  {
    if options != [] {
      var n := |options| - 1;
      SelectedMembers(options[..n], ids);
      assert forall o :: o in options <==> o in options[..n] || o == options[n] by {
        assert options == options[..n] + [options[n]];
      }
    }
  }

  /** Filtering keeps picklist order: a longer picklist filters to the filtered parts, one after the other. */
  lemma {:induction false} SelectedAppend(a: seq<PickOption>, b: seq<PickOption>, ids: seq<Value>)
    ensures Selected(a + b, ids) == Selected(a, ids) + Selected(b, ids)
    decreases |b|
  {
    if b != [] {
      var n := |b| - 1;
      var ab := a + b;
      var last := if b[n].id in ids then [b[n]] else [];
      assert ab[..|ab| - 1] == a + b[..n];
      assert Selected(ab, ids) == Selected(a + b[..n], ids) + last;
      assert Selected(b, ids) == Selected(b[..n], ids) + last;
      SelectedAppend(a, b[..n], ids);
      assert Selected(ab, ids) == Selected(a, ids) + (Selected(b[..n], ids) + last);
    } else {
      assert a + b == a;
    }
  }

  /** `Array.isArray(ids) ? ids : [ids]`. */
  function IdList(v: Value): seq<Value> {
    if v.List? then v.items else [v]
  }

  /**
   * getTypeaheadDefault(): no options for a falsy value; otherwise the
   * picklist options whose id is the value or among its ids, in picklist
   * order. `options` is `picklists[field.picklist]`.
   */
  function TypeaheadDefault(values: Record, field: FormField, options: seq<PickOption>): (r: seq<PickOption>)
    ensures !JsTruthy(Get(values, field.name)) ==> r == []
    ensures JsTruthy(Get(values, field.name)) ==>
      forall o :: o in r <==> o in options && o.id in IdList(Get(values, field.name))
  {
    var ids := Get(values, field.name);
    if !JsTruthy(ids) then []
    else
      SelectedMembers(options, IdList(ids));
      Selected(options, IdList(ids))
  }

  /** The typeahead fields that store a list of ids. */
  predicate Multivalued(name: string) { name in ["Tags", "Keywords"] }

  /** The ids of some options, in order. */
  function Ids(selected: seq<PickOption>): (ids: seq<Value>)
    ensures |ids| == |selected|
    ensures forall k :: 0 <= k < |selected| ==> ids[k] == selected[k].id
  {
    seq(|selected|, k requires 0 <= k < |selected| => selected[k].id)
  }

  /** The value a typeahead selection stores: every id for Tags and Keywords, else the first id or null. */
  function TypeaheadValue(name: string, selected: seq<PickOption>): (v: Value)
    ensures Multivalued(name) ==> v.List? && v.items == Ids(selected)
    ensures !Multivalued(name) && selected == [] ==> v == Null
    ensures !Multivalued(name) && selected != [] ==> v == selected[0].id
  {
    if Multivalued(name) then List(Ids(selected))
    else if |selected| > 0 then selected[0].id
    else Null
  }

  /** No two options of a picklist share an id. */
  predicate DistinctIds(options: seq<PickOption>) {
    forall i, j :: 0 <= i < |options| && 0 <= j < |options| && options[i].id == options[j].id ==> i == j
  }

  /**
   * Round trip of a multi-valued typeahead: the stored ids preselect
   * exactly the options that were chosen.
   */
  lemma MultiSelectionRoundTrip(values: Record, field: FormField, options: seq<PickOption>, selected: seq<PickOption>)
    requires Multivalued(field.name) && DistinctIds(options)
    requires forall o :: o in selected ==> o in options
    ensures var stored := values[field.name := TypeaheadValue(field.name, selected)];
      forall o :: o in TypeaheadDefault(stored, field, options) <==> o in selected
  {
    var stored := values[field.name := TypeaheadValue(field.name, selected)];
    var ids := Ids(selected);
    assert Get(stored, field.name) == List(ids);
    forall o | o in options && o.id in ids ensures o in selected {
      var k :| 0 <= k < |ids| && ids[k] == o.id;
      var i :| 0 <= i < |options| && options[i] == o;
      assert selected[k] in selected;
      var j :| 0 <= j < |options| && options[j] == selected[k];
      assert i == j;
    }
    forall o | o in selected ensures o.id in ids {
      var k :| 0 <= k < |selected| && selected[k] == o;
      assert ids[k] == o.id;
    }
  }

  /**
   * Round trip of a single-valued typeahead: a chosen option with a truthy
   * id is the one option preselected afterwards.
   */
  lemma SingleSelectionRoundTrip(values: Record, field: FormField, options: seq<PickOption>, selected: seq<PickOption>)
    requires !Multivalued(field.name) && DistinctIds(options)
    requires selected != [] && selected[0] in options && JsTruthy(selected[0].id) && !selected[0].id.List?
    ensures var stored := values[field.name := TypeaheadValue(field.name, selected)];
      forall o :: o in TypeaheadDefault(stored, field, options) <==> o == selected[0]
  {
    var stored := values[field.name := TypeaheadValue(field.name, selected)];
    assert Get(stored, field.name) == selected[0].id;
    assert IdList(selected[0].id) == [selected[0].id];
    forall o | o in options && o.id in IdList(selected[0].id) ensures o == selected[0] {
      var i :| 0 <= i < |options| && options[i] == o;
      var j :| 0 <= j < |options| && options[j] == selected[0];
      assert i == j;
    }
  }

  /** The checkbox is checked exactly when the field holds "Y". */
  predicate Checked(values: Record, field: FormField) {
    Get(values, field.name) == Str("Y")
  }

  /** The Bootstrap column width of each control: halves for a row of two, the full width otherwise. */
  function ColumnWidth(fields: seq<FormField>): (w: nat)
    ensures w * (if |fields| == 2 then 2 else 1) == 12
  {
    if |fields| == 2 then 6 else 12
  }
}
