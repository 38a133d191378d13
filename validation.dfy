/**
 * Client-side form validation: which values count as empty, the email
 * shape check, the per-field rule and the error map a whole form yields,
 * keyed by control name.
 */
module Validation {
  import opened Text
  import opened Values
  import opened Forms

  // ---------------------------------------------------------------------
  // Empty values
  // ---------------------------------------------------------------------

  /** valueEmpty(): undefined, null, or a string that trims to nothing. */
  predicate ValueEmpty(v: Value) {
    v == Null || (v.Str? && JsTrim(v.s) == "")
  }

  /** Empty means missing or white space only; numbers, 0 included, and booleans are never empty. */
  lemma ValueEmptySpec(v: Value)
    ensures ValueEmpty(v) <==>
      v == Null || (v.Str? && forall k :: 0 <= k < |v.s| ==> IsJsSpace(v.s[k]))
    ensures v.Int? || v.Bool? ==> !ValueEmpty(v)
  {
    if v.Str? {
      TrimSpec(v.s, IsJsSpace);
    }
  }

  // ---------------------------------------------------------------------
  // Type checks
  // ---------------------------------------------------------------------

  /** A character of the class [^\s@]. */
  predicate Plain(c: char) { !IsJsSpace(c) && c != '@' }

  predicate AllPlain(s: string) { forall k :: 0 <= k < |s| ==> Plain(s[k]) }

  /**
   * The language of /^[^\s@]+@[^\s@]+\.[^\s@]+$/: a non-empty local part,
   * '@', and a domain with a '.' that has plain characters on both sides.
   */
  predicate EmailPattern(s: string) {
    exists at, dot :: 0 < at && at + 1 < dot && dot + 1 < |s| && s[at] == '@' && s[dot] == '.'
      && AllPlain(s[..at]) && AllPlain(s[at + 1..dot]) && AllPlain(s[dot + 1..])
  }

  /** The check as the validator performs it: everything before the first '@', then the domain. */
  predicate IsEmail(s: string) {
    var at := IndexOf(s, "@");
    0 < at && AllPlain(s[..at])
    && var domain := s[at + 1..];
    AllPlain(domain) && |domain| >= 3 && '.' in domain[1..|domain| - 1]
  }

  /** The scan agrees with the regular expression on every string. */
  lemma EmailCheckIff(s: string)
    ensures IsEmail(s) <==> EmailPattern(s)
  {
    if IsEmail(s) {
      ScanMatches(s);
    }
    if EmailPattern(s) {
      var at, dot :| 0 < at && at + 1 < dot && dot + 1 < |s| && s[at] == '@' && s[dot] == '.'
        && AllPlain(s[..at]) && AllPlain(s[at + 1..dot]) && AllPlain(s[dot + 1..]);
      PatternScans(s, at, dot);
    }
  }

  /** A string the scan accepts matches the regular expression. */
  lemma ScanMatches(s: string)
    requires IsEmail(s)
    ensures EmailPattern(s)
  {
    var at := IndexOf(s, "@");
    var domain := s[at + 1..];
    var inner := domain[1..|domain| - 1];
    var j :| 0 <= j < |inner| && inner[j] == '.';
    var dot := at + 2 + j;
    assert s[at..at + 1] == "@";
    assert s[at + 1..dot] == domain[..j + 1];
    assert s[dot + 1..] == domain[j + 2..];
    assert s[dot] == '.' && s[at] == '@';
    assert 0 < at && at + 1 < dot && dot + 1 < |s|;
    assert AllPlain(s[..at]) && AllPlain(s[at + 1..dot]) && AllPlain(s[dot + 1..]);
  }

  /** A string matching the regular expression, at its '@' and a '.' of its domain, passes the scan. */
  lemma PatternScans(s: string, at: nat, dot: nat)
    requires 0 < at && at + 1 < dot && dot + 1 < |s| && s[at] == '@' && s[dot] == '.'
    requires AllPlain(s[..at]) && AllPlain(s[at + 1..dot]) && AllPlain(s[dot + 1..])
    ensures IsEmail(s)
  {
    FirstAt(s, at);
    var domain := s[at + 1..];
    forall k | 0 <= k < |domain| ensures Plain(domain[k]) {
      if at + 1 + k < dot {
        assert domain[k] == s[at + 1..dot][k];
      } else if at + 1 + k > dot {
        assert domain[k] == s[dot + 1..][at + k - dot];
      }
    }
    assert domain[1..|domain| - 1][dot - at - 2] == '.';
  }

  /** An '@' preceded by plain characters only is the first '@'. */
  lemma FirstAt(s: string, at: nat)
    requires at < |s| && s[at] == '@' && AllPlain(s[..at])
    ensures IndexOf(s, "@") == at
  {
    assert s[at..at + 1] == "@";
    assert OccursAt(s, "@", at);
    forall k | 0 <= k < at ensures !OccursAt(s, "@", k) {
      assert s[..at][k] == s[k];
    }
  }

  /** The URL and phone regular expressions, applied to the lower-cased text of a value. */
  datatype Patterns = Patterns(url: string -> bool, phone: string -> bool)

  /** validateEmail(): a falsy value passes; any other must have the email shape. */
  predicate ValidEmail(v: Value) { !JsTruthy(v) || IsEmail(JsString(v)) }

  /** validateURL(): a falsy value passes. */
  predicate ValidUrl(v: Value, patterns: Patterns) { !JsTruthy(v) || patterns.url(JsString(v)) }

  /** validatePhoneNumber(): a falsy value passes. */
  predicate ValidPhone(v: Value, patterns: Patterns) { !JsTruthy(v) || patterns.phone(JsString(v)) }

  /** The type checks of a field: only email, url and tel fields have one. */
  predicate TypeOk(kind: string, v: Value, patterns: Patterns) {
    (kind == "email" ==> ValidEmail(v))
    && (kind == "url" ==> ValidUrl(v, patterns))
    && (kind == "tel" ==> ValidPhone(v, patterns))
  }

  // ---------------------------------------------------------------------
  // One field
  // ---------------------------------------------------------------------

  const EmailMessage := "Not a valid email address."
  const UrlMessage := "Not a valid URL."
  const PhoneMessage := "Not a valid phone number."

  /** The message for a required field left empty. */
  function RequiredMessage(field: FormField): string { field.caption + " is required." }

  /**
   * validateField(): the required check comes first, then the check for
   * the field's type; at most one message.
   */
  function ValidateField(field: FormField, value: Value, patterns: Patterns): (r: Option<string>)
    ensures field.required && ValueEmpty(value) ==> r == Some(RequiredMessage(field))
    ensures r.None? <==> !(field.required && ValueEmpty(value)) && TypeOk(field.kind, value, patterns)
    ensures r.Some? && !(field.required && ValueEmpty(value)) ==>
      (field.kind == "email" && r.value == EmailMessage)
      || (field.kind == "url" && r.value == UrlMessage)
      || (field.kind == "tel" && r.value == PhoneMessage)
    ensures !field.required && !JsTruthy(value) ==> r.None?
  {
    if field.required && ValueEmpty(value) then Some(RequiredMessage(field))
    else if field.kind == "email" && !ValidEmail(value) then Some(EmailMessage)
    else if field.kind == "url" && !ValidUrl(value, patterns) then Some(UrlMessage)
    else if field.kind == "tel" && !ValidPhone(value, patterns) then Some(PhoneMessage)
    else None
  }

  // ---------------------------------------------------------------------
  // The whole form
  // ---------------------------------------------------------------------

  const ReportColumnsField := "report-columns"
  const ColumnsMessage := "At least one column must be selected."

  /** `values[fieldset] ?? []`: the instances of a repeated fieldset. */
  function Instances(v: Value): seq<Value> {
    if v.List? then v.items else []
  }

  /** `instance[name] ?? ''`. */
  function InstanceValue(instance: Value, name: string): Value {
    if instance.Obj? then Coalesce(Get(instance.fields, name), Str("")) else Str("")
  }

  /** The errors of a repeated field, one per failing instance, keyed by its nested control name. */
  function InstanceErrors(field: FormField, instances: seq<Value>, patterns: Patterns): map<string, string> {
    if instances == [] then map[]
    else
      var n := |instances| - 1;
      var errors := InstanceErrors(field, instances[..n], patterns);
      match ValidateField(field, InstanceValue(instances[n], field.name), patterns)
      case None => errors
      case Some(e) => errors[NestedName(field.fieldset, n, field.name) := e]
  }

  /** The errors one field contributes (lines 77-84 repeat validateField's chain for plain fields). */
  function FieldErrors(field: FormField, values: Record, columns: seq<string>, patterns: Patterns): map<string, string> {
    if field.fieldset != "" then
      InstanceErrors(field, Instances(Get(values, field.fieldset)), patterns)
    else if field.name == ReportColumnsField then
      if |columns| < 1 then map[field.name := ColumnsMessage] else map[]
    else
      match ValidateField(field, Coalesce(Get(values, field.name), Str("")), patterns)
      case None => map[]
      case Some(e) => map[field.name := e]
  }

  /** The error map of a form: field after field, a later entry replacing an earlier one of the same name. */
  function FormErrors(fields: seq<FormField>, values: Record, columns: seq<string>, patterns: Patterns): map<string, string> {
    if fields == [] then map[]
    else
      var n := |fields| - 1;
      FormErrors(fields[..n], values, columns, patterns) + FieldErrors(fields[n], values, columns, patterns)
  }

  /** A field passes: every instance of a repeated field, the column choice, or the single value. */
  predicate FieldPasses(field: FormField, values: Record, columns: seq<string>, patterns: Patterns) {
    if field.fieldset != "" then
      var instances := Instances(Get(values, field.fieldset));
      forall k :: 0 <= k < |instances| ==> InstancePasses(field, instances[k], patterns)
    else if field.name == ReportColumnsField then |columns| >= 1
    else ValidateField(field, Coalesce(Get(values, field.name), Str("")), patterns).None?
  }

  /** One instance of a repeated field passes validateField(). */
  predicate InstancePasses(field: FormField, instance: Value, patterns: Patterns) {
    ValidateField(field, InstanceValue(instance, field.name), patterns).None?
  }

  /** A repeated field has no errors exactly when every instance passes. */
  lemma {:induction false} InstanceErrorsEmpty(field: FormField, instances: seq<Value>, patterns: Patterns)
    ensures InstanceErrors(field, instances, patterns) == map[] <==>
      forall k :: 0 <= k < |instances| ==> InstancePasses(field, instances[k], patterns)
    decreases |instances|
  {
    if instances != [] {
      var n := |instances| - 1;
      var prefix := instances[..n];
      InstanceErrorsEmpty(field, prefix, patterns);
      var errors := InstanceErrors(field, prefix, patterns);
      assert forall k :: 0 <= k < n ==> prefix[k] == instances[k];
      if InstancePasses(field, instances[n], patterns) {
        assert InstanceErrors(field, instances, patterns) == errors;
      } else {
        var e := ValidateField(field, InstanceValue(instances[n], field.name), patterns).value;
        var key := NestedName(field.fieldset, n, field.name);
        assert InstanceErrors(field, instances, patterns) == errors[key := e];
        assert key in errors[key := e];
      }
    }
  }

  /**
   * Instance j of a repeated field has an error under its nested name
   * exactly when it fails, with the message validateField gives it.
   */
  lemma {:induction false} InstanceErrorAt(field: FormField, instances: seq<Value>, patterns: Patterns, j: nat)
    requires PlainPart(field.fieldset) && PlainPart(field.name) && j < |instances|
    ensures var errors := InstanceErrors(field, instances, patterns);
      var r := ValidateField(field, InstanceValue(instances[j], field.name), patterns);
      var key := NestedName(field.fieldset, j, field.name);
      (key in errors <==> r.Some?) && (r.Some? ==> errors[key] == r.value)
    decreases |instances|
  {
    var n := |instances| - 1;
    if j < n {
      InstanceErrorAt(field, instances[..n], patterns, j);
      assert instances[..n][j] == instances[j];
      IndicesNameDiffer(field.fieldset, j, n, field.name);
    } else {
      InstanceErrorKeys(field, instances[..n], patterns);
      forall i | 0 <= i < n
        ensures NestedName(field.fieldset, i, field.name) != NestedName(field.fieldset, n, field.name)
      {
        IndicesNameDiffer(field.fieldset, i, n, field.name);
      }
    }
  }

  lemma IndicesNameDiffer(fieldset: string, i: nat, j: nat, name: string)
    requires PlainPart(fieldset) && PlainPart(name) && i != j
    ensures NestedName(fieldset, i, name) != NestedName(fieldset, j, name)
  {
    if NestedName(fieldset, i, name) == NestedName(fieldset, j, name) {
      NestedNamesDistinct(fieldset, i, name, j, name);
    }
  }

  /** Every key of a repeated field's errors is the nested name of one of its instances. */
  lemma {:induction false} InstanceErrorKeys(field: FormField, instances: seq<Value>, patterns: Patterns)
    ensures forall key :: key in InstanceErrors(field, instances, patterns) ==>
      exists j :: 0 <= j < |instances| && key == NestedName(field.fieldset, j, field.name)
    decreases |instances|
  {
    if instances != [] {
      var n := |instances| - 1;
      InstanceErrorKeys(field, instances[..n], patterns);
    }
  }

  lemma UnionEmpty(a: map<string, string>, b: map<string, string>)
    ensures a + b == map[] <==> a == map[] && b == map[]
  {
    assert (a + b).Keys == a.Keys + b.Keys;
  }

  /** One field adds no errors exactly when it passes. */
  lemma FieldErrorsEmpty(field: FormField, values: Record, columns: seq<string>, patterns: Patterns)
    ensures FieldErrors(field, values, columns, patterns) == map[] <==> FieldPasses(field, values, columns, patterns)
  {
    var added := FieldErrors(field, values, columns, patterns);
    if field.fieldset != "" {
      InstanceErrorsEmpty(field, Instances(Get(values, field.fieldset)), patterns);
    } else if field.name != ReportColumnsField {
      var r := ValidateField(field, Coalesce(Get(values, field.name), Str("")), patterns);
      if r.Some? {
        assert field.name in added;
      }
    } else if |columns| < 1 {
      assert field.name in added;
    }
  }

  /** A form has no errors exactly when every field passes. */
  lemma {:induction false} FormErrorsEmpty(fields: seq<FormField>, values: Record, columns: seq<string>, patterns: Patterns)
    ensures FormErrors(fields, values, columns, patterns) == map[] <==>
      forall i :: 0 <= i < |fields| ==> FieldPasses(fields[i], values, columns, patterns)
    decreases |fields|
  {
    if fields != [] {
      var n := |fields| - 1;
      var field := fields[n];
      FormErrorsEmpty(fields[..n], values, columns, patterns);
      var before := FormErrors(fields[..n], values, columns, patterns);
      var added := FieldErrors(field, values, columns, patterns);
      UnionEmpty(before, added);
      FieldErrorsEmpty(field, values, columns, patterns);
      assert forall i :: 0 <= i < n ==> fields[..n][i] == fields[i];
    }
  }

  /** The next instance adds its error, if it has one, under its nested name. */
  lemma AddInstanceStep(errors: map<string, string>, field: FormField, instances: seq<Value>, patterns: Patterns, k: nat)
    requires k < |instances|
    ensures var r := ValidateField(field, InstanceValue(instances[k], field.name), patterns);
      var before := errors + InstanceErrors(field, instances[..k], patterns);
      errors + InstanceErrors(field, instances[..k + 1], patterns)
        == if r.Some? then before[NestedName(field.fieldset, k, field.name) := r.value] else before
  {
    assert instances[..k + 1][..k] == instances[..k];
    assert instances[..k + 1][k] == instances[k];
  }

  /** Adding one field's errors to the map built so far. */
  method AddInstanceErrors(errors: map<string, string>, field: FormField, instances: seq<Value>, patterns: Patterns)
    returns (updated: map<string, string>)
    ensures updated == errors + InstanceErrors(field, instances, patterns)
  {
    updated := errors;
    assert instances[..0] == [];
    for k := 0 to |instances|
      invariant updated == errors + InstanceErrors(field, instances[..k], patterns)
    {
      AddInstanceStep(errors, field, instances, patterns, k);
      var error := ValidateField(field, InstanceValue(instances[k], field.name), patterns);
      if error.Some? {
        updated := updated[NestedName(field.fieldset, k, field.name) := error.value];
      }
    }
    assert instances[..|instances|] == instances;
  }

  /** One field's errors added to the map built so far. */
  method AddFieldErrors(errors: map<string, string>, field: FormField, values: Record, columns: seq<string>, patterns: Patterns)
    returns (updated: map<string, string>)
    ensures updated == errors + FieldErrors(field, values, columns, patterns)
  {
    updated := errors;
    if field.fieldset != "" {
      updated := AddInstanceErrors(errors, field, Instances(Get(values, field.fieldset)), patterns);
    } else if field.name == ReportColumnsField {
      if |columns| < 1 {
        updated := errors[field.name := ColumnsMessage];
      }
    } else {
      var error := ValidateField(field, Coalesce(Get(values, field.name), Str("")), patterns);
      if error.Some? {
        updated := errors[field.name := error.value];
      }
    }
  }

  /**
   * validateForm(): the error map of the form, and whether the form is
   * valid. The map is what the form's error state is set to; on success it
   * is cleared.
   */
  method ValidateForm(fields: seq<FormField>, values: Record, columns: seq<string>, patterns: Patterns)
    returns (ok: bool, errors: map<string, string>)
    ensures errors == FormErrors(fields, values, columns, patterns)
    ensures ok <==> errors == map[]
    ensures ok <==> forall i :: 0 <= i < |fields| ==> FieldPasses(fields[i], values, columns, patterns)
  {
    errors := map[];
    for i := 0 to |fields|
      invariant errors == FormErrors(fields[..i], values, columns, patterns)
    {
      assert fields[..i + 1][..i] == fields[..i];
      errors := AddFieldErrors(errors, fields[i], values, columns, patterns);
    }
    assert fields[..|fields|] == fields;
    ok := |errors| == 0;
    FormErrorsEmpty(fields, values, columns, patterns);
  }
}
