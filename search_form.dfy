/**
 * The catalogue's search form: its two filter fields, how typing updates
 * them, and when a search is long enough to be sent.
 */
module SearchForm {
  import opened Text
  import opened Values

  /** The form starts with both filters blank. */
  const InitialFilters: Record := map["title" := Str(""), "composer_arranger" := Str("")]

  /** A filter worth searching for: a string of at least three UTF-16 code units once trimmed. */
  predicate LongEnough(v: Value) {
    v.Str? && Utf16Length(JsTrim(v.s)) >= 3
  }

  /** `Object.values(filters).some(...)`: some filter is long enough. */
  predicate HasFilter(filters: Record) {
    exists key :: key in filters && LongEnough(filters[key])
  }

  /** handleChange(): the named filter takes the new value; the others keep theirs. */
  function HandleChange(filters: Record, name: string, value: Value): (r: Record)
    ensures r.Keys == filters.Keys + {name}
    ensures r[name] == value
    ensures forall key :: key in filters && key != name ==> r[key] == filters[key]
  {
    filters[name := value]
  }

  /** What a submit does: forward the filters to the catalogue, or only warn. */
  datatype Submission = Forward(filters: Record) | TooShort

  /** handleSubmit(): the filters go to the catalogue exactly when one of them is long enough. */
  function Submit(filters: Record): (r: Submission)
    ensures r.Forward? <==> HasFilter(filters)
    ensures r.Forward? ==> r.filters == filters
  {
    if HasFilter(filters) then Forward(filters) else TooShort
  }

  /** The filters the catalogue searches with after a submit: unchanged by one that is too short. */
  function ParentFilters(parent: Record, filters: Record): (r: Record)
    ensures HasFilter(filters) ==> r == filters
    ensures !HasFilter(filters) ==> r == parent
  {
    match Submit(filters)
    case Forward(f) => f
    case TooShort => parent
  }

  /** A form whose every field is the empty string cannot be submitted. */
  lemma BlankFiltersTooShort(filters: Record)
    requires forall key :: key in filters ==> filters[key] == Str("")
    ensures Submit(filters) == TooShort
  {
    assert JsTrim("") == "";
  }

  /** The form as it starts cannot be submitted. */
  lemma InitialFiltersTooShort()
    ensures Submit(InitialFilters) == TooShort
  {
    BlankFiltersTooShort(InitialFilters);
  }

  /** Typing a long enough value into any field makes the form submittable. */
  lemma ChangeEnablesSubmit(filters: Record, name: string, value: Value)
    requires LongEnough(value)
    ensures Submit(HandleChange(filters, name, value)).Forward?
  {
    assert name in HandleChange(filters, name, value);
  }

  /** Changing one field cannot spoil a filter held by another. */
  lemma ChangeKeepsOtherFilter(filters: Record, key: string, name: string, value: Value)
    requires key in filters && key != name && LongEnough(filters[key])
    ensures HasFilter(HandleChange(filters, name, value))
  {
    assert key in HandleChange(filters, name, value);
  }

  /** A two-character string that starts and ends with non-space characters is its own trim. */
  lemma TrimmedPair(c: char, d: char)
    requires !IsJsSpace(c) && !IsJsSpace(d)
    ensures JsTrim([c, d]) == [c, d]
  {
    TrimSpec([c, d], IsJsSpace);
  }

  /**
   * Two characters beyond U+FFFF make a filter, since `.length` counts
   * four code units; two characters of the Basic Multilingual Plane do not.
   */
  lemma PairLength(c: char, d: char)
    requires !IsJsSpace(c) && !IsJsSpace(d)
    ensures c as int > 0xFFFF && d as int > 0xFFFF ==> LongEnough(Str([c, d]))
    ensures c as int <= 0xFFFF && d as int <= 0xFFFF ==> !LongEnough(Str([c, d]))
  {
    TrimmedPair(c, d);
    Utf16LengthPair(c, d);
  }

  /** Three or more spaces are not a filter: length is counted after trimming. */
  lemma BlankIsNotAFilter(s: string)
    requires forall k :: 0 <= k < |s| ==> IsJsSpace(s[k])
    ensures !LongEnough(Str(s))
  {
    TrimSpec(s, IsJsSpace);
  }
}
