/**
 * Dynamic values as the PHP handlers and the React front end see them:
 * decoded JSON request data, database rows and component state.
 * PHP null and JavaScript null/undefined are all `Null`.
 */
module Values {
  import opened Text

  datatype Option<T> = None | Some(value: T)

  datatype Result<T> = Ok(value: T) | Err(error: string)

  datatype Value =
    | Null
    | Bool(b: bool)
    | Int(i: int)
    | Str(s: string)
    | List(items: seq<Value>)
    | Obj(fields: map<string, Value>)

  /** An associative array / plain object keyed by strings. */
  type Record = map<string, Value>

  /** PHP's conversion to boolean: `if ($v)`, and `!empty($v)` for a variable that is set. */
  predicate PhpTruthy(v: Value) {
    match v
    case Null => false
    case Bool(b) => b
    case Int(i) => i != 0
    case Str(s) => s != "" && s != "0"
    case List(items) => items != []
    case Obj(fields) => fields != map[]
  }

  /** A string as PHP tests it: neither "" nor "0". */
  predicate PhpTruthyString(s: string) { PhpTruthy(Str(s)) }

  /** JavaScript's conversion to boolean: every string but "" is true, every object is true. */
  predicate JsTruthy(v: Value) {
    match v
    case Null => false
    case Bool(b) => b
    case Int(i) => i != 0
    case Str(s) => s != ""
    case List(_) => true
    case Obj(_) => true
  }

  /** `$a[$key]` / `obj[key]`: a missing key reads as null (undefined). */
  function Get(r: Record, key: string): (v: Value)
    ensures key !in r ==> v == Null
    ensures key in r ==> v == r[key]
  {
    if key in r then r[key] else Null
  }

  /** `$v ?? $fallback`: the fallback replaces null only. */
  function Coalesce(v: Value, fallback: Value): (r: Value)
    ensures v != Null ==> r == v
    ensures v == Null ==> r == fallback
  {
    if v.Null? then fallback else v
  }

  /** The element at index i, or null when i is out of range (`$values[$i]` on a short array). */
  function At(s: seq<Value>, i: int): (v: Value)
    ensures 0 <= i < |s| ==> v == s[i]
    ensures !(0 <= i < |s|) ==> v == Null
  {
    if 0 <= i < |s| then s[i] else Null
  }

  /** PHP's conversion of a scalar to string, as string interpolation and implode() do it. */
  function PhpString(v: Value): string {
    match v
    case Null => ""
    case Bool(b) => if b then "1" else ""
    case Int(i) => IntToString(i)
    case Str(s) => s
    case List(_) => "Array"
    case Obj(_) => "Array"
  }

  /**
   * JavaScript's String() of a scalar, as template literals write it.
   * Objects print as "[object Object]"; arrays, which the fields this is
   * applied to never hold, are not given their comma-joined form.
   */
  function JsString(v: Value): string {
    match v
    case Null => "null"
    case Bool(b) => if b then "true" else "false"
    case Int(i) => IntToString(i)
    case Str(s) => s
    case List(_) => "[object Object]"
    case Obj(_) => "[object Object]"
  }

  /** A text field read with `?? ''` or `|| ''`: the string, or '' when missing. */
  function TextValue(v: Value): string {
    if v.Str? then v.s else ""
  }

  /** Helper: the truthiness of a string in both languages, spelled out. */
  lemma PhpStringTruthy(s: string)
    ensures PhpTruthy(Str(s)) <==> s != "" && s != "0"
    ensures JsTruthy(Str(s)) <==> s != ""
  {
  }

  /** Strings are the only values on which PHP and JavaScript truthiness disagree, and only on "0". */
  lemma TruthinessAgreement(v: Value)
    requires !v.List? && !v.Obj?
    ensures PhpTruthy(v) != JsTruthy(v) <==> v == Str("0")
  {
  }
}
