/**
 * String helpers shared by the PHP handlers and the React front end:
 * trimming, splitting and joining on a separator, decimal digits,
 * zero padding, ASCII case folding and byte-wise ordering.
 */
module Text {

  // ---------------------------------------------------------------------
  // Character classes
  // ---------------------------------------------------------------------

  predicate IsDigit(c: char) { '0' <= c <= '9' }

  predicate AllDigits(s: string) { forall k :: 0 <= k < |s| ==> IsDigit(s[k]) }

  /** The characters PHP's trim() strips when no list is given: " \t\n\r\0\x0B". */
  predicate IsPhpSpace(c: char) {
    c == ' ' || c == '\t' || c == '\n' || c == '\r' || c == '\0' || c == '\U{0B}'
  }

  /** The characters JavaScript's String.prototype.trim() and the regular expression class \s treat as white space. */
  predicate IsJsSpace(c: char) {
    c == ' ' || c == '\t' || c == '\n' || c == '\r' || c == '\U{0B}' || c == '\U{0C}'
    || c == '\U{A0}' || c == '\U{1680}' || ('\U{2000}' <= c <= '\U{200A}')
    || c == '\U{2028}' || c == '\U{2029}' || c == '\U{202F}' || c == '\U{205F}'
    || c == '\U{3000}' || c == '\U{FEFF}'
  }

  predicate IsSlash(c: char) { c == '/' }

  predicate NoneOf(s: string, chars: string) { forall k :: 0 <= k < |s| ==> s[k] !in chars }

  // ---------------------------------------------------------------------
  // Trimming
  // ---------------------------------------------------------------------

  function TrimStart(s: string, strip: char -> bool): (r: string)
    ensures |r| <= |s| && r == s[|s| - |r|..]
    ensures r == [] || !strip(r[0])
    ensures forall k :: 0 <= k < |s| - |r| ==> strip(s[k])
    decreases |s|
  {
    if |s| > 0 && strip(s[0]) then TrimStart(s[1..], strip) else s
  }

  function TrimEnd(s: string, strip: char -> bool): (r: string)
    ensures |r| <= |s| && r == s[..|r|]
    ensures r == [] || !strip(r[|r| - 1])
    ensures forall k :: |r| <= k < |s| ==> strip(s[k])
    decreases |s|
  {
    if |s| > 0 && strip(s[|s| - 1]) then
      var t := s[..|s| - 1];
      var r := TrimEnd(t, strip);
      assert r == s[..|r|] by { assert t[..|r|] == s[..|r|]; }
      r
    else s
  }

  /** trim($s, $chars) in PHP, s.trim() in JavaScript, for the given set of stripped characters. */
  function Trim(s: string, strip: char -> bool): string {
    TrimEnd(TrimStart(s, strip), strip)
  }

  function PhpTrim(s: string): string { Trim(s, IsPhpSpace) }

  function JsTrim(s: string): string { Trim(s, IsJsSpace) }

  /** Trimming keeps a contiguous infix, drops only stripped characters, and leaves none at either end. */
  lemma TrimSpec(s: string, strip: char -> bool)
    ensures var r, i := Trim(s, strip), |s| - |TrimStart(s, strip)|;
      0 <= i <= i + |r| <= |s| && r == s[i..i + |r|]
        && (forall k :: 0 <= k < i ==> strip(s[k]))
        && (forall k :: i + |r| <= k < |s| ==> strip(s[k]))
    ensures var r := Trim(s, strip); r == [] || (!strip(r[0]) && !strip(r[|r| - 1]))
    ensures Trim(s, strip) == [] <==> forall k :: 0 <= k < |s| ==> strip(s[k])
  {
    TrimInfix(s, strip);
    var r := Trim(s, strip);
    var i := |s| - |TrimStart(s, strip)|;
    if r != [] {
      assert r[0] == s[i];
    }
  }

  lemma TrimInfix(s: string, strip: char -> bool)
    ensures var r, i := Trim(s, strip), |s| - |TrimStart(s, strip)|;
      0 <= i <= i + |r| <= |s| && r == s[i..i + |r|]
        && (forall k :: 0 <= k < i ==> strip(s[k]))
        && (forall k :: i + |r| <= k < |s| ==> strip(s[k]))
  {
    var t := TrimStart(s, strip);
    var r := TrimEnd(t, strip);
    var i := |s| - |t|;
    assert t == s[i..];
    assert r == t[..|r|];
    assert r == s[i..i + |r|];
    forall k | i + |r| <= k < |s| ensures strip(s[k]) {
      assert s[k] == t[k - i];
    }
  }

  /** Trimming twice is trimming once. */
  lemma TrimIdempotent(s: string, strip: char -> bool)
    ensures Trim(Trim(s, strip), strip) == Trim(s, strip)
  {
    var r := Trim(s, strip);
    TrimSpec(s, strip);
    if r != [] {
      assert TrimStart(r, strip) == r;
      assert TrimEnd(r, strip) == r;
    }
  }

  /** A string with no stripped character at either end is its own trim. */
  lemma TrimOfTrimmed(s: string, strip: char -> bool)
    requires s == [] || (!strip(s[0]) && !strip(s[|s| - 1]))
    ensures Trim(s, strip) == s
  {
  }

  // ---------------------------------------------------------------------
  // Prefixes
  // ---------------------------------------------------------------------

  predicate StartsWith(s: string, prefix: string) {
    |prefix| <= |s| && s[..|prefix|] == prefix
  }

  predicate EndsWith(s: string, suffix: string) {
    |suffix| <= |s| && s[|s| - |suffix|..] == suffix
  }

  // ---------------------------------------------------------------------
  // Searching, splitting and joining
  // ---------------------------------------------------------------------

  /** sep occurs in s starting at position k. */
  predicate OccursAt(s: string, sep: string, k: int) {
    0 <= k && k + |sep| <= |s| && s[k..k + |sep|] == sep
  }

  function IndexFrom(s: string, sep: string, from: nat): (r: int)
    requires |sep| > 0
    ensures r == -1 || (from <= r && OccursAt(s, sep, r))
    ensures forall k :: from <= k && (r == -1 || k < r) ==> !OccursAt(s, sep, k)
    decreases |s| - from
  {
    if from + |sep| > |s| then -1
    else if s[from..from + |sep|] == sep then from
    else IndexFrom(s, sep, from + 1)
  }

  /** The first position where sep occurs in s, or -1 (String.prototype.indexOf, strpos). */
  function IndexOf(s: string, sep: string): (r: int)
    requires |sep| > 0
    ensures r == -1 || OccursAt(s, sep, r)
    ensures forall k :: 0 <= k && (r == -1 || k < r) ==> !OccursAt(s, sep, k)
  {
    IndexFrom(s, sep, 0)
  }

  /** explode($sep, $s) in PHP, s.split(sep) in JavaScript. */
  function Split(s: string, sep: string): (parts: seq<string>)
    requires |sep| > 0
    ensures |parts| >= 1
    decreases |s|
  {
    var i := IndexOf(s, sep);
    if i < 0 then [s] else [s[..i]] + Split(s[i + |sep|..], sep)
  }

  /** implode($sep, $parts) in PHP, parts.join(sep) in JavaScript. */
  function Join(parts: seq<string>, sep: string): string {
    if |parts| == 0 then ""
    else if |parts| == 1 then parts[0]
    else parts[0] + sep + Join(parts[1..], sep)
  }

  lemma JoinCons(a: string, tail: seq<string>, sep: string)
    requires |tail| >= 1
    ensures Join([a] + tail, sep) == a + sep + Join(tail, sep)
  {
    assert ([a] + tail)[1..] == tail;
  }

  lemma SliceAround(s: string, i: nat, n: nat)
    requires i + n <= |s|
    ensures s == s[..i] + s[i..i + n] + s[i + n..]
  {
  }

  /** Joining the pieces of a split gives back the original string. */
  lemma {:induction false} JoinSplit(s: string, sep: string)
    requires |sep| > 0
    ensures Join(Split(s, sep), sep) == s
    decreases |s|
  {
    var i := IndexOf(s, sep);
    if i >= 0 {
      var rest := s[i + |sep|..];
      JoinSplit(rest, sep);
      JoinCons(s[..i], Split(rest, sep), sep);
      SliceAround(s, i, |sep|);
    }
  }

  /** No piece of a split contains the separator. */
  lemma {:induction false} SplitPartsFree(s: string, sep: string)
    requires |sep| > 0
    ensures forall p :: p in Split(s, sep) ==> IndexOf(p, sep) == -1
    decreases |s|
  {
    var i := IndexOf(s, sep);
    if i >= 0 {
      var rest := s[i + |sep|..];
      SplitPartsFree(rest, sep);
      var head := s[..i];
      assert Split(s, sep) == [head] + Split(rest, sep);
      NoOccurrenceBefore(s, sep, i);
    } else {
      assert Split(s, sep) == [s];
    }
  }

  /** Up to the first occurrence of sep there is none. */
  lemma NoOccurrenceBefore(s: string, sep: string, i: nat)
    requires |sep| > 0 && i <= |s|
    requires forall k :: 0 <= k < i ==> !OccursAt(s, sep, k)
    ensures IndexOf(s[..i], sep) == -1
  {
    var head := s[..i];
    forall k | 0 <= k ensures !OccursAt(head, sep, k) {
      if k + |sep| <= |head| {
        assert !OccursAt(s, sep, k);
        assert head[k..k + |sep|] == s[k..k + |sep|];
      }
    }
  }

  /** A string that shares no character with sep has no occurrence of it. */
  lemma NoOccurrence(p: string, sep: string, rest: string, k: nat)
    requires |sep| > 0 && NoneOf(p, sep) && k < |p|
    ensures !OccursAt(p + rest, sep, k)
  {
    var s := p + rest;
    assert s[k] == p[k] && p[k] !in sep;
    if k + |sep| <= |s| {
      assert s[k..k + |sep|][0] == s[k];
      assert sep[0] in sep;
    }
  }

  /** Splitting pieces that share no character with the separator gives the pieces back. */
  lemma {:induction false} SplitJoin(parts: seq<string>, sep: string)
    requires |sep| > 0 && |parts| >= 1
    requires forall k :: 0 <= k < |parts| ==> NoneOf(parts[k], sep)
    ensures Split(Join(parts, sep), sep) == parts
  {
    var p := parts[0];
    if |parts| == 1 {
      assert Join(parts, sep) == p;
      forall k | 0 <= k < |p| ensures !OccursAt(p, sep, k) {
        NoOccurrence(p, sep, "", k);
        assert p + "" == p;
      }
    } else {
      var rest := Join(parts[1..], sep);
      var s := p + sep + rest;
      assert Join(parts, sep) == s;
      forall k | 0 <= k < |p| ensures !OccursAt(s, sep, k) {
        NoOccurrence(p, sep, sep + rest, k);
        assert p + (sep + rest) == s;
      }
      assert s[|p|..|p| + |sep|] == sep;
      assert OccursAt(s, sep, |p|);
      assert IndexOf(s, sep) == |p|;
      assert s[|p| + |sep|..] == rest;
      assert s[..|p|] == p;
      SplitJoin(parts[1..], sep);
    }
  }

  /** The first piece of a split is everything before the first separator. */
  lemma SplitFirst(p: string, rest: string, sep: string)
    requires |sep| > 0 && NoneOf(p, sep)
    requires rest == [] || StartsWith(rest, sep)
    ensures Split(p + rest, sep)[0] == p
  {
    var s := p + rest;
    forall k | 0 <= k < |p| ensures !OccursAt(s, sep, k) {
      NoOccurrence(p, sep, rest, k);
    }
    if rest == [] {
      assert s == p;
      assert IndexOf(s, sep) == -1;
    } else {
      assert s[|p|..|p| + |sep|] == rest[..|sep|];
      assert OccursAt(s, sep, |p|);
      assert IndexOf(s, sep) == |p|;
      assert s[..|p|] == p;
    }
  }

  // ---------------------------------------------------------------------
  // Decimal numbers
  // ---------------------------------------------------------------------

  function DigitChar(d: nat): char
    requires d < 10
  {
    ('0' as int + d) as char
  }

  function DigitValue(c: char): nat
    requires IsDigit(c)
  {
    c as int - '0' as int
  }

  /** The decimal rendering of a natural number, as PHP's string conversion and sprintf('%d') write it. */
  function NatToString(n: nat): (s: string)
    ensures |s| >= 1 && AllDigits(s)
    ensures |s| > 1 ==> s[0] != '0'
  {
    if n < 10 then [DigitChar(n)] else NatToString(n / 10) + [DigitChar(n % 10)]
  }

  /** The value of a string of decimal digits. */
  function DigitsValue(s: string): nat
    requires AllDigits(s)
  {
    if s == [] then 0 else 10 * DigitsValue(s[..|s| - 1]) + DigitValue(s[|s| - 1])
  }

  /** A decimal rendering without superfluous leading zeros. */
  predicate IsCanonicalNat(s: string) {
    |s| >= 1 && AllDigits(s) && (|s| > 1 ==> s[0] != '0')
  }

  /** Reading back the decimal rendering of n gives n. */
  lemma {:induction false} NatToStringValue(n: nat)
    ensures DigitsValue(NatToString(n)) == n
  {
    if n >= 10 {
      NatToStringValue(n / 10);
      var s := NatToString(n);
      assert s[..|s| - 1] == NatToString(n / 10);
    }
  }

  /** A canonical decimal rendering is the rendering of its own value. */
  lemma {:induction false} CanonicalNatRoundTrip(s: string)
    requires IsCanonicalNat(s)
    ensures NatToString(DigitsValue(s)) == s
    decreases |s|
  {
    if |s| > 1 {
      var init := s[..|s| - 1];
      assert IsCanonicalNat(init) by { assert init[0] == s[0]; }
      CanonicalNatRoundTrip(init);
      assert DigitsValue(init) >= 1 by {
        assert NatToString(0) == "0";
        assert init != "0" by { assert init[0] == s[0]; }
      }
    }
  }

  /** Distinct natural numbers have distinct renderings. */
  lemma NatToStringInjective(m: nat, n: nat)
    requires NatToString(m) == NatToString(n)
    ensures m == n
  {
    NatToStringValue(m);
    NatToStringValue(n);
  }

  /** The decimal rendering of an integer, with a leading '-' for negatives. */
  function IntToString(i: int): string {
    if i < 0 then "-" + NatToString(-i) else NatToString(i)
  }

  function Zeros(n: nat): (s: string)
    ensures |s| == n && forall k :: 0 <= k < n ==> s[k] == '0'
  {
    if n == 0 then "" else "0" + Zeros(n - 1)
  }

  /** sprintf('%06d', n) for a natural number n. */
  function Pad6(n: nat): (s: string)
    ensures AllDigits(s)
  {
    var digits := NatToString(n);
    if |digits| >= 6 then digits else Zeros(6 - |digits|) + digits
  }

  lemma {:induction false} LeadingZerosValue(z: nat, s: string)
    requires AllDigits(s)
    ensures AllDigits(Zeros(z) + s) && DigitsValue(Zeros(z) + s) == DigitsValue(s)
    decreases |s|
  {
    if s == [] {
      assert Zeros(z) + s == Zeros(z);
      ZerosValue(z);
    } else {
      var t := Zeros(z) + s;
      assert t[..|t| - 1] == Zeros(z) + s[..|s| - 1];
      LeadingZerosValue(z, s[..|s| - 1]);
    }
  }

  lemma {:induction false} ZerosValue(z: nat)
    ensures DigitsValue(Zeros(z)) == 0
  {
    if z > 0 {
      assert Zeros(z)[..z - 1] == Zeros(z - 1);
      ZerosValue(z - 1);
    }
  }

  /** A zero-padded number is at least six digits wide and still reads as the number. */
  lemma Pad6Spec(n: nat)
    ensures |Pad6(n)| == if |NatToString(n)| >= 6 then |NatToString(n)| else 6
    ensures DigitsValue(Pad6(n)) == n
  {
    var digits := NatToString(n);
    NatToStringValue(n);
    if |digits| < 6 {
      LeadingZerosValue(6 - |digits|, digits);
    }
  }

  // ---------------------------------------------------------------------
  // Case folding and ordering
  // ---------------------------------------------------------------------

  /** ASCII lower-casing, as strcasecmp and strtolower do it in PHP 8. */
  function LowerChar(c: char): char {
    if 'A' <= c <= 'Z' then (c as int + 32) as char else c
  }

  function Lower(s: string): (r: string)
    ensures |r| == |s| && forall k :: 0 <= k < |s| ==> r[k] == LowerChar(s[k])
  {
    if s == [] then [] else [LowerChar(s[0])] + Lower(s[1..])
  }

  /** Byte-wise (code point) lexicographic order: strcmp(a, b) <= 0. */
  predicate LexLe(a: string, b: string)
    decreases |a|
  {
    if a == [] then true
    else if b == [] then false
    else if a[0] != b[0] then a[0] < b[0]
    else LexLe(a[1..], b[1..])
  }

  lemma {:induction false} LexLeTotal(a: string, b: string)
    ensures LexLe(a, b) || LexLe(b, a)
    decreases |a|
  {
    if a != [] && b != [] && a[0] == b[0] {
      LexLeTotal(a[1..], b[1..]);
    }
  }

  lemma {:induction false} LexLeTransitive(a: string, b: string, c: string)
    requires LexLe(a, b) && LexLe(b, c)
    ensures LexLe(a, c)
    decreases |a|
  {
    if a != [] && b != [] && c != [] && a[0] == b[0] && b[0] == c[0] {
      LexLeTransitive(a[1..], b[1..], c[1..]);
    }
  }

  lemma {:induction false} LexLeAntisymmetric(a: string, b: string)
    requires LexLe(a, b) && LexLe(b, a)
    ensures a == b
    decreases |a|
  {
    if a != [] && b != [] {
      LexLeAntisymmetric(a[1..], b[1..]);
      assert a == [a[0]] + a[1..];
      assert b == [b[0]] + b[1..];
    }
  }

  // ---------------------------------------------------------------------
  // Percent doubling
  // ---------------------------------------------------------------------

  /** str_replace('%', '%%', $s). */
  function DoublePercent(s: string): (r: string)
    ensures |r| >= |s|
  {
    if s == [] then []
    else if s[0] == '%' then "%%" + DoublePercent(s[1..])
    else [s[0]] + DoublePercent(s[1..])
  }

  /** Reads a doubled-percent string back; a lone '%' is kept as is. */
  function UndoublePercent(s: string): string
    decreases |s|
  {
    if s == [] then []
    else if |s| >= 2 && s[0] == '%' && s[1] == '%' then "%" + UndoublePercent(s[2..])
    else [s[0]] + UndoublePercent(s[1..])
  }

  /**
   * DoublePercent is injective: reading pairs back gives the string again.
   * This is a property of the string function only; in a MySQL LIKE
   * pattern '%%' is two wildcards, not an escaped '%'.
   */
  lemma {:induction false} PercentRoundTrip(s: string)
    ensures UndoublePercent(DoublePercent(s)) == s
  {
    if s != [] {
      PercentRoundTrip(s[1..]);
      var d := DoublePercent(s);
      if s[0] == '%' {
        assert d[2..] == DoublePercent(s[1..]);
      } else {
        assert d[1..] == DoublePercent(s[1..]);
      }
    }
  }

  /** The UTF-16 code units of a character: a character beyond U+FFFF is a surrogate pair. */
  function CodeUnits(c: char): nat {
    if c as int > 0xFFFF then 2 else 1
  }

  /** JavaScript's `.length`: the number of UTF-16 code units. */
  function Utf16Length(s: string): (n: nat)
    ensures |s| <= n <= 2 * |s|
  {
    if s == [] then 0 else CodeUnits(s[0]) + Utf16Length(s[1..])
  }

  lemma Utf16LengthPair(c: char, d: char)
    ensures Utf16Length([c, d]) == CodeUnits(c) + CodeUnits(d)
  {
    assert [c, d][1..] == [d] && [d][1..] == [];
  }

  /** On the Basic Multilingual Plane the UTF-16 length is the number of characters. */
  lemma {:induction false} Utf16LengthBmp(s: string)
    requires forall k :: 0 <= k < |s| ==> s[k] as int <= 0xFFFF
    ensures Utf16Length(s) == |s|
  {
    if s != [] {
      Utf16LengthBmp(s[1..]);
    }
  }

  /** After doubling, every percent sign comes in a pair. */
  lemma {:induction false} PercentCount(s: string)
    ensures multiset(DoublePercent(s))['%'] == 2 * multiset(s)['%']
  {
    if s != [] {
      PercentCount(s[1..]);
      assert s == [s[0]] + s[1..];
    }
  }
}
