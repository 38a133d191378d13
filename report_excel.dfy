/**
 * The parts of the workbook writer that are plain logic: spreadsheet cell
 * names (column letters A, ..., Z, AA, ... followed by the row number),
 * the coercion applied to each value before it is written to a cell, and
 * the download file name.
 */
module ReportExcel {
  import opened Text
  import opened Values

  predicate IsLetter(c: char) { 'A' <= c <= 'Z' }

  predicate AllLetters(s: string) { forall k :: 0 <= k < |s| ==> IsLetter(s[k]) }

  /** The spreadsheet letters of a 1-based column number: bijective base 26 over 'A'..'Z'. */
  function ColumnLetters(column: int): (letters: string)
    ensures AllLetters(letters)
    ensures column <= 0 <==> letters == []
    decreases column
  {
    if column <= 0 then ""
    else ColumnLetters((column - 1) / 26) + [(65 + (column - 1) % 26) as char]
  }

  /** The column number a run of letters names. */
  function LettersValue(letters: string): (column: nat)
    requires AllLetters(letters)
    ensures letters != [] ==> column >= 1
  {
    if letters == [] then 0
    else 26 * LettersValue(letters[..|letters| - 1]) + (letters[|letters| - 1] as int - 64)
  }

  /**
   * column_row($column, $row): the cell name of a column and a row.
   * The float division in `intval(($dividend - $modulo) / 26)` is exact
   * up to a remainder of 1/26, which intval drops.
   */
  method ColumnRow(column: int, row: int) returns (cell: string)
    ensures cell == ColumnLetters(column) + IntToString(row)
  {
    var dividend := column;
    var letter := "";
    while dividend > 0
      invariant ColumnLetters(dividend) + letter == ColumnLetters(column)
      decreases dividend
    {
      var modulo := (dividend - 1) % 26;
      var next := (dividend - modulo) / 26;
      LetterStep(dividend, modulo, next, letter);
      letter := [(65 + modulo) as char] + letter;
      dividend := next;
    }
    assert letter == ColumnLetters(column) by {
      assert ColumnLetters(dividend) == [];
    }
    cell := letter + IntToString(row);
  }

  /** One step of column_row(): the last letter, and the quotient the float division yields. */
  lemma LetterStep(dividend: int, modulo: int, next: int, letter: string)
    requires dividend > 0 && modulo == (dividend - 1) % 26 && next == (dividend - modulo) / 26
    ensures next == (dividend - 1) / 26 && 0 <= next < dividend
    ensures ColumnLetters(dividend) + letter == ColumnLetters(next) + ([(65 + modulo) as char] + letter)
  {
    assert dividend - 1 == 26 * ((dividend - 1) / 26) + modulo;
    assert dividend - modulo == 26 * ((dividend - 1) / 26) + 1;
  }

  /** Decoding the letters of a column number gives the number back. */
  lemma {:induction false} LettersOfColumn(column: nat)
    ensures LettersValue(ColumnLetters(column)) == column
    decreases column
  {
    if column > 0 {
      var init := (column - 1) / 26;
      LettersOfColumn(init);
      var letters := ColumnLetters(column);
      assert letters[..|letters| - 1] == ColumnLetters(init);
    }
  }

  /** Every run of letters is the letters of the column it decodes to. */
  lemma {:induction false} ColumnOfLetters(letters: string)
    requires AllLetters(letters)
    ensures ColumnLetters(LettersValue(letters)) == letters
    decreases |letters|
  {
    if letters != [] {
      var init := letters[..|letters| - 1];
      var last := letters[|letters| - 1];
      ColumnOfLetters(init);
      var column := LettersValue(letters);
      assert (column - 1) / 26 == LettersValue(init);
      assert (column - 1) % 26 == last as int - 65;
      assert letters == init + [last];
    }
  }

  /** Distinct columns get distinct letters. */
  lemma ColumnLettersInjective(a: nat, b: nat)
    requires ColumnLetters(a) == ColumnLetters(b)
    ensures a == b
  {
    LettersOfColumn(a);
    LettersOfColumn(b);
  }

  /** The first columns after single letters run out. */
  lemma ColumnLetterExamples()
    ensures ColumnLetters(1) == "A" && ColumnLetters(26) == "Z"
    ensures ColumnLetters(27) == "AA" && ColumnLetters(52) == "AZ"
    ensures ColumnLetters(702) == "ZZ" && ColumnLetters(703) == "AAA"
  {
    assert ColumnLetters(0) == "";
    assert ColumnLetters(1) == "A";
    assert ColumnLetters(2) == "B";
    assert ColumnLetters(26) == "Z";
    assert ColumnLetters(27) == "AA";
    assert ColumnLetters(52) == "AZ";
    assert ColumnLetters(702) == "ZZ";
    assert ColumnLetters(703) == "AAA";
  }

  // ---------------------------------------------------------------------
  // Numeric strings (PHP 8 is_numeric on a string)
  // ---------------------------------------------------------------------

  /** The white space PHP 8 allows around a numeric string: " \t\n\r\v\f". */
  predicate IsNumericSpace(c: char) {
    c == ' ' || c == '\t' || c == '\n' || c == '\r' || c == '\U{0B}' || c == '\U{0C}'
  }

  function WithoutSign(s: string): string {
    if |s| > 0 && (s[0] == '+' || s[0] == '-') then s[1..] else s
  }

  /** The first index of a character satisfying the test, or |s|. */
  function FirstIndex(s: string, test: char -> bool): (k: nat)
    ensures k <= |s| && (k < |s| ==> test(s[k]))
    ensures forall j :: 0 <= j < k ==> !test(s[j])
  {
    if s == [] then 0
    else if test(s[0]) then 0
    else 1 + FirstIndex(s[1..], test)
  }

  /** Digits with at most one decimal point and at least one digit: "12", "1.5", ".5", "5.". */
  predicate IsMantissa(s: string) {
    var dot := FirstIndex(s, c => c == '.');
    if dot == |s| then |s| >= 1 && AllDigits(s)
    else AllDigits(s[..dot]) && AllDigits(s[dot + 1..]) && |s| >= 2
  }

  /** An optionally signed run of at least one digit. */
  predicate IsExponent(s: string) {
    var digits := WithoutSign(s);
    |digits| >= 1 && AllDigits(digits)
  }

  /** A signed decimal or floating-point literal, without surrounding white space. */
  predicate IsNumberLiteral(s: string) {
    var body := WithoutSign(s);
    var e := FirstIndex(body, c => c == 'e' || c == 'E');
    if e == |body| then IsMantissa(body)
    else IsMantissa(body[..e]) && IsExponent(body[e + 1..])
  }

  /** is_numeric($s) for a string: a number literal with optional white space around it. */
  predicate IsNumericString(s: string) {
    IsNumberLiteral(Trim(s, IsNumericSpace))
  }

  /** The range of PHP's 64-bit integers. */
  const IntMin: int := -0x8000_0000_0000_0000
  const IntMax: int := 0x7FFF_FFFF_FFFF_FFFF

  /** "0", or an optional '-' and digits without a leading zero, other than "-0". */
  predicate IsCanonicalInt(s: string) {
    IsCanonicalNat(s) || (|s| >= 2 && s[0] == '-' && IsCanonicalNat(s[1..]) && s[1] != '0')
  }

  /** The value of a canonical integer string. */
  function CanonicalValue(s: string): int
    requires IsCanonicalInt(s)
  {
    if s[0] == '-' then 0 - DigitsValue(s[1..]) as int else DigitsValue(s)
  }

  /**
   * `(string)(int)$s === $s` for a numeric string: the cast keeps the
   * string exactly when it is a canonical integer inside the 64-bit range
   * (anything else is re-rendered differently: a sign, a leading zero, a
   * fraction, an exponent, white space, or a value clamped at the range end).
   */
  predicate IntegerStringRoundTrips(s: string) {
    IsCanonicalInt(s) && IntMin <= CanonicalValue(s) <= IntMax
  }

  /** What a value becomes before it is written to a cell. */
  datatype Cell =
    | IntCell(n: int)          // an integer
    | FloatCell(source: Value) // a float, converted from this value (float arithmetic is not modelled)
    | TextCell(text: string)   // a trimmed string
    | RawCell(v: Value)        // anything else, written unchanged

  predicate IsNumeric(v: Value) {
    match v
    case Int(_) => true
    case Str(s) => IsNumericString(s)
    case _ => false
  }

  /** The coercion applied to each report value in the workbook. */
  function CoerceCell(v: Value): Cell {
    if IsNumeric(v) then
      if v.Str? && IntegerStringRoundTrips(v.s) then IntCell(CanonicalValue(v.s))
      else FloatCell(v)
    else if v.Str? then TextCell(PhpTrim(v.s))
    else RawCell(v)
  }

  lemma CanonicalIsNumeric(s: string)
    requires IsCanonicalInt(s)
    ensures IsNumericString(s)
  {
    var digits := WithoutSign(s);
    assert IsCanonicalNat(digits);
    assert FirstIndex(digits, c => c == 'e' || c == 'E') == |digits|;
    assert FirstIndex(digits, c => c == '.') == |digits|;
    assert Trim(s, IsNumericSpace) == s by {
      TrimOfTrimmed(s, IsNumericSpace);
    }
  }

  /**
   * A canonical integer string in range becomes the integer it spells,
   * and rendering that integer gives the string back.
   */
  lemma IntegerCell(s: string)
    requires IntegerStringRoundTrips(s)
    ensures CoerceCell(Str(s)) == IntCell(CanonicalValue(s))
    ensures IntToString(CanonicalValue(s)) == s
  {
    CanonicalIsNumeric(s);
    assert IsNumeric(Str(s));
    CanonicalIntRoundTrip(s);
  }

  lemma CanonicalIntRoundTrip(s: string)
    requires IsCanonicalInt(s)
    ensures IntToString(CanonicalValue(s)) == s
  {
    if s[0] == '-' {
      var digits := s[1..];
      CanonicalNatRoundTrip(digits);
      assert DigitsValue(digits) != 0 by {
        assert NatToString(0) == "0";
        assert digits[0] != '0';
      }
      assert s == "-" + digits;
    } else {
      CanonicalNatRoundTrip(s);
    }
  }

  /**
   * The integer branch is reached only from strings: an integer value is
   * numeric but its string form is never identical to it, so it is
   * written as a float.
   */
  lemma IntValueBecomesFloat(i: int)
    ensures CoerceCell(Int(i)) == FloatCell(Int(i))
  {
  }

  /** A non-numeric string is written trimmed; a number with a leading zero is not an integer. */
  lemma CellCoercionCases(s: string)
    ensures !IsNumericString(s) ==> CoerceCell(Str(s)) == TextCell(PhpTrim(s))
    ensures CoerceCell(Str(s)).IntCell? ==> IsCanonicalInt(s) && IntToString(CoerceCell(Str(s)).n) == s
    ensures CoerceCell(Str(s)).TextCell? ==> !IsNumericString(s)
  {
    if CoerceCell(Str(s)).IntCell? {
      IntegerCell(s);
    }
  }

  /** Null and booleans are written as they are. */
  lemma OtherValuesUnchanged(v: Value)
    requires v.Null? || v.Bool?
    ensures CoerceCell(v) == RawCell(v)
  {
  }

  // ---------------------------------------------------------------------
  // File name
  // ---------------------------------------------------------------------

  /** "{title} {Ymd}-{id}.xlsx". */
  function WorkbookFilename(title: Value, stamp: string, id: int): (name: string)
    ensures EndsWith(name, ".xlsx")
  {
    var name := PhpString(title) + " " + stamp + "-" + IntToString(id) + ".xlsx";
    assert name[|name| - 5..] == ".xlsx";
    name
  }

  /**
   * For one report title and eight-digit date stamps, the file name
   * determines both the date and the request id.
   */
  lemma FilenameDeterminesRequest(title: Value, stamp1: string, id1: nat, stamp2: string, id2: nat)
    requires |stamp1| == 8 && |stamp2| == 8
    requires WorkbookFilename(title, stamp1, id1) == WorkbookFilename(title, stamp2, id2)
    ensures stamp1 == stamp2 && id1 == id2
  {
    var head := PhpString(title) + " ";
    var n := WorkbookFilename(title, stamp1, id1);
    var d1 := IntToString(id1);
    var d2 := IntToString(id2);
    Middle(head, stamp1, "-" + d1 + ".xlsx");
    Middle(head, stamp2, "-" + d2 + ".xlsx");
    Middle(head + stamp1 + "-", d1, ".xlsx");
    Middle(head + stamp2 + "-", d2, ".xlsx");
    assert n == head + stamp1 + ("-" + d1 + ".xlsx") == head + stamp2 + ("-" + d2 + ".xlsx");
    assert n == (head + stamp1 + "-") + d1 + ".xlsx" == (head + stamp2 + "-") + d2 + ".xlsx";
    NatToStringInjective(id1, id2);
  }

  lemma Middle(a: string, b: string, c: string)
    ensures (a + b + c)[|a|..|a| + |b|] == b
  {
  }
}
