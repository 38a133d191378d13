/**
 * The "Last, First (Dates)" rendering of a person used across the
 * system: report columns, printable records, lookup lists and the
 * catalogue results. Each caller decides which parts are shown (PHP or
 * JavaScript truthiness) and whether the parts are trimmed first.
 */
module Names {
  import opened Text

  /** last, then ", first" when shown, then " (dates)" when shown. */
  function FullName(last: string, first: string, dates: string, shown: string -> bool): (name: string)
    ensures StartsWith(name, last)
    ensures shown(dates) ==> EndsWith(name, " (" + dates + ")")
  {
    var name := last + (if shown(first) then ", " + first else "");
    var name := name + (if shown(dates) then " (" + dates + ")" else "");
    assert name[..|last|] == last;
    name
  }

  /**
   * The three parts of a full name sit one after the other: the first
   * name right after ", " following the last name, the dates inside the
   * final parentheses, and nothing is added when a part is not shown.
   */
  lemma FullNameParts(last: string, first: string, dates: string, shown: string -> bool)
    ensures var name := FullName(last, first, dates, shown);
      var mid := if shown(first) then |last| + 2 + |first| else |last|;
      |name| == mid + (if shown(dates) then |dates| + 3 else 0)
      && (shown(first) ==> name[|last|..mid] == ", " + first)
      && (shown(dates) ==> name[mid..] == " (" + dates + ")")
      && (!shown(first) && !shown(dates) ==> name == last)
  {
  }

  /** Only whether each optional part is shown matters, not how that is decided. */
  lemma FullNameShownAlike(last: string, first: string, dates: string, a: string -> bool, b: string -> bool)
    requires a(first) == b(first) && a(dates) == b(dates)
    ensures FullName(last, first, dates, a) == FullName(last, first, dates, b)
  {
  }
}
