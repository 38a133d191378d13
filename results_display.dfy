/**
 * The catalogue's page of search results: the pagination bar with its
 * window of at most five page numbers, the previous/next clamps, and the
 * title, composer and delete-button cells of a result row.
 */
module ResultsDisplay {
  import opened Text
  import opened Values
  import opened Names
  import ReportColumns

  // ---------------------------------------------------------------------
  // Navigation
  // ---------------------------------------------------------------------

  /** `Math.min(page + 1, pages)`. */
  function NextPage(page: int, pages: int): (r: int)
    ensures r <= pages && r <= page + 1
    ensures page < pages ==> r == page + 1
    ensures 1 <= page <= pages ==> 1 <= r <= pages
  {
    if page + 1 < pages then page + 1 else pages
  }

  /** `Math.max(page - 1, 1)`. */
  function PrevPage(page: int): (r: int)
    ensures r >= 1 && r >= page - 1
    ensures page > 1 ==> r == page - 1
  {
    if page - 1 > 1 then page - 1 else 1
  }

  /** Next undoes previous and previous undoes next, away from the ends. */
  lemma NextPrevInverse(page: int, pages: int)
    ensures 1 <= page < pages ==> PrevPage(NextPage(page, pages)) == page
    ensures 1 < page <= pages ==> NextPage(PrevPage(page), pages) == page
    ensures NextPage(pages, pages) == pages && PrevPage(1) == 1
  {
  }

  // ---------------------------------------------------------------------
  // The pagination bar
  // ---------------------------------------------------------------------

  const MaxVisiblePages := 5

  /** An entry of the pagination bar. */
  datatype PageItem = PageLink(number: int, active: bool) | Ellipsis

  /** Links for pages first..last, the current page marked active. */
  function Links(first: int, last: int, page: int): (items: seq<PageItem>)
    ensures |items| == if last < first then 0 else last - first + 1
    ensures forall k :: 0 <= k < |items| ==> items[k] == PageLink(first + k, first + k == page)
    decreases last - first
  {
    if last < first then [] else Links(first, last - 1, page) + [PageLink(last, last == page)]
  }

  /** The first and last page number shown when there are more than five pages. */
  function Window(page: int, pages: int): (int, int) {
    if page <= 3 then (1, MaxVisiblePages)
    else if page + 2 >= pages then (pages - MaxVisiblePages + 1, pages)
    else (page - 2, page + 2)
  }

  /** The window has five pages, all of them pages of the result, and the current page among them. */
  lemma WindowSpec(page: int, pages: int)
    requires pages > MaxVisiblePages
    ensures var (first, last) := Window(page, pages);
      last - first + 1 == MaxVisiblePages && 1 <= first && last <= pages
      && (1 <= page <= pages ==> first <= page <= last)
  {
  }

  /** The bar: every page when there are at most five, else the window with the first and last page beyond ellipses. */
  function PageItems(page: int, pages: int): seq<PageItem> {
    if pages <= MaxVisiblePages then Links(1, pages, page)
    else
      var (first, last) := Window(page, pages);
      (if first > 1 then [PageLink(1, false), Ellipsis] else [])
      + Links(first, last, page)
      + (if last < pages then [Ellipsis, PageLink(pages, false)] else [])
  }

  /** generatePageItems(): the links pushed in order, then the leading pair unshifted and the trailing pair pushed. */
  method GeneratePageItems(page: int, pages: int) returns (items: seq<PageItem>)
    ensures items == PageItems(page, pages)
  {
    items := [];
    var first, last := 1, pages;
    if pages > MaxVisiblePages {
      if page <= 3 {
        first, last := 1, MaxVisiblePages;
      } else if page + 2 >= pages {
        first, last := pages - MaxVisiblePages + 1, pages;
      } else {
        first, last := page - 2, page + 2;
      }
    }
    var number := first;
    while number <= last
      invariant first <= number <= last + 1 || (last < first && number == first)
      invariant items == Links(first, number - 1, page)
      decreases last - number
    {
      items := items + [PageLink(number, number == page)];
      number := number + 1;
    }
    assert items == Links(first, last, page) by {
      assert last < first || number - 1 == last;
    }
    if pages > MaxVisiblePages {
      assert (first, last) == Window(page, pages);
      ghost var links := items;
      if first > 1 {
        items := [Ellipsis] + items;
        items := [PageLink(1, false)] + items;
        assert items == [PageLink(1, false), Ellipsis] + links;
      }
      ghost var lead := items;
      if last < pages {
        items := items + [Ellipsis];
        items := items + [PageLink(pages, false)];
        assert items == lead + [Ellipsis, PageLink(pages, false)];
      }
    }
  }

  /** At most five pages: exactly the links 1..pages, no ellipsis. */
  lemma FewPages(page: int, pages: int)
    requires 0 <= pages <= MaxVisiblePages
    ensures var items := PageItems(page, pages);
      |items| == pages && forall k :: 0 <= k < pages ==> items[k] == PageLink(k + 1, k + 1 == page)
  {
  }

  /**
   * More than five pages: the bar starts with page 1 and an ellipsis
   * exactly when the window starts after page 1, ends with an ellipsis and
   * the last page exactly when the window ends before it, and shows the
   * five window pages in between.
   */
  lemma ManyPages(page: int, pages: int)
    requires pages > MaxVisiblePages
    ensures var items := PageItems(page, pages);
      var (first, last) := Window(page, pages);
      var lead := if first > 1 then 2 else 0;
      |items| == lead + MaxVisiblePages + (if last < pages then 2 else 0)
      && (first > 1 <==> items[1] == Ellipsis)
      && (first > 1 ==> items[0] == PageLink(1, false))
      && (last < pages <==> items[|items| - 2] == Ellipsis)
      && (last < pages ==> items[|items| - 1] == PageLink(pages, false))
      && forall k :: lead <= k < lead + MaxVisiblePages ==> items[k] == PageLink(first + k - lead, first + k - lead == page)
  {
    WindowSpec(page, pages);
  }

  /** The current page of the result is shown as an active link. */
  lemma CurrentPageShown(page: int, pages: int)
    requires 1 <= page <= pages
    ensures var items := PageItems(page, pages);
      exists k :: 0 <= k < |items| && items[k] == PageLink(page, true)
  {
    var items := PageItems(page, pages);
    if pages <= MaxVisiblePages {
      FewPages(page, pages);
      assert items[page - 1] == PageLink(page, true);
    } else {
      ManyPages(page, pages);
      WindowSpec(page, pages);
      var (first, last) := Window(page, pages);
      var lead := if first > 1 then 2 else 0;
      assert items[lead + page - first] == PageLink(page, true);
    }
  }

  /** No link but the current page's is active: the first and last page links beyond the ellipses never are. */
  lemma OnlyCurrentActive(page: int, pages: int)
    ensures var items := PageItems(page, pages);
      forall k :: 0 <= k < |items| && items[k].PageLink? && items[k].active ==> items[k].number == page
  {
    var items := PageItems(page, pages);
    if pages > MaxVisiblePages {
      ManyPages(page, pages);
      var (first, last) := Window(page, pages);
      var lead := if first > 1 then 2 else 0;
      forall k | 0 <= k < |items| && items[k].PageLink? && items[k].active
        ensures items[k].number == page
      {
        if lead <= k < lead + MaxVisiblePages {
          assert items[k] == PageLink(first + k - lead, first + k - lead == page);
        }
      }
    }
  }

  // ---------------------------------------------------------------------
  // Result cells
  // ---------------------------------------------------------------------

  predicate NonEmpty(s: string) { s != "" }

  /** formatName(): trimmed last name, then ", first" and " (dates)" when not blank. */
  function FormatName(record: Record, prefix: string): string {
    FullName(JsTrim(TextValue(Get(record, prefix + "LastName"))),
             JsTrim(TextValue(Get(record, prefix + "FirstName"))),
             JsTrim(TextValue(Get(record, prefix + "Dates"))), NonEmpty)
  }

  /** A formatted name is blank exactly when all three parts are. */
  lemma FormatNameEmpty(record: Record, prefix: string)
    ensures FormatName(record, prefix) == "" <==>
      JsTrim(TextValue(Get(record, prefix + "LastName"))) == ""
      && JsTrim(TextValue(Get(record, prefix + "FirstName"))) == ""
      && JsTrim(TextValue(Get(record, prefix + "Dates"))) == ""
  {
    var last := JsTrim(TextValue(Get(record, prefix + "LastName")));
    var first := JsTrim(TextValue(Get(record, prefix + "FirstName")));
    var dates := JsTrim(TextValue(Get(record, prefix + "Dates")));
    FullNameParts(last, first, dates, NonEmpty);
  }

  /**
   * The catalogue shows a person as the reports do, as long as the parts
   * trim alike in both languages and neither the first name nor the dates
   * is "0", which only PHP hides.
   */
  lemma FormatNameAsInReports(record: Record, prefix: string, last: string, first: string, dates: string)
    requires Get(record, prefix + "LastName") == Str(last)
    requires Get(record, prefix + "FirstName") == Str(first)
    requires Get(record, prefix + "Dates") == Str(dates)
    requires JsTrim(last) == PhpTrim(last) && JsTrim(first) == PhpTrim(first) && JsTrim(dates) == PhpTrim(dates)
    requires JsTrim(first) != "0" && JsTrim(dates) != "0"
    ensures FormatName(record, prefix)
      == ReportColumns.PersonDisplay(ReportColumns.PersonRow(Str(last), Str(first), Str(dates)))
  {
    var l, f, d := JsTrim(last), JsTrim(first), JsTrim(dates);
    assert FormatName(record, prefix) == FullName(l, f, d, NonEmpty);
    assert ReportColumns.PersonDisplay(ReportColumns.PersonRow(Str(last), Str(first), Str(dates)))
      == FullName(l, f, d, PhpTruthyString);
    PhpStringTruthy(f);
    PhpStringTruthy(d);
    FullNameShownAlike(l, f, d, NonEmpty, PhpTruthyString);
  }

  /** A table cell: its text and its hover title ("" when it has none). */
  datatype Cell = Cell(text: string, hover: string)

  const NoTitle := "[No Title]"
  const CollectionSuffix := " (collection)"

  /** createTitleCell(): the title, or a placeholder, and either the other title on hover or the collection marker. */
  function TitleCell(itemTitle: string, isCollection: Value, otherTitle: Value): (c: Cell)
    ensures var title := if JsTrim(itemTitle) == "" then NoTitle else JsTrim(itemTitle);
      var other := JsTrim(TextValue(otherTitle));
      c.text != ""
      && (other != "" ==> c == Cell(title, "a.k.a. " + other))
      && (other == "" ==>
            c.hover == "" && StartsWith(c.text, title)
            && (EndsWith(c.text, CollectionSuffix) <==> isCollection == Str("Y") || EndsWith(title, CollectionSuffix)))
  {
    var trimmed := JsTrim(itemTitle);
    var title := if trimmed == "" then NoTitle else trimmed;
    var other := JsTrim(TextValue(otherTitle));
    if other != "" then Cell(title, "a.k.a. " + other)
    else
      var text := title + (if isCollection == Str("Y") then CollectionSuffix else "");
      assert text[..|title|] == title;
      assert isCollection == Str("Y") ==> text[|text| - |CollectionSuffix|..] == CollectionSuffix;
      Cell(text, "")
  }

  const NoComposer := "[No composer or arranger recorded]"

  /**
   * createComposerCell(): the composer when there is one, with the
   * arranger on hover; "arr. X" when there is only an arranger; a
   * placeholder exactly when neither name has any part.
   */
  function ComposerCell(record: Record): (c: Cell)
    ensures var composer, arranger := FormatName(record, "Composer"), FormatName(record, "Arranger");
      c.text != ""
      && (composer != "" ==> c.text == composer && (c.hover != "" <==> arranger != ""))
      && (composer == "" && arranger != "" ==> c == Cell("arr. " + arranger, ""))
      && (c.text == NoComposer <==> (composer == "" && arranger == "") || composer == NoComposer)
  {
    var composer := FormatName(record, "Composer");
    var arranger := FormatName(record, "Arranger");
    if arranger != "" then
      assert ("arr. " + arranger)[0] != NoComposer[0];
      if composer == "" then Cell("arr. " + arranger, "") else Cell(composer, "arr. " + arranger)
    else Cell(if composer != "" then composer else NoComposer, "")
  }

  const DeleteButton := "btn btn-link text-danger"

  /** makeDeleteClasses(): a record still in use has its delete button hidden. */
  function DeleteClasses(usedBy: int): (r: string)
    ensures StartsWith(r, DeleteButton)
    ensures EndsWith(r, " invisible") <==> usedBy > 0
  {
    if usedBy > 0 then DeleteButton + " invisible" else DeleteButton
  }
}
