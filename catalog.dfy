/**
 * The catalogue screen: the query parameters of a page of search
 * results, the page count, where the screen goes after a record is
 * deleted, and how an edited record is saved.
 */
module Catalog {
  import opened Text
  import opened Values
  import SearchForm
  import FrontRequests
  import Items
  import Utilities

  const PageSize := 10

  /** `Math.ceil(a / b)` for a positive divisor. */
  function CeilDiv(a: int, b: int): (r: int)
    requires b > 0
    ensures b * (r - 1) < a <= b * r
  {
    -((-a) / b)
  }

  /** The number of result pages for a record count. */
  function PageCount(total: int): (pages: int)
    ensures total >= 0 ==> pages >= 0
    ensures PageSize * (pages - 1) < total <= PageSize * pages
  {
    CeilDiv(total, PageSize)
  }

  /** The parameters of a page request: the trimmed filters, then limit, offset and debug. */
  function PageParams(filters: Record, page: int, debugging: bool): map<string, string> {
    TrimmedFilters(filters) + PagingParams(page, debugging)
  }

  /** The parameters `fetchRecords()` sets after the filters, which replace a filter of the same name. */
  function PagingParams(page: int, debugging: bool): (params: map<string, string>)
    ensures params.Keys == {"limit"} + (if page > 1 then {"offset"} else {}) + (if debugging then {"debug"} else {})
    ensures params["limit"] == IntToString(PageSize)
    ensures page > 1 ==> params["offset"] == IntToString(PageSize * (page - 1))
    ensures debugging ==> params["debug"] == "true"
  {
    var params := map["limit" := IntToString(PageSize)];
    var params := if page > 1 then params["offset" := IntToString(PageSize * (page - 1))] else params;
    if debugging then params["debug" := "true"] else params
  }

  /** `(filters[key] ?? '').trim()` for every filter. */
  function TrimmedFilters(filters: Record): (params: map<string, string>)
    ensures params.Keys == filters.Keys
    ensures forall key :: key in filters ==> params[key] == Trimmed(filters[key])
  {
    map key | key in filters :: Trimmed(filters[key])
  }

  function Trimmed(v: Value): string { JsTrim(TextValue(v)) }

  /** fetchRecords(): no request at all without a long enough filter. */
  function FetchParams(filters: Record, page: int, debugging: bool): (r: Option<map<string, string>>)
    ensures r.None? <==> !SearchForm.HasFilter(filters)
    ensures r.Some? ==> r.value == PageParams(filters, page, debugging)
  {
    if !SearchForm.HasFilter(filters) then None else Some(PageParams(filters, page, debugging))
  }

  /**
   * Every filter is sent trimmed, with a limit of one page, an offset past
   * the earlier pages only when the page is not the first, and the
   * debugging flag only when debugging.
   */
  lemma PageParamsSpec(filters: Record, page: int, debugging: bool)
    ensures var params := PageParams(filters, page, debugging);
      params.Keys == filters.Keys + {"limit"} + (if page > 1 then {"offset"} else {}) + (if debugging then {"debug"} else {})
      && params["limit"] == IntToString(PageSize)
      && (page > 1 ==> params["offset"] == IntToString(PageSize * (page - 1)))
      && (debugging ==> params["debug"] == "true")
  {
  }

  /** A filter whose name the paging parameters do not take is sent trimmed. */
  lemma FilterSentTrimmed(filters: Record, page: int, debugging: bool, key: string)
    requires key in filters && key != "limit" && key != "offset" && key != "debug"
    ensures var params := PageParams(filters, page, debugging);
      key in params && params[key] == Trimmed(filters[key])
  {
    var extra := PagingParams(page, debugging);
    assert key !in extra.Keys;
  }

  /**
   * The back end pages the search as the catalogue asks: ten rows, and
   * past the rows of the earlier pages when the page is not the first.
   * `toInt` is PHP's (int) cast, which reads a decimal number back.
   */
  lemma PageQueryPaged(filters: Record, page: int, debugging: bool, toInt: string -> int)
    requires SearchForm.HasFilter(filters) && page >= 1
    requires "limit" !in filters && "offset" !in filters
    requires toInt("10") == 10 && toInt("0") == 0
    requires page > 1 ==> toInt(NatToString(PageSize * (page - 1))) == PageSize * (page - 1)
    ensures Items.PagingClause(FetchParams(filters, page, debugging).value, toInt)
      == " LIMIT 10" + (if page > 1 then " OFFSET " + IntToString(PageSize * (page - 1)) else "")
  {
    var params := FetchParams(filters, page, debugging).value;
    PagedParams(filters, page, debugging);
    PagingClauseOf(params, toInt, if page > 1 then PageSize * (page - 1) else 0);
  }

  /** The paging clause of parameters holding a limit of ten and the given offset. */
  lemma PagingClauseOf(params: map<string, string>, toInt: string -> int, offset: nat)
    requires "limit" in params && params["limit"] == "10" && toInt("10") == 10 && toInt("0") == 0
    requires offset == 0 ==> "offset" !in params
    requires offset > 0 ==> "offset" in params && toInt(params["offset"]) == offset
    ensures Items.PagingClause(params, toInt)
      == " LIMIT 10" + (if offset > 0 then " OFFSET " + IntToString(offset) else "")
  {
    assert IntToString(10) == "10" by { assert NatToString(1) == "1"; }
  }

  /** The limit and offset a page request carries, as decimal text. */
  lemma PagedParams(filters: Record, page: int, debugging: bool)
    requires "limit" !in filters && "offset" !in filters
    ensures var params := PageParams(filters, page, debugging);
      && "limit" in params && params["limit"] == NatToString(PageSize) == "10"
      && (page > 1 <==> "offset" in params)
      && (page > 1 ==> params["offset"] == NatToString(PageSize * (page - 1)))
  {
    var extra := PagingParams(page, debugging);
    assert NatToString(PageSize) == "10" by { assert NatToString(1) == "1"; }
  }

  /** Where the screen goes after a successful delete. */
  datatype AfterDelete = GoToPage(page: int) | Refetch

  /**
   * handleDelete(): with one record fewer, a page beyond the new page
   * count moves to the last page; otherwise the same page is fetched
   * again.
   */
  function DeleteOutcome(page: int, total: int): (r: AfterDelete)
    ensures r.GoToPage? <==> page > PageCount(total - 1)
    ensures r.GoToPage? ==> r.page == PageCount(total - 1) && r.page < page
    ensures r.Refetch? ==> PageSize * (page - 1) < total - 1
  {
    var pages := PageCount(total - 1);
    if page > pages then GoToPage(pages) else Refetch
  }

  /** Deleting the only record on the last page moves back one page, which is full. */
  lemma DeleteEmptiesLastPage(page: int, total: int)
    requires page >= 2 && total == PageSize * (page - 1) + 1
    ensures DeleteOutcome(page, total) == GoToPage(page - 1)
  {
  }

  /** Deleting the only record of the result leaves the screen on page 0. */
  lemma DeleteOnlyRecord(page: int)
    requires page >= 1
    ensures DeleteOutcome(page, 1) == GoToPage(0)
  {
  }

  /** handleSave(): an item with an id is updated in place, a new one is created. */
  function SaveItem(record: Record, debugging: bool): (r: FrontRequests.SaveRequest)
    ensures r.verb == FrontRequests.Put <==> JsTruthy(Get(record, "ItemID"))
    ensures r == FrontRequests.SaveRequestFor("music", Get(record, "ItemID"), debugging)
  {
    FrontRequests.SaveRequestFor("music", Get(record, "ItemID"), debugging)
  }

  /** A saved item with a numeric id reaches the music endpoint with that id as its record id. */
  lemma SavedItemRouted(record: Record, n: int, debugging: bool, recordTypes: map<string, Value>)
    requires Get(record, "ItemID") == Int(n) && n > 0
    ensures var r := Utilities.ParseRequest(SaveItem(record, debugging).uri, recordTypes);
      r.Ok? && r.value.endpoint == Str("music") && r.value.recordId == Str(IntToString(n))
  {
    FrontRequests.NumericIdPathPart(n);
    assert FrontRequests.PathPart("music") by { assert NoneOf("music", "/?"); }
    FrontRequests.UpdateRouted("music", Int(n), debugging, recordTypes);
  }
}
