/**
 * The filtering step of the report engine: which item-ID query each
 * report parameter adds, with which operator and which bound values, and
 * how the resulting ID sets are combined.
 *
 * The database is not modelled: a query is described by a `Query` value
 * (the filter it comes from, its comparison operator and its bound
 * values), and its result is whatever ID sequence the caller supplies.
 */
module ReportFilters {
  import opened Text
  import opened Values
  import opened Sorting

  datatype Filter =
    | Arrangement | Cataloger | Collection | Creator | DateAdded | Keywords | Loans
    | Copies | Owner | Performances | Season | Tags | Title

  /** The filters in the order the report runs them. */
  const Filters: seq<Filter> :=
    [Arrangement, Cataloger, Collection, Creator, DateAdded, Keywords, Loans,
     Copies, Owner, Performances, Season, Tags, Title]

  /** The report parameter each filter reads. */
  function ParameterName(f: Filter): string {
    match f
    case Arrangement => "arrangement"
    case Cataloger => "user"
    case Collection => "collection"
    case Creator => "creator"
    case DateAdded => "added"
    case Keywords => "keyword"
    case Loans => "on-loan"
    case Copies => "copies"
    case Owner => "owner"
    case Performances => "performance"
    case Season => "season"
    case Tags => "tag"
    case Title => "title"
  }

  /** How a filter reads its parameter. */
  datatype Kind =
    | ListFilter   // a list of IDs, compared with IN / NOT IN
    | ValueFilter  // one value, compared with a relational operator
    | TextFilter   // free text, trimmed and matched with LIKE / NOT LIKE
    | LoanFilter   // 'yes' / 'no': on loan or not

  function KindOf(f: Filter): Kind {
    match f
    case Arrangement => ListFilter
    case Keywords => ListFilter
    case Owner => ListFilter
    case Season => ListFilter
    case Tags => ListFilter
    case Cataloger => ValueFilter
    case DateAdded => ValueFilter
    case Copies => ValueFilter
    case Performances => ValueFilter
    case Collection => TextFilter
    case Creator => TextFilter
    case Title => TextFilter
    case Loans => LoanFilter
  }

  /** The logic code that inverts a filter; the loan filter has none. */
  function LogicCode(f: Filter): string {
    match KindOf(f)
    case ListFilter => "ni"
    case TextFilter => "nl"
    case LoanFilter => ""
    case ValueFilter =>
      match f
      case Cataloger => "ne"
      case Copies => "lt"
      case _ => "le"
  }

  /** The operator a filter uses by default. */
  function DefaultOperator(f: Filter): string {
    match KindOf(f)
    case ListFilter => "IN"
    case TextFilter => "LIKE"
    case LoanFilter => "IN"
    case ValueFilter => if f == Cataloger then "=" else ">="
  }

  /** The operator a filter uses when its logic code is given. */
  function InvertedOperator(f: Filter): string {
    match KindOf(f)
    case ListFilter => "NOT IN"
    case TextFilter => "NOT LIKE"
    case LoanFilter => "NOT IN"
    case ValueFilter =>
      match f
      case Cataloger => "<>"
      case Copies => "<"
      case _ => "<="
  }

  /** A filter query: its origin, its operator and its bound values. */
  datatype Query = Query(filter: Filter, op: string, args: seq<Value>)

  /** The SQL LIKE pattern for a search text: every '%' doubled, wrapped in '%'. */
  function LikePattern(text: string): (pattern: string)
    ensures |pattern| >= |text| + 2
    ensures pattern[0] == '%' && pattern[|pattern| - 1] == '%'
  {
    "%" + DoublePercent(text) + "%"
  }

  /** The trimmed search text of a text filter; a missing parameter reads as ''. */
  function SearchText(p: Record, f: Filter): string {
    PhpTrim(PhpString(Coalesce(Get(p, ParameterName(f)), Str(""))))
  }

  /** The values bound to a list filter's placeholders. */
  function ListArguments(v: Value): seq<Value> {
    if v.List? then v.items else [v]
  }

  /** How many placeholders a text filter's query has. */
  function PatternCount(f: Filter): nat {
    match f
    case Creator => 3
    case Title => 2
    case _ => 1
  }

  function Repeat(v: Value, n: nat): (r: seq<Value>)
    ensures |r| == n && forall k :: 0 <= k < n ==> r[k] == v
  {
    if n == 0 then [] else [v] + Repeat(v, n - 1)
  }

  /** The operator chosen by the parameter's '-logic' companion. */
  function Operator(p: Record, f: Filter): string {
    if Get(p, ParameterName(f) + "-logic") == Str(LogicCode(f)) then InvertedOperator(f)
    else DefaultOperator(f)
  }

  /** The query one filter adds to the report, or None when its parameter is empty. */
  function FilterQuery(p: Record, f: Filter): Option<Query> {
    var v := Get(p, ParameterName(f));
    match KindOf(f)
    case ListFilter =>
      if PhpTruthy(v) then Some(Query(f, Operator(p, f), ListArguments(v))) else None
    case ValueFilter =>
      if PhpTruthy(v) then Some(Query(f, Operator(p, f), [v])) else None
    case TextFilter =>
      var text := SearchText(p, f);
      if PhpTruthy(Str(text)) then
        Some(Query(f, Operator(p, f), Repeat(Str(LikePattern(text)), PatternCount(f))))
      else None
    case LoanFilter =>
      if PhpTruthy(v) then
        Some(Query(f, if v == Str("no") then InvertedOperator(f) else DefaultOperator(f), []))
      else None
  }

  /** The queries of the active filters among fs, in order. */
  function Queries(p: Record, fs: seq<Filter>): (qs: seq<Query>)
    ensures |qs| <= |fs|
  {
    if fs == [] then []
    else
      var rest := Queries(p, fs[1..]);
      match FilterQuery(p, fs[0])
      case Some(q) => [q] + rest
      case None => rest
  }

  /** The queries apply_filters runs, in its order. */
  function ActiveQueries(p: Record): seq<Query> {
    Queries(p, Filters)
  }

  /** A filter is active exactly when its (trimmed, for text) parameter is truthy. */
  lemma FilterActive(p: Record, f: Filter)
    ensures KindOf(f) == TextFilter ==>
      (FilterQuery(p, f).Some? <==> SearchText(p, f) != "" && SearchText(p, f) != "0")
    ensures KindOf(f) != TextFilter ==>
      (FilterQuery(p, f).Some? <==> PhpTruthy(Get(p, ParameterName(f))))
  {
    if KindOf(f) == TextFilter {
      assert FilterQuery(p, f).Some? <==> PhpTruthyString(SearchText(p, f));
    }
  }

  /**
   * The operator is inverted exactly for the filter's own logic code
   * ('ni', 'ne', 'nl', 'le', 'lt'), and for 'no' on the loan filter;
   * any other logic value keeps the default operator.
   */
  lemma OperatorChoice(p: Record, f: Filter, q: Query)
    requires FilterQuery(p, f) == Some(q)
    ensures q.filter == f
    ensures q.op == InvertedOperator(f) || q.op == DefaultOperator(f)
    ensures KindOf(f) != LoanFilter ==>
      (q.op == InvertedOperator(f) <==> Get(p, ParameterName(f) + "-logic") == Str(LogicCode(f)))
    ensures KindOf(f) == LoanFilter ==>
      (q.op == InvertedOperator(f) <==> Get(p, "on-loan") == Str("no"))
  {
    OperatorsDiffer(f);
  }

  /** Helper for OperatorChoice: the two operators of a filter are different strings. */
  lemma OperatorsDiffer(f: Filter)
    ensures InvertedOperator(f) != DefaultOperator(f)
  {
    match KindOf(f)
    case ListFilter => assert InvertedOperator(f)[0] == 'N';
    case TextFilter => assert InvertedOperator(f)[0] == 'N';
    case LoanFilter => assert InvertedOperator(f)[0] == 'N';
    case ValueFilter =>
      assert InvertedOperator(f)[0] == '<';
  }

  /**
   * A text filter binds, to each of its placeholders, the pattern made
   * from the trimmed text. The pattern determines the text: undoubling its
   * inside gives the text back. LIKE itself reads each '%' of a pair as a
   * wildcard, so this is not an escape the database undoes.
   */
  lemma TextPattern(p: Record, f: Filter, q: Query)
    requires KindOf(f) == TextFilter && FilterQuery(p, f) == Some(q)
    ensures |q.args| == PatternCount(f)
    ensures forall a :: a in q.args ==>
      (a.Str? && |a.s| >= 2 && a.s[0] == '%' && a.s[|a.s| - 1] == '%'
       && UndoublePercent(a.s[1..|a.s| - 1]) == SearchText(p, f))
  {
    var text := SearchText(p, f);
    var pattern := LikePattern(text);
    assert q.args == Repeat(Str(pattern), PatternCount(f));
    assert forall a :: a in q.args ==> a == Str(pattern);
    assert pattern[1..|pattern| - 1] == DoublePercent(text);
    PercentRoundTrip(text);
  }

  // ---------------------------------------------------------------------
  // Combining the sets
  // ---------------------------------------------------------------------

  /** array_intersect($first, ...$others): the elements of first found in every other set, in order. */
  function Intersect(first: seq<int>, others: seq<seq<int>>): seq<int> {
    if first == [] then []
    else
      var rest := Intersect(first[1..], others);
      if forall s :: s in others ==> first[0] in s then [first[0]] + rest else rest
  }

  /**
   * An element is kept exactly when it is in the first set and in every
   * other set, and no element is kept more often than the first set holds it.
   */
  lemma {:induction false} IntersectSpec(first: seq<int>, others: seq<seq<int>>)
    ensures var r := Intersect(first, others);
      (forall x :: x in r <==> x in first && forall s :: s in others ==> x in s)
      && multiset(r) <= multiset(first)
  {
    if first != [] {
      IntersectSpec(first[1..], others);
      assert first == [first[0]] + first[1..];
    }
  }

  /** The ID set each active query yields. */
  function Results(db: Query -> seq<int>, qs: seq<Query>): (sets: seq<seq<int>>)
    ensures |sets| == |qs| && forall k :: 0 <= k < |qs| ==> sets[k] == db(qs[k])
  {
    if qs == [] then [] else [db(qs[0])] + Results(db, qs[1..])
  }

  function IntLe(a: int, b: int): bool { a <= b }

  /** The item IDs a report selects: every item in every active filter's set, ascending. */
  function SelectedItems(p: Record, db: Query -> seq<int>, all: seq<int>): seq<int> {
    SortBy(Intersect(all, Results(db, ActiveQueries(p))), IntLe)
  }

  /**
   * The selected IDs are ascending, hold each item at most as often as the
   * item list does, and are exactly the items every active filter returns.
   */
  lemma SelectedItemsSpec(p: Record, db: Query -> seq<int>, all: seq<int>)
    ensures var ids := SelectedItems(p, db, all);
      (forall i, j :: 0 <= i < j < |ids| ==> ids[i] <= ids[j])
      && multiset(ids) <= multiset(all)
      && forall x :: x in ids <==>
           x in all && forall q :: q in ActiveQueries(p) ==> x in db(q)
  {
    var qs := ActiveQueries(p);
    var sets := Results(db, qs);
    var r := Intersect(all, sets);
    IntersectSpec(all, sets);
    SortBySorted(r, IntLe);
    SortByPermutes(r, IntLe);
    var ids := SelectedItems(p, db, all);
    forall x ensures x in ids <==> x in r {
      assert x in ids <==> x in multiset(ids);
      assert x in r <==> x in multiset(r);
    }
    forall x | x in all
      ensures (forall s :: s in sets ==> x in s) <==> (forall q :: q in qs ==> x in db(q))
    {
      if forall s :: s in sets ==> x in s {
        forall q | q in qs ensures x in db(q) {
          var k :| 0 <= k < |qs| && qs[k] == q;
          assert sets[k] in sets;
        }
      }
      if forall q :: q in qs ==> x in db(q) {
        forall s | s in sets ensures x in s {
          var k :| 0 <= k < |sets| && sets[k] == s;
          assert qs[k] in qs;
        }
      }
    }
  }

  /** With no active filter the report selects every item, in ascending order. */
  lemma NoFiltersSelectsAll(p: Record, db: Query -> seq<int>, all: seq<int>)
    requires ActiveQueries(p) == []
    ensures multiset(SelectedItems(p, db, all)) == multiset(all)
  {
    IntersectNothing(all);
    SortByPermutes(all, IntLe);
  }

  lemma {:induction false} IntersectNothing(first: seq<int>)
    ensures Intersect(first, []) == first
  {
    if first != [] {
      IntersectNothing(first[1..]);
    }
  }

  /** No query is run exactly when every filter is inactive. */
  lemma {:induction false} QueriesEmpty(p: Record, fs: seq<Filter>)
    ensures Queries(p, fs) == [] <==> forall f :: f in fs ==> FilterQuery(p, f) == None
  {
    if fs != [] {
      QueriesEmpty(p, fs[1..]);
      assert forall f :: f in fs <==> f == fs[0] || f in fs[1..];
    }
  }

  /** With an empty parameter map no filter is active. */
  lemma EmptyParametersNoFilters()
    ensures ActiveQueries(map[]) == []
  {
    forall f | f in Filters ensures FilterQuery(map[], f) == None {
      assert Get(map[], ParameterName(f)) == Null;
      assert SearchText(map[], f) == PhpTrim("");
    }
    QueriesEmpty(map[], Filters);
  }
}
