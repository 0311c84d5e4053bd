/**
 * The pure part of the `DataTable` component: which rows survive the search box
 * and the filter dropdown, and how the survivors are cut into fixed-size pages.
 */
module DataTable {
  import opened Wrappers
  import opened Text

  /** A record: field name to string value. A field that is absent reads as `undefined`. */
  type Row = map<string, string>

  datatype FilterOption = FilterOption(value: string, caption: string)
  datatype Filter = Filter(key: string, caption: string, options: seq<FilterOption>)
  datatype Column = Column(key: string, header: string)

  /** The dropdown value that disables filtering. */
  const AllValue := "all"
  const DefaultItemsPerPage := 10

  /** Everything the row predicate depends on: the `searchKey` and `filters` props and the two state values. */
  datatype Query = Query(searchKey: string, searchTerm: string, filters: seq<Filter>, selectedFilter: string)

  function Min(a: int, b: int): int { if a <= b then a else b }
  function Max(a: int, b: int): int { if a >= b then a else b }

  /**
   * `searchKey ? item[searchKey]?.toLowerCase().includes(searchTerm.toLowerCase()) : true`.
   * An empty key is falsy, so every row passes; a row without the field yields
   * `undefined`, which fails even an empty term.
   */
  predicate MatchesSearch(row: Row, q: Query) {
    if q.searchKey == "" then true
    else q.searchKey in row && Contains(Lower(row[q.searchKey]), Lower(q.searchTerm))
  }

  /** `selectedFilter === 'all' || (filters.length > 0 && item[filters[0].key] === selectedFilter)`. */
  predicate MatchesFilter(row: Row, q: Query) {
    q.selectedFilter == AllValue
    || (|q.filters| > 0 && q.filters[0].key in row && row[q.filters[0].key] == q.selectedFilter)
  }

  predicate Keeps(row: Row, q: Query) {
    MatchesSearch(row, q) && MatchesFilter(row, q)
  }

  /** `data.filter(...)`, defined from the last row backwards so that positions stay fixed. */
  function FilteredData(data: seq<Row>, q: Query): (kept: seq<Row>)
    ensures |kept| <= |data|
    decreases |data|
  {
    if data == [] then []
    else
      var init := FilteredData(data[..|data| - 1], q);
      if Keeps(data[|data| - 1], q) then init + [data[|data| - 1]] else init
  }

  /** The positions of the rows that pass, in increasing order. */
  function KeptIndices(data: seq<Row>, q: Query): seq<nat>
    decreases |data|
  {
    if data == [] then []
    else
      var init := KeptIndices(data[..|data| - 1], q);
      if Keeps(data[|data| - 1], q) then init + [|data| - 1] else init
  }

  /**
   * The filtered rows are exactly the rows that pass, in their original order:
   * row k of the result is row `KeptIndices[k]` of the input, the indices
   * strictly increase (nothing re-sorted or repeated), and a position is kept
   * iff its row passes both predicates.
   */
  lemma {:induction false} FilteredIsOrderedSelection(data: seq<Row>, q: Query)
    ensures |KeptIndices(data, q)| == |FilteredData(data, q)|
    ensures forall k :: 0 <= k < |KeptIndices(data, q)| ==>
      KeptIndices(data, q)[k] < |data| && FilteredData(data, q)[k] == data[KeptIndices(data, q)[k]]
    ensures forall k, l :: 0 <= k < l < |KeptIndices(data, q)| ==> KeptIndices(data, q)[k] < KeptIndices(data, q)[l]
    ensures forall i :: 0 <= i < |data| ==> (Keeps(data[i], q) <==> i in KeptIndices(data, q))
    decreases |data|
  {
    if data != [] {
      var init := data[..|data| - 1];
      FilteredIsOrderedSelection(init, q);
      assert forall i :: 0 <= i < |init| ==> init[i] == data[i];
    }
  }

  /** A row is in the result iff it is in the input and passes. */
  lemma FilteredMembership(data: seq<Row>, q: Query, row: Row)
    ensures row in FilteredData(data, q) <==> row in data && Keeps(row, q)
  {
    FilteredIsOrderedSelection(data, q);
    var idx := KeptIndices(data, q);
    if row in data && Keeps(row, q) {
      var i :| 0 <= i < |data| && data[i] == row;
      var k :| 0 <= k < |idx| && idx[k] == i;
      assert FilteredData(data, q)[k] == row;
    }
  }

  /** Filtering never duplicates a row: each occurs in the result at most as often as in the input. */
  lemma {:induction false} FilteredIsSubMultiset(data: seq<Row>, q: Query)
    ensures multiset(FilteredData(data, q)) <= multiset(data)
    decreases |data|
  {
    if data != [] {
      var init := data[..|data| - 1];
      FilteredIsSubMultiset(init, q);
      assert data == init + [data[|data| - 1]];
    }
  }

  /** With no search key and the `'all'` filter, every row is shown. */
  lemma {:induction false} NoCriteriaKeepsAll(data: seq<Row>, q: Query)
    requires q.searchKey == "" && q.selectedFilter == AllValue
    ensures FilteredData(data, q) == data
    decreases |data|
  {
    if data != [] {
      NoCriteriaKeepsAll(data[..|data| - 1], q);
      assert data == data[..|data| - 1] + [data[|data| - 1]];
    }
  }

  /** Only `filters[0]` is ever consulted: the filters after it make no difference. */
  lemma OnlyFirstFilterCounts(row: Row, q: Query, rest: seq<Filter>)
    requires |q.filters| > 0
    ensures MatchesFilter(row, q) == MatchesFilter(row, q.(filters := [q.filters[0]] + rest))
  {
  }

  /** A row with the search field missing is never found, even by the empty term. */
  lemma MissingFieldNeverMatches(row: Row, q: Query)
    requires q.searchKey != "" && q.searchKey !in row
    ensures !MatchesSearch(row, q)
  {
  }

  /** The empty term finds every row that has the search field. */
  lemma EmptyTermMatchesPresentField(row: Row, q: Query)
    requires q.searchKey in row && q.searchTerm == ""
    ensures MatchesSearch(row, q)
  {
    ContainsEmpty(Lower(row[q.searchKey]));
  }

  /** The search ignores the case of the term. */
  lemma SearchIgnoresTermCase(row: Row, q: Query)
    ensures MatchesSearch(row, q) == MatchesSearch(row, q.(searchTerm := Upper(q.searchTerm)))
    ensures MatchesSearch(row, q) == MatchesSearch(row, q.(searchTerm := Lower(q.searchTerm)))
  {
    LowerAbsorbsCase(q.searchTerm);
  }

  /** The query with only the search box applied, and the one with only the dropdown applied. */
  function SearchOnly(q: Query): Query { q.(selectedFilter := AllValue) }
  function FilterOnly(q: Query): Query { q.(searchKey := "") }

  lemma FilteredSnoc(data: seq<Row>, row: Row, q: Query)
    ensures FilteredData(data + [row], q) == FilteredData(data, q) + (if Keeps(row, q) then [row] else [])
  {
    assert (data + [row])[..|data|] == data;
  }

  /**
   * The two predicates combine with AND: searching first and then filtering the
   * survivors gives exactly the table's result, in the same order.
   */
  lemma {:induction false} SearchThenFilter(data: seq<Row>, q: Query)
    ensures FilteredData(FilteredData(data, SearchOnly(q)), FilterOnly(q)) == FilteredData(data, q)
    decreases |data|
  {
    if data != [] {
      var init, last := data[..|data| - 1], data[|data| - 1];
      SearchThenFilter(init, q);
      assert Keeps(last, SearchOnly(q)) == MatchesSearch(last, q);
      assert Keeps(last, FilterOnly(q)) == MatchesFilter(last, q);
      if Keeps(last, SearchOnly(q)) {
        FilteredSnoc(FilteredData(init, SearchOnly(q)), last, FilterOnly(q));
      }
    }
  }

  /** Filtering the result again changes nothing. */
  lemma {:induction false} FilteredIdempotent(data: seq<Row>, q: Query)
    ensures FilteredData(FilteredData(data, q), q) == FilteredData(data, q)
    decreases |data|
  {
    if data != [] {
      var init, last := data[..|data| - 1], data[|data| - 1];
      FilteredIdempotent(init, q);
      if Keeps(last, q) {
        FilteredSnoc(FilteredData(init, q), last, q);
      }
    }
  }

  /** The values offered by the dropdown: `'all'` then `filters[0]`'s options; no dropdown without filters. */
  function FilterMenuValues(filters: seq<Filter>): (values: seq<string>)
    ensures filters == [] <==> values == []
    ensures filters != [] ==> |values| == |filters[0].options| + 1 && values[0] == AllValue
    ensures filters != [] ==> forall k :: 0 <= k < |filters[0].options| ==> values[k + 1] == filters[0].options[k].value
  {
    if filters == [] then [] else [AllValue] + seq(|filters[0].options|, k requires 0 <= k < |filters[0].options| => filters[0].options[k].value)
  }

  // ---------------------------------------------------------------- pagination

  lemma MulMono(a: nat, b: nat, n: nat)
    requires a <= b
    ensures a * n <= b * n
  {
  }

  /** `Math.ceil(count / perPage)`: the fewest pages of `perPage` rows that hold `count` rows. */
  function TotalPages(count: nat, perPage: nat): (pages: nat)
    requires perPage > 0
    ensures count <= pages * perPage
    ensures pages == 0 || (pages - 1) * perPage < count
  {
    var p := (count + perPage - 1) / perPage;
    assert (count + perPage - 1) == p * perPage + (count + perPage - 1) % perPage;
    p
  }

  /** `(currentPage - 1) * itemsPerPage`. */
  function StartIndex(page: nat, perPage: nat): nat
    requires page >= 1
  {
    (page - 1) * perPage
  }

  /** `filteredData.slice(startIndex, startIndex + itemsPerPage)`: `slice` clamps both ends to the length. */
  function PageSlice<T>(rows: seq<T>, page: nat, perPage: nat): (visible: seq<T>)
    requires page >= 1
    ensures |visible| <= perPage
    ensures |visible| == if StartIndex(page, perPage) >= |rows| then 0 else Min(perPage, |rows| - StartIndex(page, perPage))
    ensures forall k :: 0 <= k < |visible| ==>
      StartIndex(page, perPage) + k < |rows| && visible[k] == rows[StartIndex(page, perPage) + k]
  {
    var start := StartIndex(page, perPage);
    rows[Min(start, |rows|)..Min(start + perPage, |rows|)]
  }

  /** Pages 1 to `count`, concatenated in order. */
  function Pages<T>(rows: seq<T>, perPage: nat, count: nat): seq<T>
  {
    if count == 0 then [] else Pages(rows, perPage, count - 1) + PageSlice(rows, count, perPage)
  }

  lemma {:induction false} PagesArePrefix<T>(rows: seq<T>, perPage: nat, count: nat)
    ensures Pages(rows, perPage, count) == rows[..Min(count * perPage, |rows|)]
  {
    if count > 0 {
      PagesArePrefix(rows, perPage, count - 1);
      assert (count - 1) * perPage + perPage == count * perPage;
      var a, b := Min((count - 1) * perPage, |rows|), Min(count * perPage, |rows|);
      MulMono(count - 1, count, perPage);
      assert PageSlice(rows, count, perPage) == rows[a..b];
      assert rows[..a] + rows[a..b] == rows[..b];
    }
  }

  /**
   * The pages partition the filtered rows: concatenating pages 1 to `totalPages`
   * gives back every row once, in order, with no gap and no overlap.
   */
  lemma PagesPartition<T>(rows: seq<T>, perPage: nat)
    requires perPage > 0
    ensures Pages(rows, perPage, TotalPages(|rows|, perPage)) == rows
  {
    PagesArePrefix(rows, perPage, TotalPages(|rows|, perPage));
  }

  /** A page in `[1, totalPages]` is never empty; a page past the end always is. */
  lemma PageEmptyIffPastEnd<T>(rows: seq<T>, page: nat, perPage: nat)
    requires page >= 1 && perPage > 0
    ensures PageSlice(rows, page, perPage) == [] <==> page > TotalPages(|rows|, perPage)
  {
    var total := TotalPages(|rows|, perPage);
    if page > total {
      MulMono(total, page - 1, perPage);
    } else {
      MulMono(page - 1, total - 1, perPage);
    }
  }

  /** Pagination controls are shown (`totalPages > 1`) exactly when there are more rows than fit on one page. */
  lemma ControlsShownIffOverflow(count: nat, perPage: nat)
    requires perPage > 0
    ensures TotalPages(count, perPage) > 1 <==> count > perPage
  {
    var total := TotalPages(count, perPage);
    if total > 1 {
      MulMono(1, total - 1, perPage);
    } else {
      MulMono(total, 1, perPage);
    }
  }

  /** The footer text "Showing {from} to {to} of {total} entries". */
  datatype Summary = Summary(from: nat, to: nat, total: nat)

  function PaginationSummary(count: nat, page: nat, perPage: nat): Summary
    requires page >= 1
  {
    Summary(StartIndex(page, perPage) + 1, Min(StartIndex(page, perPage) + perPage, count), count)
  }

  /** On a page in range the summary is a well-formed range of `total` whose width is the number of visible rows. */
  lemma SummaryDescribesSlice<T>(rows: seq<T>, page: nat, perPage: nat)
    requires perPage > 0 && 1 <= page <= TotalPages(|rows|, perPage)
    ensures var s := PaginationSummary(|rows|, page, perPage);
      1 <= s.from <= s.to <= s.total == |rows| && s.to - s.from + 1 == |PageSlice(rows, page, perPage)|
  {
    PageEmptyIffPastEnd(rows, page, perPage);
  }

  /** What the table body shows: one "No results found." cell across all columns, or the visible rows. */
  datatype Body = NoResults(colSpan: nat) | Rows(rows: seq<Row>)

  /** `columns.length + (onViewDetails ? 1 : 0)` when empty: the Actions column counts too. */
  function TableBody(visible: seq<Row>, columns: seq<Column>, hasViewDetails: bool): (body: Body)
    ensures body.NoResults? <==> visible == []
    ensures body.Rows? ==> body.rows == visible
    ensures body.NoResults? ==> body.colSpan == |columns| + (if hasViewDetails then 1 else 0)
  {
    if visible == [] then NoResults(|columns| + (if hasViewDetails then 1 else 0)) else Rows(visible)
  }
}
