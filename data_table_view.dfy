/**
 * The stateful `DataTable` component: the props it is rendered with and the three
 * pieces of state (`currentPage`, `searchTerm`, `selectedFilter`) its handlers update.
 */
module DataTableView {
  import opened Wrappers
  import opened DataTable

  class TableView {
    // props
    var columns: seq<Column>
    var data: seq<Row>
    var searchKey: string
    var filters: seq<Filter>
    var itemsPerPage: nat
    var hasViewDetails: bool
    // state
    var currentPage: nat
    var searchTerm: string
    var selectedFilter: string

    /** Pages are numbered from 1 and hold at least one row. */
    ghost predicate Valid()
      reads this
    {
      itemsPerPage > 0 && currentPage >= 1
    }

    function CurrentQuery(): Query
      reads this
    {
      Query(searchKey, searchTerm, filters, selectedFilter)
    }

    /** `filteredData`. */
    function Filtered(): seq<Row>
      reads this
    {
      FilteredData(data, CurrentQuery())
    }

    /** `totalPages`. */
    function PageCount(): nat
      reads this
      requires Valid()
    {
      TotalPages(|Filtered()|, itemsPerPage)
    }

    /** `currentData`: the rows on the current page. */
    function CurrentData(): seq<Row>
      reads this
      requires Valid()
    {
      PageSlice(Filtered(), currentPage, itemsPerPage)
    }

    /** The first render, with the props' defaults: no data, no search key, no filters, ten rows a page. */
    constructor (columns: seq<Column>, data: seq<Row> := [], searchKey: string := "",
                 filters: seq<Filter> := [], itemsPerPage: nat := DefaultItemsPerPage, hasViewDetails: bool := false)
      requires itemsPerPage > 0
      ensures Valid()
      ensures this.columns == columns && this.data == data && this.searchKey == searchKey
      ensures this.filters == filters && this.itemsPerPage == itemsPerPage && this.hasViewDetails == hasViewDetails
      ensures currentPage == 1 && searchTerm == "" && selectedFilter == AllValue
    {
      this.columns, this.data, this.searchKey := columns, data, searchKey;
      this.filters, this.itemsPerPage, this.hasViewDetails := filters, itemsPerPage, hasViewDetails;
      currentPage, searchTerm, selectedFilter := 1, "", AllValue;
    }

    /**
     * `handleSearch`: store the term and go back to page 1; the optional
     * `onSearch` callback receives the same value. The new state does not depend
     * on the old term or page, so repeating a search changes nothing.
     */
    method HandleSearch(value: string, hasOnSearch: bool) returns (onSearchArgument: Option<string>)
      requires Valid()
      modifies this`searchTerm, this`currentPage
      ensures Valid()
      ensures searchTerm == value && currentPage == 1
      ensures onSearchArgument == if hasOnSearch then Some(value) else None
      ensures CurrentData() == PageSlice(FilteredData(data, old(CurrentQuery()).(searchTerm := value)), 1, itemsPerPage)
    {
      searchTerm := value;
      currentPage := 1;
      onSearchArgument := if hasOnSearch then Some(value) else None;
    }

    /** `handleFilter`: store the dropdown value and go back to page 1; `onFilter` receives the same value. */
    method HandleFilter(value: string, hasOnFilter: bool) returns (onFilterArgument: Option<string>)
      requires Valid()
      modifies this`selectedFilter, this`currentPage
      ensures Valid()
      ensures selectedFilter == value && currentPage == 1
      ensures onFilterArgument == if hasOnFilter then Some(value) else None
      ensures CurrentData() == PageSlice(FilteredData(data, old(CurrentQuery()).(selectedFilter := value)), 1, itemsPerPage)
    {
      selectedFilter := value;
      currentPage := 1;
      onFilterArgument := if hasOnFilter then Some(value) else None;
    }

    /** The Previous button: `Math.max(prev - 1, 1)`; from a page in `[1, totalPages]` it stays in range. */
    method Previous()
      requires Valid()
      modifies this`currentPage
      ensures Valid()
      ensures currentPage == Max(old(currentPage) - 1, 1)
      ensures old(currentPage) <= PageCount() ==> currentPage <= PageCount()
    {
      currentPage := Max(currentPage - 1, 1);
    }

    /**
     * The Next button: `Math.min(prev + 1, totalPages)`. The buttons are rendered
     * only when `totalPages > 1`. After it the page is in range even if it was
     * past the end before.
     */
    method Next()
      requires Valid() && PageCount() > 1
      modifies this`currentPage
      ensures Valid()
      ensures currentPage == Min(old(currentPage) + 1, PageCount())
      ensures 1 <= currentPage <= PageCount()
    {
      currentPage := Min(currentPage + 1, PageCount());
    }

    /**
     * A re-render with a new `data` prop. The state is kept as it is, so a
     * page beyond the new `totalPages` shows the empty row.
     */
    method ReceiveData(newData: seq<Row>)
      requires Valid()
      modifies this`data
      ensures Valid() && data == newData
      ensures currentPage > PageCount() ==> CurrentData() == []
    {
      data := newData;
      PageEmptyIffPastEnd(Filtered(), currentPage, itemsPerPage);
    }
  }
}
