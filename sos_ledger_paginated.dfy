/** The paginated statement-of-service ledger: the rows of both record
  * lists merged and ordered by day, the side-panel filters, column sorting,
  * and pages of twenty rows with their counters and page buttons. */
module SosLedgerPaginated {
  import opened Seqs
  import opened Sorting
  import opened Ledger

  const PageSize: nat := 20

  /** `transformData`: the merged rows, ordered by day. */
  function TransformData(ledger: seq<LedgerItem>, postSlips: Option<seq<PostSlipItem>>): seq<Row> {
    SortBy(MergedRows(ledger, postSlips), ColumnKey(DatePosted), Asc)
  }

  /** The rows are exactly the merged rows, rearranged, and no row has an
    * earlier day than a row before it. */
  lemma TransformDataOrdered(ledger: seq<LedgerItem>, postSlips: Option<seq<PostSlipItem>>)
    ensures multiset(TransformData(ledger, postSlips)) == multiset(MergedRows(ledger, postSlips))
    ensures forall i, j :: 0 <= i < j < |TransformData(ledger, postSlips)| ==>
      CompareDates(TransformData(ledger, postSlips)[i].datePosted, TransformData(ledger, postSlips)[j].datePosted) <= 0
  {
    SortedByDay(TransformData(ledger, postSlips));
  }

  /** Rows sorted on the date column are in calendar order of their days. */
  lemma SortedByDay(r: seq<Row>)
    requires SortedBy(r, ColumnKey(DatePosted), Asc)
    ensures forall i, j :: 0 <= i < j < |r| ==> CompareDates(r[i].datePosted, r[j].datePosted) <= 0
  {
    var key := ColumnKey(DatePosted);
    forall i, j | 0 <= i < j < |r| ensures CompareDates(r[i].datePosted, r[j].datePosted) <= 0 {
      assert SortCompare(key(r[i]), key(r[j]), Asc) <= 0;
    }
  }

  /** `Math.ceil(n / PAGE_SIZE)`. */
  function PageCount(n: nat): nat {
    (n + PageSize - 1) / PageSize
  }

  lemma PageCountBounds(n: nat)
    ensures (PageCount(n) - 1) * PageSize < n <= PageCount(n) * PageSize || (n == 0 && PageCount(n) == 0)
  {
  }

  function Min(a: int, b: int): int {
    if a <= b then a else b
  }

  /** `rows.slice((page - 1) * PAGE_SIZE, page * PAGE_SIZE)`. */
  function Window(rows: seq<Row>, page: nat): seq<Row>
    requires page >= 1
  {
    var start := (page - 1) * PageSize;
    if start >= |rows| then [] else rows[start..Min(start + PageSize, |rows|)]
  }

  /** The pages one after another give back the rows. */
  lemma {:induction false} WindowsCover(rows: seq<Row>, k: nat)
    ensures Windows(rows, k) == rows[..Min(k * PageSize, |rows|)]
    decreases k
  {
    if k > 0 {
      WindowsCover(rows, k - 1);
      var a := Min((k - 1) * PageSize, |rows|);
      var b := Min(k * PageSize, |rows|);
      assert k * PageSize == (k - 1) * PageSize + PageSize;
      assert Window(rows, k) == rows[a..b];
      assert rows[..b] == rows[..a] + rows[a..b];
    }
  }

  function Windows(rows: seq<Row>, k: nat): seq<Row>
    decreases k
  {
    if k == 0 then [] else Windows(rows, k - 1) + Window(rows, k)
  }

  /** Every row is on exactly the pages 1..PageCount, in order. */
  lemma AllPagesCoverRows(rows: seq<Row>)
    ensures Windows(rows, PageCount(|rows|)) == rows
  {
    WindowsCover(rows, PageCount(|rows|));
  }

  /** `parseInt` of an amount: the pence as pounds, truncated toward zero to
    * whole pounds. */
  function WholePounds(pence: int): (r: int)
    ensures pence >= 0 ==> 0 <= 100 * r <= pence < 100 * (r + 1)
    ensures pence < 0 ==> 100 * (r - 1) < pence <= 100 * r <= 0
  {
    if pence >= 0 then pence / 100 else -((-pence) / 100)
  }

  /** The key `onHandleSort` sorts a column by: the day for the date column
    * (its primer reads the text back as a day), the whole pounds for the
    * four amount columns (their primer is `parseInt`), the text otherwise. */
  function SortKey(c: Column): Row -> Key {
    (r: Row) =>
      match c
      case OfficeDebit => NumKey(WholePounds(r.officeDebit))
      case OfficeCredit => NumKey(WholePounds(r.officeCredit))
      case AccrualsDebit => NumKey(WholePounds(r.accrualsDebit))
      case AccrualsCredit => NumKey(WholePounds(r.accrualsCredit))
      case _ => ColumnKey(c)(r)
  }

  /** Amounts within the same whole pound are ties, so the sort keeps their
    * order: 12.70 stays ahead of 12.30 in an ascending sort. */
  lemma PenceIgnoredInSort(a: Row, b: Row)
    requires a.officeDebit == 1270 && b.officeDebit == 1230
    ensures SortBy([a, b], SortKey(OfficeDebit), Asc) == [a, b]
  {
    var key := SortKey(OfficeDebit);
    assert key(a) == NumKey(WholePounds(1270)) == NumKey(12);
    assert key(b) == NumKey(WholePounds(1230)) == NumKey(12);
    SortBySameKey([a, b], key, Asc, NumKey(12));
  }

  /** A page button: its number and its style. */
  datatype PageButton = PageButton(number: nat, cssClass: string)

  function PageButtonClass(current: int, number: nat): string {
    "slds-button " + (if current == number then "slds-button_brand" else "slds-button_neutral")
  }

  /** `pages`. */
  function Pages(total: nat, current: int): (r: seq<PageButton>)
    ensures |r| == total
    ensures forall i :: 0 <= i < total ==> r[i] == PageButton(i + 1, PageButtonClass(current, i + 1))
  {
    seq(total, i requires 0 <= i < total => PageButton(i + 1, PageButtonClass(current, i + 1)))
  }

  /** The buttons are numbered 1..total and exactly the current page's button
    * is highlighted. */
  lemma PagesHighlightCurrent(total: nat, current: int)
    requires 1 <= current <= total
    ensures forall i :: 0 <= i < total ==>
      (Pages(total, current)[i].cssClass == "slds-button slds-button_brand" <==> Pages(total, current)[i].number == current)
    ensures exists i :: 0 <= i < total && Pages(total, current)[i].cssClass == "slds-button slds-button_brand"
  {
    var r := Pages(total, current);
    forall i | 0 <= i < total
      ensures r[i].cssClass == "slds-button slds-button_brand" <==> r[i].number == current
    {
      if r[i].number != current {
        assert r[i].cssClass[24] == 'n';
      }
    }
    assert r[current - 1].number == current;
  }

  class PaginatedLedger {
    var data: seq<Row>
    var filteredData: seq<Row>
    var filters: Filters
    var statusOptions: seq<string>
    var currentPage: int
    var pageData: seq<Row>
    var totalRecords: nat
    var rangeStart: nat
    var rangeEnd: nat
    var sortDirection: Direction
    var sortedBy: Option<Column>

    function TotalPages(): nat
      reads this
    {
      PageCount(|filteredData|)
    }

    /** The current page is one of the pages, or page 1 when there are none. */
    ghost predicate PageInRange()
      reads this
    {
      1 <= currentPage && (currentPage <= TotalPages() || currentPage == 1)
    }

    /** What `updatePageData` puts on screen for the current page: nothing
      * when no row passes the filters, otherwise that page's window of the
      * filtered rows with its counters. */
    ghost predicate PageShown()
      reads this
      requires PageInRange()
    {
      (filteredData == [] ==> pageData == [] && totalRecords == 0 && rangeStart == 0 && rangeEnd == 0) &&
      (filteredData != [] ==>
        pageData == Window(filteredData, currentPage) && totalRecords == |filteredData| &&
        rangeStart == (currentPage - 1) * PageSize + 1 && rangeEnd == Min(currentPage * PageSize, |filteredData|))
    }

    ghost predicate Valid()
      reads this
    {
      PageInRange() && PageShown()
    }

    constructor ()
      ensures Valid() && data == [] && filteredData == [] && currentPage == 1 && statusOptions == []
      ensures filters == NoFilters && sortDirection == Asc && sortedBy == None
      ensures pageData == [] && totalRecords == 0 && rangeStart == 0 && rangeEnd == 0
    {
      data := [];
      filteredData := [];
      filters := NoFilters;
      statusOptions := [];
      currentPage := 1;
      pageData := [];
      totalRecords := 0;
      rangeStart := 0;
      rangeEnd := 0;
      sortDirection := Asc;
      sortedBy := None;
    }

    /** `updatePageData`: only the page on screen changes. */
    method UpdatePageData()
      requires PageInRange()
      modifies this
      ensures Valid()
      ensures data == old(data) && filteredData == old(filteredData) && filters == old(filters)
      ensures currentPage == old(currentPage) && sortDirection == old(sortDirection) && sortedBy == old(sortedBy)
      ensures statusOptions == old(statusOptions)
      ensures filteredData == [] ==> pageData == [] && totalRecords == 0 && rangeStart == 0 && rangeEnd == 0
      ensures filteredData != [] ==>
        pageData == Window(filteredData, currentPage) && totalRecords == |filteredData| &&
        rangeStart == (currentPage - 1) * PageSize + 1 && rangeEnd == Min(currentPage * PageSize, |filteredData|)
    {
      if |filteredData| == 0 {
        pageData := [];
        totalRecords := 0;
        rangeStart := 0;
        rangeEnd := 0;
        return;
      }
      var start := (currentPage - 1) * PageSize;
      var end := start + PageSize;
      pageData := if start >= |filteredData| then [] else filteredData[start..Min(end, |filteredData|)];
      totalRecords := |filteredData|;
      rangeStart := start + 1;
      rangeEnd := Min(end, |filteredData|);
    }

    /** `fetchSOSData`, after the records arrive. It runs once, when the
      * component connects, so the current page is still 1. */
    method Load(ledger: seq<LedgerItem>, postSlips: Option<seq<PostSlipItem>>)
      requires currentPage == 1
      modifies this
      ensures Valid()
      ensures data == TransformData(ledger, postSlips) && filteredData == data
      ensures statusOptions == StatusOptions(data)
      ensures sortDirection == Asc && sortedBy == Some(DatePosted) && currentPage == 1
      ensures filters == old(filters)
      ensures pageData == Window(filteredData, 1)
    {
      var rows := TransformData(ledger, postSlips);
      Show(rows);
    }

    /** The rows of a fetch become the data and the shown rows, ordered by day. */
    method Show(rows: seq<Row>)
      requires currentPage == 1
      modifies this
      ensures Valid()
      ensures data == rows && filteredData == rows
      ensures statusOptions == StatusOptions(rows)
      ensures sortDirection == Asc && sortedBy == Some(DatePosted) && currentPage == 1
      ensures filters == old(filters)
      ensures pageData == Window(rows, 1)
    {
      data := rows;
      filteredData := rows;
      sortDirection := Asc;
      sortedBy := Some(DatePosted);
      statusOptions := StatusOptions(rows);
      UpdatePageData();
    }

    /** `filterData`: the rows that pass every filter, from page 1. */
    method FilterData()
      requires Valid()
      modifies this
      ensures Valid()
      ensures filteredData == FilterRows(data, filters)
      ensures currentPage == 1 && pageData == Window(filteredData, 1)
      ensures data == old(data) && filters == old(filters) && statusOptions == old(statusOptions)
      ensures sortDirection == old(sortDirection) && sortedBy == old(sortedBy)
    {
      filteredData := FilterRows(data, filters);
      currentPage := 1;
      UpdatePageData();
    }

    /** `handleStatusChange`: the status filter is replaced and the unchanged
      * data filtered again from page 1. */
    method HandleStatusChange(statuses: seq<string>)
      requires Valid()
      modifies this
      ensures Valid() && filters == old(filters).(statuses := statuses)
      ensures filteredData == FilterRows(data, filters) && currentPage == 1 && pageData == Window(filteredData, 1)
      ensures data == old(data) && statusOptions == old(statusOptions)
      ensures sortDirection == old(sortDirection) && sortedBy == old(sortedBy)
    {
      filters := filters.(statuses := statuses);
      FilterData();
    }

    method HandleFromDateChange(fromDate: Option<Date>)
      requires Valid()
      modifies this
      ensures Valid() && filters == old(filters).(fromDate := fromDate)
      ensures filteredData == FilterRows(data, filters) && currentPage == 1 && pageData == Window(filteredData, 1)
      ensures data == old(data) && statusOptions == old(statusOptions)
      ensures sortDirection == old(sortDirection) && sortedBy == old(sortedBy)
    {
      filters := filters.(fromDate := fromDate);
      FilterData();
    }

    method HandleToDateChange(toDate: Option<Date>)
      requires Valid()
      modifies this
      ensures Valid() && filters == old(filters).(toDate := toDate)
      ensures filteredData == FilterRows(data, filters) && currentPage == 1 && pageData == Window(filteredData, 1)
      ensures data == old(data) && statusOptions == old(statusOptions)
      ensures sortDirection == old(sortDirection) && sortedBy == old(sortedBy)
    {
      filters := filters.(toDate := toDate);
      FilterData();
    }

    method HandleDescriptionChange(description: string)
      requires Valid()
      modifies this
      ensures Valid() && filters == old(filters).(description := description)
      ensures filteredData == FilterRows(data, filters) && currentPage == 1 && pageData == Window(filteredData, 1)
      ensures data == old(data) && statusOptions == old(statusOptions)
      ensures sortDirection == old(sortDirection) && sortedBy == old(sortedBy)
    {
      filters := filters.(description := description);
      FilterData();
    }

    method ClearDateFilters()
      requires Valid()
      modifies this
      ensures Valid() && filters == old(filters).(fromDate := None, toDate := None)
      ensures filteredData == FilterRows(data, filters) && currentPage == 1 && pageData == Window(filteredData, 1)
      ensures data == old(data) && statusOptions == old(statusOptions)
      ensures sortDirection == old(sortDirection) && sortedBy == old(sortedBy)
    {
      filters := filters.(fromDate := None, toDate := None);
      FilterData();
    }

    /** `clearAllFilters`: every row is shown again, in the order of `data`. */
    method ClearAllFilters()
      requires Valid()
      modifies this
      ensures Valid() && filters == NoFilters
      ensures filteredData == data && currentPage == 1 && pageData == Window(filteredData, 1)
      ensures data == old(data) && statusOptions == old(statusOptions)
      ensures sortDirection == old(sortDirection) && sortedBy == old(sortedBy)
    {
      filters := NoFilters;
      FilterData();
      FilterRowsCleared(data);
    }

    /** `onHandleSort`: the shown rows reordered by the column, through the
      * column's primer, and the current page shown again. */
    method OnHandleSort(column: Column, requested: Direction)
      requires Valid()
      modifies this
      ensures Valid()
      ensures sortDirection == NextSortDirection(old(sortedBy), old(sortDirection), column, requested)
      ensures sortedBy == Some(column)
      ensures filteredData == SortBy(old(filteredData), SortKey(column), sortDirection)
      ensures filteredData != [] ==> pageData == Window(filteredData, currentPage)
      ensures data == old(data) && filters == old(filters) && currentPage == old(currentPage)
      ensures statusOptions == old(statusOptions)
    {
      sortDirection := NextSortDirection(sortedBy, sortDirection, column, requested);
      filteredData := SortBy(filteredData, SortKey(column), sortDirection);
      sortedBy := Some(column);
      UpdatePageData();
    }

    /** `nextPage`: one page on while there is one, that page shown. */
    method NextPage()
      requires Valid()
      modifies this
      ensures Valid()
      ensures currentPage == if old(currentPage) < old(TotalPages()) then old(currentPage) + 1 else old(currentPage)
      ensures filteredData != [] ==> pageData == Window(filteredData, currentPage)
      ensures filteredData == old(filteredData) && data == old(data) && filters == old(filters)
      ensures statusOptions == old(statusOptions) && sortDirection == old(sortDirection) && sortedBy == old(sortedBy)
    {
      if currentPage < TotalPages() {
        currentPage := currentPage + 1;
        UpdatePageData();
      }
    }

    /** `previousPage`: one page back while not on the first, that page shown. */
    method PreviousPage()
      requires Valid()
      modifies this
      ensures Valid()
      ensures currentPage == if old(currentPage) > 1 then old(currentPage) - 1 else old(currentPage)
      ensures filteredData != [] ==> pageData == Window(filteredData, currentPage)
      ensures filteredData == old(filteredData) && data == old(data) && filters == old(filters)
      ensures statusOptions == old(statusOptions) && sortDirection == old(sortDirection) && sortedBy == old(sortedBy)
    {
      if currentPage > 1 {
        currentPage := currentPage - 1;
        UpdatePageData();
      }
    }

    /** `handlePageButtonClick` on one of the page buttons: that page shown. */
    method HandlePageButtonClick(selected: int)
      requires Valid() && 1 <= selected <= TotalPages()
      modifies this
      ensures Valid() && currentPage == selected
      ensures pageData == Window(filteredData, selected)
      ensures filteredData == old(filteredData) && data == old(data) && filters == old(filters)
      ensures statusOptions == old(statusOptions) && sortDirection == old(sortDirection) && sortedBy == old(sortedBy)
    {
      if selected != currentPage {
        currentPage := selected;
        UpdatePageData();
      }
    }

    function PageButtons(): seq<PageButton>
      reads this
    {
      Pages(TotalPages(), currentPage)
    }
  }

  /** On a valid page of non-empty rows the counters describe the page:
    * it has rangeEnd - rangeStart + 1 rows, never more than twenty. */
  lemma WindowCounters(rows: seq<Row>, page: nat)
    requires 1 <= page <= PageCount(|rows|)
    ensures |Window(rows, page)| == Min(page * PageSize, |rows|) - ((page - 1) * PageSize + 1) + 1
    ensures 1 <= |Window(rows, page)| <= PageSize
  {
  }
}
