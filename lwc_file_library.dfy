/** The earlier document library of the case: twenty documents a page, the
  * raw values as option labels, and a date range that ends at the midnight
  * the end date names. */
module LwcFileLibrary {
  import opened Seqs
  import opened Text
  import opened DocumentLibrary

  const PageSize: nat := 20

  /** The end date is not moved to the end of its day. */
  const EndSlack: int := 0

  /** Every extension of the documents is offered once after 'All', under
    * its own name, in first-seen order. */
  lemma ExtensionOptionsRaw(docs: seq<Document>, x: string)
    ensures var options := ValueOptions(TruthyDistinct(Extensions(docs)));
      options[0] == AllOption && NoDuplicates(Values(options[1..])) &&
      (x in Values(options[1..]) <==> x != "" && x in Extensions(docs)) &&
      forall i :: 1 <= i < |options| ==> options[i].title == options[i].value
  {
    var extensions := TruthyDistinct(Extensions(docs));
    ValueOptionsProperties(extensions);
    TruthyDistinctMembers(Extensions(docs), x);
  }

  /** A document dated on the end day after its midnight is left out. */
  lemma EndDayExcluded(d: Document, f: DocFilters)
    requires f.startDate.Some? && f.endDate.Some?
    requires f.startDate.value <= f.endDate.value < d.createdTime
    ensures !Matches(d, f, EndSlack)
  {
  }

  class Library {
    var documents: seq<Document>
    var filteredDocuments: seq<Document>
    var displayDocuments: seq<Document>
    var currentPage: int
    var totalRecords: nat
    var filters: DocFilters
    var documentTypeOptions: seq<SelectOption>
    var documentExtensionOptions: seq<SelectOption>
    var isFilterSidebarOpen: bool

    function TotalPages(): nat
      reads this
    {
      PageCount(totalRecords, PageSize)
    }

    /** The count is that of the filtered documents, the page is one of the
      * pages (or page 1 when there are none), and it shows its window. */
    ghost predicate Valid()
      reads this
    {
      totalRecords == |filteredDocuments| &&
      1 <= currentPage && (currentPage <= TotalPages() || currentPage == 1) &&
      displayDocuments == PageWindow(filteredDocuments, currentPage, PageSize)
    }

    constructor ()
      ensures Valid() && documents == [] && filteredDocuments == [] && currentPage == 1
      ensures filters == NoDocFilters && !isFilterSidebarOpen
    {
      documents := [];
      filteredDocuments := [];
      displayDocuments := [];
      currentPage := 1;
      totalRecords := 0;
      filters := NoDocFilters;
      documentTypeOptions := [];
      documentExtensionOptions := [];
      isFilterSidebarOpen := false;
    }

    /** `fetchDocuments`, after the documents arrive. */
    method Load(docs: seq<Document>)
      modifies this`documents, this`documentTypeOptions, this`documentExtensionOptions,
               this`filteredDocuments, this`totalRecords, this`currentPage, this`displayDocuments
      ensures documents == docs && filters == old(filters)
      ensures documentTypeOptions == ValueOptions(TruthyDistinct(Types(documents)))
      ensures documentExtensionOptions == ValueOptions(TruthyDistinct(Extensions(documents)))
      ensures Valid() && filteredDocuments == FilterDocuments(documents, filters, EndSlack) && currentPage == 1
    {
      documents := docs;
      totalRecords := |docs|;
      GenerateFilterOptions();
      ApplyFilters();
    }

    /** `generateFilterOptions`: both lists labelled with the raw values. */
    method GenerateFilterOptions()
      modifies this`documentTypeOptions, this`documentExtensionOptions
      ensures documentTypeOptions == ValueOptions(TruthyDistinct(Types(documents)))
      ensures documentExtensionOptions == ValueOptions(TruthyDistinct(Extensions(documents)))
    {
      var types, extensions := CollectTypesAndExtensions(documents);
      documentTypeOptions := ValueOptions(types);
      documentExtensionOptions := ValueOptions(extensions);
    }

    /** `applyFilters`: the documents passing every active filter, from page 1. */
    method ApplyFilters()
      modifies this`filteredDocuments, this`totalRecords, this`currentPage, this`displayDocuments
      ensures Valid()
      ensures filteredDocuments == FilterDocuments(documents, filters, EndSlack) && currentPage == 1
      ensures documents == old(documents) && filters == old(filters)
      ensures documentTypeOptions == old(documentTypeOptions)
      ensures documentExtensionOptions == old(documentExtensionOptions)
      ensures isFilterSidebarOpen == old(isFilterSidebarOpen)
    {
      var filtered := ApplyDocFilters(documents, filters, EndSlack);
      filteredDocuments := filtered;
      totalRecords := |filtered|;
      currentPage := 1;
      UpdatePaginatedDocuments();
    }

    /** `updatePaginatedDocuments`. */
    method UpdatePaginatedDocuments()
      requires currentPage >= 1
      modifies this`displayDocuments
      ensures displayDocuments == PageWindow(filteredDocuments, currentPage, PageSize)
    {
      var start := (currentPage - 1) * PageSize;
      var end := start + PageSize;
      displayDocuments := if start >= |filteredDocuments| then [] else filteredDocuments[start..Min(end, |filteredDocuments|)];
    }

    method HandleSearch(value: string)
      modifies this`filters, this`filteredDocuments, this`totalRecords, this`currentPage, this`displayDocuments
      ensures Valid() && filters == old(filters).(searchTerm := ToLower(value))
      ensures filteredDocuments == FilterDocuments(documents, filters, EndSlack) && currentPage == 1
      ensures documents == old(documents) && isFilterSidebarOpen == old(isFilterSidebarOpen)
      ensures documentTypeOptions == old(documentTypeOptions)
      ensures documentExtensionOptions == old(documentExtensionOptions)
    {
      filters := filters.(searchTerm := ToLower(value));
      ApplyFilters();
    }

    method HandleDocumentTypeChange(types: seq<string>)
      modifies this`filters, this`filteredDocuments, this`totalRecords, this`currentPage, this`displayDocuments
      ensures Valid() && filters == old(filters).(types := types)
      ensures filteredDocuments == FilterDocuments(documents, filters, EndSlack) && currentPage == 1
      ensures documents == old(documents) && isFilterSidebarOpen == old(isFilterSidebarOpen)
      ensures documentTypeOptions == old(documentTypeOptions)
      ensures documentExtensionOptions == old(documentExtensionOptions)
    {
      filters := filters.(types := types);
      ApplyFilters();
    }

    method HandleDocumentExtensionChange(extensions: seq<string>)
      modifies this`filters, this`filteredDocuments, this`totalRecords, this`currentPage, this`displayDocuments
      ensures Valid() && filters == old(filters).(extensions := extensions)
      ensures filteredDocuments == FilterDocuments(documents, filters, EndSlack) && currentPage == 1
      ensures documents == old(documents) && isFilterSidebarOpen == old(isFilterSidebarOpen)
      ensures documentTypeOptions == old(documentTypeOptions)
      ensures documentExtensionOptions == old(documentExtensionOptions)
    {
      filters := filters.(extensions := extensions);
      ApplyFilters();
    }

    method HandleStartDateChange(startDate: Option<int>)
      modifies this`filters, this`filteredDocuments, this`totalRecords, this`currentPage, this`displayDocuments
      ensures Valid() && filters == old(filters).(startDate := startDate)
      ensures filteredDocuments == FilterDocuments(documents, filters, EndSlack) && currentPage == 1
      ensures documents == old(documents) && isFilterSidebarOpen == old(isFilterSidebarOpen)
      ensures documentTypeOptions == old(documentTypeOptions)
      ensures documentExtensionOptions == old(documentExtensionOptions)
    {
      filters := filters.(startDate := startDate);
      ApplyFilters();
    }

    method HandleEndDateChange(endDate: Option<int>)
      modifies this`filters, this`filteredDocuments, this`totalRecords, this`currentPage, this`displayDocuments
      ensures Valid() && filters == old(filters).(endDate := endDate)
      ensures filteredDocuments == FilterDocuments(documents, filters, EndSlack) && currentPage == 1
      ensures documents == old(documents) && isFilterSidebarOpen == old(isFilterSidebarOpen)
      ensures documentTypeOptions == old(documentTypeOptions)
      ensures documentExtensionOptions == old(documentExtensionOptions)
    {
      filters := filters.(endDate := endDate);
      ApplyFilters();
    }

    method ClearDateFilters()
      modifies this`filters, this`filteredDocuments, this`totalRecords, this`currentPage, this`displayDocuments
      ensures Valid() && filters == old(filters).(startDate := None, endDate := None)
      ensures filteredDocuments == FilterDocuments(documents, filters, EndSlack) && currentPage == 1
      ensures documents == old(documents) && isFilterSidebarOpen == old(isFilterSidebarOpen)
      ensures documentTypeOptions == old(documentTypeOptions)
      ensures documentExtensionOptions == old(documentExtensionOptions)
    {
      filters := filters.(startDate := None, endDate := None);
      ApplyFilters();
    }

    /** `toggleFilterSidebar`. */
    method ToggleFilterSidebar()
      modifies this`isFilterSidebarOpen
      ensures isFilterSidebarOpen == !old(isFilterSidebarOpen)
    {
      isFilterSidebarOpen := !isFilterSidebarOpen;
    }

    /** `isFirstPage`. */
    predicate IsFirstPage()
      reads this
    {
      currentPage == 1
    }

    /** `isLastPage`. */
    predicate IsLastPage()
      reads this
    {
      currentPage >= TotalPages()
    }

    /** On a page within range, `isLastPage` holds on the last page only, and
      * on page 1 when there is nothing to show. */
    lemma LastPageIsFinal()
      requires Valid()
      ensures IsLastPage() <==> currentPage == (if TotalPages() == 0 then 1 else TotalPages())
      ensures IsFirstPage() <==> currentPage <= 1
    {
    }

    /** `handlePreviousPage`: back one page unless on the first. */
    method HandlePreviousPage()
      requires Valid()
      modifies this`currentPage, this`displayDocuments
      ensures Valid()
      ensures currentPage == if old(IsFirstPage()) then old(currentPage) else old(currentPage) - 1
      ensures filteredDocuments == old(filteredDocuments) && totalRecords == old(totalRecords)
    {
      if currentPage > 1 {
        currentPage := currentPage - 1;
        UpdatePaginatedDocuments();
      }
    }

    /** `handleNextPage`: on one page unless on the last. */
    method HandleNextPage()
      requires Valid()
      modifies this`currentPage, this`displayDocuments
      ensures Valid()
      ensures currentPage == if old(IsLastPage()) then old(currentPage) else old(currentPage) + 1
      ensures filteredDocuments == old(filteredDocuments) && totalRecords == old(totalRecords)
    {
      if currentPage < PageCount(totalRecords, PageSize) {
        currentPage := currentPage + 1;
        UpdatePaginatedDocuments();
      }
    }
  }
}
