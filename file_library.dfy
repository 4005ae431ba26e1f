/** The case's document library with ten documents a page, extension
  * options ordered with the usual office formats first, and a page caption. */
module FileLibrary {
  import opened Seqs
  import opened Text
  import opened Objects
  import opened DocumentLibrary

  const PageSize: nat := 10

  /** The end date counts up to 23:59:59.999 of its day. */
  const EndSlack: int := 86399999

  /** `extensionMapping`; its keys are distinct, so the literal's entries
    * are the object's. */
  const ExtensionMapping: seq<Entry<string>> := [
    Entry("pdf", "PDF Document (.pdf)"), Entry("docx", "Word Document (.docx)"),
    Entry("doc", "Word Document (.doc)"), Entry("xls", "Excel Spreadsheet (.xls)"),
    Entry("xlsx", "Excel Spreadsheet (.xlsx)"), Entry("ppt", "PowerPoint Presentation (.ppt)"),
    Entry("pptx", "PowerPoint Presentation (.pptx)"), Entry("csv", "CSV Spreadsheet (.csv)"),
    Entry("wpd", "WordPerfect Document (.wpd)"), Entry("png", "Image (.png)"),
    Entry("jpg", "Image (.jpg)"), Entry("jpeg", "Image (.jpeg)"),
    Entry("gif", "Image (.gif)"), Entry("bmp", "Image (.bmp)"),
    Entry("txt", "Text Document (.txt)"), Entry("zip", "ZIP Archive (.zip)"),
    Entry("rar", "RAR Archive (.rar)"), Entry("7z", "7-Zip Archive (.7z)"),
    Entry("tar", "TAR Archive (.tar)"), Entry("gz", "GZIP Archive (.gz)"),
    Entry("bz2", "BZIP2 Archive (.bz2)"), Entry("xz", "XZ Archive (.xz)"),
    Entry("exe", "Executable (.exe)"), Entry("msi", "Windows Installer (.msi)")]

  const Preferred: seq<string> := ["pdf", "docx", "doc", "xls", "xlsx", "ppt", "pptx"]

  /** The label of a preferred extension: its entry in the mapping. */
  function PreferredLabel(ext: string): string {
    match Lookup(ExtensionMapping, ext)
    case Some(title) => title
    case None => ""
  }

  /** The label of any other extension: the mapping's entry for it in lower
    * case, else `<EXT> File (<ext>)`. */
  function OtherLabel(ext: string): string {
    match Lookup(ExtensionMapping, ToLower(ext))
    case Some(title) => title
    case None => ToUpper(ext) + " File (" + ext + ")"
  }

  /** 'All', the preferred extensions present in their fixed order, then the
    * other extensions in first-seen order. */
  function ExtensionOptions(extensions: seq<string>): seq<SelectOption> {
    OrderedOptions(Preferred, extensions)
  }

  /** The options with the extensions of `first` that are present leading,
    * in the order of `first`. */
  function OrderedOptions(first: seq<string>, extensions: seq<string>): seq<SelectOption> {
    [AllOption] +
    Map(Filter(first, (e: string) => e in extensions), (e: string) => SelectOption(PreferredLabel(e), e)) +
    Map(Filter(extensions, (e: string) => e !in first), (e: string) => SelectOption(OtherLabel(e), e))
  }

  lemma PreferredDistinct()
    ensures NoDuplicates(Preferred)
  {
  }

  /** The option values, in order: the blank of 'All', the leading
    * extensions present, then the others. */
  lemma OrderedOptionsValues(first: seq<string>, extensions: seq<string>)
    ensures Values(OrderedOptions(first, extensions)) ==
      [""] + Filter(first, (e: string) => e in extensions) + Filter(extensions, (e: string) => e !in first)
  {
    var a := Filter(first, (e: string) => e in extensions);
    var b := Filter(extensions, (e: string) => e !in first);
    ValuesOfLabelled(a, PreferredLabel);
    ValuesOfLabelled(b, OtherLabel);
    ValuesAfterAll(Map(a, (e: string) => SelectOption(PreferredLabel(e), e)),
      Map(b, (e: string) => SelectOption(OtherLabel(e), e)), a, b);
  }

  /** 'All' followed by two runs of options carries the blank, then their
    * values. */
  lemma ValuesAfterAll(ma: seq<SelectOption>, mb: seq<SelectOption>, a: seq<string>, b: seq<string>)
    requires Values(ma) == a && Values(mb) == b
    ensures Values([AllOption] + ma + mb) == [""] + a + b
  {
    MapAppend([AllOption] + ma, mb, (o: SelectOption) => o.value);
    MapAppend([AllOption], ma, (o: SelectOption) => o.value);
  }

  /** Distinct extensions, none blank, give distinct option values. */
  lemma OrderedOptionsDistinct(first: seq<string>, extensions: seq<string>)
    requires NoDuplicates(first) && NoDuplicates(extensions) && "" !in extensions
    ensures NoDuplicates(Values(OrderedOptions(first, extensions)))
  {
    var a := Filter(first, (e: string) => e in extensions);
    var b := Filter(extensions, (e: string) => e !in first);
    OrderedOptionsValues(first, extensions);
    FilterNoDuplicates(first, (e: string) => e in extensions);
    FilterNoDuplicates(extensions, (e: string) => e !in first);
    forall x | x in a ensures x !in b {
      OrderedOptionsSides(first, extensions, x);
    }
    OrderedOptionsSides(first, extensions, "");
    DistinctAfterBlank(Values(OrderedOptions(first, extensions)), a, b);
  }

  /** `[""] + a + b` has no duplicates when a and b have none, share none and
    * hold no blank. */
  lemma DistinctAfterBlank(values: seq<string>, a: seq<string>, b: seq<string>)
    requires values == [""] + a + b
    requires NoDuplicates(a) && NoDuplicates(b) && "" !in a && "" !in b
    requires forall x :: x in a ==> x !in b
    ensures NoDuplicates(values)
  {
    NoDuplicatesAppend(a, b);
    NoDuplicatesAppend([""], a + b);
    assert values == [""] + (a + b);
  }

  /** An extension leads when it is in `first` and follows when it is not. */
  lemma OrderedOptionsSides(first: seq<string>, extensions: seq<string>, x: string)
    ensures x in Filter(first, (e: string) => e in extensions) <==> x in first && x in extensions
    ensures x in Filter(extensions, (e: string) => e !in first) <==> x in extensions && x !in first
  {
    FilterMember(first, (e: string) => e in extensions, x);
    FilterMember(extensions, (e: string) => e !in first, x);
  }

  /** After 'All', the options offer exactly the extensions given. */
  lemma OrderedOptionsOffer(first: seq<string>, extensions: seq<string>, x: string)
    ensures x in Values(OrderedOptions(first, extensions))[1..] <==> x in extensions
  {
    var a := Filter(first, (e: string) => e in extensions);
    var b := Filter(extensions, (e: string) => e !in first);
    OrderedOptionsValues(first, extensions);
    TailMember(Values(OrderedOptions(first, extensions)), a, b, x);
    OrderedOptionsSides(first, extensions, x);
  }

  /** The values after the first of `[""] + a + b` are those of a and of b. */
  lemma TailMember(values: seq<string>, a: seq<string>, b: seq<string>, x: string)
    requires values == [""] + a + b
    ensures x in values[1..] <==> x in a || x in b
  {
    assert values[1..] == a + b;
  }

  /** Every extension of the documents is offered exactly once after 'All',
    * and nothing else is. */
  lemma ExtensionOptionsOnce(docs: seq<Document>, x: string)
    ensures var values := Values(ExtensionOptions(TruthyDistinct(Extensions(docs))));
      NoDuplicates(values) && (x in values[1..] <==> x != "" && x in Extensions(docs))
  {
    var extensions := TruthyDistinct(Extensions(docs));
    TruthyDistinctMembers(Extensions(docs), x);
    TruthyDistinctMembers(Extensions(docs), "");
    PreferredDistinct();
    OrderedOptionsDistinct(Preferred, extensions);
    OrderedOptionsOffer(Preferred, extensions, x);
  }

  /** The first and last result a page shows, as `pageInfo` computes them. */
  function PageRange(page: int, total: nat): (int, int) {
    var start := (page - 1) * PageSize + 1;
    (start, Min(start + PageSize - 1, total))
  }

  /** On a page within the page count, the caption's range covers exactly
    * the documents shown. */
  lemma PageRangeShown(docs: seq<Document>, page: nat)
    requires 1 <= page <= PageCount(|docs|, PageSize)
    ensures var (first, last) := PageRange(page, |docs|);
      1 <= first <= last <= |docs| && last - first + 1 == |PageWindow(docs, page, PageSize)|
  {
    PageCountBounds(|docs|, PageSize);
  }

  /** With no results the caption reads "Showing 1-0 of 0". */
  lemma PageRangeEmpty()
    ensures PageRange(1, 0) == (1, 0)
  {
  }

  /** The caption `pageInfo` writes under the list. */
  function PageCaption(page: nat, total: nat): string
    requires page >= 1
  {
    var (first, last) := PageRange(page, total);
    "Page " + NatToString(page) + " - Showing " + NatToString(first) + "-" + NatToString(last) +
    " of " + NatToString(total) + " results"
  }

  /** On a page within the page count the caption names the page, the
    * positions (counted from 1) of the first and the last document shown, and
    * the number of results. */
  lemma PageCaptionShown(docs: seq<Document>, page: nat)
    requires 1 <= page <= PageCount(|docs|, PageSize)
    ensures var shown := PageWindow(docs, page, PageSize);
      var first := (page - 1) * PageSize + 1;
      var last := first + |shown| - 1;
      first <= last <= |docs| && docs[first - 1..last] == shown &&
      PageCaption(page, |docs|) ==
        "Page " + NatToString(page) + " - Showing " + NatToString(first) + "-" + NatToString(last) +
        " of " + NatToString(|docs|) + " results"
  {
    PageRangeWindow(docs, page);
  }

  /** On a page within the page count, `PageRange` is the first and last
    * position, counted from 1, of the documents shown. */
  lemma PageRangeWindow(docs: seq<Document>, page: nat)
    requires 1 <= page <= PageCount(|docs|, PageSize)
    ensures var shown := PageWindow(docs, page, PageSize);
      var first := (page - 1) * PageSize + 1;
      PageRange(page, |docs|) == (first, first + |shown| - 1) &&
      first <= first + |shown| - 1 <= |docs| && docs[first - 1..first + |shown| - 1] == shown
  {
    PageCountBounds(|docs|, PageSize);
    var start := (page - 1) * PageSize;
    assert PageWindow(docs, page, PageSize) == docs[start..Min(start + PageSize, |docs|)];
  }

  /** With no results the caption reads "Page 1 - Showing 1-0 of 0 results". */
  lemma PageCaptionEmpty()
    ensures PageCaption(1, 0) == "Page 1 - Showing 1-0 of 0 results"
  {
    assert NatToString(0) == "0" && NatToString(1) == "1";
    EmptyCaptionText();
  }

  /** The pieces of the empty caption joined. */
  lemma EmptyCaptionText()
    ensures "Page " + "1" + " - Showing " + "1" + "-" + "0" + " of " + "0" + " results" ==
      "Page 1 - Showing 1-0 of 0 results"
  {
  }

  class Library {
    var documents: seq<Document>
    var filteredDocuments: seq<Document>
    var displayDocuments: seq<Document>
    var currentPage: int
    var totalRecords: nat
    var filters: DocFilters
    var documentTypeOptions: seq<SelectOption>
    var documentExtensionOptions: seq<SelectOption>
    var isFilterSidebarOpen: bool

    function TotalPages(): nat
      reads this
    {
      PageCount(totalRecords, PageSize)
    }

    /** The count is that of the filtered documents, the page is one of the
      * pages (or page 1 when there are none), and it shows its window. */
    ghost predicate Valid()
      reads this
    {
      totalRecords == |filteredDocuments| &&
      1 <= currentPage && (currentPage <= TotalPages() || currentPage == 1) &&
      displayDocuments == PageWindow(filteredDocuments, currentPage, PageSize)
    }

    constructor ()
      ensures Valid() && documents == [] && filteredDocuments == [] && currentPage == 1
      ensures filters == NoDocFilters && !isFilterSidebarOpen
    {
      documents := [];
      filteredDocuments := [];
      displayDocuments := [];
      currentPage := 1;
      totalRecords := 0;
      filters := NoDocFilters;
      documentTypeOptions := [];
      documentExtensionOptions := [];
      isFilterSidebarOpen := false;
    }

    /** `fetchDocuments`, after the documents arrive. */
    method Load(docs: seq<Document>)
      modifies this`documents, this`documentTypeOptions, this`documentExtensionOptions,
               this`filteredDocuments, this`totalRecords, this`currentPage, this`displayDocuments
      ensures documents == docs
      ensures documentTypeOptions == ValueOptions(TruthyDistinct(Types(documents)))
      ensures documentExtensionOptions == ExtensionOptions(TruthyDistinct(Extensions(documents)))
      ensures Valid() && filteredDocuments == FilterDocuments(documents, filters, EndSlack) && currentPage == 1
    {
      documents := docs;
      totalRecords := |docs|;
      GenerateFilterOptions();
      ApplyFilters();
    }

    /** `generateFilterOptions`. */
    method GenerateFilterOptions()
      modifies this`documentTypeOptions, this`documentExtensionOptions
      ensures documentTypeOptions == ValueOptions(TruthyDistinct(Types(documents)))
      ensures documentExtensionOptions == ExtensionOptions(TruthyDistinct(Extensions(documents)))
    {
      var types, extensions := CollectTypesAndExtensions(documents);
      documentTypeOptions := ValueOptions(types);
      documentExtensionOptions := ExtensionOptions(extensions);
    }

    /** `applyFilters`: the documents passing every active filter, from page 1. */
    method ApplyFilters()
      modifies this`filteredDocuments, this`totalRecords, this`currentPage, this`displayDocuments
      ensures Valid()
      ensures filteredDocuments == FilterDocuments(documents, filters, EndSlack) && currentPage == 1
      ensures documents == old(documents) && filters == old(filters)
      ensures documentTypeOptions == old(documentTypeOptions)
      ensures documentExtensionOptions == old(documentExtensionOptions)
    {
      var filtered := ApplyDocFilters(documents, filters, EndSlack);
      filteredDocuments := filtered;
      totalRecords := |filtered|;
      currentPage := 1;
      UpdatePaginatedDocuments();
    }

    /** `updatePaginatedDocuments`. */
    method UpdatePaginatedDocuments()
      requires currentPage >= 1
      modifies this`displayDocuments
      ensures displayDocuments == PageWindow(filteredDocuments, currentPage, PageSize)
    {
      var start := (currentPage - 1) * PageSize;
      var end := start + PageSize;
      displayDocuments := if start >= |filteredDocuments| then [] else filteredDocuments[start..Min(end, |filteredDocuments|)];
    }

    method HandleSearch(value: string)
      modifies this`filters, this`filteredDocuments, this`totalRecords, this`currentPage, this`displayDocuments
      ensures Valid() && filters == old(filters).(searchTerm := ToLower(value))
      ensures filteredDocuments == FilterDocuments(documents, filters, EndSlack) && currentPage == 1
      ensures documents == old(documents) && isFilterSidebarOpen == old(isFilterSidebarOpen)
      ensures documentTypeOptions == old(documentTypeOptions)
      ensures documentExtensionOptions == old(documentExtensionOptions)
    {
      filters := filters.(searchTerm := ToLower(value));
      ApplyFilters();
    }

    method HandleDocumentTypeChange(types: seq<string>)
      modifies this`filters, this`filteredDocuments, this`totalRecords, this`currentPage, this`displayDocuments
      ensures Valid() && filters == old(filters).(types := types)
      ensures filteredDocuments == FilterDocuments(documents, filters, EndSlack) && currentPage == 1
      ensures documents == old(documents) && isFilterSidebarOpen == old(isFilterSidebarOpen)
      ensures documentTypeOptions == old(documentTypeOptions)
      ensures documentExtensionOptions == old(documentExtensionOptions)
    {
      filters := filters.(types := types);
      ApplyFilters();
    }

    method HandleDocumentExtensionChange(extensions: seq<string>)
      modifies this`filters, this`filteredDocuments, this`totalRecords, this`currentPage, this`displayDocuments
      ensures Valid() && filters == old(filters).(extensions := extensions)
      ensures filteredDocuments == FilterDocuments(documents, filters, EndSlack) && currentPage == 1
      ensures documents == old(documents) && isFilterSidebarOpen == old(isFilterSidebarOpen)
      ensures documentTypeOptions == old(documentTypeOptions)
      ensures documentExtensionOptions == old(documentExtensionOptions)
    {
      filters := filters.(extensions := extensions);
      ApplyFilters();
    }

    method HandleStartDateChange(startDate: Option<int>)
      modifies this`filters, this`filteredDocuments, this`totalRecords, this`currentPage, this`displayDocuments
      ensures Valid() && filters == old(filters).(startDate := startDate)
      ensures filteredDocuments == FilterDocuments(documents, filters, EndSlack) && currentPage == 1
      ensures documents == old(documents) && isFilterSidebarOpen == old(isFilterSidebarOpen)
      ensures documentTypeOptions == old(documentTypeOptions)
      ensures documentExtensionOptions == old(documentExtensionOptions)
    {
      filters := filters.(startDate := startDate);
      ApplyFilters();
    }

    method HandleEndDateChange(endDate: Option<int>)
      modifies this`filters, this`filteredDocuments, this`totalRecords, this`currentPage, this`displayDocuments
      ensures Valid() && filters == old(filters).(endDate := endDate)
      ensures filteredDocuments == FilterDocuments(documents, filters, EndSlack) && currentPage == 1
      ensures documents == old(documents) && isFilterSidebarOpen == old(isFilterSidebarOpen)
      ensures documentTypeOptions == old(documentTypeOptions)
      ensures documentExtensionOptions == old(documentExtensionOptions)
    {
      filters := filters.(endDate := endDate);
      ApplyFilters();
    }

    method ClearDateFilters()
      modifies this`filters, this`filteredDocuments, this`totalRecords, this`currentPage, this`displayDocuments
      ensures Valid() && filters == old(filters).(startDate := None, endDate := None)
      ensures filteredDocuments == FilterDocuments(documents, filters, EndSlack) && currentPage == 1
      ensures documents == old(documents) && isFilterSidebarOpen == old(isFilterSidebarOpen)
      ensures documentTypeOptions == old(documentTypeOptions)
      ensures documentExtensionOptions == old(documentExtensionOptions)
    {
      filters := filters.(startDate := None, endDate := None);
      ApplyFilters();
    }

    /** `toggleFilterSidebar`. */
    method ToggleFilterSidebar()
      modifies this`isFilterSidebarOpen
      ensures isFilterSidebarOpen == !old(isFilterSidebarOpen)
    {
      isFilterSidebarOpen := !isFilterSidebarOpen;
    }

    /** `isFirstPage`. */
    predicate IsFirstPage()
      reads this
    {
      currentPage == 1
    }

    /** `isLastPage`. */
    predicate IsLastPage()
      reads this
    {
      currentPage >= TotalPages()
    }

    /** On a page within range, `isLastPage` holds on the last page only, and
      * on page 1 when there is nothing to show. */
    lemma LastPageIsFinal()
      requires Valid()
      ensures IsLastPage() <==> currentPage == (if TotalPages() == 0 then 1 else TotalPages())
      ensures IsFirstPage() <==> currentPage <= 1
    {
    }

    /** `handlePreviousPage`: back one page unless on the first. */
    method HandlePreviousPage()
      requires Valid()
      modifies this`currentPage, this`displayDocuments
      ensures Valid()
      ensures currentPage == if old(IsFirstPage()) then old(currentPage) else old(currentPage) - 1
      ensures filteredDocuments == old(filteredDocuments) && totalRecords == old(totalRecords)
    {
      if currentPage > 1 {
        currentPage := currentPage - 1;
        UpdatePaginatedDocuments();
      }
    }

    /** `handleNextPage`: on one page unless on the last. */
    method HandleNextPage()
      requires Valid()
      modifies this`currentPage, this`displayDocuments
      ensures Valid()
      ensures currentPage == if old(IsLastPage()) then old(currentPage) else old(currentPage) + 1
      ensures filteredDocuments == old(filteredDocuments) && totalRecords == old(totalRecords)
    {
      if currentPage < PageCount(totalRecords, PageSize) {
        currentPage := currentPage + 1;
        UpdatePaginatedDocuments();
      }
    }

    /** `pageInfo`. */
    function PageInfo(): string
      reads this
      requires currentPage >= 1
    {
      PageCaption(currentPage, totalRecords)
    }
  }
}
