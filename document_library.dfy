/** What the two document-library components share: a case's documents, the
  * filters of the side panel, the distinct values the filter options are
  * built from, and pages of a fixed size. Times are milliseconds since the
  * epoch, as a JavaScript `Date` holds them. */
module DocumentLibrary {
  import opened Seqs
  import opened Text

  /** A document of the case's library; a missing type or extension is blank. */
  datatype Document = Document(name: string, documentType: string, extension: string, createdTime: int)

  /** The filters: a lowercased search term, the chosen types and extensions,
    * and the two bounds of the date range, each the midnight starting its day. */
  datatype DocFilters = DocFilters(
    searchTerm: string,
    types: seq<string>,
    extensions: seq<string>,
    startDate: Option<int>,
    endDate: Option<int>)

  const NoDocFilters := DocFilters("", [], [], None, None)

  /** An option of a filter's picklist: its label, shown, and its value. */
  datatype SelectOption = SelectOption(title: string, value: string)

  const AllOption := SelectOption("All", "")

  /** A chosen list filters unless it is empty or starts with the 'All' value. */
  predicate ListActive(chosen: seq<string>) {
    |chosen| > 0 && chosen[0] != ""
  }

  predicate SearchMatches(d: Document, term: string) {
    term == "" || Contains(ToLower(d.name), term)
  }

  predicate TypeMatches(d: Document, types: seq<string>) {
    !ListActive(types) || d.documentType in types
  }

  predicate ExtensionMatches(d: Document, extensions: seq<string>) {
    !ListActive(extensions) || d.extension in extensions
  }

  /** The date range filters only when both bounds are set; the end bound is
    * `endSlack` milliseconds after the midnight the end date names. */
  predicate DateMatches(d: Document, startDate: Option<int>, endDate: Option<int>, endSlack: int) {
    !(startDate.Some? && endDate.Some?) ||
    (startDate.value <= d.createdTime && d.createdTime <= endDate.value + endSlack)
  }

  /** A document passes when it passes every active filter. */
  predicate Matches(d: Document, f: DocFilters, endSlack: int) {
    SearchMatches(d, f.searchTerm) && TypeMatches(d, f.types) &&
    ExtensionMatches(d, f.extensions) && DateMatches(d, f.startDate, f.endDate, endSlack)
  }

  /** The documents that pass every active filter, in their order. */
  function FilterDocuments(docs: seq<Document>, f: DocFilters, endSlack: int): seq<Document> {
    Filter(docs, (d: Document) => Matches(d, f, endSlack))
  }

  /** A document is listed exactly when it is one of the documents and
    * passes every active filter. */
  lemma FilterDocumentsMembers(docs: seq<Document>, f: DocFilters, endSlack: int, d: Document)
    ensures d in FilterDocuments(docs, f, endSlack) <==> d in docs && Matches(d, f, endSlack)
  {
    var p := (x: Document) => Matches(x, f, endSlack);
    if p(d) {
      FilterMember(docs, p, d);
    }
  }

  /** With no filter active, every document is listed in its order. */
  lemma FilterDocumentsNoFilters(docs: seq<Document>, endSlack: int)
    ensures FilterDocuments(docs, NoDocFilters, endSlack) == docs
  {
    FilterAllPass(docs, (x: Document) => Matches(x, NoDocFilters, endSlack));
  }

  /** The filters of `applyFilters`, applied one after another as it does,
    * give the documents that pass them all; a filter that is off is skipped,
    * which is the same as a step that keeps every document. */
  lemma SearchStep(docs: seq<Document>, f: DocFilters, after: seq<Document>)
    requires after == if f.searchTerm != "" then Filter(docs, (d: Document) => SearchMatches(d, f.searchTerm)) else docs
    ensures after == Filter(docs, (d: Document) => SearchMatches(d, f.searchTerm))
  {
    if f.searchTerm == "" {
      FilterAllPass(docs, (d: Document) => SearchMatches(d, f.searchTerm));
    }
  }

  ghost predicate UpToType(d: Document, f: DocFilters) {
    SearchMatches(d, f.searchTerm) && TypeMatches(d, f.types)
  }

  ghost predicate UpToExtension(d: Document, f: DocFilters) {
    UpToType(d, f) && ExtensionMatches(d, f.extensions)
  }

  lemma TypeStep(docs: seq<Document>, f: DocFilters, after: seq<Document>)
    requires after == Filter(docs, (d: Document) => SearchMatches(d, f.searchTerm))
    ensures (if ListActive(f.types) then Filter(after, (d: Document) => d.documentType in f.types) else after) ==
      Filter(docs, (d: Document) => UpToType(d, f))
  {
    var p := (d: Document) => SearchMatches(d, f.searchTerm);
    var pq := (d: Document) => UpToType(d, f);
    if ListActive(f.types) {
      FilterTwice(docs, p, (d: Document) => d.documentType in f.types, pq);
    } else {
      FilterSameTest(docs, p, pq);
    }
  }

  lemma ExtensionStep(docs: seq<Document>, f: DocFilters, after: seq<Document>)
    requires after == Filter(docs, (d: Document) => UpToType(d, f))
    ensures (if ListActive(f.extensions) then Filter(after, (d: Document) => d.extension in f.extensions) else after) ==
      Filter(docs, (d: Document) => UpToExtension(d, f))
  {
    var p := (d: Document) => UpToType(d, f);
    var pq := (d: Document) => UpToExtension(d, f);
    if ListActive(f.extensions) {
      FilterTwice(docs, p, (d: Document) => d.extension in f.extensions, pq);
    } else {
      FilterSameTest(docs, p, pq);
    }
  }

  lemma DateStep(docs: seq<Document>, f: DocFilters, endSlack: int, after: seq<Document>)
    requires after == Filter(docs, (d: Document) => UpToExtension(d, f))
    ensures (if f.startDate.Some? && f.endDate.Some? then
        Filter(after, (d: Document) => f.startDate.value <= d.createdTime && d.createdTime <= f.endDate.value + endSlack)
      else after) == FilterDocuments(docs, f, endSlack)
  {
    var p := (d: Document) => UpToExtension(d, f);
    var pq := (d: Document) => Matches(d, f, endSlack);
    if f.startDate.Some? && f.endDate.Some? {
      FilterTwice(docs, p, (d: Document) => f.startDate.value <= d.createdTime && d.createdTime <= f.endDate.value + endSlack, pq);
    } else {
      FilterSameTest(docs, p, pq);
    }
  }

  /** `Math.ceil(total / size)`. */
  function PageCount(total: nat, size: nat): nat
    requires size > 0
  {
    (total + size - 1) / size
  }

  lemma PageCountBounds(total: nat, size: nat)
    requires size > 0
    ensures total == 0 <==> PageCount(total, size) == 0
    ensures total > 0 ==> (PageCount(total, size) - 1) * size < total <= PageCount(total, size) * size
  {
  }

  function Min(a: int, b: int): int {
    if a <= b then a else b
  }

  /** `docs.slice((page - 1) * size, page * size)`. */
  function PageWindow(docs: seq<Document>, page: nat, size: nat): (r: seq<Document>)
    requires page >= 1
  {
    var start := (page - 1) * size;
    if start >= |docs| then [] else docs[start..Min(start + size, |docs|)]
  }

  /** A page within the page count holds the documents from (page - 1) * size
    * on, at most size of them and at least one. */
  lemma PageWindowContents(docs: seq<Document>, page: nat, size: nat)
    requires size > 0 && 1 <= page <= PageCount(|docs|, size)
    ensures 1 <= |PageWindow(docs, page, size)| <= size
    ensures forall i :: 0 <= i < |PageWindow(docs, page, size)| ==>
      PageWindow(docs, page, size)[i] == docs[(page - 1) * size + i]
  {
    PageCountBounds(|docs|, size);
  }

  /** The truthy values among vs, each once where it first occurs: what a
    * `Set` filled by `if (v) set.add(v)` iterates over. */
  function TruthyDistinct(vs: seq<string>): seq<string> {
    Distinct(Filter(vs, (v: string) => v != ""))
  }

  /** Each truthy value is there once, and nothing else is. */
  lemma TruthyDistinctMembers(vs: seq<string>, v: string)
    ensures NoDuplicates(TruthyDistinct(vs))
    ensures v in TruthyDistinct(vs) <==> v in vs && v != ""
  {
    var p := (x: string) => x != "";
    if v != "" {
      FilterMember(vs, p, v);
    }
  }

  /** One more value: added at the end when it is truthy and new. */
  lemma TruthyDistinctSnoc(vs: seq<string>, v: string)
    ensures TruthyDistinct(vs + [v]) ==
      if v == "" || v in TruthyDistinct(vs) then TruthyDistinct(vs) else TruthyDistinct(vs) + [v]
  {
    var p := (x: string) => x != "";
    FilterAppend(vs, [v], p);
    FilterSingleton(v, p);
    var t := Filter(vs, p);
    if v != "" {
      assert (t + [v])[..|t|] == t;
    } else {
      assert t + [] == t;
    }
  }

  function Types(docs: seq<Document>): seq<string> {
    Map(docs, (d: Document) => d.documentType)
  }

  function Extensions(docs: seq<Document>): seq<string> {
    Map(docs, (d: Document) => d.extension)
  }

  lemma TypesSnoc(docs: seq<Document>, i: nat)
    requires i < |docs|
    ensures Types(docs[..i + 1]) == Types(docs[..i]) + [docs[i].documentType]
    ensures Extensions(docs[..i + 1]) == Extensions(docs[..i]) + [docs[i].extension]
  {
    assert docs[..i + 1] == docs[..i] + [docs[i]];
    MapAppend(docs[..i], [docs[i]], (d: Document) => d.documentType);
    MapAppend(docs[..i], [docs[i]], (d: Document) => d.extension);
  }

  /** The values of a list of options. */
  function Values(options: seq<SelectOption>): (r: seq<string>)
    ensures |r| == |options|
  {
    Map(options, (o: SelectOption) => o.value)
  }

  /** `[{label: 'All', value: ''}, ...values.map(v => ({label: v, value: v}))]`. */
  function ValueOptions(vs: seq<string>): seq<SelectOption> {
    [AllOption] + Map(vs, (v: string) => SelectOption(v, v))
  }

  /** 'All' first, then each value in order, labelled with itself. */
  lemma ValueOptionsProperties(vs: seq<string>)
    ensures |ValueOptions(vs)| == |vs| + 1 && ValueOptions(vs)[0] == AllOption
    ensures Values(ValueOptions(vs)[1..]) == vs
    ensures forall i :: 1 <= i < |ValueOptions(vs)| ==> ValueOptions(vs)[i].title == ValueOptions(vs)[i].value
  {
    var r := ValueOptions(vs);
    assert |r[1..]| == |vs|;
    forall i | 0 <= i < |vs| ensures Values(r[1..])[i] == vs[i] {
      assert r[1..][i] == r[i + 1];
    }
  }

  /** Options labelled any way carry the values they were made from. */
  lemma ValuesOfLabelled(vs: seq<string>, labelOf: string -> string)
    ensures Values(Map(vs, (v: string) => SelectOption(labelOf(v), v))) == vs
  {
  }

  /** `generateFilterOptions`' loop over the documents: the truthy types and
    * extensions, each once, in first-seen order. */
  method CollectTypesAndExtensions(docs: seq<Document>) returns (types: seq<string>, extensions: seq<string>)
    ensures types == TruthyDistinct(Types(docs))
    ensures extensions == TruthyDistinct(Extensions(docs))
  {
    types := [];
    extensions := [];
    var i := 0;
    while i < |docs|
      invariant 0 <= i <= |docs|
      invariant types == TruthyDistinct(Types(docs[..i]))
      invariant extensions == TruthyDistinct(Extensions(docs[..i]))
    {
      var doc := docs[i];
      TypesSnoc(docs, i);
      TruthyDistinctSnoc(Types(docs[..i]), doc.documentType);
      TruthyDistinctSnoc(Extensions(docs[..i]), doc.extension);
      if doc.documentType != "" && doc.documentType !in types {
        types := types + [doc.documentType];
      }
      if doc.extension != "" && doc.extension !in extensions {
        extensions := extensions + [doc.extension];
      }
      i := i + 1;
    }
    assert docs[..|docs|] == docs;
  }

  /** `applyFilters`' chain: each active filter narrows the list in turn. */
  method ApplyDocFilters(docs: seq<Document>, f: DocFilters, endSlack: int) returns (filtered: seq<Document>)
    ensures filtered == FilterDocuments(docs, f, endSlack)
  {
    filtered := docs;
    if f.searchTerm != "" {
      filtered := Filter(filtered, (d: Document) => SearchMatches(d, f.searchTerm));
    }
    SearchStep(docs, f, filtered);
    var afterSearch := filtered;
    if ListActive(f.types) {
      filtered := Filter(filtered, (d: Document) => d.documentType in f.types);
    }
    TypeStep(docs, f, afterSearch);
    var afterType := filtered;
    if ListActive(f.extensions) {
      filtered := Filter(filtered, (d: Document) => d.extension in f.extensions);
    }
    ExtensionStep(docs, f, afterType);
    var afterExtension := filtered;
    if f.startDate.Some? && f.endDate.Some? {
      filtered := Filter(filtered, (d: Document) => f.startDate.value <= d.createdTime && d.createdTime <= f.endDate.value + endSlack);
    }
    DateStep(docs, f, endSlack, afterExtension);
  }
}
