/** The template picker of the document-generation flow: the templates read
  * from the drive, grouped by their category, and the choice of a category
  * and of a template. */
module GenerateDocumentFlow {
  import opened Seqs

  /** A template file as the drive lists it, with the list-item fields the
    * picker reads. */
  datatype DriveItem = DriveItem(
    id: string, name: string, webUrl: string,
    documentName: Option<string>, documentCategory: Option<string>, documentType: Option<string>)

  /** A template as the picker keeps it. */
  datatype Document = Document(
    id: string, displayName: string, documentType: Option<string>,
    documentCategory: Option<string>, serverRelativeUrl: string)

  /** A non-empty text of an optional field. */
  predicate Truthy(s: Option<string>) {
    s.Some? && s.value != ""
  }

  /** The name shown for a template. */
  function DisplayName(item: DriveItem): (r: string)
    ensures Truthy(item.documentName) ==> r == item.documentName.value
    ensures !Truthy(item.documentName) ==> r == item.name
  {
    if Truthy(item.documentName) then item.documentName.value else item.name
  }

  /** The template `fetchDocuments` keeps for a drive item. */
  function DocumentOf(item: DriveItem): Document {
    Document(item.id, DisplayName(item), item.documentType, item.documentCategory, item.webUrl)
  }

  const Uncategorized := "Uncategorized"

  /** `doc.DocumentCategory || 'Uncategorized'`. */
  function CategoryOf(d: Document): (r: string)
    ensures Truthy(d.documentCategory) ==> r == d.documentCategory.value
    ensures !Truthy(d.documentCategory) ==> r == Uncategorized
  {
    if Truthy(d.documentCategory) then d.documentCategory.value else Uncategorized
  }

  /** A category and its templates. */
  datatype Category = Category(name: string, documents: seq<Document>)

  function Name(c: Category): string { c.name }

  /** The test of belonging to the named category. */
  function InCategory(name: string): Document -> bool {
    (d: Document) => CategoryOf(d) == name
  }

  /** The index of the first category of that name, or -1. */
  function FindCategory(categories: seq<Category>, name: string): (k: int)
    ensures -1 <= k < |categories|
    ensures k >= 0 ==> categories[k].name == name && forall j :: 0 <= j < k ==> categories[j].name != name
    ensures k < 0 ==> forall j :: 0 <= j < |categories| ==> categories[j].name != name
    decreases |categories|
  {
    if categories == [] then -1
    else if categories[0].name == name then 0
    else
      var k := FindCategory(categories[1..], name);
      if k < 0 then -1 else k + 1
  }

  /** One template filed under its category: appended to the category's
    * list when there is one, otherwise in a new category at the end. */
  function AddDocument(categories: seq<Category>, d: Document): seq<Category> {
    var c := CategoryOf(d);
    var k := FindCategory(categories, c);
    if k < 0 then categories + [Category(c, [d])]
    else categories[k := categories[k].(documents := categories[k].documents + [d])]
  }

  /** The categories `groupDocumentsByCategory` builds, in the order they are
    * first met. */
  function Grouped(documents: seq<Document>): seq<Category>
    decreases |documents|
  {
    if documents == [] then []
    else AddDocument(Grouped(documents[..|documents| - 1]), documents[|documents| - 1])
  }

  /** The number of templates held by the categories. */
  function Total(categories: seq<Category>): nat
    decreases |categories|
  {
    if categories == [] then 0
    else Total(categories[..|categories| - 1]) + |categories[|categories| - 1].documents|
  }

  lemma {:induction false} TotalUpdate(categories: seq<Category>, k: nat, c: Category)
    requires k < |categories|
    ensures Total(categories[k := c]) + |categories[k].documents| == Total(categories) + |c.documents|
    decreases |categories|
  {
    var n := |categories|;
    var u := categories[k := c];
    assert u[..n - 1] == if k == n - 1 then categories[..n - 1] else categories[..n - 1][k := c];
    if k < n - 1 {
      TotalUpdate(categories[..n - 1], k, c);
    }
  }

  lemma TotalAppend(categories: seq<Category>, c: Category)
    ensures Total(categories + [c]) == Total(categories) + |c.documents|
  {
    assert (categories + [c])[..|categories|] == categories;
  }

  /** Every template lands in one category: the category sizes add up to the
    * number of templates. */
  lemma {:induction false} GroupedTotal(documents: seq<Document>)
    ensures Total(Grouped(documents)) == |documents|
    decreases |documents|
  {
    if documents != [] {
      var init := documents[..|documents| - 1];
      var d := documents[|documents| - 1];
      GroupedTotal(init);
      var g := Grouped(init);
      var k := FindCategory(g, CategoryOf(d));
      if k < 0 {
        TotalAppend(g, Category(CategoryOf(d), [d]));
      } else {
        TotalUpdate(g, k, g[k].(documents := g[k].documents + [d]));
      }
    }
  }

  /** A name is found exactly when it is one of the category names. */
  lemma FindCategoryNames(categories: seq<Category>, name: string)
    ensures FindCategory(categories, name) >= 0 <==> name in Map(categories, Name)
  {
    var names := Map(categories, Name);
    if name in names {
      var q :| 0 <= q < |names| && names[q] == name;
      assert categories[q].name == name;
    }
  }

  /** Filing a template adds its category's name at the end when it is new
    * and leaves the names alone otherwise. */
  lemma AddDocumentNames(categories: seq<Category>, d: Document)
    ensures var names := Map(categories, Name);
      Map(AddDocument(categories, d), Name) ==
        if CategoryOf(d) in names then names else names + [CategoryOf(d)]
  {
    FindCategoryNames(categories, CategoryOf(d));
    var k := FindCategory(categories, CategoryOf(d));
    if k < 0 {
      MapAppend(categories, [Category(CategoryOf(d), [d])], Name);
    }
  }

  /** The category names are the distinct categories of the templates, in
    * the order they first occur. */
  lemma {:induction false} GroupedNames(documents: seq<Document>)
    ensures Map(Grouped(documents), Name) == Distinct(Map(documents, CategoryOf))
    decreases |documents|
  {
    if documents != [] {
      var n := |documents|;
      var init := documents[..n - 1];
      var d := documents[n - 1];
      GroupedNames(init);
      AddDocumentNames(Grouped(init), d);
      var all := Map(documents, CategoryOf);
      assert all[..n - 1] == Map(init, CategoryOf);
    }
  }

  /** No template of a list has the category, so none is filtered in. */
  lemma {:induction false} NoneInCategory(s: seq<Document>, name: string)
    requires forall i :: 0 <= i < |s| ==> CategoryOf(s[i]) != name
    ensures Filter(s, InCategory(name)) == []
    decreases |s|
  {
    if s != [] {
      NoneInCategory(s[1..], name);
    }
  }

  /** A category not yet among the names is the category of no template so
    * far. */
  lemma NewCategoryEmpty(documents: seq<Document>, name: string)
    requires name !in Map(Grouped(documents), Name)
    ensures Filter(documents, InCategory(name)) == []
  {
    GroupedNames(documents);
    var all := Map(documents, CategoryOf);
    forall i | 0 <= i < |documents| ensures CategoryOf(documents[i]) != name {
      assert all[i] == CategoryOf(documents[i]);
      assert all[i] in Distinct(all);
    }
    NoneInCategory(documents, name);
  }

  /** Each category holds exactly the templates of that category, in their
    * original order. */
  lemma {:induction false} GroupedMembers(documents: seq<Document>)
    ensures forall k :: 0 <= k < |Grouped(documents)| ==>
      Grouped(documents)[k].documents == Filter(documents, InCategory(Grouped(documents)[k].name))
    decreases |documents|
  {
    if documents != [] {
      var n := |documents|;
      var init := documents[..n - 1];
      var d := documents[n - 1];
      GroupedMembers(init);
      assert init + [d] == documents;
      var g := Grouped(init);
      var c := CategoryOf(d);
      var k := FindCategory(g, c);
      FindCategoryNames(g, c);
      var r := Grouped(documents);
      forall j | 0 <= j < |r| ensures r[j].documents == Filter(documents, InCategory(r[j].name)) {
        var p := InCategory(r[j].name);
        FilterAppend(init, [d], p);
        FilterSingleton(d, p);
        if j == |g| {
          NewCategoryEmpty(init, c);
        } else if j != k && k >= 0 {
          GroupedNames(init);
          var names := Map(g, Name);
          assert names[j] == g[j].name && names[k] == c;
        }
      }
    }
  }

  /** A template is in a category exactly when it has that category, and
    * its category is always one of them. */
  lemma ExactlyOneCategory(documents: seq<Document>, d: Document)
    requires d in documents
    ensures CategoryOf(d) in Map(Grouped(documents), Name)
    ensures forall k :: 0 <= k < |Grouped(documents)| ==>
      (d in Grouped(documents)[k].documents <==> Grouped(documents)[k].name == CategoryOf(d))
  {
    GroupedMembers(documents);
    GroupedNames(documents);
    var m :| 0 <= m < |documents| && documents[m] == d;
    assert Map(documents, CategoryOf)[m] == CategoryOf(d);
    var g := Grouped(documents);
    forall k | 0 <= k < |g| ensures d in g[k].documents <==> g[k].name == CategoryOf(d) {
      FilterMember(documents, InCategory(g[k].name), d);
    }
  }

  /** A category is found after grouping exactly when some template has it,
    * and it then holds that category's templates. */
  lemma FindGroupedCategory(documents: seq<Document>, name: string)
    ensures var k := FindCategory(Grouped(documents), name);
      (k >= 0 <==> exists i :: 0 <= i < |documents| && CategoryOf(documents[i]) == name) &&
      (k >= 0 ==> Grouped(documents)[k].documents == Filter(documents, InCategory(name)))
  {
    GroupedMembers(documents);
    GroupedNames(documents);
    FindCategoryNames(Grouped(documents), name);
    var all := Map(documents, CategoryOf);
    assert name in Distinct(all) <==> name in all;
    assert name in all <==> exists i :: 0 <= i < |documents| && CategoryOf(documents[i]) == name by {
      if name in all {
        var i :| 0 <= i < |all| && all[i] == name;
      }
      if exists i :: 0 <= i < |documents| && CategoryOf(documents[i]) == name {
        var i :| 0 <= i < |documents| && CategoryOf(documents[i]) == name;
        assert all[i] == name;
      }
    }
  }

  /** The first template with that id. */
  function FindDocument(documents: seq<Document>, id: string): (r: Option<Document>)
    ensures r.Some? ==> r.value.id == id
    ensures r.Some? ==> (exists i :: 0 <= i < |documents| && documents[i] == r.value &&
                           forall j :: 0 <= j < i ==> documents[j].id != id)
    ensures r.None? ==> forall i :: 0 <= i < |documents| ==> documents[i].id != id
    decreases |documents|
  {
    if documents == [] then None
    else if documents[0].id == id then Some(documents[0])
    else
      var r := FindDocument(documents[1..], id);
      assert forall i :: 1 <= i < |documents| ==> documents[i] == documents[1..][i - 1];
      if r.Some? then
        var k :| 0 <= k < |documents[1..]| && documents[1..][k] == r.value
          && forall j :: 0 <= j < k ==> documents[1..][j].id != id;
        assert documents[k + 1] == r.value;
        r
      else r
  }

  class Flow {
    var documents: seq<Document>
    var documentCategories: seq<Category>
    var filteredDocuments: seq<Document>
    var isCategorySelected: bool
    var selectedCategory: string
    var selectedDocumentId: Option<string>
    var selectedDocumentType: Option<string>

    constructor ()
      ensures documents == [] && documentCategories == [] && filteredDocuments == []
      ensures !isCategorySelected && selectedCategory == ""
      ensures selectedDocumentId == None && selectedDocumentType == None
    {
      documents := [];
      documentCategories := [];
      filteredDocuments := [];
      isCategorySelected := false;
      selectedCategory := "";
      selectedDocumentId := None;
      selectedDocumentType := None;
    }

    /** `fetchDocuments` once the drive answers: the templates kept and then
      * grouped. */
    method DocumentsFetched(result: seq<DriveItem>)
      modifies this`documents, this`documentCategories
      ensures documents == Map(result, DocumentOf)
      ensures documentCategories == Grouped(documents)
    {
      documents := Map(result, DocumentOf);
      GroupDocumentsByCategory();
    }

    /** `groupDocumentsByCategory`: each template looked up by its category
      * and pushed onto that category's list. */
    method GroupDocumentsByCategory()
      modifies this`documentCategories
      ensures documentCategories == Grouped(documents)
    {
      var categories: seq<Category> := [];
      for i := 0 to |documents|
        invariant categories == Grouped(documents[..i])
      {
        var d := documents[i];
        var c := CategoryOf(d);
        var k := 0;
        while k < |categories| && categories[k].name != c
          invariant 0 <= k <= |categories|
          invariant forall j :: 0 <= j < k ==> categories[j].name != c
        {
          k := k + 1;
        }
        assert k == |categories| <==> FindCategory(categories, c) < 0;
        assert k < |categories| ==> k == FindCategory(categories, c);
        if k == |categories| {
          categories := categories + [Category(c, [d])];
        } else {
          categories := categories[k := categories[k].(documents := categories[k].documents + [d])];
        }
        assert documents[..i + 1][..i] == documents[..i];
      }
      assert documents[..|documents|] == documents;
      documentCategories := categories;
    }

    /** `handleCategorySelection`: the chosen category's templates are
      * listed; a name with no category fails before anything but the
      * selected name is set. */
    method HandleCategorySelection(category: string)
      modifies this`selectedCategory, this`filteredDocuments, this`isCategorySelected
      ensures selectedCategory == category
      ensures var k := FindCategory(documentCategories, category);
        if k >= 0 then filteredDocuments == documentCategories[k].documents && isCategorySelected
        else filteredDocuments == old(filteredDocuments) && isCategorySelected == old(isCategorySelected)
    {
      selectedCategory := category;
      var k := FindCategory(documentCategories, category);
      if k >= 0 {
        filteredDocuments := documentCategories[k].documents;
        isCategorySelected := true;
      }
    }

    /** `handleBackToCategories`. */
    method HandleBackToCategories()
      modifies this`selectedCategory, this`filteredDocuments, this`isCategorySelected
      ensures !isCategorySelected && selectedCategory == "" && filteredDocuments == []
    {
      isCategorySelected := false;
      selectedCategory := "";
      filteredDocuments := [];
    }

    /** `handleSelectionChange`: the template id is kept, and its type when a
      * template has that id. */
    method HandleSelectionChange(id: string)
      modifies this`selectedDocumentId, this`selectedDocumentType
      ensures selectedDocumentId == Some(id)
      ensures var found := FindDocument(documents, id);
        selectedDocumentType == if found.Some? then found.value.documentType else old(selectedDocumentType)
    {
      selectedDocumentId := Some(id);
      var found := FindDocument(documents, id);
      if found.Some? {
        selectedDocumentType := found.value.documentType;
      }
    }
  }
}
