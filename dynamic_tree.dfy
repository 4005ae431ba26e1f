/** The navigation tree of a case's record type: its nodes decorated for
  * display, the first node that can be navigated, the search over labels and
  * the lookup by label. */
module DynamicTree {
  import opened Seqs
  import opened Text

  /** A node of the tree. `title` is its label, `objectName` the object it
    * opens (blank when it opens none); a missing child list is empty. */
  datatype Node = Node(
    title: string,
    objectName: string,
    children: seq<Node>,
    icon: string,
    hasChildren: bool,
    expandedClass: string)

  const ChevronRight := "utility:chevronright"
  const Collapsed := "slds-is-collapsed"

  /** `formatTreeData`: a copy of the nodes, each at every depth with the
    * right chevron, collapsed, and `hasChildren` telling whether it has any. */
  function AddIcons(nodes: seq<Node>): seq<Node>
    decreases nodes
  {
    if nodes == [] then []
    else
      var n := nodes[0];
      var children := if |n.children| > 0 then AddIcons(n.children) else n.children;
      [n.(icon := ChevronRight, hasChildren := |n.children| > 0, children := children, expandedClass := Collapsed)] +
      AddIcons(nodes[1..])
  }

  /** Two forests with the same shape and the same labels at every place. */
  ghost predicate SameShape(a: seq<Node>, b: seq<Node>)
    decreases a
  {
    |a| == |b| &&
    forall i :: 0 <= i < |a| ==> a[i].title == b[i].title && SameShape(a[i].children, b[i].children)
  }

  /** Every node at every depth shows the right chevron, is collapsed and
    * says truly whether it has children. */
  ghost predicate Decorated(nodes: seq<Node>)
    decreases nodes
  {
    forall i :: 0 <= i < |nodes| ==>
      nodes[i].icon == ChevronRight && nodes[i].expandedClass == Collapsed &&
      (nodes[i].hasChildren <==> |nodes[i].children| > 0) && Decorated(nodes[i].children)
  }

  lemma {:induction false} AddIconsHead(nodes: seq<Node>)
    requires nodes != []
    ensures |AddIcons(nodes)| == 1 + |AddIcons(nodes[1..])|
    ensures AddIcons(nodes)[0].children == AddIcons(nodes[0].children)
    ensures AddIcons(nodes)[1..] == AddIcons(nodes[1..])
  {
    if |nodes[0].children| == 0 {
      assert nodes[0].children == [];
    }
  }

  /** `formatTreeData` keeps the shape and the labels and decorates every
    * node. */
  lemma {:induction false} AddIconsShape(nodes: seq<Node>)
    ensures SameShape(AddIcons(nodes), nodes) && Decorated(AddIcons(nodes))
    decreases nodes
  {
    if nodes != [] {
      var r := AddIcons(nodes);
      AddIconsHead(nodes);
      AddIconsShape(nodes[0].children);
      AddIconsShape(nodes[1..]);
      forall i | 0 <= i < |r|
        ensures r[i].title == nodes[i].title && SameShape(r[i].children, nodes[i].children)
        ensures r[i].icon == ChevronRight && r[i].expandedClass == Collapsed
        ensures (r[i].hasChildren <==> |r[i].children| > 0) && Decorated(r[i].children)
      {
        if i > 0 {
          assert r[i] == AddIcons(nodes[1..])[i - 1];
          assert nodes[i] == nodes[1..][i - 1];
        }
      }
    }
  }

  /** The label a record type gives a node when it is navigated. */
  function UpdatedLabel(recordType: string, title: string): string {
    if recordType == "ESTA" then "Estates - " + title
    else if recordType == "COMP" then "Companies - " + title
    else if recordType == "CONV" then "Conveyancing - " + title
    else if recordType == "FOIR" then "FOIR - " + title
    else if recordType == "GENE" then "General - " + title
    else title
  }

  /** The five record types each put their prefix before the label; any
    * other type leaves it as it is. */
  lemma UpdatedLabelCases(recordType: string, title: string)
    ensures recordType !in ["ESTA", "COMP", "CONV", "FOIR", "GENE"] ==> UpdatedLabel(recordType, title) == title
    ensures recordType in ["ESTA", "COMP", "CONV", "FOIR", "GENE"] ==>
      exists prefix :: prefix in ["Estates - ", "Companies - ", "Conveyancing - ", "FOIR - ", "General - "] &&
        UpdatedLabel(recordType, title) == prefix + title
    ensures EndsWith(UpdatedLabel(recordType, title), title)
  {
    var r := UpdatedLabel(recordType, title);
    if recordType in ["ESTA", "COMP", "CONV", "FOIR", "GENE"] {
      var prefix := r[..|r| - |title|];
      assert r == prefix + title;
      assert r[|r| - |title|..] == title;
    } else {
      assert r[|r| - |title|..] == title;
    }
  }

  /** `setTreeName`. */
  function TreeName(recordType: string): string {
    if recordType == "ESTA" then "Estates"
    else if recordType == "COMP" then "Companies"
    else if recordType == "CONV" then "Conveyancing"
    else if recordType == "FOIR" then "Freedom of Information"
    else if recordType == "GENE" then "General Files"
    else ""
  }

  /** Only the five record types have a tree name. */
  lemma TreeNameCases(recordType: string)
    ensures TreeName(recordType) != "" <==> recordType in ["ESTA", "COMP", "CONV", "FOIR", "GENE"]
  {
  }

  /** The first node of the forest that can be navigated, as the loop that
    * opens it finds it: the first node opening an object, or the first with
    * children, searched in turn, even when they hold none. */
  function FirstNavigable(nodes: seq<Node>): Option<Node>
    decreases nodes
  {
    if nodes == [] then None
    else if nodes[0].objectName != "" then Some(nodes[0])
    else if |nodes[0].children| > 0 then FirstNavigable(nodes[0].children)
    else FirstNavigable(nodes[1..])
  }

  /** `n` is a node of the forest at some depth. */
  ghost predicate InForest(n: Node, nodes: seq<Node>)
    decreases nodes
  {
    exists i :: 0 <= i < |nodes| && (nodes[i] == n || InForest(n, nodes[i].children))
  }

  lemma {:induction false} InForestTail(n: Node, nodes: seq<Node>)
    requires nodes != [] && InForest(n, nodes[1..])
    ensures InForest(n, nodes)
  {
    var i :| 0 <= i < |nodes[1..]| && (nodes[1..][i] == n || InForest(n, nodes[1..][i].children));
    assert nodes[i + 1] == nodes[1..][i];
  }

  /** The node navigated opens an object and is one of the tree's nodes. */
  lemma {:induction false} FirstNavigableFound(nodes: seq<Node>)
    ensures FirstNavigable(nodes).Some? ==>
      FirstNavigable(nodes).value.objectName != "" && InForest(FirstNavigable(nodes).value, nodes)
    decreases nodes
  {
    if nodes != [] && nodes[0].objectName == "" {
      if |nodes[0].children| > 0 {
        FirstNavigableFound(nodes[0].children);
      } else {
        FirstNavigableFound(nodes[1..]);
        if FirstNavigable(nodes[1..]).Some? {
          InForestTail(FirstNavigable(nodes[1..]).value, nodes);
        }
      }
    }
  }

  /** Once the search goes into a node's children it never comes back to the
    * node's later siblings. */
  lemma FirstNavigableStopsInBranch(branch: Node, later: seq<Node>)
    requires branch.objectName == "" && |branch.children| > 0 && FirstNavigable(branch.children) == None
    ensures FirstNavigable([branch] + later) == None
  {
    assert ([branch] + later)[0] == branch;
  }

  /** `findNode`: the first node in pre-order with the label, if any. */
  function FindNode(nodes: seq<Node>, title: string): Option<Node>
    decreases nodes
  {
    if nodes == [] then None
    else if nodes[0].title == title then Some(nodes[0])
    else match FindNode(nodes[0].children, title)
      case Some(found) => Some(found)
      case None => FindNode(nodes[1..], title)
  }

  /** A node is found exactly when the tree has a node with the label, and
    * the node found has it. */
  lemma {:induction false} FindNodeCorrect(nodes: seq<Node>, title: string)
    ensures FindNode(nodes, title).Some? ==>
      FindNode(nodes, title).value.title == title && InForest(FindNode(nodes, title).value, nodes)
    ensures FindNode(nodes, title).None? ==> forall n :: InForest(n, nodes) ==> n.title != title
    decreases nodes
  {
    if nodes != [] {
      FindNodeCorrect(nodes[0].children, title);
      FindNodeCorrect(nodes[1..], title);
      if FindNode(nodes, title).Some? {
        if nodes[0].title != title && FindNode(nodes[0].children, title).None? {
          InForestTail(FindNode(nodes[1..], title).value, nodes);
        }
      } else {
        forall n | InForest(n, nodes) ensures n.title != title {
          var i :| 0 <= i < |nodes| && (nodes[i] == n || InForest(n, nodes[i].children));
          if i > 0 {
            assert nodes[1..][i - 1] == nodes[i];
          }
        }
      }
    }
  }

  predicate LabelMatches(n: Node, term: string) {
    Contains(ToLower(n.title), term)
  }

  /** A node survives the search when it is a matching node without
    * children, or when something below it survives. */
  predicate HasMatch(n: Node, term: string)
    decreases n
  {
    (LabelMatches(n, term) && !n.hasChildren) ||
    exists i :: 0 <= i < |n.children| && HasMatch(n.children[i], term)
  }

  /** The one node a node becomes in the search result, if it stays. */
  function FilterNode(n: Node, term: string): seq<Node>
    decreases n, 1
  {
    if LabelMatches(n, term) && !n.hasChildren then [n.(expandedClass := "", icon := ChevronRight)]
    else
      var children := FilterNodes(n.children, term);
      if |children| > 0 then [n.(children := children, expandedClass := "", icon := ChevronRight)] else []
  }

  /** `filterNodes`: the reduce over the nodes, in their order. */
  function FilterNodes(nodes: seq<Node>, term: string): seq<Node>
    decreases nodes, 0
  {
    if nodes == [] then [] else FilterNode(nodes[0], term) + FilterNodes(nodes[1..], term)
  }

  /** The search keeps that part of the tree that holds a matching node
    * without children; a matching parent whose children do not match is
    * dropped. */
  lemma {:induction false} FilterNodesNonEmpty(nodes: seq<Node>, term: string)
    ensures |FilterNodes(nodes, term)| > 0 <==> exists i :: 0 <= i < |nodes| && HasMatch(nodes[i], term)
    decreases nodes
  {
    if nodes != [] {
      FilterNodeKept(nodes[0], term);
      FilterNodesNonEmpty(nodes[1..], term);
      if exists i :: 0 <= i < |nodes[1..]| && HasMatch(nodes[1..][i], term) {
        var i :| 0 <= i < |nodes[1..]| && HasMatch(nodes[1..][i], term);
        assert nodes[i + 1] == nodes[1..][i];
      }
      if exists i :: 0 <= i < |nodes| && HasMatch(nodes[i], term) {
        var i :| 0 <= i < |nodes| && HasMatch(nodes[i], term);
        if i > 0 {
          assert nodes[1..][i - 1] == nodes[i];
        }
      }
    }
  }

  /** A node stays, under its own label, exactly when it has a match. */
  lemma {:induction false} FilterNodeKept(n: Node, term: string)
    ensures |FilterNode(n, term)| == (if HasMatch(n, term) then 1 else 0)
    ensures HasMatch(n, term) ==> FilterNode(n, term)[0].title == n.title
    decreases n
  {
    if !(LabelMatches(n, term) && !n.hasChildren) {
      FilterNodesNonEmpty(n.children, term);
    }
  }

  /** A matching parent whose children hold no match is dropped. */
  lemma MatchingParentDropped(n: Node, term: string)
    requires LabelMatches(n, term) && n.hasChildren
    requires forall i :: 0 <= i < |n.children| ==> !HasMatch(n.children[i], term)
    ensures FilterNode(n, term) == []
  {
    FilterNodeKept(n, term);
  }

  /** The labels of the top-level search result are those of the nodes with
    * a match, in their order. */
  lemma {:induction false} FilterNodesLabels(nodes: seq<Node>, term: string)
    ensures Map(FilterNodes(nodes, term), (n: Node) => n.title) ==
      Map(Filter(nodes, (n: Node) => HasMatch(n, term)), (n: Node) => n.title)
    decreases nodes
  {
    if nodes != [] {
      var p := (n: Node) => HasMatch(n, term);
      var title := (n: Node) => n.title;
      FilterNodeKept(nodes[0], term);
      FilterNodesLabels(nodes[1..], term);
      var head := FilterNode(nodes[0], term);
      MapAppend(head, FilterNodes(nodes[1..], term), title);
      var kept := if p(nodes[0]) then [nodes[0]] else [];
      MapAppend(kept, Filter(nodes[1..], p), title);
      assert Map(head, title) == Map(kept, title);
    }
  }

  /** `filteredTreeData` before its sort: nothing without a tree; with no
    * search term the top-level nodes reset to collapsed; else the search. */
  function FilteredTree(treeData: Option<seq<Node>>, term: string): seq<Node> {
    if treeData.None? then []
    else if term == "" then Map(treeData.value, (n: Node) => n.(icon := ChevronRight, expandedClass := Collapsed))
    else FilterNodes(treeData.value, term)
  }

  /** With no search term every top-level node is shown, collapsed. */
  lemma FilteredTreeNoTerm(nodes: seq<Node>)
    ensures |FilteredTree(Some(nodes), "")| == |nodes|
    ensures forall i :: 0 <= i < |nodes| ==>
      FilteredTree(Some(nodes), "")[i].title == nodes[i].title &&
      FilteredTree(Some(nodes), "")[i].children == nodes[i].children &&
      FilteredTree(Some(nodes), "")[i].expandedClass == Collapsed
  {
  }

  class Tree {
    var treeData: Option<seq<Node>>
    var searchTerm: string
    var isSearchActive: bool
    var recordTypeDeveloperName: string
    var treeName: string

    constructor (recordType: string)
      ensures treeData == None && searchTerm == "" && !isSearchActive
      ensures recordTypeDeveloperName == recordType
    {
      treeData := None;
      searchTerm := "";
      isSearchActive := false;
      recordTypeDeveloperName := recordType;
      treeName := "";
    }

    /** `loadTreeData`, after the tree arrives (or fails to): the decorated
      * tree, its name, and the node navigated first. */
    method LoadTreeData(data: Option<seq<Node>>) returns (navigated: Option<Node>)
      modifies this`treeData, this`treeName
      ensures treeData == if data.Some? then Some(AddIcons(data.value)) else None
      ensures data.Some? ==> treeName == TreeName(recordTypeDeveloperName) && navigated == FirstNavigable(treeData.value)
      ensures data.None? ==> treeName == old(treeName) && navigated == None
    {
      navigated := None;
      if data.Some? {
        var formatted := AddIcons(data.value);
        treeData := Some(formatted);
        SetTreeName(recordTypeDeveloperName);
        navigated := OpenFirstNavigableNode(formatted);
      } else {
        treeData := None;
      }
    }

    /** `setTreeName`. */
    method SetTreeName(recordType: string)
      modifies this`treeName
      ensures treeName == TreeName(recordType)
    {
      treeName := TreeName(recordType);
    }

    /** `openFirstNavigableNode`: the loop over the nodes, returning on the
      * first that opens an object or has children. */
    method OpenFirstNavigableNode(nodes: seq<Node>) returns (navigated: Option<Node>)
      ensures navigated == FirstNavigable(nodes)
      decreases nodes
    {
      var i := 0;
      while i < |nodes|
        invariant 0 <= i <= |nodes|
        invariant FirstNavigable(nodes) == FirstNavigable(nodes[i..])
        invariant forall j :: 0 <= j < i ==> nodes[j].objectName == "" && |nodes[j].children| == 0
      {
        var node := nodes[i];
        assert nodes[i..][0] == node && nodes[i..][1..] == nodes[i + 1..];
        if node.objectName != "" {
          return Some(node);
        } else if |node.children| > 0 {
          navigated := OpenFirstNavigableNode(node.children);
          return;
        }
        i := i + 1;
      }
      return None;
    }

    /** `getUpdatedLabel` for the tree's record type. */
    function GetUpdatedLabel(title: string): string
      reads this
    {
      UpdatedLabel(recordTypeDeveloperName, title)
    }

    /** `handleSearch`. */
    method HandleSearch(value: string)
      modifies this`searchTerm, this`isSearchActive
      ensures searchTerm == ToLower(value) && (isSearchActive <==> searchTerm != "")
    {
      searchTerm := ToLower(value);
      isSearchActive := searchTerm != "";
    }

    /** The `filteredTreeData` getter, which also turns the search off when
      * the term is blank and there is a tree. */
    method FilteredTreeData() returns (r: seq<Node>)
      modifies this`isSearchActive
      ensures r == FilteredTree(treeData, searchTerm)
      ensures isSearchActive == if treeData.Some? && searchTerm == "" then false else old(isSearchActive)
    {
      if treeData.None? {
        return [];
      }
      if searchTerm == "" {
        isSearchActive := false;
        return Map(treeData.value, (n: Node) => n.(icon := ChevronRight, expandedClass := Collapsed));
      }
      r := FilterNodes(treeData.value, searchTerm);
    }
  }
}
