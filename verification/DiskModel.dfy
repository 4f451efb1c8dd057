/** The analyzed volume: raw records, nodes, and the flat child-link array. */
module DiskModel {
  import opened ForestTheory
  import opened Saturating

  datatype FileCategory = Video | Images | Audio | Archives | Code | Documents | System | Other

  const CATEGORIES: seq<FileCategory> := [Video, Images, Audio, Archives, Code, Documents, System, Other]

  function CategoryIndex(category: FileCategory): (i: nat)
    ensures i < 8 && CATEGORIES[i] == category
  {
    match category
    case Video => 0
    case Images => 1
    case Audio => 2
    case Archives => 3
    case Code => 4
    case Documents => 5
    case System => 6
    case Other => 7
  }

  /** One row of the volume snapshot. */
  datatype Record = Record(
    frn: U64, parentFrn: U64, name: string, size: U64, allocatedSize: U64, isDir: bool, isReparse: bool)

  datatype AnalysisNode = AnalysisNode(
    name: string,
    parent: nat,
    childStart: nat,
    childLen: nat,
    size: U64,
    allocatedSize: U64,
    subtreeSize: U64,
    subtreeAllocatedSize: U64,
    subtreeFiles: U64,
    isDir: bool,
    isReparse: bool,
    category: FileCategory)
  {
    /** Walks look below plain directories only. */
    predicate Descends() {
      isDir && !isReparse
    }

    /** The fields no later pass of the builder writes. */
    ghost predicate SameRecord(other: AnalysisNode) {
      && name == other.name
      && size == other.size && allocatedSize == other.allocatedSize
      && isDir == other.isDir && isReparse == other.isReparse
      && (!Descends() ==> category == other.category)
    }

    ghost predicate SameLinks(other: AnalysisNode) {
      parent == other.parent && childStart == other.childStart && childLen == other.childLen
    }
  }

  datatype CategoryTotals = CategoryTotals(logicalBytes: seq<U64>, allocatedBytes: seq<U64>, fileCounts: seq<U64>)

  datatype DiskAnalysisModel = DiskAnalysisModel(
    driveLetter: char,
    nodes: seq<AnalysisNode>,
    childLinks: seq<nat>,
    root: nat,
    totalSize: U64,
    totalAllocatedSize: U64,
    totalFiles: U64,
    totalFolders: U64,
    deepestPath: nat,
    categoryTotals: CategoryTotals)

  function Slice(node: AnalysisNode, links: seq<nat>): seq<nat>
    requires node.childStart + node.childLen <= |links|
  {
    links[node.childStart..node.childStart + node.childLen]
  }

  /** Node `x` of the graph is node `x` of the model without its payload. */
  ghost predicate LinkAt(g: Graph, nodes: seq<AnalysisNode>, links: seq<nat>, x: nat) {
    && x < |nodes| && x < |g.parent| && x < |g.kids| && x < |g.descends|
    && nodes[x].childStart + nodes[x].childLen <= |links|
    && g.parent[x] == nodes[x].parent
    && g.kids[x] == Slice(nodes[x], links)
    && g.descends[x] == nodes[x].Descends()
  }

  ghost predicate Depicts(g: Graph, nodes: seq<AnalysisNode>, links: seq<nat>, root: nat) {
    && |g.parent| == |g.kids| == |g.descends| == |nodes| && g.root == root
    && forall x {:trigger LinkAt(g, nodes, links, x)} :: 0 <= x < |nodes| ==> LinkAt(g, nodes, links, x)
  }

  lemma DownAt(g: Graph, nodes: seq<AnalysisNode>, links: seq<nat>, root: nat, x: nat)
    requires Depicts(g, nodes, links, root) && x < |nodes|
    ensures nodes[x].childStart + nodes[x].childLen <= |links|
    ensures Down(g, x) == if nodes[x].Descends() then Slice(nodes[x], links) else []
  {
    assert LinkAt(g, nodes, links, x);
  }

  // ---- What each node contributes on its own ---------------------------

  /**
    What a file adds to counter `k` of the 24 per-category counters: allocated bytes for
    categories 0-7, logical bytes for 8-15, one file for 16-23. Directories add nothing.
   */
  function CounterOf(node: AnalysisNode, k: nat): nat {
    if node.isDir || k % 8 != CategoryIndex(node.category) then 0
    else if k < 8 then node.allocatedSize
    else if k < 16 then node.size
    else 1
  }

  /** One column of own values per total of the analyzer; node `x` contributes entry `x` of each. */
  datatype Units = Units(sizes: seq<nat>, allocatedSizes: seq<nat>, files: seq<nat>, folders: seq<nat>, counters: seq<seq<nat>>)

  function UnitsOf(nodes: seq<AnalysisNode>): Units {
    Units(
      seq(|nodes|, i requires 0 <= i < |nodes| => nodes[i].size),
      seq(|nodes|, i requires 0 <= i < |nodes| => nodes[i].allocatedSize),
      seq(|nodes|, i requires 0 <= i < |nodes| => if nodes[i].isDir then 0 else 1),
      seq(|nodes|, i requires 0 <= i < |nodes| => if nodes[i].isDir then 1 else 0),
      seq(24, k requires 0 <= k < 24 => seq(|nodes|, i requires 0 <= i < |nodes| => CounterOf(nodes[i], k))))
  }

  ghost predicate NodeMeasured(u: Units, node: AnalysisNode, x: nat) {
    && x < |u.sizes| && u.sizes[x] == node.size
    && x < |u.allocatedSizes| && u.allocatedSizes[x] == node.allocatedSize
    && x < |u.files| && u.files[x] == (if node.isDir then 0 else 1)
    && x < |u.folders| && u.folders[x] == (if node.isDir then 1 else 0)
    && |u.counters| == 24
    && forall k {:trigger u.counters[k]} :: 0 <= k < 24 ==> x < |u.counters[k]| && u.counters[k][x] == CounterOf(node, k)
  }

  /** The columns hold the nodes' own values. */
  ghost predicate Measures(u: Units, nodes: seq<AnalysisNode>) {
    && |u.counters| == 24
    && forall x {:trigger NodeMeasured(u, nodes[x], x)} :: 0 <= x < |nodes| ==> NodeMeasured(u, nodes[x], x)
  }

  lemma UnitsOfMeasures(nodes: seq<AnalysisNode>)
    ensures Measures(UnitsOf(nodes), nodes)
  {
  }
}
