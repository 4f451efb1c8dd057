/** What a built model promises, in terms of the model alone, and the whole build. */
module BuiltVolume {
  import opened Aggregation
  import opened Cancellation
  import opened DepthWalk
  import opened DiskModel
  import opened Folding
  import opened ForestTheory
  import opened ParentLinks
  import opened Saturating
  import opened VolumeBuilder
  import opened Walks
  import opened Wrappers

  // ---- The tree inside a model ---------------------------------------------------

  /** The child array of the model encodes its parent function (folded, see Unfold). */
  ghost predicate IsTree(m: DiskAnalysisModel) {
    forall k {:trigger Unfold(k)} :: Unfold(k) && k == 1 ==>
      |m.nodes| <= U32_MAX && EncodesParents(m.nodes, m.childLinks, m.root)
  }

  ghost function Links(m: DiskAnalysisModel): (g: Graph)
    requires IsTree(m)
    ensures Depicts(g, m.nodes, m.childLinks, m.root) && Linked(g) && Complete(g)
  {
    assert Unfold(1);
    var g := GraphOf(m.nodes, m.childLinks, m.root);
    EncodedIsLinked(g, m.nodes, m.childLinks, m.root);
    g
  }

  /** The trees below all nodes whose parent chain reaches the root of the model. */
  ghost function TreesOf(m: DiskAnalysisModel): (t: Chart)
    requires IsTree(m)
    ensures Charted(Links(m), t)
    ensures forall x: nat :: x in t <==> Rooted(Links(m), x)
    ensures forall x {:trigger x in t} :: x in t ==> x < |m.nodes|
    ensures m.root in t
  {
    var g := Links(m);
    ChartOfCharted(g);
    assert AtDepth(g, m.root, 0);
    forall x: nat | Rooted(g, x) ensures x < |m.nodes| { RootedInRange(g, x); }
    ChartOf(g)
  }

  /** The nodes a walk from `x` meets, children before parents. */
  ghost function Met(m: DiskAnalysisModel, x: nat): seq<nat>
    requires IsTree(m)
  {
    PostOrder(TreeAt(TreesOf(m), x))
  }

  /**
    A walk from a node with a parent chain to the root ends. It meets no node twice, and exactly
    the nodes that are reached by stepping from plain directories to their children.
   */
  lemma WalkMeetsExactly(m: DiskAnalysisModel, x: nat)
    requires IsTree(m) && Rooted(Links(m), x)
    ensures Distinct(Met(m, x))
    ensures forall j: nat :: j in Met(m, x) <==> Reached(Links(m), x, j)
    ensures forall j :: j in Met(m, x) ==> j < |m.nodes| && Rooted(Links(m), j)
  {
    var g, t := Links(m), TreesOf(m);
    PostOrderDistinct(g, t, x);
    forall j: nat
      ensures j in Met(m, x) <==> Reached(g, x, j)
      ensures j in Met(m, x) ==> j in t
    {
      MetIffReached(g, t, x, j);
    }
  }

  // ---- What the builder promises ---------------------------------------------------

  /** Node `x` as the snapshot describes it. */
  function RecordNode(drive: char, records: seq<Record>, categorize: string -> FileCategory, x: nat): AnalysisNode
    requires x <= |records|
  {
    var made := if x == 0 then SyntheticRoot(drive) else NodeFor(records[x - 1], categorize);
    made.(
      name := if x == RootIndex(records) then DriveName(drive) else made.name,
      parent := ParentField(records, x))
  }

  /** One node per record behind the synthetic root, with the record's data and its resolved parent. */
  ghost predicate Represents(m: DiskAnalysisModel, drive: char, records: seq<Record>, categorize: string -> FileCategory) {
    && m.driveLetter == drive && |m.nodes| == |records| + 1 && m.root == RootIndex(records)
    && forall x {:trigger m.nodes[x]} :: 0 <= x < |m.nodes| ==>
      var made := RecordNode(drive, records, categorize, x);
      m.nodes[x].SameRecord(made) && m.nodes[x].parent == made.parent
  }

  /** Totals of the model over the trees of `t`, `order` being the nodes a walk from the root meets. */
  ghost predicate TotalsHold(m: DiskAnalysisModel, t: Chart, u: Units, order: seq<nat>) {
    && RolledUpNodes(m.nodes, t, u, order)
    && m.totalSize == Sat(Weight(t, m.root, u.sizes))
    && m.totalAllocatedSize == Sat(Weight(t, m.root, u.allocatedSizes))
    && m.totalFiles == Weight(t, m.root, u.files)
    && m.totalFolders + 1 == Weight(t, m.root, u.folders)
    && FlatUpTo(m.categoryTotals, order, u)
  }

  ghost predicate RolledUpNodes(nodes: seq<AnalysisNode>, t: Chart, u: Units, order: seq<nat>) {
    |u.counters| == 24 &&
    forall x {:trigger nodes[x]} :: 0 <= x < |nodes| ==>
      if x in order then RolledUp(nodes[x], nodes, u, t, x) else Unaggregated(nodes[x])
  }

  /** Every total of every node a walk from the root meets is the exact sum over its tree, clamped. */
  ghost predicate TotalsExact(m: DiskAnalysisModel)
    requires IsTree(m)
  {
    TotalsHold(m, TreesOf(m), UnitsOf(m.nodes), Met(m, m.root))
  }

  /** `deepestPath` is the largest entry of a depth table that is right wherever the walk got. */
  ghost predicate DepthExact(m: DiskAnalysisModel)
    requires IsTree(m)
  {
    DepthHolds(m, Links(m), TreesOf(m))
  }

  ghost predicate DepthHolds(m: DiskAnalysisModel, g: Graph, t: Chart)
    requires Linked(g)
  {
    exists depths: seq<nat> ::
      DepthsKnown(depths, g, SetOf(PreOrder(TreeAt(t, m.root)))) && IsMaximum(depths, m.deepestPath)
  }

  // ---- The roll-up leaves records and links alone -------------------------------------

  ghost predicate SameShape(nodes: seq<AnalysisNode>, base: seq<AnalysisNode>) {
    && |nodes| == |base|
    && forall x {:trigger nodes[x]} :: 0 <= x < |nodes| ==> nodes[x].SameRecord(base[x]) && nodes[x].SameLinks(base[x])
  }

  lemma RolledUpSameShape(nodes: seq<AnalysisNode>, base: seq<AnalysisNode>, u: Units, t: Chart, order: seq<nat>)
    requires RolledUpExactly(nodes, base, u, t, order)
    ensures SameShape(nodes, base)
  {
    forall x {:trigger nodes[x]} | 0 <= x < |nodes| ensures nodes[x].SameRecord(base[x]) && nodes[x].SameLinks(base[x]) {
      if x in order {
        assert RolledUp(nodes[x], base, u, t, x);
      }
    }
  }

  lemma SameShapeSlice(nodes: seq<AnalysisNode>, base: seq<AnalysisNode>, links: seq<nat>, root: nat, x: nat)
    requires SameShape(nodes, base) && x < |base|
    requires base[x].childStart + base[x].childLen <= |links| && SliceOfChildren(base, links, root, x)
    ensures nodes[x].childStart + nodes[x].childLen <= |links| && SliceOfChildren(nodes, links, root, x)
  {
    assert Slice(nodes[x], links) == Slice(base[x], links);
    forall c ensures c in Slice(nodes[x], links) <==> 1 <= c < |nodes| && c != root && nodes[c].parent == x {
      assert c in Slice(base[x], links) <==> 1 <= c < |base| && c != root && base[c].parent == x;
    }
  }

  lemma SameShapeEncodes(nodes: seq<AnalysisNode>, base: seq<AnalysisNode>, links: seq<nat>, root: nat)
    requires SameShape(nodes, base) && EncodesParents(base, links, root)
    ensures EncodesParents(nodes, links, root)
  {
    SameShapeContiguous(nodes, base, links);
    forall x | 0 <= x < |nodes| ensures SliceOfChildren(nodes, links, root, x) {
      assert base[x].childLen >= 0;
      assert SliceOfChildren(base, links, root, x);
      SameShapeSlice(nodes, base, links, root, x);
    }
    forall x | 0 <= x < |nodes|
      ensures nodes[x].parent == base[x].parent < |nodes|
      ensures 1 <= x && x != root ==> nodes[x].parent != x
    {
    }
  }

  lemma SameShapeContiguous(nodes: seq<AnalysisNode>, base: seq<AnalysisNode>, links: seq<nat>)
    requires SameShape(nodes, base) && Contiguous(base, links)
    ensures Contiguous(nodes, links)
  {
    forall x | 0 <= x < |nodes|
      ensures nodes[x].childStart == base[x].childStart && nodes[x].childLen == base[x].childLen
    {
    }
  }

  lemma SameShapeGraph(nodes: seq<AnalysisNode>, base: seq<AnalysisNode>, links: seq<nat>, root: nat)
    requires SameShape(nodes, base) && Contiguous(base, links) && Contiguous(nodes, links)
    ensures GraphOf(nodes, links, root) == GraphOf(base, links, root)
  {
    var g, h := GraphOf(nodes, links, root), GraphOf(base, links, root);
    forall x | 0 <= x < |nodes|
      ensures g.parent[x] == h.parent[x] && g.kids[x] == h.kids[x] && g.descends[x] == h.descends[x]
    {
      assert LinkAt(g, nodes, links, x) && LinkAt(h, base, links, x);
    }
  }

  lemma SameShapeUnits(nodes: seq<AnalysisNode>, base: seq<AnalysisNode>)
    requires SameShape(nodes, base)
    ensures UnitsOf(nodes) == UnitsOf(base)
  {
    var u, v := UnitsOf(nodes), UnitsOf(base);
    assert u.sizes == v.sizes && u.allocatedSizes == v.allocatedSizes && u.files == v.files && u.folders == v.folders;
    forall k | 0 <= k < 24 ensures u.counters[k] == v.counters[k] {
      forall x | 0 <= x < |nodes| ensures u.counters[k][x] == v.counters[k][x] {
        assert CounterOf(nodes[x], k) == CounterOf(base[x], k);
      }
    }
  }

  // ---- Handing the links to the walks ---------------------------------------------------

  lemma StartSetting(base: seq<AnalysisNode>, links: seq<nat>, root: nat, drive: char, records: seq<Record>,
                     categorize: string -> FileCategory, counts: seq<nat>) returns (t: Chart)
    requires EncodesParents(base, links, root) && |base| <= U32_MAX
    requires LinkedNodes(base, drive, records, categorize, ParentsOf(records), counts)
    ensures var g := GraphOf(base, links, root);
      && Linked(g) && Complete(g) && t == ChartOf(g) && root in t
      && Setting(base, UnitsOf(base), g, t, links, root)
  {
    var g := GraphOf(base, links, root);
    EncodedIsLinked(g, base, links, root);
    t := ChartOf(g);
    ChartOfCharted(g);
    UnitsOfMeasures(base);
    assert AtDepth(g, root, 0);
    forall x: nat | Rooted(g, x) ensures x < |base| { RootedInRange(g, x); }
    forall x {:trigger Unaggregated(base[x])} | 0 <= x < |base| ensures Unaggregated(base[x]) {
      assert LinkedNode(base[x], drive, records, categorize, ParentsOf(records), RootIndex(records), counts, x);
    }
  }

  lemma ReadyForDepths(nodes: seq<AnalysisNode>, links: seq<nat>, root: nat, g: Graph)
    requires EncodesParents(nodes, links, root) && g == GraphOf(nodes, links, root) && Linked(g)
    requires root in ChartOf(g)
    ensures DepthSetting(nodes, links, root, g, ChartOf(g))
  {
    ChartOfCharted(g);
    forall x: nat | Rooted(g, x) ensures x < |nodes| { RootedInRange(g, x); }
    forall x | 0 <= x < |nodes|
      ensures !nodes[x].isDir ==> nodes[x].childLen == 0
      ensures forall c {:trigger c in g.kids[x]} :: c in g.kids[x] ==> c != 0
    {
      assert nodes[x].childLen >= 0;
      assert SliceOfChildren(nodes, links, root, x);
      KidsAt(g, nodes, links, root, x);
    }
  }

  /** The last passes: roll-up, depths, and the totals read off the root. */
  method Summarize(drive: char, nodes: array<AnalysisNode>, links: seq<nat>, root: nat, token: CancelToken,
                   ghost g: Graph, ghost t: Chart, ghost u: Units)
    returns (result: Option<DiskAnalysisModel>)
    requires EncodesParents(nodes[..], links, root) && g == GraphOf(nodes[..], links, root) && Linked(g)
    requires t == ChartOf(g) && root in t && u == UnitsOf(nodes[..]) && Setting(nodes[..], u, g, t, links, root)
    modifies nodes, token
    ensures token.fired == (old(token.fired) || result.None?)
    ensures result.Some? ==>
      var m := result.value;
      && m.driveLetter == drive && m.childLinks == links && m.root == root && SameShape(m.nodes, old(nodes[..]))
      && TotalsHold(m, t, u, PostOrder(TreeAt(t, root))) && DepthHolds(m, g, t)
  {
    ghost var base, order := nodes[..], PostOrder(TreeAt(t, root));
    var flat, rootFolders, cancelled := Aggregate(nodes, links, root, token, u, g, t);
    if cancelled {
      return None;
    }
    AfterRollUp(nodes[..], base, links, root, u, g, t, order);
    var depths;
    depths, cancelled := AssignDepths(nodes, links, root, token, g, t);
    if cancelled {
      return None;
    }
    var deepest := Deepest(depths);
    var m := DiskAnalysisModel(drive, nodes[..], links, root,
      nodes[root].subtreeSize, nodes[root].subtreeAllocatedSize, nodes[root].subtreeFiles,
      SatSub(rootFolders, 1), deepest, flat);
    result := Some(m);
    SummaryHolds(m, base, rootFolders, u, g, t, order);
  }

  lemma AfterRollUp(nodes: seq<AnalysisNode>, base: seq<AnalysisNode>, links: seq<nat>, root: nat, u: Units, g: Graph,
                    t: Chart, order: seq<nat>)
    requires EncodesParents(base, links, root) && g == GraphOf(base, links, root) && Linked(g)
    requires t == ChartOf(g) && root in t && RolledUpExactly(nodes, base, u, t, order)
    ensures SameShape(nodes, base) && DepthSetting(nodes, links, root, g, t)
    ensures root < |nodes| && base[root].isDir
  {
    RolledUpSameShape(nodes, base, u, t, order);
    SameShapeEncodes(nodes, base, links, root);
    SameShapeGraph(nodes, base, links, root);
    ReadyForDepths(nodes, links, root, g);
  }

  lemma SummaryHolds(m: DiskAnalysisModel, base: seq<AnalysisNode>, rootFolders: U64, u: Units, g: Graph, t: Chart, order: seq<nat>)
    requires Setting(base, u, g, t, m.childLinks, m.root) && m.root in t && base[m.root].isDir
    requires |u.files| == |u.folders| == |base| && order == PostOrder(TreeAt(t, m.root))
    requires RolledUpExactly(m.nodes, base, u, t, order) && FlatUpTo(m.categoryTotals, order, u)
    requires rootFolders == Weight(t, m.root, u.folders) && m.totalFolders == SatSub(rootFolders, 1)
    requires m.totalSize == m.nodes[m.root].subtreeSize && m.totalAllocatedSize == m.nodes[m.root].subtreeAllocatedSize
    requires m.totalFiles == m.nodes[m.root].subtreeFiles
    ensures TotalsHold(m, t, u, order)
  {
    assert order[|order| - 1] == m.root;
    assert RolledUp(m.nodes[m.root], base, u, t, m.root);
    assert NodeMeasured(u, base[m.root], m.root);
    FilesBound(base, u, g, t, m.childLinks, m.root, m.root);
    forall x {:trigger m.nodes[x]} | 0 <= x < |m.nodes|
      ensures if x in order then RolledUp(m.nodes[x], m.nodes, u, t, x) else Unaggregated(m.nodes[x])
    {
      if x !in order { assert Unaggregated(base[x]); }
    }
  }

  lemma FilesBound(base: seq<AnalysisNode>, u: Units, g: Graph, t: Chart, links: seq<nat>, root: nat, x: nat)
    requires Setting(base, u, g, t, links, root) && x in t && |u.files| == |base|
    ensures Weight(t, x, u.files) <= U32_MAX
  {
    forall i | 0 <= i < |u.files| ensures u.files[i] <= 1 {
      assert NodeMeasured(u, base[i], i);
    }
    UnitsBound(base, u, g, t, links, root, x, u.files);
  }

  /** The builder: nothing if the cell said so, otherwise the model of exactly this snapshot. */
  method Build(drive: char, records: seq<Record>, categorize: string -> FileCategory, token: CancelToken)
    returns (result: Option<DiskAnalysisModel>)
    requires |records| < U32_MAX && !token.fired
    modifies token
    ensures result.None? <==> token.fired
    ensures result.Some? ==> Represents(result.value, drive, records, categorize)
    ensures result.Some? ==> IsTree(result.value) && TotalsExact(result.value) && DepthExact(result.value)
  {
    var nodes, links, root, counts, cancelled := LinkVolume(drive, records, categorize, token);
    if cancelled {
      return None;
    }
    ghost var base := nodes[..];
    ghost var t := StartSetting(base, links, root, drive, records, categorize, counts);
    result := Summarize(drive, nodes, links, root, token, GraphOf(base, links, root), t, UnitsOf(base));
    if result.Some? {
      ModelOfSummary(result.value, base, t, drive, records, categorize, counts);
    }
  }

  lemma ModelOfSummary(m: DiskAnalysisModel, base: seq<AnalysisNode>, t: Chart, drive: char, records: seq<Record>,
                       categorize: string -> FileCategory, counts: seq<nat>)
    requires EncodesParents(base, m.childLinks, m.root) && SameShape(m.nodes, base) && |base| <= U32_MAX
    requires m.driveLetter == drive && m.root == RootIndex(records)
    requires LinkedNodes(base, drive, records, categorize, ParentsOf(records), counts)
    requires Linked(GraphOf(base, m.childLinks, m.root)) && t == ChartOf(GraphOf(base, m.childLinks, m.root))
    requires TotalsHold(m, t, UnitsOf(base), PostOrder(TreeAt(t, m.root)))
    requires DepthHolds(m, GraphOf(base, m.childLinks, m.root), t)
    ensures Represents(m, drive, records, categorize)
    ensures IsTree(m) && TotalsExact(m) && DepthExact(m)
  {
    SameShapeEncodes(m.nodes, base, m.childLinks, m.root);
    SameShapeGraph(m.nodes, base, m.childLinks, m.root);
    SameShapeUnits(m.nodes, base);
    forall x {:trigger m.nodes[x]} | 0 <= x < |m.nodes|
      ensures m.nodes[x].SameRecord(RecordNode(drive, records, categorize, x))
      ensures m.nodes[x].parent == RecordNode(drive, records, categorize, x).parent
    {
      assert LinkedNode(base[x], drive, records, categorize, ParentsOf(records), RootIndex(records), counts, x);
      assert ParentsOf(records)[x] == ParentField(records, x);
    }
  }
}
