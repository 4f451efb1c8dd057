/** The filtered weights against the builder's own totals per category. */
module CategoryLaws {
  import opened BuiltVolume
  import opened DiskModel
  import opened FilterLaws
  import opened FilteredWeights
  import opened ForestTheory
  import opened RecordLaws
  import opened RollUpAnswers
  import opened Saturating
  import opened SizeFilter
  import opened VolumeTotals
  import opened Walks
  import opened Wrappers

  // ---- Weights node by node ------------------------------------------------------------------

  /** Sum of `f` over those of the first `n` nodes that are in `s`. */
  ghost function NodeSum(nodes: seq<AnalysisNode>, s: set<nat>, f: AnalysisNode -> nat, n: nat): nat
    requires n <= |nodes|
  {
    if n == 0 then 0 else NodeSum(nodes, s, f, n - 1) + if n - 1 in s then f(nodes[n - 1]) else 0
  }

  lemma {:induction false} SumOverNodes(nodes: seq<AnalysisNode>, s: set<nat>, f: AnalysisNode -> nat, own: seq<nat>, n: nat)
    requires n <= |nodes| == |own| && forall i :: 0 <= i < |nodes| ==> own[i] == f(nodes[i])
    ensures SumIn(s, own, n) == NodeSum(nodes, s, f, n)
  {
    if n > 0 {
      SumOverNodes(nodes, s, f, own, n - 1);
    }
  }

  /** What a leaf counts under a metric: files and reparse points that pass the filter, and nothing else. */
  function PassingValue(filter: DiskAnalysisFilter, metric: SizeMetric): AnalysisNode -> nat {
    (node: AnalysisNode) =>
      if (node.isDir && !node.isReparse) || !filter.MatchesLeaf(node) then 0
      else match metric
        case Allocated => node.allocatedSize
        case Logical => node.size
        case FileCount => if node.isDir then 0 else 1
  }

  /** The weight of a node is the clamped sum of that over the nodes reached from it. */
  lemma WeightIsSumOfPassing(m: DiskAnalysisModel, root: nat, filter: DiskAnalysisFilter, metric: SizeMetric, r: FilteredResult, x: nat)
    requires IsTree(m) && Rooted(Links(m), root) && IsFilterAnswer(r, m, root, filter, metric) && Reached(Links(m), root, x) && x < |m.nodes|
    ensures |r.weights| == |m.nodes|
    ensures r.weights[x] == Sat(NodeSum(m.nodes, ReachedSet(m, x), PassingValue(filter, metric), |m.nodes|))
  {
    FilteredWeight(m, root, filter, metric, r, x);
    var own := LeafValues(m.nodes, filter, metric);
    SumOverNodes(m.nodes, ReachedSet(m, x), PassingValue(filter, metric), own, |m.nodes|);
  }

  // ---- One category ----------------------------------------------------------------------------

  /** Keeps one category and asks for nothing else. */
  function Only(c: FileCategory, base: FilterSizeBase): DiskAnalysisFilter {
    DiskAnalysisFilter(MaskOf(c), [], None, None, base)
  }

  /** The flat counters that belong to a metric: allocated bytes, bytes, files. */
  function CounterFor(metric: SizeMetric, c: FileCategory): nat {
    match metric
    case Allocated => CategoryIndex(c)
    case Logical => 8 + CategoryIndex(c)
    case FileCount => 16 + CategoryIndex(c)
  }

  function FlatTotal(flat: CategoryTotals, metric: SizeMetric, c: FileCategory): U64
    requires |flat.allocatedBytes| == |flat.logicalBytes| == |flat.fileCounts| == 8
  {
    match metric
    case Allocated => flat.allocatedBytes[CategoryIndex(c)]
    case Logical => flat.logicalBytes[CategoryIndex(c)]
    case FileCount => flat.fileCounts[CategoryIndex(c)]
  }

  /** What reparse directories of a category hold themselves. */
  function ReparseValue(node: AnalysisNode, metric: SizeMetric, c: FileCategory): U64 {
    if node.isDir && node.isReparse && node.category == c then metric.Own(node) else 0
  }

  function ReparseValues(nodes: seq<AnalysisNode>, metric: SizeMetric, c: FileCategory): (own: seq<nat>)
    ensures |own| == |nodes|
    ensures forall x {:trigger own[x]} :: 0 <= x < |nodes| ==> own[x] == ReparseValue(nodes[x], metric, c)
  {
    seq(|nodes|, x requires 0 <= x < |nodes| => ReparseValue(nodes[x], metric, c))
  }

  lemma OneCategoryLeaf(node: AnalysisNode, metric: SizeMetric, c: FileCategory, base: FilterSizeBase)
    ensures LeafValue(node, Only(c, base), metric) == CounterOf(node, CounterFor(metric, c)) + ReparseValue(node, metric, c)
  {
    OneCategoryPasses(c, base, node);
    assert CategoryIndex(node.category) == CategoryIndex(c) <==> node.category == c;
  }

  lemma OneCategoryColumns(nodes: seq<AnalysisNode>, metric: SizeMetric, c: FileCategory, base: FilterSizeBase, j: nat)
    requires |UnitsOf(nodes).counters| == 24
    ensures Own(LeafValues(nodes, Only(c, base), metric), j) ==
      Own(UnitsOf(nodes).counters[CounterFor(metric, c)], j) + Own(ReparseValues(nodes, metric, c), j)
  {
    if j < |nodes| {
      OneCategoryLeaf(nodes[j], metric, c, base);
      assert LeafValues(nodes, Only(c, base), metric)[j] == LeafValue(nodes[j], Only(c, base), metric);
      assert ReparseValues(nodes, metric, c)[j] == ReparseValue(nodes[j], metric, c);
    }
  }

  lemma OneCategoryWeight(m: DiskAnalysisModel, metric: SizeMetric, c: FileCategory, base: FilterSizeBase)
    requires IsTree(m) && |UnitsOf(m.nodes).counters| == 24
    ensures Weight(TreesOf(m), m.root, LeafValues(m.nodes, Only(c, base), metric)) ==
      Weight(TreesOf(m), m.root, UnitsOf(m.nodes).counters[CounterFor(metric, c)]) + Weight(TreesOf(m), m.root, ReparseValues(m.nodes, metric, c))
  {
    var t, u := TreesOf(m), UnitsOf(m.nodes);
    var f, leaves, files, reparse :=
      TreeAt(t, m.root), LeafValues(m.nodes, Only(c, base), metric), u.counters[CounterFor(metric, c)], ReparseValues(m.nodes, metric, c);
    forall j: nat {:trigger Own(leaves, j)} ensures Own(leaves, j) == Own(files, j) + Own(reparse, j) {
      OneCategoryColumns(m.nodes, metric, c, base, j);
    }
    TotalAdds(f, files, reparse, leaves);
    assert Total(f, leaves) == Weight(t, m.root, leaves) && Total(f, files) == Weight(t, m.root, files) && Total(f, reparse) == Weight(t, m.root, reparse);
  }

  /** No reached reparse directory of the category holds anything itself. */
  ghost predicate ReparseHoldsNothing(m: DiskAnalysisModel, metric: SizeMetric, c: FileCategory)
    requires IsTree(m)
  {
    forall j: nat {:trigger Reached(Links(m), m.root, j)} ::
      Reached(Links(m), m.root, j) && j < |m.nodes| && m.nodes[j].isDir && m.nodes[j].isReparse && m.nodes[j].category == c ==>
        metric.Own(m.nodes[j]) == 0
  }

  lemma ReparseColumn(nodes: seq<AnalysisNode>, metric: SizeMetric, c: FileCategory, j: nat)
    ensures Own(ReparseValues(nodes, metric, c), j) == if j < |nodes| then ReparseValue(nodes[j], metric, c) else 0
  {
    if j < |nodes| {
      assert ReparseValues(nodes, metric, c)[j] == ReparseValue(nodes[j], metric, c);
    }
  }

  lemma ReparseNothing(m: DiskAnalysisModel, metric: SizeMetric, c: FileCategory)
    requires IsTree(m)
    ensures Weight(TreesOf(m), m.root, ReparseValues(m.nodes, metric, c)) == 0 <==> ReparseHoldsNothing(m, metric, c)
  {
    var g, own := Links(m), ReparseValues(m.nodes, metric, c);
    WeighsNothing(g, TreesOf(m), m.root, own);
    forall j: nat ensures Own(own, j) == if j < |m.nodes| then ReparseValue(m.nodes[j], metric, c) else 0 {
      ReparseColumn(m.nodes, metric, c, j);
    }
  }

  /**
    The weight of the root under a filter for one category is the builder's flat total of that category,
    exactly if the reached reparse directories of the category hold nothing or the files saturate the counter.
   */
  lemma CategoryWeightMeetsFlatTotal(m: DiskAnalysisModel, metric: SizeMetric, c: FileCategory, base: FilterSizeBase, r: FilteredResult)
    requires IsTree(m) && TotalsExact(m) && IsFilterAnswer(r, m, m.root, Only(c, base), metric)
    ensures m.root < |r.weights| && |m.categoryTotals.allocatedBytes| == |m.categoryTotals.logicalBytes| == |m.categoryTotals.fileCounts| == 8
    ensures r.weights[m.root] == FlatTotal(m.categoryTotals, metric, c) <==>
      ReparseHoldsNothing(m, metric, c) || FlatTotal(m.categoryTotals, metric, c) == U64_MAX
  {
    RootIsReached(m);
    RootWeight(m, metric, c, base, r);
    CategoryTotalsAreRollUp(m, CounterFor(metric, c));
    OneCategoryWeight(m, metric, c, base);
    ReparseNothing(m, metric, c);
  }

  lemma RootWeight(m: DiskAnalysisModel, metric: SizeMetric, c: FileCategory, base: FilterSizeBase, r: FilteredResult)
    requires IsTree(m) && IsFilterAnswer(r, m, m.root, Only(c, base), metric)
    ensures m.root < |r.weights| && r.weights[m.root] == Sat(Weight(TreesOf(m), m.root, LeafValues(m.nodes, Only(c, base), metric)))
  {
    RootIsReached(m);
    FilterAnswerIsUnique(m, m.root, Only(c, base), metric, r);
    FilterAnswerAt(m, m.root, Only(c, base), metric, m.root);
  }

  /** For the number of files they always agree. */
  lemma FileCountMeetsFlatTotal(m: DiskAnalysisModel, c: FileCategory, base: FilterSizeBase, r: FilteredResult)
    requires IsTree(m) && TotalsExact(m) && IsFilterAnswer(r, m, m.root, Only(c, base), FileCount)
    ensures m.root < |r.weights| && |m.categoryTotals.fileCounts| == 8 && r.weights[m.root] == m.categoryTotals.fileCounts[CategoryIndex(c)]
  {
    assert ReparseHoldsNothing(m, FileCount, c);
    CategoryWeightMeetsFlatTotal(m, FileCount, c, base, r);
  }

  /** For bytes they agree in a built model in every category but the last, which is that of reparse directories. */
  lemma BytesMeetFlatTotal(m: DiskAnalysisModel, drive: char, records: seq<Record>, categorize: string -> FileCategory,
                           metric: SizeMetric, c: FileCategory, base: FilterSizeBase, r: FilteredResult)
    requires IsTree(m) && TotalsExact(m) && Represents(m, drive, records, categorize) && c != Other
    requires IsFilterAnswer(r, m, m.root, Only(c, base), metric)
    ensures m.root < |r.weights| && |m.categoryTotals.allocatedBytes| == |m.categoryTotals.logicalBytes| == |m.categoryTotals.fileCounts| == 8
    ensures r.weights[m.root] == FlatTotal(m.categoryTotals, metric, c)
  {
    forall j: nat | j < |m.nodes| && m.nodes[j].isDir && m.nodes[j].isReparse ensures m.nodes[j].category != c {
      SyntheticNode(m, drive, records, categorize);
      NodeOfRecord(m, drive, records, categorize, j - 1);
    }
    assert ReparseHoldsNothing(m, metric, c);
    CategoryWeightMeetsFlatTotal(m, metric, c, base, r);
  }
}
