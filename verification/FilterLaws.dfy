/** What filtered weights mean, and how they relate to the totals the builder left. */
module FilterLaws {
  import opened BuiltVolume
  import opened DiskModel
  import opened FilteredWeights
  import opened Folding
  import opened ForestTheory
  import opened Saturating
  import opened SizeFilter
  import opened VolumeTotals
  import opened Walks

  /** A counter column is positive over a tree exactly when some node of the tree has a positive entry. */
  lemma {:induction false} TotalPositive(f: Forest, own: seq<nat>)
    ensures Total(f, own) > 0 <==> exists j: nat :: Has(f, j) && Own(own, j) > 0
    decreases f
  {
    if f.Cons? {
      TotalPositive(f.kids, own);
      TotalPositive(f.rest, own);
      if Own(own, f.id) > 0 {
        assert Has(f, f.id);
      }
      if j: nat :| Has(f.kids, j) && Own(own, j) > 0 {
        assert Has(f, j);
      }
      if j: nat :| Has(f.rest, j) && Own(own, j) > 0 {
        assert Has(f, j);
      }
    }
  }

  lemma {:induction false} TotalMonotone(f: Forest, low: seq<nat>, high: seq<nat>)
    requires forall j: nat {:trigger Own(low, j)} :: Own(low, j) <= Own(high, j)
    ensures Total(f, low) <= Total(f, high)
    decreases f
  {
    if f.Cons? {
      TotalMonotone(f.kids, low, high);
      TotalMonotone(f.rest, low, high);
      assert Own(low, f.id) <= Own(high, f.id);
    }
  }

  lemma {:induction false} TotalAdds(f: Forest, a: seq<nat>, b: seq<nat>, sum: seq<nat>)
    requires forall j: nat {:trigger Own(sum, j)} :: Has(f, j) ==> Own(sum, j) == Own(a, j) + Own(b, j)
    ensures Total(f, sum) == Total(f, a) + Total(f, b)
    decreases f
  {
    if f.Cons? {
      TotalAdds(f.kids, a, b, sum);
      TotalAdds(f.rest, a, b, sum);
      assert Has(f, f.id) && Own(sum, f.id) == Own(a, f.id) + Own(b, f.id);
    }
  }

  lemma WeightPositive(g: Graph, t: Chart, x: nat, own: seq<nat>)
    requires Linked(g) && Complete(g) && Charted(g, t) && x in t
    ensures Weight(t, x, own) > 0 <==> exists j: nat :: Reached(g, x, j) && Own(own, j) > 0
  {
    var f := TreeAt(t, x);
    TotalPositive(f, own);
    assert Total(f, own) == Weight(t, x, own);
    forall j: nat ensures Has(f, j) <==> Reached(g, x, j) {
      HasIffReached(g, t, x, j);
    }
  }

  /** A column weighs nothing exactly if every reached entry is zero. */
  lemma WeighsNothing(g: Graph, t: Chart, x: nat, own: seq<nat>)
    requires Linked(g) && Complete(g) && Charted(g, t) && x in t
    ensures Weight(t, x, own) == 0 <==> forall j: nat {:trigger Reached(g, x, j)} :: Reached(g, x, j) ==> Own(own, j) == 0
  {
    WeightPositive(g, t, x, own);
  }

  // ---- Reading an answer ----------------------------------------------------------------

  ghost predicate LeafBelowMatches(m: DiskAnalysisModel, x: nat, filter: DiskAnalysisFilter)
    requires IsTree(m)
  {
    exists j: nat :: j < |m.nodes| && Reached(Links(m), x, j) && Hit(m.nodes[j], filter)
  }

  lemma HitsBelow(m: DiskAnalysisModel, x: nat, filter: DiskAnalysisFilter)
    requires IsTree(m) && Rooted(Links(m), x)
    ensures Weight(TreesOf(m), x, Hits(m.nodes, filter)) > 0 <==> LeafBelowMatches(m, x, filter)
  {
    var g, hits := Links(m), Hits(m.nodes, filter);
    WeightPositive(g, TreesOf(m), x, hits);
    if LeafBelowMatches(m, x, filter) {
      var j: nat :| j < |m.nodes| && Reached(g, x, j) && Hit(m.nodes[j], filter);
      assert hits[j] == 1 && Own(hits, j) > 0;
    }
    if j: nat :| Reached(g, x, j) && Own(hits, j) > 0 {
      assert hits[j] == if Hit(m.nodes[j], filter) then 1 else 0;
    }
  }

  /** The match flag of a node: it is reached, and some leaf below it passes the filter. */
  lemma MatchFlag(m: DiskAnalysisModel, root: nat, filter: DiskAnalysisFilter, metric: SizeMetric, r: FilteredResult, x: nat)
    requires IsTree(m) && Rooted(Links(m), root) && IsFilterAnswer(r, m, root, filter, metric) && x < |m.nodes|
    ensures |r.matches| == |m.nodes|
    ensures r.matches[x] <==> (Reached(Links(m), root, x) && LeafBelowMatches(m, x, filter))
  {
    WalkMeetsExactly(m, root);
    assert Unfold(0);
    assert EntryIs(r.weights[x], r.matches[x], x in Met(m, root), TreesOf(m), x,
                   LeafValues(m.nodes, filter, metric), Hits(m.nodes, filter));
    if Reached(Links(m), root, x) {
      assert x in Met(m, root);
      HitsBelow(m, x, filter);
    }
  }

  /** The weight of a node: the clamped sum over the leaves below it that pass, 0 if it is not reached. */
  lemma FilteredWeight(m: DiskAnalysisModel, root: nat, filter: DiskAnalysisFilter, metric: SizeMetric, r: FilteredResult, x: nat)
    requires IsTree(m) && Rooted(Links(m), root) && IsFilterAnswer(r, m, root, filter, metric) && x < |m.nodes|
    ensures |r.weights| == |m.nodes|
    ensures r.weights[x] ==
      if Reached(Links(m), root, x) then Sat(SumIn(ReachedSet(m, x), LeafValues(m.nodes, filter, metric), |m.nodes|)) else 0
  {
    var own := LeafValues(m.nodes, filter, metric);
    WalkMeetsExactly(m, root);
    assert Unfold(0);
    assert EntryIs(r.weights[x], r.matches[x], x in Met(m, root), TreesOf(m), x, own, Hits(m.nodes, filter));
    if Reached(Links(m), root, x) {
      assert x in Met(m, root);
      WeightIsSumOverReached(m, x, own);
    }
  }

  // ---- Against the builder's totals --------------------------------------------------------

  /** The column behind the metric's natural total. */
  function OwnColumn(u: Units, metric: SizeMetric): seq<nat> {
    match metric
    case Allocated => u.allocatedSizes
    case Logical => u.sizes
    case FileCount => u.files
  }

  lemma NaturalTotal(m: DiskAnalysisModel, metric: SizeMetric, x: nat)
    requires IsTree(m) && TotalsExact(m) && Reached(Links(m), m.root, x)
    ensures x < |m.nodes|
    ensures metric.Subtree(m.nodes[x]) == Sat(Weight(TreesOf(m), x, OwnColumn(UnitsOf(m.nodes), metric)))
  {
    MetRolledUp(m, x);
  }

  lemma LeafValueBelowOwn(nodes: seq<AnalysisNode>, u: Units, filter: DiskAnalysisFilter, metric: SizeMetric, j: nat)
    requires Measures(u, nodes)
    ensures Own(LeafValues(nodes, filter, metric), j) <= Own(OwnColumn(u, metric), j)
    ensures j < |nodes| ==> Own(OwnColumn(u, metric), j) == metric.Own(nodes[j])
  {
    if j < |nodes| {
      assert NodeMeasured(u, nodes[j], j);
      assert LeafValues(nodes, filter, metric)[j] == LeafValue(nodes[j], filter, metric);
    }
  }

  /** A filtered weight never exceeds the total the builder left at the node. */
  lemma FilteredAtMostNatural(m: DiskAnalysisModel, root: nat, filter: DiskAnalysisFilter, metric: SizeMetric,
                              r: FilteredResult, x: nat)
    requires IsTree(m) && TotalsExact(m) && Rooted(Links(m), root) && IsFilterAnswer(r, m, root, filter, metric)
    requires Reached(Links(m), m.root, x)
    ensures x < |m.nodes| && |r.weights| == |m.nodes|
    ensures r.weights[x] <= metric.Subtree(m.nodes[x])
  {
    var own, all := LeafValues(m.nodes, filter, metric), OwnColumn(UnitsOf(m.nodes), metric);
    NaturalTotal(m, metric, x);
    UnitsOfMeasures(m.nodes);
    forall j: nat {:trigger Own(own, j)} ensures Own(own, j) <= Own(all, j) {
      LeafValueBelowOwn(m.nodes, UnitsOf(m.nodes), filter, metric, j);
    }
    TotalMonotone(TreeAt(TreesOf(m), x), own, all);
    assert Total(TreeAt(TreesOf(m), x), own) == Weight(TreesOf(m), x, own);
    assert Total(TreeAt(TreesOf(m), x), all) == Weight(TreesOf(m), x, all);
    assert Unfold(0);
    assert EntryIs(r.weights[x], r.matches[x], x in Met(m, root), TreesOf(m), x, own, Hits(m.nodes, filter));
  }

  /** What descended directories themselves hold. */
  function DirectoryValue(node: AnalysisNode, metric: SizeMetric): U64 {
    if node.Descends() then metric.Own(node) else 0
  }

  function DirectoryValues(nodes: seq<AnalysisNode>, metric: SizeMetric): (own: seq<nat>)
    ensures |own| == |nodes|
    ensures forall x {:trigger own[x]} :: 0 <= x < |nodes| ==> own[x] == DirectoryValue(nodes[x], metric)
  {
    seq(|nodes|, x requires 0 <= x < |nodes| => DirectoryValue(nodes[x], metric))
  }

  ghost predicate EveryLeafPasses(m: DiskAnalysisModel, x: nat, filter: DiskAnalysisFilter)
    requires IsTree(m)
  {
    forall j: nat {:trigger Reached(Links(m), x, j)} ::
      Reached(Links(m), x, j) && j < |m.nodes| && !m.nodes[j].Descends() ==> filter.MatchesLeaf(m.nodes[j])
  }

  /** If every leaf passes, natural total = matching leaves + what directories hold themselves. */
  lemma SplitNatural(m: DiskAnalysisModel, filter: DiskAnalysisFilter, metric: SizeMetric, x: nat)
    requires IsTree(m) && Rooted(Links(m), x) && EveryLeafPasses(m, x, filter)
    ensures var t := TreesOf(m);
      Weight(t, x, OwnColumn(UnitsOf(m.nodes), metric)) ==
      Weight(t, x, LeafValues(m.nodes, filter, metric)) + Weight(t, x, DirectoryValues(m.nodes, metric))
  {
    var g, t := Links(m), TreesOf(m);
    var f := TreeAt(t, x);
    var own, dirs, all := LeafValues(m.nodes, filter, metric), DirectoryValues(m.nodes, metric), OwnColumn(UnitsOf(m.nodes), metric);
    UnitsOfMeasures(m.nodes);
    forall j: nat {:trigger Own(all, j)} | Has(f, j) ensures Own(all, j) == Own(own, j) + Own(dirs, j) {
      HasIffReached(g, t, x, j);
      assert Reached(g, x, j) && j < |m.nodes|;
      LeafValueBelowOwn(m.nodes, UnitsOf(m.nodes), filter, metric, j);
      assert own[j] == LeafValue(m.nodes[j], filter, metric) && dirs[j] == DirectoryValue(m.nodes[j], metric);
    }
    TotalAdds(f, own, dirs, all);
    assert Total(f, own) == Weight(t, x, own) && Total(f, dirs) == Weight(t, x, dirs) && Total(f, all) == Weight(t, x, all);
  }

  /** No descended directory below `x`, `x` included, holds anything itself. */
  ghost predicate DirectoriesHoldNothing(m: DiskAnalysisModel, x: nat, metric: SizeMetric)
    requires IsTree(m)
  {
    forall j: nat {:trigger Reached(Links(m), x, j)} ::
      Reached(Links(m), x, j) && j < |m.nodes| && m.nodes[j].Descends() ==> metric.Own(m.nodes[j]) == 0
  }

  lemma DirectoryColumn(nodes: seq<AnalysisNode>, metric: SizeMetric, j: nat)
    ensures Own(DirectoryValues(nodes, metric), j) == if j < |nodes| && nodes[j].Descends() then metric.Own(nodes[j]) else 0
  {
    if j < |nodes| {
      assert DirectoryValues(nodes, metric)[j] == DirectoryValue(nodes[j], metric);
    }
  }

  lemma NothingHeld(m: DiskAnalysisModel, x: nat, metric: SizeMetric)
    requires IsTree(m) && Rooted(Links(m), x)
    ensures Weight(TreesOf(m), x, DirectoryValues(m.nodes, metric)) == 0 <==> DirectoriesHoldNothing(m, x, metric)
  {
    var g, own := Links(m), DirectoryValues(m.nodes, metric);
    WeighsNothing(g, TreesOf(m), x, own);
    forall j: nat ensures Own(own, j) == if j < |m.nodes| && m.nodes[j].Descends() then metric.Own(m.nodes[j]) else 0 {
      DirectoryColumn(m.nodes, metric, j);
    }
  }

  /**
    An active filter that every leaf below `x` passes gives the weight of the inactive fast path
    exactly when the descended directories below `x` hold nothing themselves, or the leaves alone
    already saturate the counter.
   */
  lemma AllPassMeetsFastPath(m: DiskAnalysisModel, root: nat, filter: DiskAnalysisFilter, metric: SizeMetric,
                             filtered: FilteredResult, plain: FilteredResult, x: nat)
    requires IsTree(m) && TotalsExact(m) && Rooted(Links(m), root)
    requires IsFilterAnswer(filtered, m, root, filter, metric) && IsPlainAnswer(plain, m, root, metric)
    requires Reached(Links(m), m.root, x) && Reached(Links(m), root, x) && EveryLeafPasses(m, x, filter)
    ensures x < |filtered.weights| && x < |plain.weights|
    ensures filtered.weights[x] == plain.weights[x] <==>
      DirectoriesHoldNothing(m, x, metric) || Weight(TreesOf(m), x, LeafValues(m.nodes, filter, metric)) >= U64_MAX
  {
    WalkMeetsExactly(m, root);
    NaturalTotal(m, metric, x);
    assert x in Met(m, root);
    SplitNatural(m, filter, metric, x);
    NothingHeld(m, x, metric);
    MetIffReached(Links(m), TreesOf(m), root, x);
    assert Unfold(0);
    assert EntryIs(filtered.weights[x], filtered.matches[x], true, TreesOf(m), x,
                 LeafValues(m.nodes, filter, metric), Hits(m.nodes, filter));
    assert plain.weights[x] == metric.Subtree(m.nodes[x]);
  }

  /** In particular the file-count metric always agrees, because directories do not count. */
  lemma FileCountsMeetFastPath(m: DiskAnalysisModel, root: nat, filter: DiskAnalysisFilter,
                               filtered: FilteredResult, plain: FilteredResult, x: nat)
    requires IsTree(m) && TotalsExact(m) && Rooted(Links(m), root)
    requires IsFilterAnswer(filtered, m, root, filter, FileCount) && IsPlainAnswer(plain, m, root, FileCount)
    requires Reached(Links(m), m.root, x) && Reached(Links(m), root, x) && EveryLeafPasses(m, x, filter)
    ensures x < |filtered.weights| && x < |plain.weights| && filtered.weights[x] == plain.weights[x]
  {
    assert DirectoriesHoldNothing(m, x, FileCount);
    AllPassMeetsFastPath(m, root, filter, FileCount, filtered, plain, x);
  }
}
