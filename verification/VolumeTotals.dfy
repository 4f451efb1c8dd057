/**
  The totals of a built model, stated without any walk: sums over all nodes that can be reached
  by stepping from plain directories to their children.
 */
module VolumeTotals {
  import opened Aggregation
  import opened BuiltVolume
  import opened DepthWalk
  import opened DiskModel
  import opened ForestTheory
  import opened Saturating
  import opened Walks

  /** Sum of `own` over the indices below `n` that are in `s`. */
  ghost function SumIn(s: set<nat>, own: seq<nat>, n: nat): nat {
    if n == 0 then 0 else SumIn(s, own, n - 1) + if n - 1 in s then Own(own, n - 1) else 0
  }

  lemma {:induction false} SumInAdd(s: set<nat>, x: nat, own: seq<nat>, n: nat)
    requires x !in s
    ensures SumIn(s + {x}, own, n) == SumIn(s, own, n) + if x < n then Own(own, x) else 0
  {
    if n > 0 {
      SumInAdd(s, x, own, n - 1);
    }
  }

  lemma {:induction false} SumInEmpty(own: seq<nat>, n: nat)
    ensures SumIn({}, own, n) == 0
  {
    if n > 0 {
      SumInEmpty(own, n - 1);
    }
  }

  /** Summing a list without repetition is summing over its set, whatever the order. */
  lemma {:induction false} SeqSumIsSumIn(s: seq<nat>, own: seq<nat>, n: nat)
    requires Distinct(s) && forall k :: 0 <= k < |s| ==> s[k] < n
    ensures SeqSum(s, own) == SumIn(SetOf(s), own, n)
    decreases s
  {
    if s == [] {
      SumInEmpty(own, n);
      assert SetOf(s) == {};
    } else {
      var front, last := s[..|s| - 1], s[|s| - 1];
      SeqSumIsSumIn(front, own, n);
      assert s == front + [last];
      assert SetOf(s) == SetOf(front) + {last};
      SumInAdd(SetOf(front), last, own, n);
    }
  }

  /** The nodes reached from `x`. */
  ghost function ReachedSet(m: DiskAnalysisModel, x: nat): (s: set<nat>)
    requires IsTree(m)
    ensures forall j: nat :: j in s <==> j < |m.nodes| && Reached(Links(m), x, j)
  {
    set j | j in Indices(|m.nodes|) && Reached(Links(m), x, j)
  }

  lemma WeightIsSumOverOrder(t: Chart, x: nat, own: seq<nat>, n: nat)
    requires Distinct(PostOrder(TreeAt(t, x))) && forall j :: j in PostOrder(TreeAt(t, x)) ==> j < n
    ensures Weight(t, x, own) == SumIn(SetOf(PostOrder(TreeAt(t, x))), own, n)
  {
    var f := TreeAt(t, x);
    var order := PostOrder(f);
    SumInPostOrder(f, own);
    forall k | 0 <= k < |order| ensures order[k] < n {
      assert order[k] in order;
    }
    SeqSumIsSumIn(order, own, n);
    assert Total(f, own) == Weight(t, x, own);
  }

  lemma MetIsReachedSet(m: DiskAnalysisModel, x: nat)
    requires IsTree(m) && Rooted(Links(m), x)
    ensures SetOf(Met(m, x)) == ReachedSet(m, x)
  {
    WalkMeetsExactly(m, x);
    var met, reached := SetOf(Met(m, x)), ReachedSet(m, x);
    forall j: nat ensures j in met <==> j in reached {
      assert j in met <==> j in Met(m, x);
    }
    assert forall j :: j in met ==> j in reached;
  }

  /** Roll-up over the tree and sum over the reached nodes are the same number. */
  lemma WeightIsSumOverReached(m: DiskAnalysisModel, x: nat, own: seq<nat>)
    requires IsTree(m) && Rooted(Links(m), x)
    ensures Weight(TreesOf(m), x, own) == SumIn(ReachedSet(m, x), own, |m.nodes|)
  {
    WalkMeetsExactly(m, x);
    MetIsReachedSet(m, x);
    WeightIsSumOverOrder(TreesOf(m), x, own, |m.nodes|);
  }

  /**
    Every node a walk from the root meets carries, for bytes, allocated bytes and files, the sum
    over the nodes reached from it, clamped once. Child order does not enter.
   */
  lemma SubtreeTotals(m: DiskAnalysisModel, x: nat)
    requires IsTree(m) && TotalsExact(m) && Reached(Links(m), m.root, x)
    ensures x < |m.nodes|
    ensures m.nodes[x].subtreeSize == Sat(SumIn(ReachedSet(m, x), UnitsOf(m.nodes).sizes, |m.nodes|))
    ensures m.nodes[x].subtreeAllocatedSize == Sat(SumIn(ReachedSet(m, x), UnitsOf(m.nodes).allocatedSizes, |m.nodes|))
    ensures m.nodes[x].subtreeFiles == Sat(SumIn(ReachedSet(m, x), UnitsOf(m.nodes).files, |m.nodes|))
  {
    WalkMeetsExactly(m, m.root);
    MetRolledUp(m, x);
    WeightIsSumOverReached(m, x, UnitsOf(m.nodes).sizes);
    WeightIsSumOverReached(m, x, UnitsOf(m.nodes).allocatedSizes);
    WeightIsSumOverReached(m, x, UnitsOf(m.nodes).files);
  }

  // ---- Categories --------------------------------------------------------------------

  function FlatCounter(flat: CategoryTotals, k: nat): U64
    requires k < 24 && |flat.allocatedBytes| == |flat.logicalBytes| == |flat.fileCounts| == 8
  {
    if k < 8 then flat.allocatedBytes[k] else if k < 16 then flat.logicalBytes[k - 8] else flat.fileCounts[k - 16]
  }

  lemma FlatIsRollUp(flat: CategoryTotals, t: Chart, x: nat, u: Units, k: nat)
    requires |u.counters| == 24 && k < 24 && FlatUpTo(flat, PostOrder(TreeAt(t, x)), u)
    ensures FlatCounter(flat, k) == Sat(Weight(t, x, u.counters[k]))
  {
    var f := TreeAt(t, x);
    SumInPostOrder(f, u.counters[k]);
    assert Total(f, u.counters[k]) == Weight(t, x, u.counters[k]);
    assert k < 8 ==> flat.allocatedBytes[k] == Sat(SeqSum(PostOrder(f), u.counters[0 + k]));
    assert 8 <= k < 16 ==> flat.logicalBytes[k - 8] == Sat(SeqSum(PostOrder(f), u.counters[8 + (k - 8)]));
    assert 16 <= k ==> flat.fileCounts[k - 16] == Sat(SeqSum(PostOrder(f), u.counters[16 + (k - 16)]));
  }

  /**
    The flat per-category totals, bumped file by file in visit order, agree with the roll-up of
    the root in all 24 counters, although both saturate on their own.
   */
  lemma CategoryTotalsAreRollUp(m: DiskAnalysisModel, k: nat)
    requires IsTree(m) && TotalsExact(m) && k < 24
    ensures FlatUpTo(m.categoryTotals, Met(m, m.root), UnitsOf(m.nodes))
    ensures FlatCounter(m.categoryTotals, k) == Sat(Weight(TreesOf(m), m.root, UnitsOf(m.nodes).counters[k]))
  {
    FlatIsRollUp(m.categoryTotals, TreesOf(m), m.root, UnitsOf(m.nodes), k);
  }

  /** The columns that count files of one category add up to the column that counts files. */
  lemma {:induction false} FileColumnsSum(u: Units, nodes: seq<AnalysisNode>, f: Forest, g: Graph, t: Chart, list: seq<nat>)
    requires Measures(u, nodes) && Charted(g, t) && Mirrors(g, f, list) && AllIn(t, list)
    requires forall x :: x in t ==> x < |nodes|
    ensures Total(f, u.counters[16]) + Total(f, u.counters[17]) + Total(f, u.counters[18]) + Total(f, u.counters[19])
         + Total(f, u.counters[20]) + Total(f, u.counters[21]) + Total(f, u.counters[22]) + Total(f, u.counters[23])
         == Total(f, u.files)
    decreases f
  {
    if f.Cons? {
      assert list[0] in t && ChartedAt(g, t, f.id);
      FileColumnsSum(u, nodes, f.kids, g, t, Down(g, f.id));
      FileColumnsSum(u, nodes, f.rest, g, t, list[1..]);
      OneFile(u, nodes[f.id], f.id);
      assert NodeMeasured(u, nodes[f.id], f.id);
    }
  }

  lemma OneFile(u: Units, node: AnalysisNode, x: nat)
    requires NodeMeasured(u, node, x)
    ensures Own(u.counters[16], x) + Own(u.counters[17], x) + Own(u.counters[18], x) + Own(u.counters[19], x)
         + Own(u.counters[20], x) + Own(u.counters[21], x) + Own(u.counters[22], x) + Own(u.counters[23], x)
         == Own(u.files, x)
  {
  }

  function SumEight(c: seq<nat>): nat {
    if |c| != 8 then 0 else c[0] + c[1] + c[2] + c[3] + c[4] + c[5] + c[6] + c[7]
  }

  lemma EightCountersSum(flat: CategoryTotals, nodes: seq<AnalysisNode>, g: Graph, t: Chart, x: nat, u: Units)
    requires Measures(u, nodes) && Charted(g, t) && x in t && (forall y :: y in t ==> y < |nodes|)
    requires FlatUpTo(flat, PostOrder(TreeAt(t, x)), u) && Weight(t, x, u.files) <= U64_MAX
    ensures SumEight(flat.fileCounts) == Weight(t, x, u.files)
  {
    var f := TreeAt(t, x);
    assert ChartedAt(g, t, x);
    FileColumnsSum(u, nodes, f, g, t, [x]);
    assert Total(f, u.files) == Weight(t, x, u.files);
    forall k | 0 <= k < 8 ensures flat.fileCounts[k] == Sat(Total(f, u.counters[16 + k])) {
      SumInPostOrder(f, u.counters[16 + k]);
    }
  }

  /** The eight file counters add up to the number of files. */
  lemma FileCountersSum(m: DiskAnalysisModel)
    requires IsTree(m) && TotalsExact(m)
    ensures SumEight(m.categoryTotals.fileCounts) == m.totalFiles
  {
    UnitsOfMeasures(m.nodes);
    EightCountersSum(m.categoryTotals, m.nodes, Links(m), TreesOf(m), m.root, UnitsOf(m.nodes));
  }

  /** Allocated bytes of category `i` below `x`, clamped. */
  ghost function BytesOf(t: Chart, u: Units, x: nat, i: nat): U64
    requires i < 8 && |u.counters| == 24
  {
    Sat(Weight(t, x, u.counters[i]))
  }

  lemma DominantBeats(category: FileCategory, t: Chart, x: nat, u: Units, j: nat)
    requires |u.counters| == 24 && DominantIn(category, t, x, u) && j < 8
    ensures BytesOf(t, u, x, j) <= BytesOf(t, u, x, CategoryIndex(category))
    ensures CategoryIndex(category) < j ==> BytesOf(t, u, x, j) < BytesOf(t, u, x, CategoryIndex(category))
  {
    var totals: seq<U64> :| CountersAre(totals, t, x, u) && IsDominant(totals, CategoryIndex(category));
    assert totals[j] == BytesOf(t, u, x, j) && totals[CategoryIndex(category)] == BytesOf(t, u, x, CategoryIndex(category));
  }

  lemma MetRolledUp(m: DiskAnalysisModel, x: nat)
    requires IsTree(m) && TotalsExact(m) && Reached(Links(m), m.root, x)
    ensures x < |m.nodes| && |UnitsOf(m.nodes).counters| == 24
    ensures RolledUp(m.nodes[x], m.nodes, UnitsOf(m.nodes), TreesOf(m), x)
  {
    WalkMeetsExactly(m, m.root);
    assert x in Met(m, m.root);
  }

  /** A walked directory's category is the last one whose allocated bytes no category exceeds. */
  lemma CategoryIsDominant(m: DiskAnalysisModel, x: nat, j: nat)
    requires IsTree(m) && TotalsExact(m) && Reached(Links(m), m.root, x) && j < 8
    requires x < |m.nodes| && m.nodes[x].Descends() && |UnitsOf(m.nodes).counters| == 24
    ensures var i, t, u := CategoryIndex(m.nodes[x].category), TreesOf(m), UnitsOf(m.nodes);
      && BytesOf(t, u, x, j) <= BytesOf(t, u, x, i)
      && (i < j ==> BytesOf(t, u, x, j) < BytesOf(t, u, x, i))
  {
    MetRolledUp(m, x);
    DominantBeats(m.nodes[x].category, TreesOf(m), x, UnitsOf(m.nodes), j);
  }

  // ---- Depth ---------------------------------------------------------------------------

  /**
    `deepestPath` is the depth of a node reached from the root exactly when the root has a child
    a walk can step to, or there is nothing besides the roots.
   */
  lemma DeepestPathIsReachedDepth(m: DiskAnalysisModel)
    requires IsTree(m) && DepthExact(m)
    ensures (exists x: nat :: Reached(Links(m), m.root, x) && AtDepth(Links(m), x, m.deepestPath)) <==>
      Down(Links(m), m.root) != [] || |m.nodes| == if m.root == 0 then 1 else 2
    ensures Down(Links(m), m.root) == [] && |m.nodes| > 2 ==> m.deepestPath == 1
    ensures forall x: nat, d: nat :: Reached(Links(m), m.root, x) && AtDepth(Links(m), x, d) ==> d <= m.deepestPath
  {
    var g, t := Links(m), TreesOf(m);
    var depths: seq<nat> :| DepthsKnown(depths, g, SetOf(PreOrder(TreeAt(t, m.root)))) && IsMaximum(depths, m.deepestPath);
    DeepestIsMetDepth(depths, m.deepestPath, g, t);
    forall x: nat ensures x in PreOrder(TreeAt(t, m.root)) <==> Reached(g, m.root, x) {
      MetIffReached(g, t, m.root, x);
    }
    forall x: nat, d: nat | Reached(g, m.root, x) && AtDepth(g, x, d) ensures d <= m.deepestPath {
      MetDepths(depths, m.deepestPath, g, t, x);
      DepthUnique(g, x, d, depths[x]);
    }
  }
}
