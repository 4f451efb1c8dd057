/** The answer to a roll-up request as a function, so that a request has one answer only. */
module RollUpAnswers {
  import opened BuiltVolume
  import opened DiskModel
  import opened FilteredWeights
  import opened Folding
  import opened ForestTheory
  import opened Saturating
  import opened SizeFilter
  import opened Walks

  ghost function WeightColumn(n: nat, t: Chart, met: seq<nat>, own: seq<nat>): (r: seq<U64>)
    ensures |r| == n
  {
    if n == 0 then [] else WeightColumn(n - 1, t, met, own) + [if n - 1 in met then Sat(Weight(t, n - 1, own)) else 0]
  }

  ghost function FlagColumn(n: nat, t: Chart, met: seq<nat>, hits: seq<nat>): (r: seq<bool>)
    ensures |r| == n
  {
    if n == 0 then [] else FlagColumn(n - 1, t, met, hits) + [n - 1 in met && Weight(t, n - 1, hits) > 0]
  }

  lemma {:induction false} ColumnsAt(n: nat, t: Chart, met: seq<nat>, own: seq<nat>, hits: seq<nat>, x: nat)
    requires x < n
    ensures WeightColumn(n, t, met, own)[x] == if x in met then Sat(Weight(t, x, own)) else 0
    ensures FlagColumn(n, t, met, hits)[x] <==> x in met && Weight(t, x, hits) > 0
  {
    if x < n - 1 {
      ColumnsAt(n - 1, t, met, own, hits, x);
    }
  }

  /** The filtered roll-up of a model for an active filter. */
  ghost function FilterAnswer(m: DiskAnalysisModel, root: nat, filter: DiskAnalysisFilter, metric: SizeMetric): FilteredResult
    requires IsTree(m) && Rooted(Links(m), root)
  {
    FilteredResult(root,
      WeightColumn(|m.nodes|, TreesOf(m), Met(m, root), LeafValues(m.nodes, filter, metric)),
      FlagColumn(|m.nodes|, TreesOf(m), Met(m, root), Hits(m.nodes, filter)))
  }

  lemma EntryDecides(weight: U64, matched: bool, done: bool, t: Chart, x: nat, own: seq<nat>, hits: seq<nat>)
    ensures EntryIs(weight, matched, done, t, x, own, hits) <==>
      weight == (if done then Sat(Weight(t, x, own)) else 0) && (matched <==> done && Weight(t, x, hits) > 0)
  {
    assert Unfold(0);
  }

  lemma FilledIsColumns(weights: seq<U64>, matches: seq<bool>, t: Chart, own: seq<nat>, hits: seq<nat>, met: seq<nat>, n: nat)
    requires n == |own| == |hits|
    ensures Filled(weights, matches, t, own, hits, met) <==>
      weights == WeightColumn(n, t, met, own) && matches == FlagColumn(n, t, met, hits)
  {
    var weights', matches' := WeightColumn(n, t, met, own), FlagColumn(n, t, met, hits);
    forall x | 0 <= x < n && x < |weights| && x < |matches|
      ensures EntryIs(weights[x], matches[x], x in met, t, x, own, hits) <==> weights[x] == weights'[x] && matches[x] == matches'[x]
    {
      EntryDecides(weights[x], matches[x], x in met, t, x, own, hits);
      ColumnsAt(n, t, met, own, hits, x);
    }
  }

  /** What the roll-up computes for an active filter is that function. */
  lemma FilterAnswerIsUnique(m: DiskAnalysisModel, root: nat, filter: DiskAnalysisFilter, metric: SizeMetric, r: FilteredResult)
    requires IsTree(m) && Rooted(Links(m), root)
    ensures IsFilterAnswer(r, m, root, filter, metric) <==> r == FilterAnswer(m, root, filter, metric)
  {
    FilledIsColumns(r.weights, r.matches, TreesOf(m), LeafValues(m.nodes, filter, metric), Hits(m.nodes, filter), Met(m, root), |m.nodes|);
  }

  lemma FilterAnswerAt(m: DiskAnalysisModel, root: nat, filter: DiskAnalysisFilter, metric: SizeMetric, x: nat)
    requires IsTree(m) && Rooted(Links(m), root) && Reached(Links(m), root, x)
    ensures x < |FilterAnswer(m, root, filter, metric).weights| && x < |FilterAnswer(m, root, filter, metric).matches|
    ensures FilterAnswer(m, root, filter, metric).weights[x] == Sat(Weight(TreesOf(m), x, LeafValues(m.nodes, filter, metric)))
    ensures FilterAnswer(m, root, filter, metric).matches[x] <==> Weight(TreesOf(m), x, Hits(m.nodes, filter)) > 0
  {
    WalkMeetsExactly(m, root);
    assert x in Met(m, root);
    ColumnsAt(|m.nodes|, TreesOf(m), Met(m, root), LeafValues(m.nodes, filter, metric), Hits(m.nodes, filter), x);
  }
}
