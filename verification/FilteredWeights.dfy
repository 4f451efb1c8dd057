/**
  Filtered roll-ups over a subtree. Leaves that pass the filter contribute the chosen metric,
  directories the saturating sum of what lies below them.
 */
module FilteredWeights {
  import opened Aggregation
  import opened BuiltVolume
  import opened Cancellation
  import opened DiskModel
  import opened Folding
  import opened ForestTheory
  import opened Saturating
  import opened SizeFilter
  import opened Walks
  import opened Wrappers

  // ---- What the roll-up should be ------------------------------------------------

  /** Own contribution of a node: the metric of a matching leaf, nothing for anything else. */
  function LeafValue(node: AnalysisNode, filter: DiskAnalysisFilter, metric: SizeMetric): U64 {
    if !node.Descends() && filter.MatchesLeaf(node) then metric.Own(node) else 0
  }

  function LeafValues(nodes: seq<AnalysisNode>, filter: DiskAnalysisFilter, metric: SizeMetric): (own: seq<nat>)
    ensures |own| == |nodes|
    ensures forall x {:trigger own[x]} :: 0 <= x < |nodes| ==> own[x] == LeafValue(nodes[x], filter, metric)
  {
    seq(|nodes|, x requires 0 <= x < |nodes| => LeafValue(nodes[x], filter, metric))
  }

  predicate Hit(node: AnalysisNode, filter: DiskAnalysisFilter) {
    !node.Descends() && filter.MatchesLeaf(node)
  }

  function Hits(nodes: seq<AnalysisNode>, filter: DiskAnalysisFilter): (own: seq<nat>)
    ensures |own| == |nodes|
    ensures forall x {:trigger own[x]} :: 0 <= x < |nodes| ==> own[x] == if Hit(nodes[x], filter) then 1 else 0
  {
    seq(|nodes|, x requires 0 <= x < |nodes| => if Hit(nodes[x], filter) then 1 else 0)
  }

  /** Weight and match flag of node `x`, once finished; zero and false before. */
  ghost predicate EntryIs(weight: U64, matched: bool, done: bool, t: Chart, x: nat, own: seq<nat>, hits: seq<nat>) {
    forall k {:trigger Unfold(k)} :: Unfold(k) ==>
      && weight == (if done then Sat(Weight(t, x, own)) else 0)
      && (matched <==> done && Weight(t, x, hits) > 0)
  }

  ghost predicate Filled(weights: seq<U64>, matches: seq<bool>, t: Chart, own: seq<nat>, hits: seq<nat>, finished: seq<nat>) {
    && |weights| == |matches| == |own| == |hits|
    && forall x {:trigger weights[x]} {:trigger matches[x]} :: 0 <= x < |weights| ==>
      EntryIs(weights[x], matches[x], x in finished, t, x, own, hits)
  }

  // ---- The walk --------------------------------------------------------------------

  /** The links of a model, as the walks need them. */
  ghost predicate WalkSetting(m: DiskAnalysisModel, g: Graph, t: Chart) {
    && Depicts(g, m.nodes, m.childLinks, m.root) && Charted(g, t)
    && (forall x {:trigger x in t} :: x in t ==> x < |m.nodes|)
  }

  lemma TreeSetting(m: DiskAnalysisModel)
    requires IsTree(m)
    ensures WalkSetting(m, Links(m), TreesOf(m))
  {
  }

  lemma AnySum(any: bool, more: bool, t: Chart, x: nat, kids: seq<nat>, i: nat, hits: seq<nat>)
    requires i < |kids| && (any <==> SoFar(t, x, kids, i, hits) > 0) && (more <==> Weight(t, kids[i], hits) > 0)
    ensures any || more <==> SoFar(t, x, kids, i + 1, hits) > 0
  {
  }

  ghost predicate Running(total: U64, any: bool, t: Chart, x: nat, kids: seq<nat>, i: nat, own: seq<nat>, hits: seq<nat>)
    requires i <= |kids|
  {
    forall k {:trigger Unfold(k)} :: Unfold(k) ==>
      total == Sat(SoFar(t, x, kids, i, own)) && (any <==> SoFar(t, x, kids, i, hits) > 0)
  }

  lemma RunningStep(total: U64, any: bool, weight: U64, matched: bool, t: Chart, x: nat, kids: seq<nat>, i: nat,
                    own: seq<nat>, hits: seq<nat>)
    requires i < |kids| && Running(total, any, t, x, kids, i, own, hits)
    requires EntryIs(weight, matched, true, t, kids[i], own, hits)
    ensures Running(SatAdd(total, weight), any || matched, t, x, kids, i + 1, own, hits)
  {
    assert Unfold(0);
    OneSum(total, weight, t, x, kids, i, own);
    AnySum(any, matched, t, x, kids, i, hits);
  }

  lemma RunningEnd(total: U64, any: bool, g: Graph, t: Chart, x: nat, own: seq<nat>, hits: seq<nat>)
    requires Charted(g, t) && x in t && Running(total, any, t, x, Down(g, x), |Down(g, x)|, own, hits)
    ensures EntryIs(total, any, true, t, x, own, hits)
  {
    assert Unfold(0);
    SoFarAll(g, t, x, own);
    SoFarAll(g, t, x, hits);
  }

  /** Sum a directory over its finished children. */
  method SumKids(kids: seq<nat>, weights: array<U64>, matches: array<bool>, ghost x: nat, ghost g: Graph, ghost t: Chart,
                 ghost own: seq<nat>, ghost hits: seq<nat>, ghost finished: seq<nat>)
    returns (total: U64, anyMatch: bool)
    requires Filled(weights[..], matches[..], t, own, hits, finished) && Charted(g, t) && x in t && kids == Down(g, x)
    requires forall c :: c in kids ==> c in finished && c < weights.Length
    requires Own(own, x) == 0 && Own(hits, x) == 0
    ensures EntryIs(total, anyMatch, true, t, x, own, hits)
  {
    total, anyMatch := 0, false;
    for i := 0 to |kids|
      invariant Running(total, anyMatch, t, x, kids, i, own, hits)
    {
      var c := kids[i];
      assert c in kids;
      assert EntryIs(weights[..][c], matches[..][c], true, t, c, own, hits);
      RunningStep(total, anyMatch, weights[c], matches[c], t, x, kids, i, own, hits);
      total := SatAdd(total, weights[c]);
      anyMatch := anyMatch || matches[c];
    }
    RunningEnd(total, anyMatch, g, t, x, own, hits);
  }

  /** The visited branch: finish one node. */
  method FinishEntry(m: DiskAnalysisModel, filter: DiskAnalysisFilter, metric: SizeMetric, weights: array<U64>,
                     matches: array<bool>, x: nat, ghost g: Graph, ghost t: Chart, ghost finished: seq<nat>)
    requires WalkSetting(m, g, t) && x in t && x !in finished
    requires forall c :: c in Down(g, x) ==> c in finished
    requires Filled(weights[..], matches[..], t, LeafValues(m.nodes, filter, metric), Hits(m.nodes, filter), finished)
    modifies weights, matches
    ensures Filled(weights[..], matches[..], t, LeafValues(m.nodes, filter, metric), Hits(m.nodes, filter), finished + [x])
  {
    ghost var own, hits := LeafValues(m.nodes, filter, metric), Hits(m.nodes, filter);
    ghost var weights0, matches0 := weights[..], matches[..];
    DownAt(g, m.nodes, m.childLinks, m.root, x);
    var node := m.nodes[x];
    assert ChartedAt(g, t, x);
    assert Unfold(0) && EntryIs(weights0[x], matches0[x], false, t, x, own, hits);
    if node.isDir && !node.isReparse {
      var total, anyMatch := SumKids(Slice(node, m.childLinks), weights, matches, x, g, t, own, hits, finished);
      weights[x] := total;
      matches[x] := anyMatch;
    } else {
      LeafWeight(g, t, x, own);
      LeafWeight(g, t, x, hits);
      var matched := filter.MatchesLeaf(node);
      matches[x] := matched;
      if matched {
        weights[x] := metric.Own(node);
      }
    }
    FilledStep(weights0, matches0, weights[..], matches[..], t, own, hits, finished, x);
  }

  lemma FilledStep(weights: seq<U64>, matches: seq<bool>, weights': seq<U64>, matches': seq<bool>, t: Chart,
                   own: seq<nat>, hits: seq<nat>, finished: seq<nat>, x: nat)
    requires Filled(weights, matches, t, own, hits, finished) && x < |weights| == |weights'| == |matches'|
    requires weights' == weights[x := weights'[x]] && matches' == matches[x := matches'[x]]
    requires EntryIs(weights'[x], matches'[x], true, t, x, own, hits)
    ensures Filled(weights', matches', t, own, hits, finished + [x])
  {
    forall y {:trigger weights'[y]} | 0 <= y < |weights'|
      ensures EntryIs(weights'[y], matches'[y], y in finished + [x], t, y, own, hits)
    {
      assert EntryIs(weights[y], matches[y], y in finished, t, y, own, hits);
    }
  }

  method ExpandEntry(m: DiskAnalysisModel, below: seq<Walks.Entry>, x: nat, ghost g: Graph, ghost t: Chart)
    returns (stack: seq<Walks.Entry>)
    requires WalkSetting(m, g, t) && x in t && StackIn(t, below)
    ensures StackIn(t, stack) && Remaining(t, stack) == Remaining(t, below + [(x, false)])
    ensures Steps(t, stack) < Steps(t, below + [(x, false)])
  {
    DownAt(g, m.nodes, m.childLinks, m.root, x);
    stack := PushChildren(m.nodes[x], m.childLinks, below, x, g, t);
  }

  /** One round of the walk: the top of the stack is finished, or gives way to its children. */
  method FilterStep(m: DiskAnalysisModel, filter: DiskAnalysisFilter, metric: SizeMetric, weights: array<U64>,
                    matches: array<bool>, stack: seq<Walks.Entry>, ghost root: nat, ghost finished: seq<nat>,
                    ghost g: Graph, ghost t: Chart)
    returns (stack': seq<Walks.Entry>, ghost finished': seq<nat>)
    requires WalkSetting(m, g, t) && root in t && stack != [] && StackIn(t, stack)
    requires finished + Remaining(t, stack) == PostOrder(TreeAt(t, root))
    requires Filled(weights[..], matches[..], t, LeafValues(m.nodes, filter, metric), Hits(m.nodes, filter), finished)
    modifies weights, matches
    ensures StackIn(t, stack') && finished' + Remaining(t, stack') == PostOrder(TreeAt(t, root))
    ensures Filled(weights[..], matches[..], t, LeafValues(m.nodes, filter, metric), Hits(m.nodes, filter), finished')
    ensures Steps(t, stack') < Steps(t, stack)
  {
    var (x, visited) := stack[|stack| - 1];
    var below := stack[..|stack| - 1];
    assert stack == below + [(x, visited)];
    if visited {
      PopVisited(t, stack);
      FinishNext(g, t, root, finished, x, Remaining(t, below));
      finished' := finished + [x];
      stack' := below;
      FinishEntry(m, filter, metric, weights, matches, x, g, t, finished);
    } else {
      finished' := finished;
      stack' := ExpandEntry(m, below, x, g, t);
    }
  }

  datatype FilteredResult = FilteredResult(root: nat, weights: seq<U64>, matches: seq<bool>)

  /**
    The filtered roll-up from any node whose parent chain reaches the root. Reached nodes get the
    clamped sum over the matching leaves below them and the flag whether there is one; all other
    entries stay 0 and false.
   */
  method FilterWalk(m: DiskAnalysisModel, root: nat, filter: DiskAnalysisFilter, metric: SizeMetric, token: CancelToken,
                    ghost g: Graph, ghost t: Chart)
    returns (result: Option<FilteredResult>)
    requires WalkSetting(m, g, t) && root in t
    modifies token
    ensures token.fired == (old(token.fired) || result.None?)
    ensures result.Some? ==> result.value.root == root && Filled(result.value.weights, result.value.matches, t,
      LeafValues(m.nodes, filter, metric), Hits(m.nodes, filter), PostOrder(TreeAt(t, root)))
  {
    var weights := new U64[|m.nodes|](_ => 0);
    var matches := new bool[|m.nodes|](_ => false);
    var stack: seq<Walks.Entry> := [(root, false)];
    ghost var finished: seq<nat> := [];
    StartStack(t, root);
    while stack != []
      invariant token.fired == old(token.fired)
      invariant StackIn(t, stack) && finished + Remaining(t, stack) == PostOrder(TreeAt(t, root))
      invariant Filled(weights[..], matches[..], t, LeafValues(m.nodes, filter, metric), Hits(m.nodes, filter), finished)
      decreases Steps(t, stack)
    {
      var cancelled := token.Poll();
      if cancelled {
        return None;
      }
      stack, finished := FilterStep(m, filter, metric, weights, matches, stack, root, finished, g, t);
    }
    assert finished == PostOrder(TreeAt(t, root));
    result := Some(FilteredResult(root, weights[..], matches[..]));
  }

  // ---- The fast path for an inactive filter --------------------------------------------

  ghost predicate Collected(weights: seq<U64>, matches: seq<bool>, nodes: seq<AnalysisNode>, metric: SizeMetric, met: seq<nat>) {
    && |weights| == |matches| == |nodes|
    && forall x {:trigger weights[x]} {:trigger matches[x]} :: 0 <= x < |nodes| ==>
      && weights[x] == (if x in met then metric.Subtree(nodes[x]) else 0)
      && (matches[x] <==> x in met)
  }

  method CollectOne(m: DiskAnalysisModel, metric: SizeMetric, weights: array<U64>, matches: array<bool>, x: nat,
                    below: seq<nat>, ghost met: seq<nat>, ghost g: Graph, ghost t: Chart)
    returns (stack: seq<nat>)
    requires WalkSetting(m, g, t) && x in t && AllIn(t, below)
    requires Collected(weights[..], matches[..], m.nodes, metric, met)
    modifies weights, matches
    ensures Collected(weights[..], matches[..], m.nodes, metric, met + [x])
    ensures AllIn(t, stack) && RemainingPre(t, below + [x]) == [x] + RemainingPre(t, stack)
  {
    DownAt(g, m.nodes, m.childLinks, m.root, x);
    StepPre(g, t, below, x);
    var node := m.nodes[x];
    weights[x] := metric.Subtree(node);
    matches[x] := true;
    stack := below;
    if node.isDir && !node.isReparse {
      stack := stack + Slice(node, m.childLinks);
    }
    assert stack == below + Down(g, x);
  }

  /** Copy the natural metric of every node the walk meets. */
  method CollectSubtreeValues(m: DiskAnalysisModel, root: nat, metric: SizeMetric, weights: array<U64>, matches: array<bool>,
                              ghost g: Graph, ghost t: Chart)
    requires WalkSetting(m, g, t) && root in t
    requires Collected(weights[..], matches[..], m.nodes, metric, [])
    modifies weights, matches
    ensures Collected(weights[..], matches[..], m.nodes, metric, PreOrder(TreeAt(t, root)))
  {
    var stack := [root];
    ghost var met: seq<nat> := [];
    assert [root][..0] == [];
    while stack != []
      invariant AllIn(t, stack) && met + RemainingPre(t, stack) == PreOrder(TreeAt(t, root))
      invariant Collected(weights[..], matches[..], m.nodes, metric, met)
      decreases |RemainingPre(t, stack)|
    {
      var x, below := stack[|stack| - 1], stack[..|stack| - 1];
      assert stack == below + [x];
      stack := CollectOne(m, metric, weights, matches, x, below, met, g, t);
      met := met + [x];
    }
    assert met == PreOrder(TreeAt(t, root));
  }

  method PlainWalk(m: DiskAnalysisModel, root: nat, metric: SizeMetric, ghost g: Graph, ghost t: Chart)
    returns (result: FilteredResult)
    requires WalkSetting(m, g, t) && root in t
    ensures result.root == root
    ensures Collected(result.weights, result.matches, m.nodes, metric, PreOrder(TreeAt(t, root)))
  {
    var weights := new U64[|m.nodes|](_ => 0);
    var matches := new bool[|m.nodes|](_ => false);
    CollectSubtreeValues(m, root, metric, weights, matches, g, t);
    result := FilteredResult(root, weights[..], matches[..]);
  }

  // ---- The query ----------------------------------------------------------------------------

  /** The answer for an active filter. */
  ghost predicate IsFilterAnswer(r: FilteredResult, m: DiskAnalysisModel, root: nat, filter: DiskAnalysisFilter, metric: SizeMetric)
    requires IsTree(m)
  {
    && r.root == root
    && Filled(r.weights, r.matches, TreesOf(m), LeafValues(m.nodes, filter, metric), Hits(m.nodes, filter), Met(m, root))
  }

  /** The answer when nothing is filtered. */
  ghost predicate IsPlainAnswer(r: FilteredResult, m: DiskAnalysisModel, root: nat, metric: SizeMetric)
    requires IsTree(m)
  {
    r.root == root && Collected(r.weights, r.matches, m.nodes, metric, PreOrder(TreeAt(TreesOf(m), root)))
  }

  /**
    Filtered weights of the subtree of any node whose parent chain reaches the root. An inactive
    filter never looks at the cell; an active one gives up exactly when the cell says so.
   */
  method ComputeFilteredWeights(m: DiskAnalysisModel, root: nat, filter: DiskAnalysisFilter, metric: SizeMetric,
                                token: CancelToken)
    returns (result: Option<FilteredResult>)
    requires IsTree(m) && Rooted(Links(m), root)
    modifies token
    ensures token.fired == (old(token.fired) || result.None?)
    ensures result.Some? && filter.IsActive() ==> IsFilterAnswer(result.value, m, root, filter, metric)
    ensures !filter.IsActive() ==> result.Some? && IsPlainAnswer(result.value, m, root, metric)
  {
    TreeSetting(m);
    if !filter.IsActive() {
      var plain := PlainWalk(m, root, metric, Links(m), TreesOf(m));
      result := Some(plain);
    } else {
      result := FilterWalk(m, root, filter, metric, token, Links(m), TreesOf(m));
    }
  }
}
