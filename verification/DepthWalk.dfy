/** Depths of the nodes below the root, assigned by a top-down walk. */
module DepthWalk {
  import opened Cancellation
  import opened DiskModel
  import opened ForestTheory
  import opened Walks

  // ---- Facts about pre-order stacks ----------------------------------------

  lemma {:induction false} StackInRemaining(t: Chart, stack: seq<nat>, c: nat)
    requires c in stack
    ensures c in RemainingPre(t, stack)
  {
    if c != stack[|stack| - 1] {
      StackInRemaining(t, stack[..|stack| - 1], c);
    }
  }

  /** While the schedule repeats nothing, neither does the stack. */
  lemma {:induction false} StackDistinct(t: Chart, stack: seq<nat>)
    requires Distinct(RemainingPre(t, stack))
    ensures Distinct(stack)
  {
    if stack != [] {
      var below, top := stack[..|stack| - 1], stack[|stack| - 1];
      var rest := RemainingPre(t, below);
      var r := RemainingPre(t, stack);
      var offset := |r| - |rest|;
      forall i, j | 0 <= i < j < |rest| ensures rest[i] != rest[j] {
        assert rest[i] == r[offset + i] && rest[j] == r[offset + j];
      }
      StackDistinct(t, below);
      forall i | 0 <= i < |below| ensures below[i] != top {
        StackInRemaining(t, below, below[i]);
        var k :| 0 <= k < |rest| && rest[k] == below[i];
        assert r[offset + k] == below[i] && r[0] == top;
      }
    }
  }

  /** The children of the popped node were never met before. */
  lemma KidsUnmet(g: Graph, t: Chart, root: nat, met: seq<nat>, below: seq<nat>, x: nat)
    requires Charted(g, t) && root in t && x in t
    requires met + RemainingPre(t, below + [x]) == PreOrder(TreeAt(t, root))
    ensures x !in met && x !in below
    ensures Distinct(below + Down(g, x))
    ensures forall c :: c in Down(g, x) ==> c !in met && c !in below && c != x
  {
    var order, after := PreOrder(TreeAt(t, root)), below + Down(g, x);
    PreOrderDistinct(g, t, root);
    StepPre(g, t, below, x);
    var rest := RemainingPre(t, after);
    assert order == met + [x] + rest;
    forall i, j | 0 <= i < j < |rest| ensures rest[i] != rest[j] {
      assert rest[i] == order[|met| + 1 + i] && rest[j] == order[|met| + 1 + j];
    }
    StackDistinct(t, after);
    forall c | c in after ensures c !in met && c != x {
      StackInRemaining(t, after, c);
      var k :| 0 <= k < |rest| && rest[k] == c;
      assert order[|met| + 1 + k] == c && order[|met|] == x;
      assert order[..|met|] == met;
    }
    assert order[|met|] == x && order[..|met|] == met;
    forall c | c in Down(g, x) ensures c !in below {
      var k :| 0 <= k < |Down(g, x)| && Down(g, x)[k] == c;
      assert after[|below| + k] == c;
      assert after[..|below|] == below;
    }
    assert forall c :: c in below ==> c in after;
  }

  // ---- The walk ---------------------------------------------------------------

  /** Depths before the walk: the synthetic root and the volume root are at 0, everything else starts at 1. */
  function StartDepth(root: nat, x: nat): nat {
    if x == 0 || x == root then 0 else 1
  }

  /** Reached nodes carry their distance to the root, the others their starting value. */
  ghost predicate DepthsKnown(depths: seq<nat>, g: Graph, known: set<nat>)
    requires Linked(g)
  {
    && |depths| == |g.parent|
    && (forall x {:trigger depths[x]} :: 0 <= x < |depths| && x in known ==> AtDepth(g, x, depths[x]))
    && (forall x {:trigger depths[x]} :: 0 <= x < |depths| && x !in known ==> depths[x] == StartDepth(g.root, x))
  }

  ghost function SetOf(s: seq<nat>): set<nat> {
    set x | x in s
  }

  /** Give the children of `x` their depth. */
  method DepthsOfKids(depths: array<nat>, kids: seq<nat>, x: nat, root: nat, ghost g: Graph, ghost known: set<nat>)
    requires Linked(g) && g.root == root && x < depths.Length && x in known && DepthsKnown(depths[..], g, known)
    requires kids == Down(g, x) && Distinct(kids)
    requires forall c :: c in kids ==> c !in known && c != 0 && c != root
    modifies depths
    ensures DepthsKnown(depths[..], g, known + SetOf(kids))
  {
    var depth := depths[x];
    DownDepth(g, [x], depth);
    for i := 0 to |kids|
      invariant depths[x] == depth && DepthsKnown(depths[..], g, known + SetOf(kids[..i]))
    {
      var c := kids[i];
      assert c in kids && c !in kids[..i];
      assert AtDepth(g, c, depth + 1);
      assert SetOf(kids[..i + 1]) == SetOf(kids[..i]) + {c};
      if depths[c] == 1 && c != root {
        depths[c] := depth + 1;
      }
    }
    assert kids[..|kids|] == kids;
  }

  ghost predicate DepthSetting(nodes: seq<AnalysisNode>, links: seq<nat>, root: nat, g: Graph, t: Chart) {
    && Linked(g) && Depicts(g, nodes, links, root) && Charted(g, t) && root in t
    && (forall x {:trigger x in t} :: x in t ==> x < |nodes|)
    && (forall x {:trigger nodes[x].childLen} :: 0 <= x < |nodes| && !nodes[x].isDir ==> nodes[x].childLen == 0)
    && (forall x, c {:trigger c in g.kids[x]} :: 0 <= x < |nodes| && c in g.kids[x] ==> c != 0)
  }

  lemma KidsBelow(nodes: seq<AnalysisNode>, links: seq<nat>, root: nat, g: Graph, t: Chart, x: nat)
    requires DepthSetting(nodes, links, root, g, t) && x in t
    ensures x < |nodes| && nodes[x].childStart + nodes[x].childLen <= |links|
    ensures Down(g, x) == if nodes[x].isReparse then [] else Slice(nodes[x], links)
    ensures forall c :: c in Down(g, x) ==> c != 0 && c != root
  {
    DownAt(g, nodes, links, root, x);
    assert LinkAt(g, nodes, links, x);
    assert !nodes[x].isDir ==> nodes[x].childLen == 0;
    forall c | c in Down(g, x) ensures c != 0 && c != root {
      assert c in g.kids[x];
    }
  }

  method VisitDepth(nodes: array<AnalysisNode>, links: seq<nat>, depths: array<nat>, below: seq<nat>, x: nat, root: nat,
                    ghost met: seq<nat>, ghost g: Graph, ghost t: Chart)
    returns (stack: seq<nat>)
    requires DepthSetting(nodes[..], links, root, g, t) && AllIn(t, below) && x in t
    requires met + RemainingPre(t, below + [x]) == PreOrder(TreeAt(t, root))
    requires DepthsKnown(depths[..], g, SetOf(met + (below + [x])))
    modifies depths
    ensures AllIn(t, stack) && RemainingPre(t, below + [x]) == [x] + RemainingPre(t, stack)
    ensures DepthsKnown(depths[..], g, SetOf((met + [x]) + stack))
  {
    KidsUnmet(g, t, root, met, below, x);
    StepPre(g, t, below, x);
    KidsBelow(nodes[..], links, root, g, t, x);
    ghost var known := SetOf(met + (below + [x]));
    if nodes[x].isReparse {
      stack := below;
      assert Down(g, x) == [];
      SetOfMove(met, below, x, []);
      assert known + SetOf([]) == known;
    } else {
      var kids := Slice(nodes[x], links);
      AllIn2(t, below, kids);
      DepthsOfKids(depths, kids, x, root, g, known);
      stack := below + kids;
      SetOfMove(met, below, x, kids);
    }
  }

  lemma SetOfMove(met: seq<nat>, below: seq<nat>, x: nat, kids: seq<nat>)
    ensures SetOf((met + [x]) + (below + kids)) == SetOf(met + (below + [x])) + SetOf(kids)
    ensures below + [] == below && SetOf([]) == {}
  {
    var a, b := SetOf((met + [x]) + (below + kids)), SetOf(met + (below + [x])) + SetOf(kids);
    forall c ensures c in a <==> c in b {
      assert c in a <==> c in met || c == x || c in below || c in kids;
    }
  }

  lemma AllIn2(t: Chart, a: seq<nat>, b: seq<nat>)
    requires AllIn(t, a) && AllIn(t, b)
    ensures AllIn(t, a + b)
  {
  }

  method AssignDepths(nodes: array<AnalysisNode>, links: seq<nat>, root: nat, token: CancelToken,
                      ghost g: Graph, ghost t: Chart)
    returns (depths: array<nat>, cancelled: bool)
    requires DepthSetting(nodes[..], links, root, g, t)
    modifies token
    ensures fresh(depths) && token.fired == (old(token.fired) || cancelled)
    ensures !cancelled ==> DepthsKnown(depths[..], g, SetOf(PreOrder(TreeAt(t, root))))
  {
    depths := new nat[nodes.Length](_ => 1);
    depths[0], depths[root] := 0, 0;
    cancelled := false;
    var stack := [root];
    ghost var met: seq<nat> := [];
    assert [root][..0] == [];
    var steps := 0;
    while stack != []
      invariant token.fired == old(token.fired)
      invariant AllIn(t, stack) && met + RemainingPre(t, stack) == PreOrder(TreeAt(t, root))
      invariant DepthsKnown(depths[..], g, SetOf(met + stack))
      decreases |RemainingPre(t, stack)|
    {
      steps := steps + 1;
      cancelled := token.PollEvery(steps);
      if cancelled {
        return;
      }
      var x, below := stack[|stack| - 1], stack[..|stack| - 1];
      assert stack == below + [x];
      stack := VisitDepth(nodes, links, depths, below, x, root, met, g, t);
      met := met + [x];
    }
    assert met == PreOrder(TreeAt(t, root)) && met + stack == met;
  }

  /** The largest entry, as a maximum over an iterator. */
  method Deepest(depths: array<nat>) returns (deepest: nat)
    requires depths.Length > 0
    ensures IsMaximum(depths[..], deepest)
  {
    deepest := depths[0];
    for i := 1 to depths.Length
      invariant IsMaximum(depths[..i], deepest)
    {
      if depths[i] > deepest {
        deepest := depths[i];
      }
    }
  }

  ghost predicate IsMaximum(depths: seq<nat>, deepest: nat) {
    && (exists x :: 0 <= x < |depths| && depths[x] == deepest)
    && (forall x :: 0 <= x < |depths| ==> depths[x] <= deepest)
  }

  lemma MetInRange(g: Graph, t: Chart, root: nat, x: nat)
    requires Charted(g, t) && root in t && x in PreOrder(TreeAt(t, root))
    ensures x in t && x < |g.parent|
  {
    assert ChartedAt(g, t, root);
    PreOrderBag(TreeAt(t, root));
    assert x in multiset(PreOrder(TreeAt(t, root)));
    HasIsInBag(TreeAt(t, root), x);
    HasInChart(g, t, TreeAt(t, root), [root], x);
    assert ChartedAt(g, t, x);
  }

  lemma KidIsMet(g: Graph, t: Chart, root: nat, c: nat)
    requires Charted(g, t) && root in t && c in Down(g, root)
    ensures c in PreOrder(TreeAt(t, root))
  {
    assert ChartedAt(g, t, root);
    BagClosed(g, TreeAt(t, root), [root], root, c);
    HasIsInBag(TreeAt(t, root), c);
    PreOrderBag(TreeAt(t, root));
    assert c in multiset(PreOrder(TreeAt(t, root)));
  }

  /** Every node the walk meets carries its distance to the root, and none is deeper than `deepest`. */
  lemma MetDepths(depths: seq<nat>, deepest: nat, g: Graph, t: Chart, x: nat)
    requires Linked(g) && Charted(g, t) && g.root in t && x in PreOrder(TreeAt(t, g.root))
    requires DepthsKnown(depths, g, SetOf(PreOrder(TreeAt(t, g.root)))) && IsMaximum(depths, deepest)
    ensures x < |depths| && AtDepth(g, x, depths[x]) && depths[x] <= deepest
  {
    MetInRange(g, t, g.root, x);
    assert x in SetOf(PreOrder(TreeAt(t, g.root)));
  }

  /**
    `deepest` is the depth of a node the walk meets exactly when the walk finds a child below the
    root, or there is nothing besides the roots. Otherwise a node no walk meets supplies its
    starting depth of 1.
   */
  lemma DeepestIsMetDepth(depths: seq<nat>, deepest: nat, g: Graph, t: Chart)
    requires Linked(g) && Charted(g, t) && g.root in t
    requires DepthsKnown(depths, g, SetOf(PreOrder(TreeAt(t, g.root)))) && IsMaximum(depths, deepest)
    ensures (exists x :: x in PreOrder(TreeAt(t, g.root)) && AtDepth(g, x, deepest)) <==>
      Down(g, g.root) != [] || |depths| == if g.root == 0 then 1 else 2
    ensures Down(g, g.root) == [] && |depths| > 2 ==> deepest == 1
  {
    var order := PreOrder(TreeAt(t, g.root));
    var known := SetOf(order);
    var top :| 0 <= top < |depths| && depths[top] == deepest;
    assert g.root in order;
    MetDepths(depths, deepest, g, t, g.root);
    if Down(g, g.root) != [] {
      var c := Down(g, g.root)[0];
      KidIsMet(g, t, g.root, c);
      MetDepths(depths, deepest, g, t, c);
      DownDepth(g, [g.root], 0);
      DepthUnique(g, c, 1, depths[c]);
      if top in known {
        assert AtDepth(g, top, deepest);
      }
    } else {
      assert ChartedAt(g, t, g.root);
      assert order == [g.root];
      DepthUnique(g, g.root, 0, depths[g.root]);
      if |depths| == if g.root == 0 then 1 else 2 {
        assert AtDepth(g, g.root, deepest);
      } else {
        var other := if g.root == 1 then 2 else 1;
        assert depths[other] == 1;
      }
    }
  }
}
