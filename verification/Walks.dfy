/**
  The two explicit-stack walks of the analyzer: post-order with a "visited" flag, and pre-order.
  Each pops the top of a vector, so the last child pushed is walked first.
 */
module Walks {
  import opened ForestTheory

  /** An entry of a post-order stack: a node, and whether its children were already pushed. */
  type Entry = (nat, bool)

  // ---- The order in which nodes are finished --------------------------

  ghost function PostOrder(f: Forest): seq<nat> {
    match f
    case Nil => []
    case Cons(id, kids, rest) => PostOrder(rest) + PostOrder(kids) + [id]
  }

  ghost function PreOrder(f: Forest): seq<nat> {
    match f
    case Nil => []
    case Cons(id, kids, rest) => PreOrder(rest) + [id] + PreOrder(kids)
  }

  lemma PostOrderBag(f: Forest)
    ensures multiset(PostOrder(f)) == Bag(f)
  {
  }

  lemma PreOrderBag(f: Forest)
    ensures multiset(PreOrder(f)) == Bag(f)
  {
  }

  /** Children are finished before their parent. */
  lemma {:induction false} KidsFirst(g: Graph, f: Forest, list: seq<nat>, i: nat, c: nat)
    requires Mirrors(g, f, list)
    requires i < |PostOrder(f)| && c in Down(g, PostOrder(f)[i])
    ensures c in PostOrder(f)[..i]
    decreases f
  {
    var r, k := PostOrder(f.rest), PostOrder(f.kids);
    var p := PostOrder(f);
    if i < |r| {
      KidsFirst(g, f.rest, list[1..], i, c);
      assert p[..i] == r[..i];
    } else if i < |r| + |k| {
      KidsFirst(g, f.kids, Down(g, f.id), i - |r|, c);
      assert p[..i] == r + k[..i - |r|];
    } else {
      ListInBag(g, f.kids, Down(g, f.id), c);
      HasIsInBag(f.kids, c);
      PostOrderBag(f.kids);
      assert c in multiset(k);
      assert p[..i] == r + k;
    }
  }

  lemma OrderDistinct(s: seq<nat>, b: multiset<nat>)
    requires multiset(s) == b && forall j: nat :: b[j] <= 1
    ensures Distinct(s)
  {
    forall i, j | 0 <= i < j < |s| ensures s[i] != s[j] {
      assert s == s[..i] + [s[i]] + s[i + 1..j] + [s[j]] + s[j + 1..];
      assert multiset(s) == multiset(s[..i]) + multiset{s[i]} + multiset(s[i + 1..j]) + multiset{s[j]} + multiset(s[j + 1..]);
      assert b[s[i]] <= 1;
    }
  }

  lemma PostOrderDistinct(g: Graph, t: Chart, x: nat)
    requires Charted(g, t) && x in t
    ensures Distinct(PostOrder(TreeAt(t, x)))
  {
    assert ChartedAt(g, t, x);
    PostOrderBag(TreeAt(t, x));
    OrderDistinct(PostOrder(TreeAt(t, x)), Bag(TreeAt(t, x)));
  }

  lemma PreOrderDistinct(g: Graph, t: Chart, x: nat)
    requires Charted(g, t) && x in t
    ensures Distinct(PreOrder(TreeAt(t, x)))
  {
    assert ChartedAt(g, t, x);
    PreOrderBag(TreeAt(t, x));
    OrderDistinct(PreOrder(TreeAt(t, x)), Bag(TreeAt(t, x)));
  }

  // ---- Post-order stacks ---------------------------------------------

  ghost predicate StackIn(t: Chart, stack: seq<Entry>) {
    forall e :: e in stack ==> e.0 in t
  }

  /** Nodes that will still be finished, first to last. */
  ghost function Remaining(t: Chart, stack: seq<Entry>): seq<nat> {
    if stack == [] then [] else
      var top := stack[|stack| - 1];
      (if top.1 then [] else PostOrder(Beneath(t, top.0))) + [top.0] + Remaining(t, stack[..|stack| - 1])
  }

  /** Pops that are still to come. */
  ghost function Steps(t: Chart, stack: seq<Entry>): nat {
    if stack == [] then 0 else
      var top := stack[|stack| - 1];
      (if top.1 then 1 else 2 * (1 + |PostOrder(Beneath(t, top.0))|)) + Steps(t, stack[..|stack| - 1])
  }

  /** A walk starts with its root alone on the stack. */
  lemma StartStack(t: Chart, x: nat)
    ensures Remaining(t, [(x, false)]) == PostOrder(TreeAt(t, x))
  {
    assert [(x, false)][..0] == [];
  }

  function Unvisited(list: seq<nat>): seq<Entry> {
    seq(|list|, i requires 0 <= i < |list| => (list[i], false))
  }

  lemma {:induction false} UnvisitedSplit(stack: seq<Entry>, list: seq<nat>)
    requires list != []
    ensures stack + Unvisited(list) == (stack + [(list[0], false)]) + Unvisited(list[1..])
  {
  }

  lemma TopRemaining(t: Chart, below: seq<Entry>, x: nat, visited: bool)
    ensures Remaining(t, below + [(x, visited)]) ==
      (if visited then [] else PostOrder(Beneath(t, x))) + [x] + Remaining(t, below)
  {
    assert (below + [(x, visited)])[..|below|] == below;
  }

  lemma TopSteps(t: Chart, below: seq<Entry>, x: nat, visited: bool)
    ensures Steps(t, below + [(x, visited)]) ==
      (if visited then 1 else 2 * (1 + |PostOrder(Beneath(t, x))|)) + Steps(t, below)
  {
    assert (below + [(x, visited)])[..|below|] == below;
  }

  lemma Assoc(a: seq<nat>, b: seq<nat>, c: seq<nat>, d: seq<nat>)
    ensures a + (b + c + d) == (a + b + c) + d
  {
  }

  /** Pushing a list of nodes schedules exactly their trees, the last one first. */
  lemma {:induction false} PushAll(t: Chart, stack: seq<Entry>, list: seq<nat>)
    ensures Remaining(t, stack + Unvisited(list)) == PostOrder(Grow(t, list)) + Remaining(t, stack)
    decreases list
  {
    if list == [] {
      assert stack + Unvisited(list) == stack;
    } else {
      UnvisitedSplit(stack, list);
      PushAll(t, stack + [(list[0], false)], list[1..]);
      TopRemaining(t, stack, list[0], false);
      Assoc(PostOrder(Grow(t, list[1..])), PostOrder(Beneath(t, list[0])), [list[0]], Remaining(t, stack));
    }
  }

  lemma {:induction false} PushAllSteps(t: Chart, stack: seq<Entry>, list: seq<nat>)
    ensures Steps(t, stack + Unvisited(list)) == 2 * |PostOrder(Grow(t, list))| + Steps(t, stack)
    decreases list
  {
    if list == [] {
      assert stack + Unvisited(list) == stack;
    } else {
      UnvisitedSplit(stack, list);
      PushAllSteps(t, stack + [(list[0], false)], list[1..]);
      TopSteps(t, stack, list[0], false);
    }
  }

  /** Popping a visited entry: its node is the next one finished. */
  lemma PopVisited(t: Chart, stack: seq<Entry>)
    requires stack != [] && stack[|stack| - 1].1
    ensures Remaining(t, stack) == [stack[|stack| - 1].0] + Remaining(t, stack[..|stack| - 1])
    ensures Steps(t, stack[..|stack| - 1]) < Steps(t, stack)
  {
  }

  /** Expanding the top entry: its node stays scheduled, now below its children. */
  lemma Expand(g: Graph, t: Chart, below: seq<Entry>, x: nat) returns (after: seq<Entry>)
    requires Charted(g, t) && x in t && StackIn(t, below)
    ensures after == below + [(x, true)] + Unvisited(Down(g, x))
    ensures StackIn(t, after) && Remaining(t, after) == Remaining(t, below + [(x, false)])
    ensures Steps(t, after) < Steps(t, below + [(x, false)])
  {
    var mid := below + [(x, true)];
    after := mid + Unvisited(Down(g, x));
    assert ChartedAt(g, t, x);
    PushIn(t, mid, Down(g, x));
    ExpandRemaining(t, below, x, Down(g, x));
    PushAllSteps(t, mid, Down(g, x));
    TopSteps(t, below, x, false);
    TopSteps(t, below, x, true);
  }

  lemma ExpandRemaining(t: Chart, below: seq<Entry>, x: nat, kids: seq<nat>)
    requires x in t && t[x] == Grow(t, kids)
    ensures Remaining(t, below + [(x, true)] + Unvisited(kids)) == Remaining(t, below + [(x, false)])
  {
    TopRemaining(t, below, x, false);
    TopRemaining(t, below, x, true);
    PushAll(t, below + [(x, true)], kids);
    Assoc(PostOrder(t[x]), [], [x], Remaining(t, below));
  }

  lemma PushIn(t: Chart, stack: seq<Entry>, list: seq<nat>)
    requires StackIn(t, stack) && AllIn(t, list)
    ensures StackIn(t, stack + Unvisited(list))
  {
    forall e | e in stack + Unvisited(list) ensures e.0 in t {
      if e !in stack {
        var k :| 0 <= k < |list| && Unvisited(list)[k] == e;
        assert list[k] in list;
      }
    }
  }

  /** At the moment a node is finished: it is new, and its children are done. */
  lemma FinishNext(g: Graph, t: Chart, x: nat, finished: seq<nat>, y: nat, later: seq<nat>)
    requires Charted(g, t) && x in t
    requires finished + ([y] + later) == PostOrder(TreeAt(t, x))
    ensures y !in finished
    ensures forall c :: c in Down(g, y) ==> c in finished
  {
    var order := PostOrder(TreeAt(t, x));
    PostOrderDistinct(g, t, x);
    assert order[|finished|] == y;
    assert order[..|finished|] == finished;
    assert ChartedAt(g, t, x);
    forall c | c in Down(g, y) ensures c in finished {
      KidsFirst(g, TreeAt(t, x), [x], |finished|, c);
    }
  }

  // ---- Pre-order stacks ----------------------------------------------

  ghost function RemainingPre(t: Chart, stack: seq<nat>): seq<nat> {
    if stack == [] then [] else
      var top := stack[|stack| - 1];
      [top] + PreOrder(Beneath(t, top)) + RemainingPre(t, stack[..|stack| - 1])
  }

  lemma TopRemainingPre(t: Chart, below: seq<nat>, x: nat)
    ensures RemainingPre(t, below + [x]) == [x] + PreOrder(Beneath(t, x)) + RemainingPre(t, below)
  {
    assert (below + [x])[..|below|] == below;
  }

  lemma {:induction false} PushAllPre(t: Chart, stack: seq<nat>, list: seq<nat>)
    ensures RemainingPre(t, stack + list) == PreOrder(Grow(t, list)) + RemainingPre(t, stack)
    decreases list
  {
    if list == [] {
      assert stack + list == stack;
    } else {
      PushAllPre(t, stack + [list[0]], list[1..]);
      assert (stack + [list[0]]) + list[1..] == stack + list;
      TopRemainingPre(t, stack, list[0]);
      Assoc(PreOrder(Grow(t, list[1..])), [list[0]], PreOrder(Beneath(t, list[0])), RemainingPre(t, stack));
    }
  }

  lemma ExpandRemainingPre(t: Chart, below: seq<nat>, x: nat, kids: seq<nat>)
    requires x in t && t[x] == Grow(t, kids)
    ensures RemainingPre(t, below + [x]) == [x] + RemainingPre(t, below + kids)
  {
    TopRemainingPre(t, below, x);
    PushAllPre(t, below, kids);
    Assoc([], [x], PreOrder(t[x]), RemainingPre(t, below));
  }

  /** Popping the top and pushing its children keeps the schedule. */
  lemma StepPre(g: Graph, t: Chart, below: seq<nat>, x: nat)
    requires Charted(g, t) && x in t
    ensures AllIn(t, Down(g, x))
    ensures RemainingPre(t, below + [x]) == [x] + RemainingPre(t, below + Down(g, x))
  {
    assert ChartedAt(g, t, x);
    ExpandRemainingPre(t, below, x, Down(g, x));
  }

  // ---- Sums over a forest --------------------------------------------

  function Own(own: seq<nat>, x: nat): nat {
    if x < |own| then own[x] else 0
  }

  /** Exact sum of `own` over a forest; no counter width here. */
  ghost function Total(f: Forest, own: seq<nat>): nat {
    match f
    case Nil => 0
    case Cons(id, kids, rest) => Own(own, id) + Total(kids, own) + Total(rest, own)
  }

  /** Exact sum of `own` over the tree of `x`. */
  ghost function Weight(t: Chart, x: nat, own: seq<nat>): nat {
    Own(own, x) + Total(Beneath(t, x), own)
  }

  ghost function ListWeight(t: Chart, list: seq<nat>, own: seq<nat>): nat {
    if list == [] then 0 else Weight(t, list[0], own) + ListWeight(t, list[1..], own)
  }

  lemma {:induction false} ListWeightIsTotal(t: Chart, list: seq<nat>, own: seq<nat>)
    ensures ListWeight(t, list, own) == Total(Grow(t, list), own)
    decreases list
  {
    if list != [] {
      ListWeightIsTotal(t, list[1..], own);
    }
  }

  /** A node weighs its own value and the weights of its children. */
  lemma WeightStep(g: Graph, t: Chart, x: nat, own: seq<nat>)
    requires Charted(g, t) && x in t
    ensures Weight(t, x, own) == Own(own, x) + ListWeight(t, Down(g, x), own)
  {
    assert ChartedAt(g, t, x);
    ListWeightIsTotal(t, Down(g, x), own);
  }

  ghost function SeqSum(s: seq<nat>, own: seq<nat>): nat {
    if s == [] then 0 else SeqSum(s[..|s| - 1], own) + Own(own, s[|s| - 1])
  }

  lemma {:induction false} SeqSumConcat(s: seq<nat>, t: seq<nat>, own: seq<nat>)
    ensures SeqSum(s + t, own) == SeqSum(s, own) + SeqSum(t, own)
    decreases t
  {
    if t == [] {
      assert s + t == s;
    } else {
      assert (s + t)[..|s + t| - 1] == s + t[..|t| - 1];
      SeqSumConcat(s, t[..|t| - 1], own);
    }
  }

  /** Summing in visit order is summing over the forest. */
  lemma {:induction false} SumInPostOrder(f: Forest, own: seq<nat>)
    ensures SeqSum(PostOrder(f), own) == Total(f, own)
    decreases f
  {
    if f.Cons? {
      SumInPostOrder(f.kids, own);
      SumInPostOrder(f.rest, own);
      SeqSumConcat(PostOrder(f.rest), PostOrder(f.kids), own);
      SeqSumConcat(PostOrder(f.rest) + PostOrder(f.kids), [f.id], own);
      assert SeqSum([f.id], own) == Own(own, f.id) by { assert [f.id][..0] == []; }
    }
  }

  // ---- How many nodes a walk can meet --------------------------------

  lemma HeadIn(s: seq<nat>)
    requires s != []
    ensures s[0] in s
  {
  }

  lemma {:induction false} DistinctBound(s: seq<nat>, n: nat)
    requires Distinct(s) && forall x :: x in s ==> x < n
    ensures |s| <= n
    decreases n
  {
    if n > 0 {
      if n - 1 in s {
        var k :| 0 <= k < |s| && s[k] == n - 1;
        var t := s[..k] + s[k + 1..];
        assert forall x :: x in t ==> x in s && x != n - 1;
        DistinctBound(t, n - 1);
      } else {
        DistinctBound(s, n - 1);
      }
    } else if s != [] {
      HeadIn(s);
    }
  }

  /** A walk meets at most as many nodes as there are. */
  lemma WalkBound(g: Graph, t: Chart, x: nat)
    requires Charted(g, t) && x in t
    requires forall y :: y in t ==> y < |g.parent|
    ensures |PostOrder(TreeAt(t, x))| <= |g.parent|
  {
    var order := PostOrder(TreeAt(t, x));
    PostOrderDistinct(g, t, x);
    assert ChartedAt(g, t, x);
    forall j | j in order ensures j < |g.parent| {
      PostOrderBag(TreeAt(t, x));
      assert j in multiset(order);
      HasIsInBag(TreeAt(t, x), j);
      HasInChart(g, t, TreeAt(t, x), [x], j);
    }
    DistinctBound(order, |g.parent|);
  }

  lemma {:induction false} HasInChart(g: Graph, t: Chart, f: Forest, list: seq<nat>, j: nat)
    requires Charted(g, t) && Mirrors(g, f, list) && AllIn(t, list) && Has(f, j)
    ensures j in t
    decreases f
  {
    assert list[0] in t && ChartedAt(g, t, list[0]);
    if j == f.id {
    } else if Has(f.kids, j) {
      HasInChart(g, t, f.kids, Down(g, f.id), j);
    } else {
      HasInChart(g, t, f.rest, list[1..], j);
    }
  }

  /** A 0/1 counter over a tree stays within the number of nodes. */
  lemma {:induction false} CountBound(f: Forest, own: seq<nat>)
    requires forall i :: 0 <= i < |own| ==> own[i] <= 1
    ensures Total(f, own) <= |PostOrder(f)|
    decreases f
  {
    if f.Cons? {
      CountBound(f.kids, own);
      CountBound(f.rest, own);
    }
  }

  lemma HasIffReached(g: Graph, t: Chart, x: nat, j: nat)
    requires Linked(g) && Complete(g) && Charted(g, t) && x in t
    ensures Has(TreeAt(t, x), j) <==> Reached(g, x, j)
    ensures Has(TreeAt(t, x), j) ==> j in t
  {
    var f := TreeAt(t, x);
    assert ChartedAt(g, t, x);
    if Has(f, j) {
      var a, i := BagSound(g, f, [x], j);
      HasInChart(g, t, f, [x], j);
    } else if Reached(g, x, j) {
      var i: nat :| Below(g, x, j, i);
      BagComplete(g, f, [x], x, j, i);
    }
  }

  lemma MetIffReached(g: Graph, t: Chart, x: nat, j: nat)
    requires Linked(g) && Complete(g) && Charted(g, t) && x in t
    ensures j in PostOrder(TreeAt(t, x)) <==> Reached(g, x, j)
    ensures j in PreOrder(TreeAt(t, x)) <==> Reached(g, x, j)
    ensures Reached(g, x, j) ==> j in t
  {
    var f := TreeAt(t, x);
    HasIffReached(g, t, x, j);
    HasIsInBag(f, j);
    PostOrderBag(f);
    PreOrderBag(f);
    assert j in PostOrder(f) <==> j in multiset(PostOrder(f));
    assert j in PreOrder(f) <==> j in multiset(PreOrder(f));
  }
}
