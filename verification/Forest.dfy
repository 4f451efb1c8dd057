/**
  Why walks over the analyzed volume end.

  The links of a volume form a graph in which every node has at most one parent slot and the
  root has none. A walk keeps no visited set, so it relies on one fact: below a node whose
  parent chain reaches the root, the links unroll to a finite forest without repetition.
  Cyclic components exist, but no such walk can enter them.
 */
module ForestTheory {

  /** Links of a volume. `descends[x]` says whether a walk looks below `x`. */
  datatype Graph = Graph(parent: seq<nat>, kids: seq<seq<nat>>, descends: seq<bool>, root: nat)

  /** A list of finite trees: the first tree is `id` over `kids`, the others are `rest`. */
  datatype Forest = Nil | Cons(id: nat, kids: Forest, rest: Forest)

  ghost predicate Distinct(s: seq<nat>) {
    forall i, j :: 0 <= i < j < |s| ==> s[i] != s[j]
  }

  /** Child slots agree with the parent function, no child is listed twice, and the root is nobody's child. */
  ghost predicate Linked(g: Graph) {
    && |g.parent| == |g.kids| == |g.descends|
    && g.root < |g.parent|
    && (forall x :: 0 <= x < |g.parent| ==> g.parent[x] < |g.parent|)
    && (forall x :: 0 <= x < |g.kids| ==> Distinct(g.kids[x]))
    && (forall x, c {:trigger c in g.kids[x]} :: 0 <= x < |g.kids| && c in g.kids[x] ==> c < |g.parent| && c != g.root && c != x && g.parent[c] == x)
  }

  /** Every node with a parent other than itself occupies a slot of that parent. */
  ghost predicate Complete(g: Graph)
    requires Linked(g)
  {
    forall c :: 0 <= c < |g.parent| && c != g.root && g.parent[c] != c ==> c in g.kids[g.parent[c]]
  }

  /** The children a walk continues with. */
  function Down(g: Graph, x: nat): seq<nat> {
    if x < |g.kids| && x < |g.descends| && g.descends[x] then g.kids[x] else []
  }

  /** `x` is `d` parent steps away from the root, the root being met for the first time. */
  ghost predicate AtDepth(g: Graph, x: nat, d: nat)
    requires Linked(g)
    decreases d
  {
    if d == 0 then x == g.root
    else x < |g.parent| && x != g.root && AtDepth(g, g.parent[x], d - 1)
  }

  /** The parent chain of `x` reaches the root. */
  ghost predicate Rooted(g: Graph, x: nat)
    requires Linked(g)
  {
    exists d: nat :: AtDepth(g, x, d)
  }

  ghost predicate AllRooted(g: Graph, list: seq<nat>)
    requires Linked(g)
  {
    forall c :: c in list ==> Rooted(g, c)
  }

  lemma {:induction false} DepthUnique(g: Graph, x: nat, d: nat, e: nat)
    requires Linked(g) && AtDepth(g, x, d) && AtDepth(g, x, e)
    ensures d == e
    decreases d
  {
    if d > 0 && e > 0 {
      DepthUnique(g, g.parent[x], d - 1, e - 1);
    }
  }

  lemma KidRooted(g: Graph, x: nat, c: nat)
    requires Linked(g) && Rooted(g, x) && x < |g.kids| && c in g.kids[x]
    ensures Rooted(g, c)
    ensures c < |g.parent|
  {
    var d: nat :| AtDepth(g, x, d);
    assert AtDepth(g, c, d + 1);
  }

  lemma RootedInRange(g: Graph, x: nat)
    requires Linked(g) && Rooted(g, x)
    ensures x < |g.parent|
  {
    var d: nat :| AtDepth(g, x, d);
  }

  // ---- Unrolling ------------------------------------------------------

  /** `f` spells out everything a walk meets from `list` downwards. */
  ghost predicate Mirrors(g: Graph, f: Forest, list: seq<nat>)
    decreases f
  {
    match f
    case Nil => list == []
    case Cons(id, kids, rest) =>
      && list != [] && list[0] == id
      && Mirrors(g, kids, Down(g, id))
      && Mirrors(g, rest, list[1..])
  }

  /** Two forests that mirror the same list are the same forest. */
  lemma {:induction false} MirrorUnique(g: Graph, f: Forest, h: Forest, list: seq<nat>)
    requires Mirrors(g, f, list) && Mirrors(g, h, list)
    ensures f == h
    decreases f
  {
    if f.Cons? {
      MirrorUnique(g, f.kids, h.kids, Down(g, f.id));
      MirrorUnique(g, f.rest, h.rest, list[1..]);
    }
  }

  ghost function Indices(n: nat): (s: set<nat>)
    ensures forall i: nat :: i in s <==> i < n
    ensures |s| == n
  {
    if n == 0 then {} else Indices(n - 1) + {n - 1}
  }

  ghost predicate ClosedUpwards(g: Graph, above: set<nat>)
    requires Linked(g)
  {
    forall a :: a in above ==> a < |g.parent| && (a == g.root || g.parent[a] in above)
  }

  /**
    The heart of termination. Going down from `x`, a child can never be one of the nodes above:
    its only parent is `x`, while the parents of the nodes above are again above. Hence the
    set of nodes not yet above shrinks with every level.
   */
  lemma {:induction false} Unroll(g: Graph, x: nat, above: set<nat>) returns (f: Forest)
    requires Linked(g) && x < |g.parent| && x !in above
    requires ClosedUpwards(g, above) && (x == g.root || g.parent[x] in above)
    ensures Mirrors(g, f, Down(g, x))
    decreases Indices(|g.parent|) - above
  {
    var list := Down(g, x);
    f := Nil;
    var i := |list|;
    while i > 0
      invariant 0 <= i <= |list|
      invariant Mirrors(g, f, list[i..])
    {
      i := i - 1;
      var c := list[i];
      assert c in g.kids[x] && g.parent[c] == x;
      assert c !in above;
      var kids := Unroll(g, c, above + {x});
      assert list[i..][1..] == list[i + 1..];
      f := Cons(c, kids, f);
    }
  }

  ghost predicate Shallower(g: Graph, a: nat, d: nat)
    requires Linked(g)
  {
    exists e: nat :: e < d && AtDepth(g, a, e)
  }

  ghost function Ancestors(g: Graph, x: nat, d: nat): (above: set<nat>)
    requires Linked(g) && AtDepth(g, x, d)
    ensures ClosedUpwards(g, above)
    ensures d == 0 || g.parent[x] in above
    ensures forall a :: a in above ==> Shallower(g, a, d)
    decreases d
  {
    if d == 0 then {} else
      assert AtDepth(g, g.parent[x], d - 1);
      assert Shallower(g, g.parent[x], d);
      Ancestors(g, g.parent[x], d - 1) + {g.parent[x]}
  }

  lemma TreeExists(g: Graph, x: nat)
    requires Linked(g) && Rooted(g, x)
    ensures exists f :: Mirrors(g, f, Down(g, x))
  {
    var d: nat :| AtDepth(g, x, d);
    var above := Ancestors(g, x, d);
    if x in above {
      var e: nat :| e < d && AtDepth(g, x, e);
      DepthUnique(g, x, d, e);
      assert false;
    }
    var f := Unroll(g, x, above);
  }

  /** Everything below `x`. */
  ghost function Branch(g: Graph, x: nat): (f: Forest)
    requires Linked(g) && Rooted(g, x)
    ensures Mirrors(g, f, Down(g, x))
  {
    TreeExists(g, x);
    var f :| Mirrors(g, f, Down(g, x));
    f
  }

  lemma DownRooted(g: Graph, x: nat)
    requires Linked(g) && Rooted(g, x)
    ensures AllRooted(g, Down(g, x))
  {
    forall c | c in Down(g, x) ensures Rooted(g, c) {
      KidRooted(g, x, c);
    }
  }

  // ---- Contents of a forest ------------------------------------------

  ghost function Bag(f: Forest): multiset<nat> {
    match f
    case Nil => multiset{}
    case Cons(id, kids, rest) => multiset{id} + Bag(kids) + Bag(rest)
  }

  ghost predicate Has(f: Forest, j: nat) {
    f.Cons? && (j == f.id || Has(f.kids, j) || Has(f.rest, j))
  }

  lemma HasIsInBag(f: Forest, j: nat)
    ensures Has(f, j) <==> j in Bag(f)
  {
  }

  /** `i` parent steps from `j`. */
  ghost function Up(g: Graph, j: nat, i: nat): nat
    requires Linked(g)
    decreases i
  {
    if i == 0 then j
    else if j < |g.parent| then Up(g, g.parent[j], i - 1)
    else j
  }

  /** `j` is `i` levels below `a`, and the walk descends at every level in between. */
  ghost predicate Below(g: Graph, a: nat, j: nat, i: nat)
    requires Linked(g)
    decreases i
  {
    if i == 0 then j == a
    else
      && j < |g.parent| && j != g.root && g.parent[j] != j
      && g.descends[g.parent[j]] && Below(g, a, g.parent[j], i - 1)
  }

  /** A node of a forest has an ancestor in the forest's list, as far up as their depths differ. */
  lemma {:induction false} BagUp(g: Graph, f: Forest, list: seq<nat>, d: nat, j: nat) returns (e: nat)
    requires Linked(g) && Mirrors(g, f, list) && Has(f, j)
    requires AllAtDepth(g, list, d)
    ensures d <= e && AtDepth(g, j, e) && Up(g, j, e - d) in list
    decreases f
  {
    DownDepth(g, list, d);
    if j == f.id {
      e := d;
      assert Up(g, j, 0) == list[0];
    } else if Has(f.rest, j) {
      e := BagUp(g, f.rest, list[1..], d, j);
    } else {
      e := BagUp(g, f.kids, Down(g, f.id), d + 1, j);
      UpFromKid(g, list, d, j, e);
    }
  }

  lemma UpFromKid(g: Graph, list: seq<nat>, d: nat, j: nat, e: nat)
    requires Linked(g) && list != [] && d < e && AtDepth(g, j, e)
    requires Up(g, j, e - (d + 1)) in Down(g, list[0])
    ensures Up(g, j, e - d) == list[0]
  {
    var i: nat := e - (d + 1);
    UpSplit(g, j, i);
    assert e - d == i + 1;
  }

  ghost predicate AllAtDepth(g: Graph, list: seq<nat>, d: nat)
    requires Linked(g)
  {
    forall c :: c in list ==> AtDepth(g, c, d)
  }

  lemma DownDepth(g: Graph, list: seq<nat>, d: nat)
    requires Linked(g) && list != [] && AllAtDepth(g, list, d)
    ensures list[0] < |g.parent| && AtDepth(g, list[0], d)
    ensures AllAtDepth(g, list[1..], d) && AllAtDepth(g, Down(g, list[0]), d + 1)
  {
    assert list[0] in list;
    forall c: nat | c in Down(g, list[0]) ensures AtDepth(g, c, d + 1) {
      assert c in g.kids[list[0]] && g.parent[c] == list[0];
    }
    forall c | c in list[1..] ensures AtDepth(g, c, d) {
      assert c in list;
    }
  }

  lemma {:induction false} UpSplit(g: Graph, j: nat, i: nat)
    requires Linked(g) && j < |g.parent|
    ensures Up(g, j, i) < |g.parent| && Up(g, j, i + 1) == g.parent[Up(g, j, i)]
    decreases i
  {
    if i > 0 {
      UpSplit(g, g.parent[j], i - 1);
    }
  }

  /** The trees of two siblings share nothing, and neither contains the other's ancestors. */
  lemma {:induction false} HeadApart(g: Graph, f: Forest, list: seq<nat>, d: nat, j: nat)
    requires Linked(g) && Mirrors(g, f, list) && Distinct(list) && f.Cons?
    requires AllAtDepth(g, list, d)
    ensures Has(f.kids, j) ==> j != f.id && !Has(f.rest, j)
    ensures Has(f.rest, j) ==> j != f.id
  {
    DownDepth(g, list, d);
    if Has(f.kids, j) {
      var e := BagUp(g, f.kids, Down(g, f.id), d + 1, j);
      UpFromKid(g, list, d, j, e);
      if j == f.id {
        DepthUnique(g, j, d, e);
      }
      if Has(f.rest, j) {
        var e' := BagUp(g, f.rest, list[1..], d, j);
        DepthUnique(g, j, e, e');
      }
    } else if Has(f.rest, j) && j == f.id {
      var e' := BagUp(g, f.rest, list[1..], d, j);
      DepthUnique(g, j, d, e');
    }
  }

  /** No walk meets a node twice, although none of them remembers where it has been. */
  lemma {:induction false} NoRepetition(g: Graph, f: Forest, list: seq<nat>, d: nat, j: nat)
    requires Linked(g) && Mirrors(g, f, list) && Distinct(list)
    requires AllAtDepth(g, list, d)
    ensures Bag(f)[j] <= 1
    decreases f
  {
    if f.Cons? {
      DownDepth(g, list, d);
      NoRepetition(g, f.kids, Down(g, f.id), d + 1, j);
      NoRepetition(g, f.rest, list[1..], d, j);
      HeadApart(g, f, list, d, j);
      HasIsInBag(f.kids, j);
      HasIsInBag(f.rest, j);
    }
  }

  /** The tree of one node, and the fact that nothing repeats in it. */
  lemma BranchNoRepetition(g: Graph, x: nat, j: nat)
    requires Linked(g) && Rooted(g, x)
    ensures (Bag(Branch(g, x)) + multiset{x})[j] <= 1
  {
    var d: nat :| AtDepth(g, x, d);
    var f := Cons(x, Branch(g, x), Nil);
    assert Mirrors(g, f, [x]);
    NoRepetition(g, f, [x], d, j);
  }

  /** The walk from `list` meets exactly the nodes below it that are reached by descending. */
  lemma {:induction false} BagSound(g: Graph, f: Forest, list: seq<nat>, j: nat) returns (a: nat, i: nat)
    requires Linked(g) && Mirrors(g, f, list) && Has(f, j)
    ensures a in list && Below(g, a, j, i)
    decreases f
  {
    if j == f.id {
      a, i := j, 0;
    } else if Has(f.rest, j) {
      a, i := BagSound(g, f.rest, list[1..], j);
    } else {
      var c, k := BagSound(g, f.kids, Down(g, f.id), j);
      BelowExtend(g, f.id, c, j, k);
      a, i := f.id, k + 1;
    }
  }

  lemma {:induction false} BelowExtend(g: Graph, a: nat, c: nat, j: nat, i: nat)
    requires Linked(g) && c in Down(g, a) && Below(g, c, j, i)
    ensures Below(g, a, j, i + 1)
    decreases i
  {
    if i > 0 {
      BelowExtend(g, a, c, g.parent[j], i - 1);
    }
  }

  /** The converse of BagSound: what lies below the list is met. */
  lemma {:induction false} BagComplete(g: Graph, f: Forest, list: seq<nat>, a: nat, j: nat, i: nat)
    requires Linked(g) && Complete(g) && Mirrors(g, f, list)
    requires a in list && Below(g, a, j, i)
    ensures Has(f, j)
    decreases i
  {
    if i == 0 {
      ListInBag(g, f, list, a);
    } else {
      BagComplete(g, f, list, a, g.parent[j], i - 1);
      BagClosed(g, f, list, g.parent[j], j);
    }
  }

  lemma {:induction false} ListInBag(g: Graph, f: Forest, list: seq<nat>, a: nat)
    requires Mirrors(g, f, list) && a in list
    ensures Has(f, a)
    decreases f
  {
    if a != f.id {
      ListInBag(g, f.rest, list[1..], a);
    }
  }

  lemma {:induction false} BagClosed(g: Graph, f: Forest, list: seq<nat>, x: nat, c: nat)
    requires Mirrors(g, f, list) && Has(f, x) && c in Down(g, x)
    ensures Has(f, c)
    decreases f
  {
    if x == f.id {
      ListInBag(g, f.kids, Down(g, x), c);
    } else if Has(f.kids, x) {
      BagClosed(g, f.kids, Down(g, f.id), x, c);
    } else {
      BagClosed(g, f.rest, list[1..], x, c);
    }
  }

  // ---- When a walk ends -------------------------------------------------

  /** The links below `x` unroll to a finite forest, so that a walk from `x` ends. */
  ghost predicate Ends(g: Graph, x: nat) {
    exists f :: Mirrors(g, f, Down(g, x))
  }

  /** `x` is met again some levels below itself. */
  ghost predicate OnCycle(g: Graph, x: nat)
    requires Linked(g)
  {
    exists n: nat :: n > 0 && Below(g, x, x, n)
  }

  /** `j` is reached from `x` by stepping from descended nodes to their children. */
  ghost predicate Reached(g: Graph, x: nat, j: nat)
    requires Linked(g)
  {
    exists i: nat :: Below(g, x, j, i)
  }

  ghost predicate MeetsCycle(g: Graph, x: nat)
    requires Linked(g)
  {
    exists j: nat :: Reached(g, x, j) && OnCycle(g, j)
  }

  function Size(f: Forest): nat {
    match f
    case Nil => 0
    case Cons(id, kids, rest) => 1 + Size(kids) + Size(rest)
  }

  /** The trees below a member of a forest are a smaller forest. */
  lemma {:induction false} BeneathMember(g: Graph, f: Forest, list: seq<nat>, j: nat) returns (h: Forest)
    requires Mirrors(g, f, list) && Has(f, j)
    ensures Mirrors(g, h, Down(g, j)) && Size(h) < Size(f)
    decreases f
  {
    if j == f.id {
      h := f.kids;
    } else if Has(f.kids, j) {
      h := BeneathMember(g, f.kids, Down(g, f.id), j);
    } else {
      h := BeneathMember(g, f.rest, list[1..], j);
    }
  }

  /** The first step of a way down. */
  lemma {:induction false} FirstStep(g: Graph, a: nat, j: nat, n: nat) returns (c: nat)
    requires Linked(g) && Complete(g) && n > 0 && Below(g, a, j, n)
    ensures c in Down(g, a) && Below(g, c, j, n - 1)
    decreases n
  {
    if n == 1 {
      c := j;
    } else {
      c := FirstStep(g, a, g.parent[j], n - 1);
    }
  }

  /** What lies some levels below `x` is a member of the forest below `x`. */
  lemma BelowIsMember(g: Graph, f: Forest, x: nat, j: nat, n: nat)
    requires Linked(g) && Complete(g) && n > 0 && Below(g, x, j, n) && Mirrors(g, f, Down(g, x))
    ensures Has(f, j)
  {
    var c := FirstStep(g, x, j, n);
    BagComplete(g, f, Down(g, x), c, j, n - 1);
  }

  lemma CycleHasNoForest(g: Graph, x: nat, f: Forest)
    requires Linked(g) && Complete(g) && OnCycle(g, x)
    ensures !Mirrors(g, f, Down(g, x))
  {
    if Mirrors(g, f, Down(g, x)) {
      var n: nat :| n > 0 && Below(g, x, x, n);
      BelowIsMember(g, f, x, x, n);
      var h := BeneathMember(g, f, Down(g, x), x);
      MirrorUnique(g, f, h, Down(g, x));
    }
  }

  lemma EndingMeetsNoCycle(g: Graph, x: nat)
    requires Linked(g) && Complete(g) && Ends(g, x)
    ensures !MeetsCycle(g, x)
  {
    var f :| Mirrors(g, f, Down(g, x));
    forall j: nat | Reached(g, x, j) ensures !OnCycle(g, j) {
      var i: nat :| Below(g, x, j, i);
      var h := f;
      if i > 0 {
        BelowIsMember(g, f, x, j, i);
        h := BeneathMember(g, f, Down(g, x), j);
      }
      if OnCycle(g, j) {
        CycleHasNoForest(g, j, h);
      }
    }
  }

  /** `above` are the nodes passed on the way from `x` down to `y`. */
  ghost predicate Passed(g: Graph, above: set<nat>, x: nat, y: nat)
    requires Linked(g)
  {
    && Reached(g, x, y)
    && forall a :: a in above ==> a < |g.parent| && Reached(g, x, a) && Reached(g, a, y)
  }

  lemma OneStepOn(g: Graph, a: nat, y: nat, c: nat)
    requires Linked(g) && Reached(g, a, y) && c in Down(g, y)
    ensures Reached(g, a, c) && (a == c ==> OnCycle(g, c))
  {
    var i: nat :| Below(g, a, y, i);
    assert Below(g, a, c, i + 1);
  }

  lemma PassedOn(g: Graph, above: set<nat>, x: nat, y: nat, c: nat)
    requires Linked(g) && y < |g.parent| && Passed(g, above, x, y) && c in Down(g, y) && !MeetsCycle(g, x)
    ensures Passed(g, above + {y}, x, c) && c !in above + {y}
  {
    assert Below(g, y, y, 0) && Below(g, x, x, 0);
    OneStepOn(g, x, y, c);
    forall a | a in above + {y} ensures Reached(g, a, c) && a != c {
      OneStepOn(g, a, y, c);
    }
  }

  /** Going down without meeting a cycle never returns to a node passed before, so the nodes run out. */
  lemma {:induction false} UnrollAcyclic(g: Graph, x: nat, y: nat, above: set<nat>) returns (f: Forest)
    requires Linked(g) && y < |g.parent| && y !in above && Passed(g, above, x, y) && !MeetsCycle(g, x)
    ensures Mirrors(g, f, Down(g, y))
    decreases Indices(|g.parent|) - above
  {
    var list := Down(g, y);
    f := Nil;
    var i := |list|;
    while i > 0
      invariant 0 <= i <= |list|
      invariant Mirrors(g, f, list[i..])
    {
      i := i - 1;
      var c := list[i];
      PassedOn(g, above, x, y, c);
      assert c in g.kids[y];
      var kids := UnrollAcyclic(g, x, c, above + {y});
      assert list[i..][1..] == list[i + 1..];
      f := Cons(c, kids, f);
    }
  }

  /** A walk ends exactly if it meets no node that lies on a cycle of links it follows. */
  lemma EndsIffNoCycle(g: Graph, x: nat)
    requires Linked(g) && Complete(g) && x < |g.parent|
    ensures Ends(g, x) <==> !MeetsCycle(g, x)
  {
    if Ends(g, x) {
      EndingMeetsNoCycle(g, x);
    }
    if !MeetsCycle(g, x) {
      assert Below(g, x, x, 0);
      var f := UnrollAcyclic(g, x, x, {});
    }
  }

  /** In particular from every node whose parent chain reaches the root. */
  lemma RootedMeetsNoCycle(g: Graph, x: nat)
    requires Linked(g) && Complete(g) && Rooted(g, x)
    ensures Ends(g, x) && !MeetsCycle(g, x)
  {
    TreeExists(g, x);
    EndingMeetsNoCycle(g, x);
  }

  // ---- Charts ---------------------------------------------------------

  /** What lies below each node a walk may start from. */
  type Chart = map<nat, Forest>

  function Beneath(t: Chart, x: nat): Forest {
    if x in t then t[x] else Nil
  }

  /** The trees of the nodes of `list`. */
  ghost function Grow(t: Chart, list: seq<nat>): Forest {
    if list == [] then Nil else Cons(list[0], Beneath(t, list[0]), Grow(t, list[1..]))
  }

  ghost function TreeAt(t: Chart, x: nat): Forest {
    Cons(x, Beneath(t, x), Nil)
  }

  ghost predicate AllIn(t: Chart, list: seq<nat>) {
    forall c :: c in list ==> c in t
  }

  ghost predicate ChartedAt(g: Graph, t: Chart, x: nat)
    requires x in t
  {
    && x < |g.parent|
    && Mirrors(g, t[x], Down(g, x))
    && AllIn(t, Down(g, x))
    && t[x] == Grow(t, Down(g, x))
    && forall j: nat :: Bag(TreeAt(t, x))[j] <= 1
  }

  /** Below every node of the chart the links unroll to a finite forest in which no node repeats. */
  ghost predicate Charted(g: Graph, t: Chart) {
    forall x {:trigger ChartedAt(g, t, x)} :: x in t ==> ChartedAt(g, t, x)
  }

  /** The chart of all nodes whose parent chain reaches the root. */
  ghost function ChartOf(g: Graph): (t: Chart)
    requires Linked(g)
    ensures forall x: nat :: x in t <==> Rooted(g, x)
  {
    var t := map x | x in Indices(|g.parent|) && Rooted(g, x) :: Branch(g, x);
    assert forall x: nat :: x in t <==> Rooted(g, x) by {
      forall x: nat | Rooted(g, x) ensures x in Indices(|g.parent|) { RootedInRange(g, x); }
    }
    t
  }

  lemma {:induction false} GrowMirrors(g: Graph, list: seq<nat>)
    requires Linked(g) && AllRooted(g, list)
    ensures Mirrors(g, Grow(ChartOf(g), list), list)
    decreases list
  {
    if list != [] {
      assert list[0] in list;
      assert forall c :: c in list[1..] ==> c in list;
      GrowMirrors(g, list[1..]);
    }
  }

  /** Termination and single visits, for every walk that starts at a node with a parent chain to the root. */
  lemma ChartOfCharted(g: Graph)
    requires Linked(g)
    ensures Charted(g, ChartOf(g))
  {
    var t := ChartOf(g);
    forall x {:trigger ChartedAt(g, t, x)} | x in t ensures ChartedAt(g, t, x) {
      RootedInRange(g, x);
      DownRooted(g, x);
      GrowMirrors(g, Down(g, x));
      MirrorUnique(g, t[x], Grow(t, Down(g, x)), Down(g, x));
      forall j: nat ensures Bag(TreeAt(t, x))[j] <= 1 { BranchNoRepetition(g, x, j); }
    }
  }
}
