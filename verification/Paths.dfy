/** Climbing from a node to the root: the breadcrumb chain and the displayed path. */
module Paths {
  import opened BuiltVolume
  import opened DiskModel
  import opened Folding
  import opened ForestTheory
  import opened ParentLinks
  import opened Walks

  // ---- Depths are bounded ------------------------------------------------------------

  ghost function Climb(g: Graph, x: nat, d: nat): (chain: seq<nat>)
    requires Linked(g) && AtDepth(g, x, d)
    ensures |chain| == d + 1 && chain[0] == g.root && chain[d] == x
    decreases d
  {
    if d == 0 then [x] else Climb(g, g.parent[x], d - 1) + [x]
  }

  /** Entry `i` of the chain to the root sits at depth `i`. */
  lemma {:induction false} ClimbDepths(g: Graph, x: nat, d: nat, i: nat)
    requires Linked(g) && AtDepth(g, x, d) && i <= d
    ensures AtDepth(g, Climb(g, x, d)[i], i)
    ensures i < d ==> Climb(g, x, d)[i + 1] < |g.parent| && g.parent[Climb(g, x, d)[i + 1]] == Climb(g, x, d)[i]
    decreases d
  {
    if i < d {
      ClimbDepths(g, g.parent[x], d - 1, i);
    }
  }

  lemma DepthBound(g: Graph, x: nat, d: nat)
    requires Linked(g) && AtDepth(g, x, d)
    ensures d < |g.parent|
  {
    var chain := Climb(g, x, d);
    forall i, j | 0 <= i < j < |chain| ensures chain[i] != chain[j] {
      ClimbDepths(g, x, d, i);
      ClimbDepths(g, x, d, j);
      if chain[i] == chain[j] {
        DepthUnique(g, chain[i], i, j);
      }
    }
    forall c | c in chain ensures c < |g.parent| {
      var i :| 0 <= i < |chain| && chain[i] == c;
      ClimbDepths(g, x, d, i);
      RootedInRange(g, c);
    }
    DistinctBound(chain, |g.parent|);
  }

  // ---- The breadcrumb chain --------------------------------------------------------------

  /** A top-down list of nodes, each the parent of the next. */
  ghost predicate ParentChain(nodes: seq<AnalysisNode>, chain: seq<nat>) {
    && (forall i :: 0 <= i < |chain| ==> chain[i] < |nodes|)
    && (forall i, j {:trigger chain[i], chain[j]} :: 0 <= i < |chain| - 1 && j == i + 1 ==> chain[i] == nodes[chain[j]].parent && chain[i] != chain[j])
  }

  ghost predicate ParentsInRange(m: DiskAnalysisModel) {
    forall x {:trigger m.nodes[x].parent} :: 0 <= x < |m.nodes| ==> m.nodes[x].parent < |m.nodes|
  }

  function Reverse(s: seq<nat>): (r: seq<nat>)
    ensures |r| == |s|
  {
    if s == [] then [] else Reverse(s[1..]) + [s[0]]
  }

  lemma {:induction false} ReverseAt(s: seq<nat>, i: nat)
    requires i < |s|
    ensures Reverse(s)[i] == s[|s| - 1 - i]
    decreases s
  {
    if i < |s| - 1 {
      ReverseAt(s[1..], i);
    }
  }

  /** A bottom-up list of nodes, each followed by its parent. */
  ghost predicate ClimbList(nodes: seq<AnalysisNode>, up: seq<nat>) {
    && (forall i {:trigger up[i]} :: 0 <= i < |up| ==> up[i] < |nodes|)
    && (forall i, j {:trigger up[i], up[j]} :: 0 <= i < |up| - 1 && j == i + 1 ==> nodes[up[i]].parent == up[j] && up[i] != up[j])
  }

  lemma ReversedClimb(nodes: seq<AnalysisNode>, up: seq<nat>)
    requires ClimbList(nodes, up) && up != []
    ensures ParentChain(nodes, Reverse(up))
    ensures Reverse(up)[|up| - 1] == up[0] && Reverse(up)[0] == up[|up| - 1]
  {
    var chain := Reverse(up);
    forall i | 0 <= i < |chain|
      ensures chain[i] < |nodes|
      ensures 1 <= i ==> chain[i - 1] == nodes[chain[i]].parent && chain[i - 1] != chain[i]
    {
      ReverseAt(up, i);
      if 1 <= i {
        ReverseAt(up, i - 1);
        assert up[|up| - 1 - i] == chain[i] && up[|up| - i] == chain[i - 1];
      }
    }
    ReverseAt(up, 0);
    ReverseAt(up, |up| - 1);
  }

  /**
    The chain of ancestors of any node, from the top down. It starts at a node that is its own
    parent, unless the node hangs off a cycle; then the walk is cut after one node more than exist.
   */
  method ChainTo(m: DiskAnalysisModel, idx: nat) returns (chain: seq<nat>)
    requires ParentsInRange(m) && idx < |m.nodes|
    ensures chain != [] && chain[|chain| - 1] == idx && ParentChain(m.nodes, chain)
    ensures m.nodes[chain[0]].parent == chain[0] || |chain| == |m.nodes| + 1
  {
    var up: seq<nat> := [];
    var current := idx;
    while |up| <= |m.nodes|
      invariant |up| <= |m.nodes| + 1 && current < |m.nodes| && ClimbList(m.nodes, up)
      invariant up == [] ==> current == idx
      invariant up != [] ==> up[0] == idx && m.nodes[up[|up| - 1]].parent == current && up[|up| - 1] != current
      decreases |m.nodes| + 1 - |up|
    {
      up := up + [current];
      var parent := m.nodes[current].parent;
      if parent == current {
        break;
      }
      current := parent;
    }
    ReversedClimb(m.nodes, up);
    chain := Reverse(up);
  }

  lemma ParentChainFront(nodes: seq<AnalysisNode>, chain: seq<nat>)
    requires ParentChain(nodes, chain) && |chain| > 1
    ensures ParentChain(nodes, chain[..|chain| - 1]) && chain[..|chain| - 1][0] == chain[0]
    ensures chain[..|chain| - 1][|chain| - 2] == chain[|chain| - 2]
  {
    var shorter := chain[..|chain| - 1];
    assert forall i {:trigger shorter[i]} :: 0 <= i < |shorter| ==> shorter[i] == chain[i];
  }

  lemma {:induction false} ChainIsClimb(m: DiskAnalysisModel, g: Graph, chain: seq<nat>, x: nat, d: nat)
    requires Depicts(g, m.nodes, m.childLinks, m.root) && Linked(g) && g.parent[g.root] == g.root && AtDepth(g, x, d)
    requires chain != [] && chain[|chain| - 1] == x && ParentChain(m.nodes, chain)
    requires m.nodes[chain[0]].parent == chain[0] || |chain| > d + 1
    ensures chain == Climb(g, x, d)
    decreases d
  {
    var n := |chain| - 1;
    assert LinkAt(g, m.nodes, m.childLinks, x);
    if d > 0 {
      if n == 0 {
        DepthUnique(g, x, d, d - 1);
      } else {
        assert chain[n - 1] == m.nodes[chain[n]].parent;
        ParentChainFront(m.nodes, chain);
        ChainIsClimb(m, g, chain[..n], g.parent[x], d - 1);
        assert chain == chain[..n] + [x];
      }
    }
  }

  /** For a node with a parent chain to the root, the breadcrumb is exactly that chain. */
  lemma BreadcrumbReachesRoot(m: DiskAnalysisModel, chain: seq<nat>, x: nat, d: nat)
    requires IsTree(m) && AtDepth(Links(m), x, d)
    requires chain != [] && chain[|chain| - 1] == x && ParentChain(m.nodes, chain)
    requires m.nodes[chain[0]].parent == chain[0] || |chain| == |m.nodes| + 1
    ensures chain == Climb(Links(m), x, d)
  {
    var g := Links(m);
    assert Unfold(1);
    DepthBound(g, x, d);
    assert LinkAt(g, m.nodes, m.childLinks, m.root);
    ChainIsClimb(m, g, chain, x, d);
  }

  // ---- The displayed path ---------------------------------------------------------------------

  /** Names from below the root down to `x`. */
  ghost function NamesTo(nodes: seq<AnalysisNode>, g: Graph, x: nat, d: nat): seq<string>
    requires Linked(g) && AtDepth(g, x, d) && |nodes| == |g.parent|
    decreases d
  {
    if d == 0 then [] else NamesTo(nodes, g, g.parent[x], d - 1) + [nodes[x].name]
  }

  function Joined(parts: seq<string>): string {
    if parts == [] then "" else if |parts| == 1 then parts[0] else parts[0] + "\\" + Joined(parts[1..])
  }

  /** The path of a node: the drive, then the names below the root, separated by backslashes. */
  ghost function PathSpec(m: DiskAnalysisModel, x: nat): string
    requires IsTree(m) && Rooted(Links(m), x)
  {
    var d: nat :| AtDepth(Links(m), x, d);
    DriveName(m.driveLetter) + "\\" + Joined(NamesTo(m.nodes, Links(m), x, d))
  }

  lemma {:induction false} JoinedLonger(parts: seq<string>, name: string)
    ensures Joined(parts + [name]) == if parts == [] then name else Joined(parts) + "\\" + name
    decreases parts
  {
    if parts == [] {
      assert parts + [name] == [name];
    } else {
      assert (parts + [name])[1..] == parts[1..] + [name];
      JoinedLonger(parts[1..], name);
      if |parts| == 1 {
        assert parts[1..] == [];
      } else {
        assert parts[0] + "\\" + (Joined(parts[1..]) + "\\" + name) == (parts[0] + "\\" + Joined(parts[1..])) + "\\" + name;
      }
    }
  }

  /** The path of the root: the drive letter in upper case, a colon and a backslash. */
  lemma PathOfRoot(m: DiskAnalysisModel)
    requires IsTree(m)
    ensures Rooted(Links(m), m.root) && |PathSpec(m, m.root)| == 3 && PathSpec(m, m.root)[1] == ':' && PathSpec(m, m.root)[2] == '\\'
    ensures 'A' <= m.driveLetter <= 'Z' ==> PathSpec(m, m.root)[0] == m.driveLetter
    ensures 'a' <= m.driveLetter <= 'z' ==> PathSpec(m, m.root)[0] as int - 'A' as int == m.driveLetter as int - 'a' as int
  {
    assert AtDepth(Links(m), m.root, 0);
    var d: nat :| AtDepth(Links(m), m.root, d) &&
      PathSpec(m, m.root) == DriveName(m.driveLetter) + "\\" + Joined(NamesTo(m.nodes, Links(m), m.root, d));
    DepthUnique(Links(m), m.root, d, 0);
  }

  /** The path of any other rooted node: the path of its parent, a backslash unless that is the root, and its name. */
  lemma PathOfChild(m: DiskAnalysisModel, x: nat)
    requires IsTree(m) && Rooted(Links(m), x) && x != m.root
    ensures x < |m.nodes| && Rooted(Links(m), m.nodes[x].parent)
    ensures PathSpec(m, x) == PathSpec(m, m.nodes[x].parent) + (if m.nodes[x].parent == m.root then "" else "\\") + m.nodes[x].name
  {
    var g := Links(m);
    RootedInRange(g, x);
    assert LinkAt(g, m.nodes, m.childLinks, x);
    var p := g.parent[x];
    var d: nat :| AtDepth(g, x, d) && PathSpec(m, x) == DriveName(m.driveLetter) + "\\" + Joined(NamesTo(m.nodes, g, x, d));
    assert AtDepth(g, p, d - 1);
    var e: nat :| AtDepth(g, p, e) && PathSpec(m, p) == DriveName(m.driveLetter) + "\\" + Joined(NamesTo(m.nodes, g, p, e));
    DepthUnique(g, p, e, d - 1);
    assert p == m.nodes[x].parent && NamesTo(m.nodes, g, x, d) == NamesTo(m.nodes, g, p, e) + [m.nodes[x].name];
    NamesCount(m.nodes, g, p, e);
    Extended(DriveName(m.driveLetter), NamesTo(m.nodes, g, p, e), m.nodes[x].name);
  }

  lemma Extended(drive: string, names: seq<string>, name: string)
    ensures drive + "\\" + Joined(names + [name]) == (drive + "\\" + Joined(names)) + (if names == [] then "" else "\\") + name
  {
    JoinedLonger(names, name);
    if names == [] {
      assert drive + "\\" + "" + "" + name == drive + "\\" + name;
    } else {
      assert drive + "\\" + (Joined(names) + "\\" + name) == (drive + "\\" + Joined(names)) + "\\" + name;
    }
  }

  lemma {:induction false} NamesCount(nodes: seq<AnalysisNode>, g: Graph, x: nat, d: nat)
    requires Linked(g) && AtDepth(g, x, d) && |nodes| == |g.parent|
    ensures |NamesTo(nodes, g, x, d)| == d && (d == 0 <==> x == g.root)
    decreases d
  {
    if d > 0 {
      NamesCount(nodes, g, g.parent[x], d - 1);
    }
  }

  function Slashed(parts: seq<string>): string {
    if parts == [] then "" else parts[0] + "\\" + Slashed(parts[1..])
  }

  lemma {:induction false} SlashedIsJoined(parts: seq<string>)
    requires parts != []
    ensures Slashed(parts) == Joined(parts) + "\\"
    decreases parts
  {
    if |parts| > 1 {
      SlashedIsJoined(parts[1..]);
      assert parts[0] + "\\" + (Joined(parts[1..]) + "\\") == (parts[0] + "\\" + Joined(parts[1..])) + "\\";
    } else {
      assert parts[1..] == [];
    }
  }

  function ReverseNames(s: seq<string>): seq<string> {
    if s == [] then [] else ReverseNames(s[1..]) + [s[0]]
  }

  lemma {:induction false} ReverseAppend(s: seq<string>, x: string)
    ensures ReverseNames(s + [x]) == [x] + ReverseNames(s)
    decreases s
  {
    if s != [] {
      assert (s + [x])[1..] == s[1..] + [x];
      ReverseAppend(s[1..], x);
    } else {
      assert s + [x] == [x];
    }
  }

  lemma ReverseNonEmpty(s: seq<string>)
    requires s != []
    ensures ReverseNames(s) != []
  {
  }

  method AppendReversed(start: string, parts: seq<string>) returns (path: string)
    ensures path == start + Slashed(ReverseNames(parts))
  {
    path := start;
    var i := |parts|;
    assert parts[..|parts|] == parts;
    while i > 0
      invariant 0 <= i <= |parts|
      invariant path + Slashed(ReverseNames(parts[..i])) == start + Slashed(ReverseNames(parts))
    {
      i := i - 1;
      assert parts[..i + 1] == parts[..i] + [parts[i]];
      ReverseAppend(parts[..i], parts[i]);
      assert ([parts[i]] + ReverseNames(parts[..i]))[1..] == ReverseNames(parts[..i]);
      path := path + parts[i] + "\\";
    }
  }

  /** The names still to be climbed and the names collected make up the whole list. */
  ghost predicate Collected(nodes: seq<AnalysisNode>, g: Graph, x: nat, d: nat, parts: seq<string>, names: seq<string>) {
    Linked(g) && |nodes| == |g.parent| && AtDepth(g, x, d) && NamesTo(nodes, g, x, d) + ReverseNames(parts) == names
  }

  /** Climbing one step moves one name from what is left to what is collected. */
  lemma OneNameUp(nodes: seq<AnalysisNode>, g: Graph, x: nat, d: nat, parts: seq<string>, names: seq<string>)
    requires Collected(nodes, g, x, d, parts, names) && d > 0
    ensures Collected(nodes, g, g.parent[x], d - 1, parts + [nodes[x].name], names)
  {
    ReverseAppend(parts, nodes[x].name);
  }

  /** The climb ends because the parent chain of `idx` reaches the root. */
  method NamesUpwards(m: DiskAnalysisModel, idx: nat, ghost d: nat) returns (parts: seq<string>)
    requires IsTree(m) && AtDepth(Links(m), idx, d)
    ensures ReverseNames(parts) == NamesTo(m.nodes, Links(m), idx, d)
  {
    ghost var g := Links(m);
    ghost var names := NamesTo(m.nodes, g, idx, d);
    parts := [];
    var current := idx;
    ghost var left := d;
    while current != m.root
      invariant Collected(m.nodes, g, current, left, parts, names)
      decreases left
    {
      assert LinkAt(g, m.nodes, m.childLinks, current);
      OneNameUp(m.nodes, g, current, left, parts, names);
      parts := parts + [m.nodes[current].name];
      current := m.nodes[current].parent;
      left := left - 1;
    }
    DepthUnique(g, current, left, 0);
  }

  method PathOf(m: DiskAnalysisModel, idx: nat) returns (path: string)
    requires IsTree(m) && Rooted(Links(m), idx)
    ensures path == PathSpec(m, idx)
  {
    ghost var d: nat :| AtDepth(Links(m), idx, d) &&
      PathSpec(m, idx) == DriveName(m.driveLetter) + "\\" + Joined(NamesTo(m.nodes, Links(m), idx, d));
    var parts := NamesUpwards(m, idx, d);
    path := DriveName(m.driveLetter) + "\\";
    if parts == [] {
      return;
    }
    path := AppendReversed(path, parts);
    ReverseNonEmpty(parts);
    SlashedIsJoined(ReverseNames(parts));
    path := path[..|path| - 1];
  }
}
