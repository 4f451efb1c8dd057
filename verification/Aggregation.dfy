/**
  Bottom-up roll-up of the volume: sizes, file and folder counts, and 24 per-category counters,
  each with its own saturation, computed by an explicit-stack post-order walk.
 */
module Aggregation {
  import opened Cancellation
  import opened DiskModel
  import opened ForestTheory
  import opened Saturating
  import opened Walks

  // ---- What the roll-up should be ---------------------------------------

  /** The 24 counters of the tree of `x`: exact sums over its files, clamped once. */
  ghost predicate CountersAre(totals: seq<U64>, t: Chart, x: nat, u: Units)
    requires |u.counters| == 24
  {
    |totals| == 24 &&
    forall k {:trigger totals[k]} :: 0 <= k < 24 ==> totals[k] == Sat(Weight(t, x, u.counters[k]))
  }

  /** `i` is the last of the eight categories with the most allocated bytes. */
  ghost predicate IsDominant(counters: seq<U64>, i: nat)
    requires |counters| == 24 && i < 8
  {
    && (forall j :: 0 <= j < 8 ==> counters[j] <= counters[i])
    && (forall j :: i < j < 8 ==> counters[j] < counters[i])
  }

  /** A directory's category is dominant in the counters of its tree. */
  ghost predicate DominantIn(category: FileCategory, t: Chart, x: nat, u: Units)
    requires |u.counters| == 24
  {
    exists totals: seq<U64> :: CountersAre(totals, t, x, u) && IsDominant(totals, CategoryIndex(category))
  }

  /** A node rolled up: every total is the exact sum over its tree, clamped to u64. */
  ghost predicate RolledUp(node: AnalysisNode, base: seq<AnalysisNode>, u: Units, t: Chart, x: nat)
    requires x < |base| && |u.counters| == 24
  {
    && node.SameRecord(base[x]) && node.SameLinks(base[x])
    && node.subtreeSize == Sat(Weight(t, x, u.sizes))
    && node.subtreeAllocatedSize == Sat(Weight(t, x, u.allocatedSizes))
    && node.subtreeFiles == Sat(Weight(t, x, u.files))
    && (node.Descends() ==> DominantIn(node.category, t, x, u))
  }

  /** Nodes as the earlier passes leave them. */
  ghost predicate Unaggregated(node: AnalysisNode) {
    && node.subtreeSize == node.size && node.subtreeAllocatedSize == node.allocatedSize
    && node.subtreeFiles == if node.isDir then 0 else 1
  }

  // ---- Scratch tables ----------------------------------------------------

  /** Number of directories in front of `x`; directory `x` keeps its counters in that slot. */
  function DirRank(base: seq<AnalysisNode>, x: nat): nat
    requires x <= |base|
  {
    if x == 0 then 0 else DirRank(base, x - 1) + if base[x - 1].isDir then 1 else 0
  }

  lemma {:induction false} DirRankIncreases(base: seq<AnalysisNode>, x: nat, y: nat)
    requires x < y <= |base|
    ensures DirRank(base, x) <= DirRank(base, y) <= DirRank(base, x) + (y - x)
    ensures base[x].isDir ==> DirRank(base, x) < DirRank(base, y)
  {
    if x + 1 < y {
      DirRankIncreases(base, x, y - 1);
    }
  }

  datatype Tables = Tables(nodes: seq<AnalysisNode>, folders: seq<nat>, slots: seq<nat>, dirCat: seq<seq<U64>>)

  ghost predicate Shaped(s: Tables, base: seq<AnalysisNode>) {
    && |s.nodes| == |s.folders| == |s.slots| == |base|
    && |s.dirCat| == DirRank(base, |base|)
    && |base| <= U32_MAX
    && forall x {:trigger s.slots[x]} :: 0 <= x < |base| ==>
      s.slots[x] == if base[x].isDir then DirRank(base, x) else U32_MAX
  }

  lemma SlotInRange(s: Tables, base: seq<AnalysisNode>, x: nat)
    requires Shaped(s, base) && x < |base|
    ensures base[x].isDir <==> s.slots[x] != U32_MAX
    ensures base[x].isDir ==> s.slots[x] < |s.dirCat|
  {
    DirRankIncreases(base, x, |base|);
    if x > 0 {
      DirRankIncreases(base, 0, x);
    }
  }

  lemma SlotsApart(s: Tables, base: seq<AnalysisNode>, x: nat, y: nat)
    requires Shaped(s, base) && x < |base| && y < |base| && x != y && base[x].isDir && base[y].isDir
    ensures s.slots[x] != s.slots[y]
  {
    if x < y { DirRankIncreases(base, x, y); } else { DirRankIncreases(base, y, x); }
  }

  const ZEROS: seq<U64> := [0, 0, 0, 0, 0, 0, 0, 0, 0, 0, 0, 0, 0, 0, 0, 0, 0, 0, 0, 0, 0, 0, 0, 0]

  ghost predicate NodeDone(s: Tables, base: seq<AnalysisNode>, u: Units, t: Chart, x: nat)
    requires Shaped(s, base) && x < |base| && |u.counters| == 24
  {
    && RolledUp(s.nodes[x], base, u, t, x)
    && s.folders[x] == Weight(t, x, u.folders)
    && (base[x].isDir ==> s.slots[x] < |s.dirCat| && CountersAre(s.dirCat[s.slots[x]], t, x, u))
  }

  ghost predicate NodeUntouched(s: Tables, base: seq<AnalysisNode>, x: nat)
    requires Shaped(s, base) && x < |base|
  {
    && s.nodes[x] == base[x]
    && s.folders[x] == (if base[x].isDir then 1 else 0)
    && (base[x].isDir ==> s.slots[x] < |s.dirCat| && s.dirCat[s.slots[x]] == ZEROS)
  }

  ghost predicate Progress(s: Tables, base: seq<AnalysisNode>, u: Units, t: Chart, finished: seq<nat>) {
    && Shaped(s, base) && |u.counters| == 24
    && (forall x {:trigger NodeDone(s, base, u, t, x)} :: 0 <= x < |base| && x in finished ==> NodeDone(s, base, u, t, x))
    && (forall x {:trigger NodeUntouched(s, base, x)} :: 0 <= x < |base| && x !in finished ==> NodeUntouched(s, base, x))
  }

  /** Only the entries of `x` differ. */
  ghost predicate OnlyAt(s: Tables, s': Tables, base: seq<AnalysisNode>, x: nat)
    requires x < |base|
  {
    && Shaped(s, base) && Shaped(s', base) && s'.slots == s.slots
    && s'.nodes == s.nodes[x := s'.nodes[x]]
    && s'.folders == s.folders[x := s'.folders[x]]
    && (forall i {:trigger s'.dirCat[i]} :: 0 <= i < |s.dirCat| && !(base[x].isDir && i == s.slots[x]) ==> s'.dirCat[i] == s.dirCat[i])
  }

  lemma ProgressStep(s: Tables, s': Tables, base: seq<AnalysisNode>, u: Units, t: Chart, finished: seq<nat>, x: nat)
    requires Progress(s, base, u, t, finished) && x < |base| && x !in finished
    requires OnlyAt(s, s', base, x) && NodeDone(s', base, u, t, x)
    ensures Progress(s', base, u, t, finished + [x])
  {
    var more := finished + [x];
    forall y {:trigger NodeDone(s', base, u, t, y)} | 0 <= y < |base| && y in more ensures NodeDone(s', base, u, t, y) {
      if y != x {
        assert NodeDone(s, base, u, t, y);
        SlotInRange(s, base, y);
        if base[x].isDir && base[y].isDir { SlotsApart(s, base, x, y); }
      }
    }
    forall y {:trigger NodeUntouched(s', base, y)} | 0 <= y < |base| && y !in more ensures NodeUntouched(s', base, y) {
      assert NodeUntouched(s, base, y);
      SlotInRange(s, base, y);
      if base[x].isDir && base[y].isDir { SlotsApart(s, base, x, y); }
    }
  }

  // ---- Sums over children -------------------------------------------------

  /** Own value plus the weights of the first `i` children. */
  ghost function SoFar(t: Chart, x: nat, kids: seq<nat>, i: nat, own: seq<nat>): nat
    requires i <= |kids|
  {
    if i == 0 then Own(own, x) else SoFar(t, x, kids, i - 1, own) + Weight(t, kids[i - 1], own)
  }

  lemma {:induction false} SoFarRest(t: Chart, x: nat, kids: seq<nat>, i: nat, own: seq<nat>)
    requires i <= |kids|
    ensures SoFar(t, x, kids, i, own) + ListWeight(t, kids[i..], own) == Own(own, x) + ListWeight(t, kids, own)
  {
    if i == 0 {
      assert kids[0..] == kids;
    } else {
      SoFarRest(t, x, kids, i - 1, own);
      assert kids[i - 1..][1..] == kids[i..];
    }
  }

  lemma SoFarAll(g: Graph, t: Chart, x: nat, own: seq<nat>)
    requires Charted(g, t) && x in t
    ensures SoFar(t, x, Down(g, x), |Down(g, x)|, own) == Weight(t, x, own)
  {
    WeightStep(g, t, x, own);
    SoFarRest(t, x, Down(g, x), |Down(g, x)|, own);
  }

  /** A node the walk does not look below weighs its own value. */
  lemma LeafWeight(g: Graph, t: Chart, x: nat, own: seq<nat>)
    requires Charted(g, t) && x in t && Down(g, x) == []
    ensures Weight(t, x, own) == Own(own, x)
  {
    WeightStep(g, t, x, own);
  }

  function AddCounters(a: seq<U64>, b: seq<U64>): (r: seq<U64>)
    requires |a| == |b| == 24
    ensures |r| == 24
  {
    seq(24, k requires 0 <= k < 24 => SatAdd(a[k], b[k]))
  }

  /** A file bumps the three counters of its own category. */
  function AddFile(a: seq<U64>, node: AnalysisNode): (r: seq<U64>)
    requires |a| == 24
    ensures |r| == 24
  {
    var ci := CategoryIndex(node.category);
    a[ci := SatAdd(a[ci], node.allocatedSize)]
     [8 + ci := SatAdd(a[8 + ci], node.size)]
     [16 + ci := SatAdd(a[16 + ci], 1)]
  }

  lemma AddFileCounts(a: seq<U64>, node: AnalysisNode, k: nat)
    requires |a| == 24 && k < 24 && !node.isDir
    ensures AddFile(a, node)[k] == SatAdd(a[k], CounterOf(node, k))
  {
  }

  /** Totals after the first `i` children. */
  ghost predicate CountersSoFar(totals: seq<U64>, t: Chart, x: nat, kids: seq<nat>, i: nat, u: Units)
    requires i <= |kids| && |u.counters| == 24
  {
    |totals| == 24 &&
    forall k {:trigger totals[k]} :: 0 <= k < 24 ==> totals[k] == Sat(SoFar(t, x, kids, i, u.counters[k]))
  }

  /** Counter by counter, `more` is `totals` plus the counters of `c`. */
  ghost predicate CountersAdded(totals: seq<U64>, more: seq<U64>, t: Chart, c: nat, u: Units)
    requires |u.counters| == 24
  {
    |totals| == |more| == 24 &&
    forall k {:trigger more[k]} :: 0 <= k < 24 ==> more[k] == SatAdd(totals[k], Sat(Weight(t, c, u.counters[k])))
  }

  lemma OneCount(count: nat, more: nat, t: Chart, x: nat, kids: seq<nat>, i: nat, own: seq<nat>)
    requires i < |kids| && count == SoFar(t, x, kids, i, own) && more == Weight(t, kids[i], own)
    ensures count + more == SoFar(t, x, kids, i + 1, own)
  {
  }

  lemma OneSum(value: U64, more: U64, t: Chart, x: nat, kids: seq<nat>, i: nat, own: seq<nat>)
    requires i < |kids| && value == Sat(SoFar(t, x, kids, i, own)) && more == Sat(Weight(t, kids[i], own))
    ensures SatAdd(value, more) == Sat(SoFar(t, x, kids, i + 1, own))
  {
    SatAddOfSat(SoFar(t, x, kids, i, own), Weight(t, kids[i], own));
  }

  lemma CountersStep(totals: seq<U64>, more: seq<U64>, t: Chart, x: nat, kids: seq<nat>, i: nat, u: Units)
    requires |u.counters| == 24 && i < |kids| && CountersSoFar(totals, t, x, kids, i, u)
    requires CountersAdded(totals, more, t, kids[i], u)
    ensures CountersSoFar(more, t, x, kids, i + 1, u)
  {
    forall k {:trigger more[k]} | 0 <= k < 24
      ensures more[k] == Sat(SoFar(t, x, kids, i + 1, u.counters[k]))
    {
      OneSum(totals[k], Sat(Weight(t, kids[i], u.counters[k])), t, x, kids, i, u.counters[k]);
    }
  }

  /** Add one finished child: a directory's own counters, or the three counters of a file. */
  method AddChild(totals: seq<U64>, nodes: array<AnalysisNode>, catSlot: array<nat>, dirCat: array<seq<U64>>, c: nat,
                  ghost s: Tables, ghost base: seq<AnalysisNode>, ghost u: Units, ghost g: Graph, ghost t: Chart)
    returns (more: seq<U64>)
    requires |totals| == 24 && c < nodes.Length && Shaped(s, base) && Measures(u, base)
    requires s.nodes == nodes[..] && s.slots == catSlot[..] && s.dirCat == dirCat[..]
    requires NodeDone(s, base, u, t, c) && Charted(g, t) && c in t && (!base[c].isDir ==> Down(g, c) == [])
    ensures CountersAdded(totals, more, t, c, u)
  {
    SlotInRange(s, base, c);
    if catSlot[c] != U32_MAX {
      more := AddCounters(totals, dirCat[catSlot[c]]);
      assert CountersAre(dirCat[catSlot[c]], t, c, u);
    } else {
      more := AddFile(totals, nodes[c]);
      FileAdded(totals, nodes[c], base[c], t, c, u, g);
    }
  }

  lemma FileAdded(totals: seq<U64>, node: AnalysisNode, file: AnalysisNode, t: Chart, c: nat, u: Units, g: Graph)
    requires |totals| == 24 && |u.counters| == 24 && node.SameRecord(file) && !node.isDir && NodeMeasured(u, file, c)
    requires Charted(g, t) && c in t && Down(g, c) == []
    ensures CountersAdded(totals, AddFile(totals, node), t, c, u)
  {
    var more := AddFile(totals, node);
    forall k {:trigger more[k]} | 0 <= k < 24
      ensures more[k] == SatAdd(totals[k], Sat(Weight(t, c, u.counters[k])))
    {
      AddFileCounts(totals, node, k);
      LeafWeight(g, t, c, u.counters[k]);
    }
  }

  method DominantCategory(totals: seq<U64>) returns (best: nat)
    requires |totals| == 24
    ensures best < 8 && IsDominant(totals, best)
  {
    best := 0;
    for i := 1 to 8
      invariant best < i
      invariant forall j :: 0 <= j < i ==> totals[j] <= totals[best]
      invariant forall j :: best < j < i ==> totals[j] < totals[best]
    {
      if totals[best] <= totals[i] {
        best := i;
      }
    }
  }

  datatype Sums = Sums(subtree: U64, allocatedBytes: U64, files: U64, folders: nat, totals: seq<U64>)

  ghost predicate RunningSums(sums: Sums, t: Chart, x: nat, kids: seq<nat>, i: nat, u: Units)
    requires i <= |kids| && |u.counters| == 24
  {
    && sums.subtree == Sat(SoFar(t, x, kids, i, u.sizes))
    && sums.allocatedBytes == Sat(SoFar(t, x, kids, i, u.allocatedSizes))
    && sums.files == Sat(SoFar(t, x, kids, i, u.files))
    && sums.folders == SoFar(t, x, kids, i, u.folders)
    && CountersSoFar(sums.totals, t, x, kids, i, u)
  }

  lemma SumsStart(node: AnalysisNode, t: Chart, x: nat, kids: seq<nat>, u: Units)
    requires NodeMeasured(u, node, x) && node.isDir
    ensures RunningSums(Sums(node.size, node.allocatedSize, 0, 1, ZEROS), t, x, kids, 0, u)
  {
    forall k {:trigger ZEROS[k]} | 0 <= k < 24 ensures ZEROS[k] == Sat(SoFar(t, x, kids, 0, u.counters[k])) {
      assert u.counters[k][x] == CounterOf(node, k);
    }
  }

  lemma SumsStep(sums: Sums, node: AnalysisNode, folders: nat, totals: seq<U64>,
                 t: Chart, x: nat, kids: seq<nat>, i: nat, u: Units)
    requires |u.counters| == 24 && i < |kids| && RunningSums(sums, t, x, kids, i, u)
    requires node.subtreeSize == Sat(Weight(t, kids[i], u.sizes))
    requires node.subtreeAllocatedSize == Sat(Weight(t, kids[i], u.allocatedSizes))
    requires node.subtreeFiles == Sat(Weight(t, kids[i], u.files))
    requires folders == SoFar(t, x, kids, i + 1, u.folders)
    requires CountersSoFar(totals, t, x, kids, i + 1, u)
    ensures RunningSums(AddSums(sums, node, folders, totals), t, x, kids, i + 1, u)
  {
    OneSum(sums.subtree, node.subtreeSize, t, x, kids, i, u.sizes);
    OneSum(sums.allocatedBytes, node.subtreeAllocatedSize, t, x, kids, i, u.allocatedSizes);
    OneSum(sums.files, node.subtreeFiles, t, x, kids, i, u.files);
  }

  function AddSums(sums: Sums, node: AnalysisNode, folders: nat, totals: seq<U64>): Sums {
    Sums(
      SatAdd(sums.subtree, node.subtreeSize),
      SatAdd(sums.allocatedBytes, node.subtreeAllocatedSize),
      SatAdd(sums.files, node.subtreeFiles),
      folders,
      totals)
  }

  lemma SumsEnd(sums: Sums, g: Graph, t: Chart, x: nat, u: Units)
    requires |u.counters| == 24 && Charted(g, t) && x in t && RunningSums(sums, t, x, Down(g, x), |Down(g, x)|, u)
    ensures SumsAre(sums, t, x, u)
  {
    SoFarAll(g, t, x, u.sizes);
    SoFarAll(g, t, x, u.allocatedSizes);
    SoFarAll(g, t, x, u.files);
    SoFarAll(g, t, x, u.folders);
    forall k {:trigger sums.totals[k]} | 0 <= k < 24 ensures sums.totals[k] == Sat(Weight(t, x, u.counters[k])) {
      SoFarAll(g, t, x, u.counters[k]);
    }
  }

  ghost predicate SumsAre(sums: Sums, t: Chart, x: nat, u: Units)
    requires |u.counters| == 24
  {
    && sums.subtree == Sat(Weight(t, x, u.sizes))
    && sums.allocatedBytes == Sat(Weight(t, x, u.allocatedSizes))
    && sums.files == Sat(Weight(t, x, u.files))
    && sums.folders == Weight(t, x, u.folders)
    && CountersAre(sums.totals, t, x, u)
  }

  ghost predicate KidsDone(s: Tables, kids: seq<nat>, base: seq<AnalysisNode>, u: Units, g: Graph, t: Chart)
    requires Shaped(s, base) && |u.counters| == 24
  {
    forall c {:trigger c in kids} :: c in kids ==>
      c in t && c < |base| && NodeDone(s, base, u, t, c) && (!base[c].isDir ==> Down(g, c) == [])
  }

  /** Add finished child number `i` to the running sums of a directory. */
  method RollUpChild(sums: Sums, nodes: array<AnalysisNode>, folderCounts: array<nat>, catSlot: array<nat>,
                     dirCat: array<seq<U64>>, c: nat, ghost x: nat, ghost kids: seq<nat>, ghost i: nat,
                     ghost s: Tables, ghost base: seq<AnalysisNode>, ghost u: Units, ghost g: Graph, ghost t: Chart)
    returns (more: Sums)
    requires s == Tables(nodes[..], folderCounts[..], catSlot[..], dirCat[..]) && Shaped(s, base)
    requires Measures(u, base) && Charted(g, t) && i < |kids| && kids[i] == c && c in t && c < |base|
    requires NodeDone(s, base, u, t, c) && (!base[c].isDir ==> Down(g, c) == [])
    requires RunningSums(sums, t, x, kids, i, u)
    ensures RunningSums(more, t, x, kids, i + 1, u)
  {
    assert NodeMeasured(u, base[c], c);
    var node := nodes[c];
    var totals := AddChild(sums.totals, nodes, catSlot, dirCat, c, s, base, u, g, t);
    CountersStep(sums.totals, totals, t, x, kids, i, u);
    OneCount(sums.folders, folderCounts[c], t, x, kids, i, u.folders);
    var folders := sums.folders + folderCounts[c];
    SumsStep(sums, node, folders, totals, t, x, kids, i, u);
    more := AddSums(sums, node, folders, totals);
  }

  /** Sum a directory over its finished children. */
  method RollUp(kids: seq<nat>, nodes: array<AnalysisNode>, folderCounts: array<nat>, catSlot: array<nat>,
                dirCat: array<seq<U64>>, x: nat,
                ghost s: Tables, ghost base: seq<AnalysisNode>, ghost u: Units, ghost g: Graph, ghost t: Chart)
    returns (sums: Sums)
    requires s == Tables(nodes[..], folderCounts[..], catSlot[..], dirCat[..]) && Shaped(s, base) && x < |base|
    requires Measures(u, base) && Charted(g, t) && x in t && kids == Down(g, x)
    requires nodes[x] == base[x] && nodes[x].isDir && KidsDone(s, kids, base, u, g, t)
    ensures SumsAre(sums, t, x, u)
  {
    sums := Sums(nodes[x].size, nodes[x].allocatedSize, 0, 1, ZEROS);
    assert NodeMeasured(u, base[x], x);
    SumsStart(base[x], t, x, kids, u);
    for i := 0 to |kids|
      invariant RunningSums(sums, t, x, kids, i, u)
    {
      assert kids[i] in kids;
      sums := RollUpChild(sums, nodes, folderCounts, catSlot, dirCat, kids[i], x, kids, i, s, base, u, g, t);
    }
    SumsEnd(sums, g, t, x, u);
  }

  // ---- Finishing one node --------------------------------------------------

  /** Everything the walk relies on and never changes. */
  ghost predicate Setting(base: seq<AnalysisNode>, u: Units, g: Graph, t: Chart, links: seq<nat>, root: nat) {
    && |base| <= U32_MAX && Measures(u, base)
    && (forall x {:trigger Unaggregated(base[x])} :: 0 <= x < |base| ==> Unaggregated(base[x]))
    && Depicts(g, base, links, root) && Charted(g, t)
    && (forall x {:trigger x in t} :: x in t ==> x < |base|)
  }

  /** Counting nodes of a tree cannot overflow 32 bits. */
  lemma UnitsBound(base: seq<AnalysisNode>, u: Units, g: Graph, t: Chart, links: seq<nat>, root: nat, x: nat, own: seq<nat>)
    requires Setting(base, u, g, t, links, root) && x in t
    requires forall i :: 0 <= i < |own| ==> own[i] <= 1
    ensures Weight(t, x, own) <= |base|
  {
    CountBound(TreeAt(t, x), own);
    WalkBound(g, t, x);
    assert Total(TreeAt(t, x), own) == Weight(t, x, own);
  }

  lemma FoldersBound(base: seq<AnalysisNode>, u: Units, g: Graph, t: Chart, links: seq<nat>, root: nat, x: nat)
    requires Setting(base, u, g, t, links, root) && x in t && |u.folders| == |base|
    ensures Weight(t, x, u.folders) <= U32_MAX
  {
    forall i | 0 <= i < |u.folders| ensures u.folders[i] <= 1 {
      assert NodeMeasured(u, base[i], i);
    }
    UnitsBound(base, u, g, t, links, root, x, u.folders);
  }

  /** A node without children below it already carries its totals. */
  lemma LeafDone(s: Tables, base: seq<AnalysisNode>, u: Units, g: Graph, t: Chart, x: nat)
    requires Shaped(s, base) && Measures(u, base) && Charted(g, t) && x in t && x < |base|
    requires NodeUntouched(s, base, x) && Unaggregated(base[x]) && !base[x].Descends() && Down(g, x) == []
    ensures NodeDone(s, base, u, t, x)
  {
    assert NodeMeasured(u, base[x], x);
    LeafWeight(g, t, x, u.sizes);
    LeafWeight(g, t, x, u.allocatedSizes);
    LeafWeight(g, t, x, u.files);
    LeafWeight(g, t, x, u.folders);
    if base[x].isDir {
      forall k {:trigger ZEROS[k]} | 0 <= k < 24 ensures ZEROS[k] == Sat(Weight(t, x, u.counters[k])) {
        LeafWeight(g, t, x, u.counters[k]);
        assert u.counters[k][x] == CounterOf(base[x], k);
      }
    }
  }

  /** The visited branch for a plain directory. */
  method FinishDirectory(nodes: array<AnalysisNode>, links: seq<nat>, folderCounts: array<nat>, catSlot: array<nat>,
                         dirCat: array<seq<U64>>, x: nat, ghost finished: seq<nat>,
                         ghost base: seq<AnalysisNode>, ghost u: Units, ghost g: Graph, ghost t: Chart, ghost root: nat)
    requires nodes.Length == |base| && x < |base| && x in t && x !in finished && base[x].Descends()
    requires folderCounts != catSlot
    requires Setting(base, u, g, t, links, root) && |u.folders| == |base|
    requires Progress(Tables(nodes[..], folderCounts[..], catSlot[..], dirCat[..]), base, u, t, finished)
    requires forall c :: c in Down(g, x) ==> c in finished
    modifies nodes, folderCounts, dirCat
    ensures Progress(Tables(nodes[..], folderCounts[..], catSlot[..], dirCat[..]), base, u, t, finished + [x])
  {
    ghost var s := Tables(nodes[..], folderCounts[..], catSlot[..], dirCat[..]);
    assert NodeUntouched(s, base, x);
    SlotInRange(s, base, x);
    DownAt(g, base, links, root, x);
    var kids := Slice(nodes[x], links);
    KidsReady(s, base, u, g, t, links, root, x, finished);
    var sums := RollUp(kids, nodes, folderCounts, catSlot, dirCat, x, s, base, u, g, t);
    FoldersBound(base, u, g, t, links, root, x);
    var best := DominantCategory(sums.totals);
    folderCounts[x] := sums.folders % 0x1_0000_0000;
    nodes[x] := nodes[x].(
      subtreeSize := sums.subtree,
      subtreeAllocatedSize := sums.allocatedBytes,
      subtreeFiles := sums.files,
      category := CATEGORIES[best]);
    dirCat[catSlot[x]] := sums.totals;
    ghost var s' := Tables(nodes[..], folderCounts[..], catSlot[..], dirCat[..]);
    DirectoryDone(s, s', sums, best, base, u, t, x);
    ProgressStep(s, s', base, u, t, finished, x);
  }

  lemma KidsReady(s: Tables, base: seq<AnalysisNode>, u: Units, g: Graph, t: Chart, links: seq<nat>, root: nat,
                  x: nat, finished: seq<nat>)
    requires Setting(base, u, g, t, links, root) && x < |base| && x in t && base[x].Descends()
    requires Progress(s, base, u, t, finished) && forall c :: c in Down(g, x) ==> c in finished
    ensures KidsDone(s, Down(g, x), base, u, g, t)
  {
    assert ChartedAt(g, t, x);
    forall c {:trigger c in Down(g, x)} | c in Down(g, x)
      ensures c in t && c < |base| && NodeDone(s, base, u, t, c) && (!base[c].isDir ==> Down(g, c) == [])
    {
      assert NodeDone(s, base, u, t, c);
      DownAt(g, base, links, root, c);
    }
  }

  lemma DirectoryDone(s: Tables, s': Tables, sums: Sums, best: nat, base: seq<AnalysisNode>, u: Units, t: Chart, x: nat)
    requires Shaped(s, base) && x < |base| && |u.counters| == 24 && base[x].Descends() && NodeUntouched(s, base, x)
    requires SumsAre(sums, t, x, u) && best < 8 && IsDominant(sums.totals, best) && sums.folders <= U32_MAX
    requires s' == Tables(
      s.nodes[x := base[x].(
        subtreeSize := sums.subtree,
        subtreeAllocatedSize := sums.allocatedBytes,
        subtreeFiles := sums.files,
        category := CATEGORIES[best])],
      s.folders[x := sums.folders % 0x1_0000_0000],
      s.slots,
      if s.slots[x] < |s.dirCat| then s.dirCat[s.slots[x] := sums.totals] else s.dirCat)
    ensures OnlyAt(s, s', base, x) && NodeDone(s', base, u, t, x)
  {
    assert CategoryIndex(CATEGORIES[best]) == best;
  }

  /** A file or reparse directory is finished as it stands. */
  lemma FinishLeaf(s: Tables, base: seq<AnalysisNode>, u: Units, g: Graph, t: Chart, links: seq<nat>, root: nat,
                   finished: seq<nat>, x: nat)
    requires Setting(base, u, g, t, links, root) && x < |base| && x in t && x !in finished
    requires !base[x].Descends() && Progress(s, base, u, t, finished)
    ensures Progress(s, base, u, t, finished + [x])
  {
    assert NodeUntouched(s, base, x) && Unaggregated(base[x]);
    DownAt(g, base, links, root, x);
    LeafDone(s, base, u, g, t, x);
    ProgressStep(s, s, base, u, t, finished, x);
  }

  /** The visited branch for a reparse directory: it counts itself only. */
  method FinishReparse(nodes: array<AnalysisNode>, folderCounts: array<nat>, catSlot: array<nat>, dirCat: array<seq<U64>>,
                       x: nat, ghost links: seq<nat>, ghost finished: seq<nat>,
                       ghost base: seq<AnalysisNode>, ghost u: Units, ghost g: Graph, ghost t: Chart, ghost root: nat)
    requires nodes.Length == |base| && x < |base| && x in t && x !in finished && base[x].isDir && base[x].isReparse
    requires folderCounts != catSlot
    requires Setting(base, u, g, t, links, root)
    requires Progress(Tables(nodes[..], folderCounts[..], catSlot[..], dirCat[..]), base, u, t, finished)
    modifies nodes, folderCounts
    ensures Progress(Tables(nodes[..], folderCounts[..], catSlot[..], dirCat[..]), base, u, t, finished + [x])
  {
    ghost var s := Tables(nodes[..], folderCounts[..], catSlot[..], dirCat[..]);
    assert NodeUntouched(s, base, x);
    assert Unaggregated(base[x]);
    nodes[x] := nodes[x].(subtreeSize := nodes[x].size, subtreeAllocatedSize := nodes[x].allocatedSize);
    folderCounts[x] := 1;
    assert nodes[..] == s.nodes && folderCounts[..] == s.folders;
    FinishLeaf(s, base, u, g, t, links, root, finished, x);
  }

  // ---- Flat totals -----------------------------------------------------------

  const EIGHT_ZEROS: seq<U64> := [0, 0, 0, 0, 0, 0, 0, 0]

  ghost predicate FlatUpTo(flat: CategoryTotals, finished: seq<nat>, u: Units)
    requires |u.counters| == 24
  {
    && FlatColumn(flat.allocatedBytes, finished, u, 0)
    && FlatColumn(flat.logicalBytes, finished, u, 8)
    && FlatColumn(flat.fileCounts, finished, u, 16)
  }

  function AddToFlat(flat: CategoryTotals, node: AnalysisNode): CategoryTotals
    requires |flat.allocatedBytes| == |flat.logicalBytes| == |flat.fileCounts| == 8
  {
    var ci := CategoryIndex(node.category);
    CategoryTotals(
      flat.logicalBytes[ci := SatAdd(flat.logicalBytes[ci], node.size)],
      flat.allocatedBytes[ci := SatAdd(flat.allocatedBytes[ci], node.allocatedSize)],
      flat.fileCounts[ci := SatAdd(flat.fileCounts[ci], 1)])
  }

  lemma SeqSumStep(finished: seq<nat>, x: nat, own: seq<nat>, value: nat)
    requires value == Own(own, x)
    ensures Sat(SeqSum(finished + [x], own)) == Sat(Sat(SeqSum(finished, own)) + value)
  {
    assert (finished + [x])[..|finished|] == finished;
  }

  ghost predicate FlatColumn(column: seq<U64>, finished: seq<nat>, u: Units, offset: nat)
    requires |u.counters| == 24 && offset <= 16
  {
    && |column| == 8
    && forall k {:trigger column[k]} :: 0 <= k < 8 ==> column[k] == Sat(SeqSum(finished, u.counters[offset + k]))
  }

  lemma FlatEntryStep(entry: U64, node: AnalysisNode, finished: seq<nat>, x: nat, u: Units, i: nat)
    requires NodeMeasured(u, node, x) && i < 24 && entry == Sat(SeqSum(finished, u.counters[i]))
    ensures Sat(SeqSum(finished + [x], u.counters[i])) == Sat(entry + CounterOf(node, i))
  {
    assert u.counters[i][x] == CounterOf(node, i);
    SeqSumStep(finished, x, u.counters[i], CounterOf(node, i));
  }

  function Contribution(node: AnalysisNode, offset: nat): U64 {
    if offset == 0 then node.allocatedSize else if offset == 8 then node.size else 1
  }

  function BumpColumn(column: seq<U64>, node: AnalysisNode, offset: nat): (r: seq<U64>)
    requires |column| == 8
    ensures |r| == 8
  {
    var ci := CategoryIndex(node.category);
    if node.isDir then column else column[ci := SatAdd(column[ci], Contribution(node, offset))]
  }

  lemma BumpColumnAt(column: seq<U64>, node: AnalysisNode, offset: nat, k: nat)
    requires |column| == 8 && k < 8 && offset in {0, 8, 16}
    ensures BumpColumn(column, node, offset)[k] == Sat(column[k] + CounterOf(node, offset + k))
  {
  }

  lemma FlatColumnStep(column: seq<U64>, node: AnalysisNode, finished: seq<nat>, x: nat, u: Units, offset: nat)
    requires NodeMeasured(u, node, x) && offset in {0, 8, 16} && FlatColumn(column, finished, u, offset)
    ensures FlatColumn(BumpColumn(column, node, offset), finished + [x], u, offset)
  {
    var more := BumpColumn(column, node, offset);
    forall k {:trigger more[k]} | 0 <= k < 8 ensures more[k] == Sat(SeqSum(finished + [x], u.counters[offset + k])) {
      FlatEntryStep(column[k], node, finished, x, u, offset + k);
      BumpColumnAt(column, node, offset, k);
    }
  }

  /** A finished file is added to the flat totals, a finished directory is not. */
  lemma FlatStep(flat: CategoryTotals, node: AnalysisNode, base: seq<AnalysisNode>, finished: seq<nat>, x: nat, u: Units)
    requires Measures(u, base) && x < |base| && node.SameRecord(base[x]) && FlatUpTo(flat, finished, u)
    ensures FlatUpTo(if base[x].isDir then flat else AddToFlat(flat, node), finished + [x], u)
  {
    assert NodeMeasured(u, base[x], x);
    FlatColumnStep(flat.allocatedBytes, base[x], finished, x, u, 0);
    FlatColumnStep(flat.logicalBytes, base[x], finished, x, u, 8);
    FlatColumnStep(flat.fileCounts, base[x], finished, x, u, 16);
  }

  // ---- The walk ----------------------------------------------------------------

  method AssignSlots(nodes: array<AnalysisNode>)
    returns (folderCounts: array<nat>, catSlot: array<nat>, dirCat: array<seq<U64>>)
    requires nodes.Length <= U32_MAX
    ensures fresh(folderCounts) && fresh(catSlot) && fresh(dirCat) && folderCounts != catSlot
    ensures Shaped(Tables(nodes[..], folderCounts[..], catSlot[..], dirCat[..]), nodes[..])
    ensures forall x :: 0 <= x < nodes.Length ==> folderCounts[x] == if nodes[x].isDir then 1 else 0
    ensures forall i :: 0 <= i < dirCat.Length ==> dirCat[i] == ZEROS
  {
    ghost var base := nodes[..];
    folderCounts := new nat[nodes.Length](_ => 0);
    catSlot := new nat[nodes.Length](_ => U32_MAX);
    var dirs := 0;
    for x := 0 to nodes.Length
      invariant dirs == DirRank(base, x)
      invariant forall y :: 0 <= y < x ==> folderCounts[y] == if base[y].isDir then 1 else 0
      invariant forall y {:trigger catSlot[y]} :: 0 <= y < x ==>
        catSlot[y] == if base[y].isDir then DirRank(base, y) else U32_MAX
      invariant forall y {:trigger catSlot[y]} :: x <= y < nodes.Length ==> catSlot[y] == U32_MAX
    {
      folderCounts[x] := if nodes[x].isDir then 1 else 0;
      if nodes[x].isDir {
        catSlot[x] := dirs;
        dirs := dirs + 1;
      }
    }
    dirCat := new seq<U64>[dirs](_ => ZEROS);
  }

  lemma ProgressStart(s: Tables, base: seq<AnalysisNode>, u: Units, t: Chart)
    requires Shaped(s, base) && |u.counters| == 24 && s.nodes == base
    requires forall x :: 0 <= x < |base| ==> s.folders[x] == if base[x].isDir then 1 else 0
    requires forall i :: 0 <= i < |s.dirCat| ==> s.dirCat[i] == ZEROS
    ensures Progress(s, base, u, t, [])
  {
    forall x {:trigger NodeUntouched(s, base, x)} | 0 <= x < |base| ensures NodeUntouched(s, base, x) {
      SlotInRange(s, base, x);
    }
  }

  /** The nodes of `order` are rolled up, all others are as before. */
  ghost predicate RolledUpExactly(nodes: seq<AnalysisNode>, base: seq<AnalysisNode>, u: Units, t: Chart, order: seq<nat>) {
    && |nodes| == |base| && |u.counters| == 24
    && forall x {:trigger nodes[x]} :: 0 <= x < |nodes| ==>
      if x in order then RolledUp(nodes[x], base, u, t, x) else nodes[x] == base[x]
  }

  lemma ProgressEnd(s: Tables, base: seq<AnalysisNode>, u: Units, t: Chart, order: seq<nat>, root: nat)
    requires Progress(s, base, u, t, order) && order == PostOrder(TreeAt(t, root)) && root < |base|
    ensures RolledUpExactly(s.nodes, base, u, t, order)
    ensures s.folders[root] == Weight(t, root, u.folders)
  {
    assert order[|order| - 1] == root;
    assert NodeDone(s, base, u, t, root);
    forall x {:trigger s.nodes[x]} | 0 <= x < |base|
      ensures if x in order then RolledUp(s.nodes[x], base, u, t, x) else s.nodes[x] == base[x]
    {
      if x in order {
        assert NodeDone(s, base, u, t, x);
      } else {
        assert NodeUntouched(s, base, x);
      }
    }
  }

  /** The visited branch: finish one node and keep the flat totals in step. */
  method FinishNode(nodes: array<AnalysisNode>, links: seq<nat>, folderCounts: array<nat>, catSlot: array<nat>,
                    dirCat: array<seq<U64>>, flat: CategoryTotals, x: nat, ghost finished: seq<nat>,
                    ghost base: seq<AnalysisNode>, ghost u: Units, ghost g: Graph, ghost t: Chart, ghost root: nat)
    returns (flat': CategoryTotals)
    requires nodes.Length == |base| == |u.folders| && folderCounts != catSlot
    requires Setting(base, u, g, t, links, root) && x in t && x !in finished
    requires forall c :: c in Down(g, x) ==> c in finished
    requires Progress(Tables(nodes[..], folderCounts[..], catSlot[..], dirCat[..]), base, u, t, finished)
    requires FlatUpTo(flat, finished, u)
    modifies nodes, folderCounts, dirCat
    ensures Progress(Tables(nodes[..], folderCounts[..], catSlot[..], dirCat[..]), base, u, t, finished + [x])
    ensures FlatUpTo(flat', finished + [x], u)
  {
    ghost var s := Tables(nodes[..], folderCounts[..], catSlot[..], dirCat[..]);
    assert NodeUntouched(s, base, x);
    FlatStep(flat, nodes[x], base, finished, x, u);
    flat' := flat;
    if nodes[x].isDir && !nodes[x].isReparse {
      FinishDirectory(nodes, links, folderCounts, catSlot, dirCat, x, finished, base, u, g, t, root);
    } else if nodes[x].isDir {
      FinishReparse(nodes, folderCounts, catSlot, dirCat, x, links, finished, base, u, g, t, root);
    } else {
      flat' := AddToFlat(flat, nodes[x]);
      FinishLeaf(s, base, u, g, t, links, root, finished, x);
    }
  }

  lemma ProgressKeepsShape(s: Tables, base: seq<AnalysisNode>, u: Units, t: Chart, finished: seq<nat>, x: nat)
    requires Progress(s, base, u, t, finished) && x < |base|
    ensures s.nodes[x].SameRecord(base[x]) && s.nodes[x].SameLinks(base[x])
  {
    if x in finished {
      assert NodeDone(s, base, u, t, x);
    } else {
      assert NodeUntouched(s, base, x);
    }
  }

  /** Where the walk goes from `x`, read off the nodes as they are now. */
  lemma CurrentLinks(s: Tables, finished: seq<nat>, base: seq<AnalysisNode>, u: Units, g: Graph, t: Chart,
                     links: seq<nat>, root: nat, x: nat)
    requires Progress(s, base, u, t, finished) && Setting(base, u, g, t, links, root) && x in t
    ensures x < |s.nodes| && s.nodes[x].childStart + s.nodes[x].childLen <= |links|
    ensures Down(g, x) == if s.nodes[x].Descends() then Slice(s.nodes[x], links) else []
  {
    ProgressKeepsShape(s, base, u, t, finished, x);
    DownAt(g, base, links, root, x);
  }

  /** The unvisited branch: schedule a node behind its children. */
  method PushChildren(node: AnalysisNode, links: seq<nat>, below: seq<Entry>, x: nat, ghost g: Graph, ghost t: Chart)
    returns (stack: seq<Entry>)
    requires node.childStart + node.childLen <= |links|
    requires Down(g, x) == if node.Descends() then Slice(node, links) else []
    requires Charted(g, t) && x in t && StackIn(t, below)
    ensures StackIn(t, stack) && Remaining(t, stack) == Remaining(t, below + [(x, false)])
    ensures Steps(t, stack) < Steps(t, below + [(x, false)])
  {
    ghost var after := Expand(g, t, below, x);
    stack := below + [(x, true)];
    if node.isDir && !node.isReparse {
      stack := stack + Unvisited(Slice(node, links));
    }
    assert stack == after;
  }

  /** One round of the walk: the top of the stack is finished, or gives way to its children. */
  method AggregateStep(nodes: array<AnalysisNode>, links: seq<nat>, folderCounts: array<nat>, catSlot: array<nat>,
                       dirCat: array<seq<U64>>, flat: CategoryTotals, stack: seq<Entry>, ghost finished: seq<nat>,
                       ghost base: seq<AnalysisNode>, ghost u: Units, ghost g: Graph, ghost t: Chart, ghost root: nat)
    returns (flat': CategoryTotals, stack': seq<Entry>, ghost finished': seq<nat>)
    requires nodes.Length == |base| == |u.folders| && folderCounts != catSlot && root in t
    requires Setting(base, u, g, t, links, root) && stack != [] && StackIn(t, stack)
    requires finished + Remaining(t, stack) == PostOrder(TreeAt(t, root))
    requires Progress(Tables(nodes[..], folderCounts[..], catSlot[..], dirCat[..]), base, u, t, finished)
    requires FlatUpTo(flat, finished, u)
    modifies nodes, folderCounts, dirCat
    ensures StackIn(t, stack') && finished' + Remaining(t, stack') == PostOrder(TreeAt(t, root))
    ensures Progress(Tables(nodes[..], folderCounts[..], catSlot[..], dirCat[..]), base, u, t, finished')
    ensures FlatUpTo(flat', finished', u)
    ensures Steps(t, stack') < Steps(t, stack)
  {
    var (x, visited) := stack[|stack| - 1];
    var below := stack[..|stack| - 1];
    if visited {
      PopVisited(t, stack);
      FinishNext(g, t, root, finished, x, Remaining(t, below));
      flat' := FinishNode(nodes, links, folderCounts, catSlot, dirCat, flat, x, finished, base, u, g, t, root);
      finished' := finished + [x];
      stack' := below;
    } else {
      assert stack == below + [(x, false)];
      CurrentLinks(Tables(nodes[..], folderCounts[..], catSlot[..], dirCat[..]), finished, base, u, g, t, links, root, x);
      flat', finished' := flat, finished;
      stack' := PushChildren(nodes[x], links, below, x, g, t);
    }
  }

  method Aggregate(nodes: array<AnalysisNode>, links: seq<nat>, root: nat, token: CancelToken,
                   ghost u: Units, ghost g: Graph, ghost t: Chart)
    returns (flat: CategoryTotals, rootFolders: U64, cancelled: bool)
    requires Setting(nodes[..], u, g, t, links, root) && |u.folders| == nodes.Length && root in t
    modifies nodes, token
    ensures token.fired == (old(token.fired) || cancelled)
    ensures !cancelled ==> FlatUpTo(flat, PostOrder(TreeAt(t, root)), u)
    ensures !cancelled ==> rootFolders == Weight(t, root, u.folders)
    ensures !cancelled ==> RolledUpExactly(nodes[..], old(nodes[..]), u, t, PostOrder(TreeAt(t, root)))
  {
    ghost var base := nodes[..];
    var folderCounts, catSlot, dirCat := AssignSlots(nodes);
    flat, rootFolders, cancelled := CategoryTotals(EIGHT_ZEROS, EIGHT_ZEROS, EIGHT_ZEROS), 0, false;
    ProgressStart(Tables(nodes[..], folderCounts[..], catSlot[..], dirCat[..]), base, u, t);
    var stack: seq<Entry> := [(root, false)];
    ghost var finished: seq<nat> := [];
    StartStack(t, root);
    var steps := 0;
    while stack != []
      invariant token.fired == old(token.fired)
      invariant StackIn(t, stack) && finished + Remaining(t, stack) == PostOrder(TreeAt(t, root))
      invariant Progress(Tables(nodes[..], folderCounts[..], catSlot[..], dirCat[..]), base, u, t, finished)
      invariant FlatUpTo(flat, finished, u)
      decreases Steps(t, stack)
    {
      steps := steps + 1;
      cancelled := token.PollEvery(steps);
      if cancelled {
        return;
      }
      flat, stack, finished :=
        AggregateStep(nodes, links, folderCounts, catSlot, dirCat, flat, stack, finished, base, u, g, t, root);
    }
    assert finished == PostOrder(TreeAt(t, root));
    ProgressEnd(Tables(nodes[..], folderCounts[..], catSlot[..], dirCat[..]), base, u, t, finished, root);
    FoldersBound(base, u, g, t, links, root, root);
    rootFolders := folderCounts[root];
  }
}
