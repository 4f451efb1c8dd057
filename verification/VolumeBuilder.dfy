/** Building the analyzed volume from a snapshot: all passes in order. */
module VolumeBuilder {
  import opened Cancellation
  import opened ChildSlices
  import opened DiskModel
  import opened ForestTheory
  import opened FrnIndex
  import opened ParentLinks

  // ---- The child array encodes the parent function ------------------------------

  ghost predicate Contiguous(nodes: seq<AnalysisNode>, links: seq<nat>) {
    && nodes != [] && nodes[0].childStart == 0
    && (forall x {:trigger nodes[x].childLen} :: 0 <= x < |nodes| ==> nodes[x].childStart + nodes[x].childLen <= |links|)
    && (forall x {:trigger nodes[x].childLen} :: 0 <= x < |nodes| - 1 ==>
      nodes[x + 1].childStart == nodes[x].childStart + nodes[x].childLen)
    && nodes[|nodes| - 1].childStart + nodes[|nodes| - 1].childLen == |links|
  }

  /** The slice of `x` lists, in ascending order, exactly the nodes whose parent is `x`; the root is nobody's child. */
  ghost predicate SliceOfChildren(nodes: seq<AnalysisNode>, links: seq<nat>, root: nat, x: nat)
    requires x < |nodes| && nodes[x].childStart + nodes[x].childLen <= |links|
  {
    && Increasing(Slice(nodes[x], links))
    && (forall c :: c in Slice(nodes[x], links) <==> 1 <= c < |nodes| && c != root && nodes[c].parent == x)
    && (!nodes[x].isDir ==> nodes[x].childLen == 0)
  }

  ghost predicate EncodesParents(nodes: seq<AnalysisNode>, links: seq<nat>, root: nat) {
    && Contiguous(nodes, links)
    && root < |nodes| && nodes[root].parent == root && nodes[root].isDir && nodes[0].parent == 0
    && (forall x {:trigger nodes[x].parent} :: 0 <= x < |nodes| ==> nodes[x].parent < |nodes|)
    && (forall x {:trigger nodes[x].parent} :: 1 <= x < |nodes| && x != root ==> nodes[x].parent != x)
    && (forall x {:trigger SliceOfChildren(nodes, links, root, x)} :: 0 <= x < |nodes| ==> SliceOfChildren(nodes, links, root, x))
  }

  /** Some node owns slot `k`. */
  lemma {:induction false} SlotOwner(nodes: seq<AnalysisNode>, links: seq<nat>, k: nat, n: nat) returns (x: nat)
    requires Contiguous(nodes, links) && n < |nodes| && k < nodes[n].childStart + nodes[n].childLen
    ensures x < |nodes| && nodes[x].childStart <= k < nodes[x].childStart + nodes[x].childLen
    decreases n
  {
    if nodes[n].childStart <= k {
      x := n;
    } else {
      assert n > 0 && nodes[n - 1].childLen >= 0;
      x := SlotOwner(nodes, links, k, n - 1);
    }
  }

  lemma SlotContent(nodes: seq<AnalysisNode>, links: seq<nat>, root: nat, k: nat) returns (x: nat)
    requires EncodesParents(nodes, links, root) && k < |links|
    ensures x < |nodes| && nodes[x].childStart <= k < nodes[x].childStart + nodes[x].childLen
    ensures 1 <= links[k] < |nodes| && links[k] != root && nodes[links[k]].parent == x
  {
    x := SlotOwner(nodes, links, k, |nodes| - 1);
    assert nodes[x].childLen >= 0;
    assert SliceOfChildren(nodes, links, root, x);
    SliceItem(nodes, links, root, x, k);
  }

  lemma SliceItem(nodes: seq<AnalysisNode>, links: seq<nat>, root: nat, x: nat, k: nat)
    requires x < |nodes| && nodes[x].childStart + nodes[x].childLen <= |links| && SliceOfChildren(nodes, links, root, x)
    requires nodes[x].childStart <= k < nodes[x].childStart + nodes[x].childLen
    ensures 1 <= links[k] < |nodes| && links[k] != root && nodes[links[k]].parent == x
  {
    assert Slice(nodes[x], links)[k - nodes[x].childStart] == links[k];
    assert links[k] in Slice(nodes[x], links);
  }

  lemma SliceOrder(nodes: seq<AnalysisNode>, links: seq<nat>, root: nat, x: nat, i: nat, j: nat)
    requires x < |nodes| && nodes[x].childStart + nodes[x].childLen <= |links| && SliceOfChildren(nodes, links, root, x)
    requires nodes[x].childStart <= i < j < nodes[x].childStart + nodes[x].childLen
    ensures links[i] < links[j]
  {
    var kids := Slice(nodes[x], links);
    assert kids[i - nodes[x].childStart] == links[i] && kids[j - nodes[x].childStart] == links[j];
  }

  lemma SlotsDiffer(nodes: seq<AnalysisNode>, links: seq<nat>, root: nat, i: nat, j: nat)
    requires EncodesParents(nodes, links, root) && i < j < |links|
    ensures links[i] != links[j]
  {
    var x := SlotContent(nodes, links, root, i);
    var y := SlotContent(nodes, links, root, j);
    if x == y {
      assert nodes[x].childLen >= 0;
      assert SliceOfChildren(nodes, links, root, x);
      SliceOrder(nodes, links, root, x, i, j);
    }
  }

  lemma PlacedHasSlot(nodes: seq<AnalysisNode>, links: seq<nat>, root: nat, c: nat)
    requires EncodesParents(nodes, links, root) && 1 <= c < |nodes| && c != root
    ensures c in links
  {
    var p := nodes[c].parent;
    assert nodes[p].childLen >= 0;
    assert SliceOfChildren(nodes, links, root, p);
    assert c in Slice(nodes[p], links);
  }

  /** Every record except the volume root occupies exactly one slot, and no slot holds anything else. */
  lemma EveryRecordOneSlot(nodes: seq<AnalysisNode>, links: seq<nat>, root: nat)
    requires EncodesParents(nodes, links, root)
    ensures Distinct(links)
    ensures forall c :: c in links <==> 1 <= c < |nodes| && c != root
  {
    forall i, j | 0 <= i < j < |links| ensures links[i] != links[j] {
      SlotsDiffer(nodes, links, root, i, j);
    }
    forall c | c in links ensures 1 <= c < |nodes| && c != root {
      var k :| 0 <= k < |links| && links[k] == c;
      var x := SlotContent(nodes, links, root, k);
    }
    forall c | 1 <= c < |nodes| && c != root ensures c in links {
      PlacedHasSlot(nodes, links, root, c);
    }
  }

  // ---- The graph of a built volume -------------------------------------------------

  ghost function GraphOf(nodes: seq<AnalysisNode>, links: seq<nat>, root: nat): (g: Graph)
    requires Contiguous(nodes, links)
    ensures Depicts(g, nodes, links, root)
  {
    var g := Graph(
      seq(|nodes|, x requires 0 <= x < |nodes| => nodes[x].parent),
      seq(|nodes|, x requires 0 <= x < |nodes| => assert nodes[x].childLen >= 0; Slice(nodes[x], links)),
      seq(|nodes|, x requires 0 <= x < |nodes| => nodes[x].Descends()),
      root);
    assert forall x {:trigger LinkAt(g, nodes, links, x)} :: 0 <= x < |nodes| ==> LinkAt(g, nodes, links, x) by {
      forall x | 0 <= x < |nodes| ensures LinkAt(g, nodes, links, x) {
        assert nodes[x].childLen >= 0;
      }
    }
    g
  }

  lemma KidsAt(g: Graph, nodes: seq<AnalysisNode>, links: seq<nat>, root: nat, x: nat)
    requires EncodesParents(nodes, links, root) && Depicts(g, nodes, links, root) && x < |nodes|
    ensures g.parent[x] == nodes[x].parent < |nodes| && Distinct(g.kids[x])
    ensures forall c {:trigger c in g.kids[x]} :: c in g.kids[x] <==> 1 <= c < |nodes| && c != root && nodes[c].parent == x
  {
    assert LinkAt(g, nodes, links, x) && SliceOfChildren(nodes, links, root, x);
  }

  /** The premise of every walk: child slots follow from the parent function. */
  lemma EncodedIsLinked(g: Graph, nodes: seq<AnalysisNode>, links: seq<nat>, root: nat)
    requires EncodesParents(nodes, links, root) && Depicts(g, nodes, links, root)
    ensures Linked(g) && Complete(g)
  {
    forall x | 0 <= x < |nodes|
      ensures g.parent[x] == nodes[x].parent < |nodes| && Distinct(g.kids[x])
      ensures forall c {:trigger c in g.kids[x]} :: c in g.kids[x] <==> 1 <= c < |nodes| && c != root && nodes[c].parent == x
    {
      KidsAt(g, nodes, links, root, x);
    }
    forall x, c {:trigger c in g.kids[x]} | 0 <= x < |g.kids| && c in g.kids[x]
      ensures c < |g.parent| && c != g.root && c != x && g.parent[c] == x
    {
      assert nodes[c].parent != c;
    }
    assert Linked(g);
    forall c | 0 <= c < |g.parent| && c != g.root && g.parent[c] != c ensures c in g.kids[g.parent[c]] {
      assert g.parent[0] == nodes[0].parent == 0;
    }
  }

  // ---- From the passes to the encoding ---------------------------------------------

  /** Node `x` before the roll-up: record data, resolved parent, and its slice. */
  ghost predicate LinkedNode(node: AnalysisNode, drive: char, records: seq<Record>, categorize: string -> FileCategory,
                             table: seq<nat>, root: nat, counts: seq<nat>, x: nat)
    requires x < |table| == |counts| == |records| + 1
  {
    var made := if x == 0 then SyntheticRoot(drive) else NodeFor(records[x - 1], categorize);
    node == made.(
      name := if x == root then DriveName(drive) else made.name,
      parent := table[x],
      childStart := StartOf(counts, x),
      childLen := counts[x])
  }

  lemma StartsContiguous(nodes: seq<AnalysisNode>, links: seq<nat>, counts: seq<nat>)
    requires |nodes| == |counts| && nodes != [] && |links| == StartOf(counts, |counts|)
    requires forall x {:trigger nodes[x]} :: 0 <= x < |nodes| ==>
      nodes[x].childStart == StartOf(counts, x) && nodes[x].childLen == counts[x]
    ensures Contiguous(nodes, links)
  {
    forall x {:trigger nodes[x].childLen} | 0 <= x < |nodes| ensures nodes[x].childStart + nodes[x].childLen <= |links| {
      StartsApart(counts, x, |counts|);
    }
  }

  /** The slices found by counting are the slices of children. */
  lemma PickedAreChildren(nodes: seq<AnalysisNode>, links: seq<nat>, root: nat, table: seq<nat>, parents: seq<nat>,
                          idxs: seq<nat>, x: nat)
    requires x < |nodes| == |table| && nodes[x].childStart + nodes[x].childLen <= |links|
    requires forall c {:trigger nodes[c].parent} :: 0 <= c < |nodes| ==> nodes[c].parent == table[c]
    requires ResolvedUpTo(table, root, parents, idxs, |nodes| - 1)
    requires Slice(nodes[x], links) == Picked(parents, idxs, x, |idxs|)
    requires forall c :: 1 <= c < |nodes| && c != root && table[c] == x ==> nodes[x].isDir
    ensures SliceOfChildren(nodes, links, root, x)
  {
    var n := |nodes| - 1;
    PlacedIncreasing(root, n);
    PickedIncreasing(parents, idxs, x, |idxs|);
    var kids := Slice(nodes[x], links);
    forall c: nat ensures c in kids <==> 1 <= c < |nodes| && c != root && nodes[c].parent == x {
      PickedIffParent(parents, idxs, x, |idxs|, c);
      if 1 <= c < |nodes| && c != root && nodes[c].parent == x {
        PlacedAll(root, n, c);
        var k :| 0 <= k < |idxs| && idxs[k] == c;
        assert parents[k] == table[c];
      }
    }
    if kids != [] {
      assert kids[0] in kids;
    }
  }

  /** Parents are directories, and nobody but the root is its own parent. */
  lemma TableFacts(records: seq<Record>, table: seq<nat>, x: nat)
    requires ParentTable(table, records) && x <= |records|
    ensures table[x] <= |records| && table[RootIndex(records)] == RootIndex(records) && table[0] == 0
    ensures x != 0 && x != RootIndex(records) ==> table[x] != x && (table[x] == 0 || records[table[x] - 1].isDir)
  {
    var root := RootIndex(records);
    assert table[x] == ParentField(records, x) && table[root] == ParentField(records, root) && table[0] == ParentField(records, 0);
    VolumeRootIsFirst(records, |records|, root);
  }

  ghost predicate LinkedNodes(nodes: seq<AnalysisNode>, drive: char, records: seq<Record>,
                              categorize: string -> FileCategory, table: seq<nat>, counts: seq<nat>)
  {
    && |nodes| == |table| == |counts| == |records| + 1
    && forall x {:trigger nodes[x]} :: 0 <= x < |nodes| ==>
      LinkedNode(nodes[x], drive, records, categorize, table, RootIndex(records), counts, x)
  }

  lemma LinkedNodeFields(nodes: seq<AnalysisNode>, drive: char, records: seq<Record>, categorize: string -> FileCategory,
                         table: seq<nat>, counts: seq<nat>, x: nat)
    requires LinkedNodes(nodes, drive, records, categorize, table, counts) && ParentTable(table, records) && x < |nodes|
    ensures nodes[x].parent == table[x] < |nodes|
    ensures nodes[x].childStart == StartOf(counts, x) && nodes[x].childLen == counts[x]
    ensures 1 <= x && x != RootIndex(records) ==> nodes[x].parent != x
    ensures 1 <= x && x != RootIndex(records) ==> nodes[table[x]].isDir
    ensures x == RootIndex(records) ==> nodes[x].parent == x && nodes[x].isDir
    ensures x == 0 ==> nodes[x].parent == 0
  {
    var root := RootIndex(records);
    TableFacts(records, table, x);
    VolumeRootIsFirst(records, |records|, root);
    assert LinkedNode(nodes[x], drive, records, categorize, table, root, counts, x);
    assert LinkedNode(nodes[table[x]], drive, records, categorize, table, root, counts, table[x]);
  }

  lemma LinkedNodesEncode(nodes: seq<AnalysisNode>, links: seq<nat>, drive: char, records: seq<Record>,
                          categorize: string -> FileCategory, table: seq<nat>, counts: seq<nat>,
                          parents: seq<nat>, idxs: seq<nat>)
    requires LinkedNodes(nodes, drive, records, categorize, table, counts) && ParentTable(table, records)
    requires ResolvedUpTo(table, RootIndex(records), parents, idxs, |records|)
    requires |links| == |idxs| == StartOf(counts, |counts|)
    requires forall x {:trigger nodes[x]} :: 0 <= x < |nodes| ==>
      && nodes[x].childStart + nodes[x].childLen <= |links|
      && Slice(nodes[x], links) == Picked(parents, idxs, x, |idxs|)
    ensures EncodesParents(nodes, links, RootIndex(records))
  {
    var root := RootIndex(records);
    forall x | 0 <= x < |nodes|
      ensures nodes[x].parent == table[x] < |nodes|
      ensures nodes[x].childStart == StartOf(counts, x) && nodes[x].childLen == counts[x]
      ensures 1 <= x && x != root ==> nodes[x].parent != x && nodes[table[x]].isDir
    {
      LinkedNodeFields(nodes, drive, records, categorize, table, counts, x);
    }
    LinkedNodeFields(nodes, drive, records, categorize, table, counts, root);
    LinkedNodeFields(nodes, drive, records, categorize, table, counts, 0);
    FieldsEncode(nodes, links, root, table, counts, parents, idxs);
  }

  lemma FieldsEncode(nodes: seq<AnalysisNode>, links: seq<nat>, root: nat, table: seq<nat>, counts: seq<nat>,
                     parents: seq<nat>, idxs: seq<nat>)
    requires root < |nodes| == |table| == |counts| && nodes[root].parent == root && nodes[root].isDir && nodes[0].parent == 0
    requires forall x {:trigger nodes[x].parent} {:trigger nodes[x].childLen} :: 0 <= x < |nodes| ==>
      && nodes[x].parent == table[x] < |nodes|
      && nodes[x].childStart == StartOf(counts, x) && nodes[x].childLen == counts[x]
      && (1 <= x && x != root ==> nodes[x].parent != x && nodes[table[x]].isDir)
    requires ResolvedUpTo(table, root, parents, idxs, |nodes| - 1)
    requires |links| == |idxs| == StartOf(counts, |counts|)
    requires forall x {:trigger Slice(nodes[x], links)} :: 0 <= x < |nodes| ==>
      && nodes[x].childStart + nodes[x].childLen <= |links|
      && Slice(nodes[x], links) == Picked(parents, idxs, x, |idxs|)
    ensures EncodesParents(nodes, links, root)
  {
    forall x {:trigger nodes[x]} | 0 <= x < |nodes|
      ensures nodes[x].childStart == StartOf(counts, x) && nodes[x].childLen == counts[x]
    {
      assert nodes[x].childLen >= 0;
    }
    StartsContiguous(nodes, links, counts);
    forall x | 0 <= x < |nodes| ensures SliceOfChildren(nodes, links, root, x) {
      assert nodes[x].childLen >= 0;
      forall c | 1 <= c < |nodes| && c != root && table[c] == x ensures nodes[x].isDir {
        assert nodes[c].parent == table[c];
      }
      PickedAreChildren(nodes, links, root, table, parents, idxs, x);
    }
  }

  lemma NodesLinked(nodes: seq<AnalysisNode>, parented: seq<AnalysisNode>, made: seq<AnalysisNode>, drive: char,
                    records: seq<Record>, categorize: string -> FileCategory, table: seq<nat>, counts: seq<nat>)
    requires FreshNodes(made, drive, records, categorize) && |table| == |counts| == |nodes| == |records| + 1
    requires Parented(parented, made, drive, table, RootIndex(records), |records|)
    requires Sliced(nodes, parented, counts, |nodes|)
    ensures LinkedNodes(nodes, drive, records, categorize, table, counts)
  {
    forall x {:trigger nodes[x]} | 0 <= x < |nodes|
      ensures LinkedNode(nodes[x], drive, records, categorize, table, RootIndex(records), counts, x)
    {
      assert parented[x] == ParentedNode(made[x], drive, table, RootIndex(records), x, |records|);
    }
  }

  lemma FreshFacts(made: seq<AnalysisNode>, drive: char, records: seq<Record>, categorize: string -> FileCategory)
    requires FreshNodes(made, drive, records, categorize)
    ensures SameDirs(made, records) && made[0].name == DriveName(drive)
    ensures forall x :: 0 <= x < |made| ==> made[x].parent == 0
  {
    forall k | 0 <= k < |records| ensures made[k + 1].isDir == records[k].isDir {
      assert made[k + 1] == NodeFor(records[k + 1 - 1], categorize);
    }
  }

  lemma ResolvedInRange(records: seq<Record>, table: seq<nat>, parents: seq<nat>, idxs: seq<nat>)
    requires ParentTable(table, records) && ResolvedUpTo(table, RootIndex(records), parents, idxs, |records|)
    ensures forall k :: 0 <= k < |parents| ==> parents[k] < |table|
  {
    forall k | 0 <= k < |parents| ensures parents[k] < |table| {
      assert parents[k] == table[idxs[k]];
      TableFacts(records, table, idxs[k]);
    }
  }

  method BuildIndex(pairs: seq<Pair>, records: seq<Record>, token: CancelToken)
    returns (index: seq<Pair>, cancelled: bool)
    requires pairs == PairsOf(records)
    modifies token
    ensures token.fired == (old(token.fired) || cancelled)
    ensures !cancelled ==> Indexes(index, records)
  {
    index := [];
    var sorted := SortPairs(pairs);
    cancelled := token.Poll();
    if cancelled {
      return;
    }
    KeepLastIndexes(records, sorted[..]);
    var len := Dedupe(sorted);
    index := sorted[..len];
  }

  /** Passes 1 and 2: nodes, parents and child slices. */
  method LinkVolume(drive: char, records: seq<Record>, categorize: string -> FileCategory, token: CancelToken)
    returns (nodes: array<AnalysisNode>, links: seq<nat>, root: nat, ghost counts: seq<nat>, cancelled: bool)
    modifies token
    ensures fresh(nodes) && token.fired == (old(token.fired) || cancelled)
    ensures !cancelled ==> root == RootIndex(records) && EncodesParents(nodes[..], links, root)
    ensures !cancelled ==> LinkedNodes(nodes[..], drive, records, categorize, ParentsOf(records), counts)
  {
    ghost var table := ParentsOf(records);
    root, links, counts := 0, [], [];
    var pairs, volumeRoot;
    nodes, pairs, volumeRoot, cancelled := CreateNodes(drive, records, categorize, token);
    if cancelled {
      return;
    }
    ghost var made := nodes[..];
    FreshFacts(made, drive, records, categorize);
    var index;
    index, cancelled := BuildIndex(pairs, records, token);
    if cancelled {
      return;
    }
    root := volumeRoot.GetOr(0);
    var parents, idxs, childCounts;
    parents, idxs, childCounts, cancelled := ResolveParents(nodes, drive, records, index, volumeRoot, table, token);
    if cancelled {
      return;
    }
    ghost var parented := nodes[..];
    counts := childCounts[..];
    ResolvedInRange(records, table, parents, idxs);
    var linkArray := BuildSlices(nodes, parents, idxs, childCounts);
    links := linkArray[..];
    NodesLinked(nodes[..], parented, made, drive, records, categorize, table, counts);
    LinkedNodesEncode(nodes[..], links, drive, records, categorize, table, counts, parents, idxs);
  }
}
