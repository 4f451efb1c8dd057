/**
  From records to links: nodes are created, parents resolved, and the children of every node
  laid out in one flat array.
 */
module ParentLinks {
  import opened Cancellation
  import opened DiskModel
  import opened FrnIndex
  import opened Wrappers

  // ---- What the links should be ----------------------------------------

  predicate SelfParentDir(record: Record) {
    record.parentFrn == record.frn && record.isDir
  }

  /** Node index of the record that stands for the volume itself, among the first `n` records. */
  function VolumeRoot(records: seq<Record>, n: nat): (root: Option<nat>)
    requires n <= |records|
    ensures root.Some? ==> 1 <= root.value <= n
  {
    if n == 0 then None else
      var before := VolumeRoot(records, n - 1);
      if before.Some? then before
      else if SelfParentDir(records[n - 1]) then Some(n)
      else None
  }

  /** It is the first directory recorded as its own parent. */
  lemma {:induction false} VolumeRootIsFirst(records: seq<Record>, n: nat, x: nat)
    requires n <= |records|
    ensures VolumeRoot(records, n) == Some(x) <==>
      1 <= x <= n && SelfParentDir(records[x - 1]) && forall i :: 0 <= i < x - 1 ==> !SelfParentDir(records[i])
    ensures VolumeRoot(records, n).None? <==> forall i :: 0 <= i < n ==> !SelfParentDir(records[i])
  {
    if n > 0 {
      VolumeRootIsFirst(records, n - 1, x);
    }
  }

  /** Index of the tree root; 0 is the synthetic root in front of the records. */
  function RootIndex(records: seq<Record>): (root: nat)
    ensures root <= |records|
  {
    VolumeRoot(records, |records|).GetOr(0)
  }

  /**
    The parent of node `i + 1`: the last record numbered `parentFrn`, if that is a directory other
    than the node itself; orphans, self-parents and children of files go to the root.
   */
  function ParentOf(records: seq<Record>, i: nat): (p: nat)
    requires i < |records|
    ensures p <= |records|
  {
    var found := if records[i].parentFrn == records[i].frn then None else LastWithFrn(records, records[i].parentFrn);
    if found.Some? && found.value != i + 1 && records[found.value - 1].isDir then found.value
    else RootIndex(records)
  }

  ghost predicate Increasing(s: seq<nat>) {
    forall k, l :: 0 <= k < l < |s| ==> s[k] < s[l]
  }

  ghost predicate AtMost(s: seq<nat>, bound: nat) {
    forall k :: 0 <= k < |s| ==> s[k] <= bound
  }

  /** The nodes that have a parent slot: every record up to node `n` except the volume root. */
  function Placed(root: nat, n: nat): (idxs: seq<nat>)
    ensures |idxs| <= n
  {
    if n == 0 then []
    else if n == root then Placed(root, n - 1)
    else Placed(root, n - 1) + [n]
  }

  lemma {:induction false} PlacedIncreasing(root: nat, n: nat)
    ensures Increasing(Placed(root, n))
    ensures forall k :: 0 <= k < |Placed(root, n)| ==> 1 <= Placed(root, n)[k] <= n && Placed(root, n)[k] != root
  {
    if n > 0 {
      PlacedIncreasing(root, n - 1);
    }
  }

  lemma {:induction false} PlacedAll(root: nat, n: nat, x: nat)
    requires 1 <= x <= n && x != root
    ensures x in Placed(root, n)
  {
    if x < n {
      PlacedAll(root, n - 1, x);
    }
  }

  /** Of the first `n` placed nodes, those with parent `p`, in record order. */
  function Picked(parents: seq<nat>, idxs: seq<nat>, p: nat, n: nat): (kids: seq<nat>)
    requires n <= |parents| == |idxs|
    ensures |kids| <= n
  {
    if n == 0 then []
    else if parents[n - 1] == p then Picked(parents, idxs, p, n - 1) + [idxs[n - 1]]
    else Picked(parents, idxs, p, n - 1)
  }

  lemma {:induction false} PickedIffParent(parents: seq<nat>, idxs: seq<nat>, p: nat, n: nat, c: nat)
    requires n <= |parents| == |idxs|
    ensures c in Picked(parents, idxs, p, n) <==> exists k :: 0 <= k < n && idxs[k] == c && parents[k] == p
  {
    if n > 0 {
      PickedIffParent(parents, idxs, p, n - 1, c);
    }
  }

  lemma {:induction false} PickedIncreasing(parents: seq<nat>, idxs: seq<nat>, p: nat, n: nat)
    requires n <= |parents| == |idxs| && Increasing(idxs)
    ensures Increasing(Picked(parents, idxs, p, n))
    ensures n > 0 ==> AtMost(Picked(parents, idxs, p, n), idxs[n - 1])
  {
    if n > 0 {
      PickedIncreasing(parents, idxs, p, n - 1);
    }
  }

  // ---- Pass 1: one node per record --------------------------------------

  function UpperAscii(c: char): char {
    if 'a' <= c <= 'z' then ((c as int) - 32) as char else c
  }

  function DriveName(drive: char): string {
    [UpperAscii(drive), ':']
  }

  function SyntheticRoot(drive: char): AnalysisNode {
    AnalysisNode(DriveName(drive), 0, 0, 0, 0, 0, 0, 0, 0, true, false, Other)
  }

  function NodeFor(record: Record, categorize: string -> FileCategory): AnalysisNode {
    AnalysisNode(
      record.name, 0, 0, 0, record.size, record.allocatedSize, record.size, record.allocatedSize,
      if record.isDir then 0 else 1, record.isDir, record.isReparse,
      if record.isDir then Other else categorize(record.name))
  }

  /** What every node looks like before links and roll-ups are filled in. */
  ghost predicate FreshNodes(nodes: seq<AnalysisNode>, drive: char, records: seq<Record>,
                             categorize: string -> FileCategory)
  {
    && |nodes| == |records| + 1
    && nodes[0] == SyntheticRoot(drive)
    && forall x {:trigger nodes[x]} :: 1 <= x < |nodes| ==> nodes[x] == NodeFor(records[x - 1], categorize)
  }

  method CreateNodes(drive: char, records: seq<Record>, categorize: string -> FileCategory, token: CancelToken)
    returns (nodes: array<AnalysisNode>, pairs: seq<Pair>, volumeRoot: Option<nat>, cancelled: bool)
    modifies token
    ensures fresh(nodes) && token.fired == (old(token.fired) || cancelled)
    ensures !cancelled ==> FreshNodes(nodes[..], drive, records, categorize)
    ensures !cancelled ==> pairs == PairsOf(records) && volumeRoot == VolumeRoot(records, |records|)
  {
    nodes := new AnalysisNode[|records| + 1](_ => SyntheticRoot(drive));
    pairs, volumeRoot, cancelled := [], None, false;
    for i := 0 to |records|
      invariant fresh(nodes) && token.fired == old(token.fired)
      invariant nodes[0] == SyntheticRoot(drive)
      invariant forall x {:trigger nodes[x]} :: 1 <= x <= i ==> nodes[x] == NodeFor(records[x - 1], categorize)
      invariant |pairs| == i && forall k {:trigger pairs[k]} :: 0 <= k < i ==> pairs[k] == Pair(records[k].frn, k + 1)
      invariant volumeRoot == VolumeRoot(records, i)
    {
      cancelled := token.PollEvery(i);
      if cancelled {
        return;
      }
      if volumeRoot.None? && SelfParentDir(records[i]) {
        volumeRoot := Some(i + 1);
      }
      pairs := pairs + [Pair(records[i].frn, i + 1)];
      nodes[i + 1] := NodeFor(records[i], categorize);
    }
    cancelled := token.Poll();
  }

  // ---- Pass 2: resolve parents ------------------------------------------

  function ParentField(records: seq<Record>, x: nat): nat
    requires x <= |records|
  {
    if x == RootIndex(records) || x == 0 then x else ParentOf(records, x - 1)
  }

  /** `table[x]` is the parent of node `x`. */
  ghost predicate ParentTable(table: seq<nat>, records: seq<Record>) {
    && |table| == |records| + 1
    && forall x {:trigger ParentField(records, x)} :: 0 <= x <= |records| ==> table[x] == ParentField(records, x)
  }

  ghost function ParentsOf(records: seq<Record>): (table: seq<nat>)
    ensures ParentTable(table, records)
  {
    seq(|records| + 1, x requires 0 <= x <= |records| => ParentField(records, x))
  }

  /** Node `x` once the parents of nodes up to `n` are written; the volume root also gets the drive's name. */
  ghost function ParentedNode(node: AnalysisNode, drive: char, table: seq<nat>, root: nat, x: nat, n: nat): AnalysisNode
    requires x < |table|
  {
    node.(
      parent := if x <= n || x == root then table[x] else 0,
      name := if x == root then DriveName(drive) else node.name)
  }

  /** The nodes when the parents of the first `n` records are written. */
  ghost predicate Parented(nodes: seq<AnalysisNode>, before: seq<AnalysisNode>, drive: char, table: seq<nat>, root: nat, n: nat) {
    && |nodes| == |before| == |table|
    && forall x {:trigger nodes[x]} :: 0 <= x < |nodes| ==> nodes[x] == ParentedNode(before[x], drive, table, root, x, n)
  }

  /** The resolved parents, in the order of the placed nodes. */
  ghost predicate ResolvedUpTo(table: seq<nat>, root: nat, parents: seq<nat>, idxs: seq<nat>, n: nat)
    requires n < |table|
  {
    && idxs == Placed(root, n)
    && |parents| == |idxs|
    && forall k {:trigger idxs[k]} {:trigger parents[k]} :: 0 <= k < |idxs| ==>
      0 <= idxs[k] < |table| && parents[k] == table[idxs[k]]
  }

  /** Resolve one parent: the lookup result if it is another directory, the root otherwise. */
  method ResolveOne(nodes: array<AnalysisNode>, records: seq<Record>, index: seq<Pair>, root: nat, i: nat,
                    ghost table: seq<nat>)
    returns (p: nat)
    requires SameDirs(nodes[..], records) && i < |records|
    requires Indexes(index, records) && root == RootIndex(records) && i + 1 != root
    requires ParentTable(table, records)
    ensures p == table[i + 1] && p <= |records|
  {
    var found := None;
    if records[i].parentFrn != records[i].frn {
      found := Lookup(index, records[i].parentFrn, records);
    }
    if found.Some? && found.value != i + 1 && nodes[found.value].isDir {
      p := found.value;
    } else {
      p := root;
    }
    assert p == ParentField(records, i + 1);
  }

  ghost predicate Counted(counts: seq<nat>, parents: seq<nat>, idxs: seq<nat>)
    requires |parents| == |idxs|
  {
    forall p {:trigger counts[p]} :: 0 <= p < |counts| ==> counts[p] == |Picked(parents, idxs, p, |idxs|)|
  }

  /** Write the parent of record `i`, which is not the volume root, and count the child. */
  method ResolveNext(nodes: array<AnalysisNode>, childCounts: array<nat>, parents: seq<nat>, idxs: seq<nat>, p: nat,
                     i: nat, ghost before: seq<AnalysisNode>, ghost drive: char, ghost table: seq<nat>, ghost root: nat)
    returns (parents': seq<nat>, idxs': seq<nat>)
    requires i + 1 < nodes.Length == childCounts.Length && p < nodes.Length
    requires Parented(nodes[..], before, drive, table, root, i) && ResolvedUpTo(table, root, parents, idxs, i)
    requires Counted(childCounts[..], parents, idxs)
    requires i + 1 != root && p == table[i + 1]
    modifies nodes, childCounts
    ensures Parented(nodes[..], before, drive, table, root, i + 1)
    ensures ResolvedUpTo(table, root, parents', idxs', i + 1) && Counted(childCounts[..], parents', idxs')
  {
    PickedExtend(parents, idxs, p, i + 1);
    nodes[i + 1] := nodes[i + 1].(parent := p);
    parents', idxs' := parents + [p], idxs + [i + 1];
    childCounts[p] := childCounts[p] + 1;
  }

  lemma SkipRoot(nodes: seq<AnalysisNode>, before: seq<AnalysisNode>, drive: char, table: seq<nat>, root: nat,
                 parents: seq<nat>, idxs: seq<nat>, i: nat)
    requires i + 1 < |table| && i + 1 == root
    requires Parented(nodes, before, drive, table, root, i) && ResolvedUpTo(table, root, parents, idxs, i)
    ensures Parented(nodes, before, drive, table, root, i + 1) && ResolvedUpTo(table, root, parents, idxs, i + 1)
  {
  }

  /** The volume root is its own parent and takes the drive's name; no child is counted yet. */
  method StartParents(nodes: array<AnalysisNode>, drive: char, volumeRoot: Option<nat>, ghost table: seq<nat>)
    returns (childCounts: array<nat>)
    requires |table| == nodes.Length && volumeRoot.GetOr(0) < nodes.Length
    requires forall x :: 0 <= x < nodes.Length ==> nodes[x].parent == 0
    requires volumeRoot.None? ==> nodes[0].name == DriveName(drive)
    requires table[volumeRoot.GetOr(0)] == volumeRoot.GetOr(0) && table[0] == 0
    modifies nodes
    ensures fresh(childCounts) && childCounts.Length == nodes.Length
    ensures Parented(nodes[..], old(nodes[..]), drive, table, volumeRoot.GetOr(0), 0)
    ensures ResolvedUpTo(table, volumeRoot.GetOr(0), [], [], 0) && Counted(childCounts[..], [], [])
  {
    if volumeRoot.Some? {
      var root := volumeRoot.value;
      nodes[root] := nodes[root].(parent := root, name := DriveName(drive));
    }
    childCounts := new nat[nodes.Length](_ => 0);
  }

  ghost predicate SameDirs(nodes: seq<AnalysisNode>, records: seq<Record>) {
    |nodes| == |records| + 1 && forall k :: 0 <= k < |records| ==> nodes[k + 1].isDir == records[k].isDir
  }

  lemma ParentedKeepsDirs(nodes: seq<AnalysisNode>, before: seq<AnalysisNode>, drive: char, table: seq<nat>, root: nat,
                          n: nat, records: seq<Record>)
    requires Parented(nodes, before, drive, table, root, n) && SameDirs(before, records)
    ensures SameDirs(nodes, records)
  {
  }

  method ResolveParents(nodes: array<AnalysisNode>, drive: char, records: seq<Record>, index: seq<Pair>,
                        volumeRoot: Option<nat>, ghost table: seq<nat>, token: CancelToken)
    returns (parents: seq<nat>, idxs: seq<nat>, childCounts: array<nat>, cancelled: bool)
    requires SameDirs(nodes[..], records)
    requires forall x :: 0 <= x < nodes.Length ==> nodes[x].parent == 0
    requires volumeRoot.None? ==> nodes[0].name == DriveName(drive)
    requires Indexes(index, records) && volumeRoot.GetOr(0) == RootIndex(records)
    requires ParentTable(table, records)
    modifies nodes, token
    ensures fresh(childCounts) && token.fired == (old(token.fired) || cancelled)
    ensures !cancelled ==> Parented(nodes[..], old(nodes[..]), drive, table, volumeRoot.GetOr(0), |records|)
    ensures !cancelled ==> ResolvedUpTo(table, volumeRoot.GetOr(0), parents, idxs, |records|)
    ensures !cancelled ==> childCounts.Length == nodes.Length && Counted(childCounts[..], parents, idxs)
  {
    ghost var before := nodes[..];
    var root := volumeRoot.GetOr(0);
    assert table[root] == ParentField(records, root) && table[0] == ParentField(records, 0);
    childCounts := StartParents(nodes, drive, volumeRoot, table);
    parents, idxs, cancelled := [], [], false;
    for i := 0 to |records|
      invariant token.fired == old(token.fired)
      invariant Parented(nodes[..], before, drive, table, root, i) && ResolvedUpTo(table, root, parents, idxs, i)
      invariant Counted(childCounts[..], parents, idxs)
    {
      cancelled := token.PollEvery(i);
      if cancelled {
        return;
      }
      if i + 1 != root {
        ParentedKeepsDirs(nodes[..], before, drive, table, root, i, records);
        var p := ResolveOne(nodes, records, index, root, i, table);
        parents, idxs := ResolveNext(nodes, childCounts, parents, idxs, p, i, before, drive, table, root);
      } else {
        SkipRoot(nodes[..], before, drive, table, root, parents, idxs, i);
      }
    }
  }

  lemma PickedExtend(parents: seq<nat>, idxs: seq<nat>, q: nat, x: nat)
    requires |parents| == |idxs|
    ensures forall p: nat ::
      Picked(parents + [q], idxs + [x], p, |idxs| + 1) ==
      Picked(parents, idxs, p, |idxs|) + if p == q then [x] else []
  {
    forall p: nat {
      PickedPrefix(parents, idxs, parents + [q], idxs + [x], p, |idxs|);
    }
  }

  lemma {:induction false} PickedPrefix(parents: seq<nat>, idxs: seq<nat>, parents': seq<nat>, idxs': seq<nat>, p: nat, n: nat)
    requires n <= |parents| == |idxs| && |parents'| == |idxs'|
    requires parents <= parents' && idxs <= idxs'
    ensures Picked(parents, idxs, p, n) == Picked(parents', idxs', p, n)
  {
    if n > 0 {
      PickedPrefix(parents, idxs, parents', idxs', p, n - 1);
    }
  }
}
