/** What a built model says about its records, without any of the builder's own definitions. */
module RecordLaws {
  import opened BuiltVolume
  import opened DiskModel
  import opened Folding
  import opened ForestTheory
  import opened FrnIndex
  import opened ParentLinks
  import opened Saturating
  import opened VolumeTotals
  import opened Walks

  // ---- Nodes ---------------------------------------------------------------------------------

  /** Node `i + 1` carries the data of record `i`. The root is named after the drive. */
  lemma NodeOfRecord(m: DiskAnalysisModel, drive: char, records: seq<Record>, categorize: string -> FileCategory, i: nat)
    requires Represents(m, drive, records, categorize) && i < |records|
    ensures |m.nodes| == |records| + 1 && m.driveLetter == drive
    ensures i + 1 != m.root ==> m.nodes[i + 1].name == records[i].name
    ensures m.nodes[i + 1].size == records[i].size && m.nodes[i + 1].allocatedSize == records[i].allocatedSize
    ensures m.nodes[i + 1].isDir == records[i].isDir && m.nodes[i + 1].isReparse == records[i].isReparse
    ensures !records[i].isDir ==> m.nodes[i + 1].category == categorize(records[i].name)
    ensures records[i].isDir && records[i].isReparse ==> m.nodes[i + 1].category == Other
  {
    assert m.nodes[i + 1].SameRecord(RecordNode(drive, records, categorize, i + 1));
  }

  /** The node in front of the records is an empty plain directory. */
  lemma SyntheticNode(m: DiskAnalysisModel, drive: char, records: seq<Record>, categorize: string -> FileCategory)
    requires Represents(m, drive, records, categorize)
    ensures m.nodes != [] && m.nodes[0].size == 0 && m.nodes[0].allocatedSize == 0 && m.nodes[0].isDir && !m.nodes[0].isReparse
    ensures m.nodes[0].parent == 0
  {
    assert m.nodes[0].SameRecord(RecordNode(drive, records, categorize, 0));
    assert m.nodes[0].parent == RecordNode(drive, records, categorize, 0).parent;
  }

  /** The root is named after the drive in upper case. */
  lemma RootIsDrive(m: DiskAnalysisModel, drive: char, records: seq<Record>, categorize: string -> FileCategory)
    requires Represents(m, drive, records, categorize)
    ensures m.root < |m.nodes| && |m.nodes[m.root].name| == 2 && m.nodes[m.root].name[1] == ':'
    ensures 'A' <= drive <= 'Z' ==> m.nodes[m.root].name[0] == drive
    ensures 'a' <= drive <= 'z' ==> m.nodes[m.root].name[0] as int - 'A' as int == drive as int - 'a' as int
  {
    assert m.nodes[m.root].SameRecord(RecordNode(drive, records, categorize, m.root));
  }

  /** The root is the first directory that is its own parent, or the node in front of all records. */
  lemma RootFromRecords(m: DiskAnalysisModel, drive: char, records: seq<Record>, categorize: string -> FileCategory)
    requires Represents(m, drive, records, categorize)
    ensures m.root <= |records|
    ensures m.root > 0 ==> records[m.root - 1].isDir && records[m.root - 1].parentFrn == records[m.root - 1].frn
    ensures forall j :: 0 <= j < |records| && (m.root == 0 || j < m.root - 1) ==>
      !(records[j].isDir && records[j].parentFrn == records[j].frn)
  {
    VolumeRootIsFirst(records, |records|, m.root);
    assert forall j :: 0 <= j < |records| && !SelfParentDir(records[j]) ==> !(records[j].isDir && records[j].parentFrn == records[j].frn);
  }

  // ---- Parents -------------------------------------------------------------------------------

  /** Record `k` is the last one numbered `frn`. */
  ghost predicate IsLast(records: seq<Record>, frn: U64, k: nat) {
    k < |records| && records[k].frn == frn && forall j :: k < j < |records| ==> records[j].frn != frn
  }

  /** No directory can be the parent of record `i`: nothing is numbered so, the last such record is a file, or it is `i` itself. */
  ghost predicate IsOrphan(records: seq<Record>, i: nat)
    requires i < |records|
  {
    || records[i].parentFrn == records[i].frn
    || (forall j :: 0 <= j < |records| ==> records[j].frn != records[i].parentFrn)
    || (exists k: nat :: IsLast(records, records[i].parentFrn, k) && !records[k].isDir)
  }

  lemma {:induction false} LastAmongFinds(records: seq<Record>, frn: U64, n: nat)
    requires n <= |records|
    ensures LastAmong(records, frn, n).None? ==> forall j :: 0 <= j < n ==> records[j].frn != frn
    ensures LastAmong(records, frn, n).Some? ==> forall j :: LastAmong(records, frn, n).value <= j < n ==> records[j].frn != frn
  {
    if n > 0 && records[n - 1].frn != frn {
      LastAmongFinds(records, frn, n - 1);
    }
  }

  lemma ParentOfRecord(records: seq<Record>, i: nat)
    requires i < |records|
    ensures IsOrphan(records, i) ==> ParentOf(records, i) == RootIndex(records)
    ensures !IsOrphan(records, i) ==>
      var p := ParentOf(records, i); p > 0 && IsLast(records, records[i].parentFrn, p - 1) && records[p - 1].isDir
  {
    var found := LastWithFrn(records, records[i].parentFrn);
    LastAmongFinds(records, records[i].parentFrn, |records|);
    if found.Some? {
      var last: nat := found.value - 1;
      assert IsLast(records, records[i].parentFrn, last);
      assert forall k: nat :: IsLast(records, records[i].parentFrn, k) ==> k == last;
    }
  }

  /**
    An orphan goes directly below the root. Every other record goes below the last record that has its
    parent's number, which is a directory.
   */
  lemma ParentFromRecords(m: DiskAnalysisModel, drive: char, records: seq<Record>, categorize: string -> FileCategory, i: nat)
    requires Represents(m, drive, records, categorize) && i < |records|
    ensures i + 1 < |m.nodes| && m.nodes[m.root].parent == m.root
    ensures i + 1 != m.root && IsOrphan(records, i) ==> m.nodes[i + 1].parent == m.root
    ensures i + 1 != m.root && !IsOrphan(records, i) ==>
      var p := m.nodes[i + 1].parent; p > 0 && IsLast(records, records[i].parentFrn, p - 1) && records[p - 1].isDir
  {
    ParentOfRecord(records, i);
    assert m.nodes[i + 1].parent == RecordNode(drive, records, categorize, i + 1).parent;
    assert m.nodes[m.root].parent == RecordNode(drive, records, categorize, m.root).parent;
  }

  // ---- Who climbs to the root ------------------------------------------------------------------

  /** `y` is its own ancestor, two or more steps up. */
  ghost predicate OnParentCycle(g: Graph, y: nat)
    requires Linked(g)
  {
    y < |g.parent| && g.parent[y] != y && exists k: nat :: k >= 2 && Up(g, y, k) == y
  }

  ghost predicate ClimbsIntoCycle(g: Graph, x: nat)
    requires Linked(g)
  {
    exists i: nat :: OnParentCycle(g, Up(g, x, i))
  }

  ghost function Climbing(g: Graph, x: nat, n: nat): (s: seq<nat>)
    requires Linked(g)
    ensures |s| == n && forall i :: 0 <= i < n ==> s[i] == Up(g, x, i)
  {
    seq(n, i requires 0 <= i < n => Up(g, x, i))
  }

  lemma {:induction false} UpInRange(g: Graph, x: nat, i: nat)
    requires Linked(g) && x < |g.parent|
    ensures Up(g, x, i) < |g.parent|
  {
    UpSplit(g, x, i);
  }

  lemma {:induction false} UpFurther(g: Graph, x: nat, i: nat, k: nat)
    requires Linked(g) && x < |g.parent|
    ensures Up(g, x, i + k) == Up(g, Up(g, x, i), k)
    decreases i
  {
    if i > 0 {
      UpFurther(g, g.parent[x], i - 1, k);
    }
  }

  /** Whoever meets the root on the way up is rooted. */
  lemma {:induction false} MeetingRootIsRooted(g: Graph, x: nat, i: nat)
    requires Linked(g) && x < |g.parent| && Up(g, x, i) == g.root
    ensures Rooted(g, x)
    decreases i
  {
    if x == g.root {
      assert AtDepth(g, x, 0);
    } else {
      MeetingRootIsRooted(g, g.parent[x], i - 1);
      var d: nat :| AtDepth(g, g.parent[x], d);
      assert AtDepth(g, x, d + 1);
    }
  }

  /** A climb longer than there are nodes repeats one. */
  lemma ClimbRepeats(g: Graph, x: nat) returns (i: nat, k: nat)
    requires Linked(g) && x < |g.parent|
    ensures k > 0 && Up(g, Up(g, x, i), k) == Up(g, x, i)
  {
    var n := |g.parent| + 1;
    var s := Climbing(g, x, n);
    if Distinct(s) {
      forall y | y in s ensures y < |g.parent| {
        var j :| 0 <= j < n && s[j] == y;
        UpInRange(g, x, j);
      }
      DistinctBound(s, |g.parent|);
      assert false;
    }
    var a, b :| 0 <= a < b < n && s[a] == s[b];
    i, k := a, b - a;
    UpFurther(g, x, i, k);
  }

  /** The rooted node at depth `d` is `d` steps from the root. */
  lemma {:induction false} UpDepth(g: Graph, x: nat, d: nat, i: nat)
    requires Linked(g) && AtDepth(g, x, d) && i <= d
    ensures AtDepth(g, Up(g, x, i), d - i)
    decreases i
  {
    if i > 0 {
      UpDepth(g, g.parent[x], d - 1, i - 1);
    }
  }

  lemma {:induction false} UpFromRoot(g: Graph, n: nat)
    requires Linked(g) && g.parent[g.root] == g.root
    ensures Up(g, g.root, n) == g.root
    decreases n
  {
    if n > 0 {
      UpFromRoot(g, n - 1);
    }
  }

  /** No way to the root passes a cycle. */
  lemma RootedAvoidsCycles(g: Graph, x: nat, i: nat)
    requires Linked(g) && g.parent[g.root] == g.root && Rooted(g, x)
    ensures !OnParentCycle(g, Up(g, x, i))
  {
    var d: nat :| AtDepth(g, x, d);
    var y := Up(g, x, i);
    RootedInRange(g, x);
    if i > d {
      UpDepth(g, x, d, d);
      UpFurther(g, x, d, i - d);
      UpFromRoot(g, i - d);
    } else {
      UpDepth(g, x, d, i);
      RootedInRange(g, y);
      forall k: nat | k >= 2 && Up(g, y, k) == y ensures y == g.root {
        if k <= d - i {
          UpDepth(g, y, d - i, k);
          DepthUnique(g, y, d - i, d - i - k);
        } else {
          UpDepth(g, y, d - i, d - i);
          UpFurther(g, y, d - i, k - (d - i));
          UpFromRoot(g, k - (d - i));
        }
      }
    }
  }

  /** Nothing but the root is its own parent on the way up from `x`. */
  ghost predicate OnlyRootIsOwnParent(g: Graph, x: nat)
    requires Linked(g)
  {
    forall i: nat {:trigger Up(g, x, i)} :: Up(g, x, i) < |g.parent| && g.parent[Up(g, x, i)] == Up(g, x, i) ==> Up(g, x, i) == g.root
  }

  /** A climb ends at the root, or in a cycle of two or more nodes, and never both. */
  lemma RootedOrCycle(g: Graph, x: nat)
    requires Linked(g) && g.parent[g.root] == g.root && x < |g.parent| && OnlyRootIsOwnParent(g, x)
    ensures Rooted(g, x) <==> !ClimbsIntoCycle(g, x)
  {
    if Rooted(g, x) {
      forall i: nat ensures !OnParentCycle(g, Up(g, x, i)) {
        RootedAvoidsCycles(g, x, i);
      }
    } else {
      var i, k := ClimbRepeats(g, x);
      var y := Up(g, x, i);
      UpInRange(g, x, i);
      if y == g.root {
        MeetingRootIsRooted(g, x, i);
      }
      assert Up(g, y, 1) == g.parent[y];
      assert OnParentCycle(g, y);
    }
  }

  lemma ParentIsRecord(m: DiskAnalysisModel, drive: char, records: seq<Record>, categorize: string -> FileCategory, x: nat)
    requires IsTree(m) && Represents(m, drive, records, categorize) && x < |m.nodes| && (m.root > 0 ==> x > 0)
    ensures Links(m).parent[x] < |m.nodes| && (m.root > 0 ==> Links(m).parent[x] > 0)
  {
    assert LinkAt(Links(m), m.nodes, m.childLinks, x);
    RootFromRecords(m, drive, records, categorize);
    if x > 0 {
      ParentFromRecords(m, drive, records, categorize, x - 1);
    } else {
      SyntheticNode(m, drive, records, categorize);
    }
  }

  lemma {:induction false} ClimbStays(g: Graph, low: nat, x: nat, i: nat)
    requires Linked(g) && low <= x < |g.parent| && forall y :: low <= y < |g.parent| ==> low <= g.parent[y]
    ensures low <= Up(g, x, i) < |g.parent|
    decreases i
  {
    if i > 0 {
      ClimbStays(g, low, g.parent[x], i - 1);
    }
  }

  lemma OwnParents(m: DiskAnalysisModel, y: nat)
    requires IsTree(m)
    ensures Links(m).parent[m.root] == m.root < |m.nodes|
    ensures y < |m.nodes| && Links(m).parent[y] == y ==> y == 0 || y == m.root
  {
    assert Unfold(1);
    assert LinkAt(Links(m), m.nodes, m.childLinks, m.root);
    if y < |m.nodes| {
      assert LinkAt(Links(m), m.nodes, m.childLinks, y);
      assert m.nodes[y].parent == Links(m).parent[y];
    }
  }

  /** Every record climbs to the root, or into a cycle of two or more nodes, and never both. */
  lemma RecordRootedOrCycle(m: DiskAnalysisModel, drive: char, records: seq<Record>, categorize: string -> FileCategory, i: nat)
    requires IsTree(m) && Represents(m, drive, records, categorize) && i < |records|
    ensures Rooted(Links(m), i + 1) <==> !ClimbsIntoCycle(Links(m), i + 1)
  {
    var g, low := Links(m), if m.root > 0 then 1 else 0;
    OwnParents(m, m.root);
    forall y | low <= y < |g.parent| ensures low <= g.parent[y] {
      ParentIsRecord(m, drive, records, categorize, y);
    }
    forall j: nat {:trigger Up(g, i + 1, j)} ensures
      Up(g, i + 1, j) < |g.parent| && g.parent[Up(g, i + 1, j)] == Up(g, i + 1, j) ==> Up(g, i + 1, j) == g.root
    {
      ClimbStays(g, low, i + 1, j);
      OwnParents(m, Up(g, i + 1, j));
    }
    RootedOrCycle(g, i + 1);
  }

  // ---- Who is reached ----------------------------------------------------------------------------

  /** Walks look below all nodes that are one or more steps up from `x`, up to the root. */
  ghost predicate PlainWay(g: Graph, x: nat, d: nat)
    requires Linked(g)
  {
    forall i: nat {:trigger Up(g, x, i)} :: 0 < i <= d ==> Up(g, x, i) < |g.descends| && g.descends[Up(g, x, i)]
  }

  lemma PlainWayOneUp(g: Graph, x: nat, d: nat)
    requires Linked(g) && d > 0 && x < |g.parent|
    ensures PlainWay(g, x, d) <==> g.descends[g.parent[x]] && PlainWay(g, g.parent[x], d - 1)
  {
    if PlainWay(g, x, d) {
      assert Up(g, x, 1) == g.parent[x];
      forall i: nat {:trigger Up(g, g.parent[x], i)} | 0 < i <= d - 1
        ensures Up(g, g.parent[x], i) < |g.descends| && g.descends[Up(g, g.parent[x], i)]
      {
        assert Up(g, x, i + 1) == Up(g, g.parent[x], i);
      }
    }
    if g.descends[g.parent[x]] && PlainWay(g, g.parent[x], d - 1) {
      forall i: nat {:trigger Up(g, x, i)} | 0 < i <= d ensures Up(g, x, i) < |g.descends| && g.descends[Up(g, x, i)] {
        assert Up(g, x, i) == Up(g, g.parent[x], i - 1);
      }
    }
  }

  lemma {:induction false} BelowIsPlainWay(g: Graph, x: nat, d: nat)
    requires Linked(g) && AtDepth(g, x, d)
    ensures Below(g, g.root, x, d) <==> PlainWay(g, x, d)
    decreases d
  {
    if d > 0 {
      BelowIsPlainWay(g, g.parent[x], d - 1);
      PlainWayOneUp(g, x, d);
      if g.parent[x] == x {
        DepthUnique(g, x, d, d - 1);
      }
    }
  }

  lemma {:induction false} BelowHasDepth(g: Graph, x: nat, i: nat)
    requires Linked(g) && Below(g, g.root, x, i)
    ensures AtDepth(g, x, i)
    decreases i
  {
    if i > 0 {
      BelowHasDepth(g, g.parent[x], i - 1);
    }
  }

  /** A walk from the root reaches exactly the nodes that climb to it without passing a reparse point. */
  lemma ReachedFromRoot(g: Graph, x: nat)
    requires Linked(g)
    ensures Reached(g, g.root, x) <==> exists d: nat :: AtDepth(g, x, d) && PlainWay(g, x, d)
  {
    if i: nat :| Below(g, g.root, x, i) {
      BelowHasDepth(g, x, i);
      BelowIsPlainWay(g, x, i);
    }
    if d: nat :| AtDepth(g, x, d) && PlainWay(g, x, d) {
      BelowIsPlainWay(g, x, d);
    }
  }

  /** Nothing else is reached from a reparse point or a file. */
  lemma LeavesReachThemselves(m: DiskAnalysisModel, x: nat, j: nat)
    requires IsTree(m) && x < |m.nodes| && (m.nodes[x].isReparse || !m.nodes[x].isDir) && Reached(Links(m), x, j)
    ensures j == x
  {
    var g := Links(m);
    var i: nat :| Below(g, x, j, i);
    assert LinkAt(g, m.nodes, m.childLinks, x);
    if i > 0 {
      var c := FirstStep(g, x, j, i);
    }
  }

  // ---- Totals --------------------------------------------------------------------------------------

  /** Sum of `f` over the first `n` records whose nodes are in `s`. */
  ghost function RecordSum(records: seq<Record>, s: set<nat>, f: Record -> nat, n: nat): nat
    requires n <= |records|
  {
    if n == 0 then 0 else RecordSum(records, s, f, n - 1) + if n in s then f(records[n - 1]) else 0
  }

  lemma {:induction false} SumOverRecords(records: seq<Record>, s: set<nat>, f: Record -> nat, own: seq<nat>, n: nat)
    requires n <= |records| && |own| == |records| + 1 && forall i :: 0 <= i < |records| ==> own[i + 1] == f(records[i])
    ensures SumIn(s, own, n + 1) == RecordSum(records, s, f, n) + if 0 in s then own[0] else 0
  {
    if n > 0 {
      SumOverRecords(records, s, f, own, n - 1);
    } else {
      assert SumIn(s, own, 0) == 0;
    }
  }

  /** The columns of a built model, read off the records. */
  lemma ColumnsOfRecords(m: DiskAnalysisModel, drive: char, records: seq<Record>, categorize: string -> FileCategory, i: nat)
    requires Represents(m, drive, records, categorize) && i < |records|
    ensures var u, r := UnitsOf(m.nodes), records[i];
      && u.sizes[i + 1] == r.size && u.allocatedSizes[i + 1] == r.allocatedSize
      && u.files[i + 1] == (if r.isDir then 0 else 1) && u.folders[i + 1] == (if r.isDir then 1 else 0)
    ensures UnitsOf(m.nodes).sizes[0] == 0 && UnitsOf(m.nodes).allocatedSizes[0] == 0 && UnitsOf(m.nodes).files[0] == 0
  {
    NodeOfRecord(m, drive, records, categorize, i);
    SyntheticNode(m, drive, records, categorize);
  }

  function SizeOf(r: Record): nat { r.size }

  function AllocatedOf(r: Record): nat { r.allocatedSize }

  function FilesOf(r: Record): nat { if r.isDir then 0 else 1 }

  function FoldersOf(r: Record): nat { if r.isDir then 1 else 0 }

  lemma SumsOfRecords(m: DiskAnalysisModel, drive: char, records: seq<Record>, categorize: string -> FileCategory, s: set<nat>)
    requires Represents(m, drive, records, categorize)
    ensures SumIn(s, UnitsOf(m.nodes).sizes, |m.nodes|) == RecordSum(records, s, SizeOf, |records|)
    ensures SumIn(s, UnitsOf(m.nodes).allocatedSizes, |m.nodes|) == RecordSum(records, s, AllocatedOf, |records|)
    ensures SumIn(s, UnitsOf(m.nodes).files, |m.nodes|) == RecordSum(records, s, FilesOf, |records|)
    ensures SumIn(s, UnitsOf(m.nodes).folders, |m.nodes|) == RecordSum(records, s, FoldersOf, |records|) + if 0 in s then 1 else 0
  {
    var u := UnitsOf(m.nodes);
    SyntheticNode(m, drive, records, categorize);
    forall i | 0 <= i < |records| ensures
      && u.sizes[i + 1] == SizeOf(records[i]) && u.allocatedSizes[i + 1] == AllocatedOf(records[i])
      && u.files[i + 1] == FilesOf(records[i]) && u.folders[i + 1] == FoldersOf(records[i])
    {
      ColumnsOfRecords(m, drive, records, categorize, i);
    }
    SumOverRecords(records, s, SizeOf, u.sizes, |records|);
    SumOverRecords(records, s, AllocatedOf, u.allocatedSizes, |records|);
    SumOverRecords(records, s, FilesOf, u.files, |records|);
    SumOverRecords(records, s, FoldersOf, u.folders, |records|);
  }

  /** Every reached node carries the sums over the records reached from it, clamped once. */
  lemma SubtreeFromRecords(m: DiskAnalysisModel, drive: char, records: seq<Record>, categorize: string -> FileCategory, x: nat)
    requires IsTree(m) && TotalsExact(m) && Represents(m, drive, records, categorize) && Reached(Links(m), m.root, x)
    ensures x < |m.nodes|
    ensures m.nodes[x].subtreeSize == Sat(RecordSum(records, ReachedSet(m, x), SizeOf, |records|))
    ensures m.nodes[x].subtreeAllocatedSize == Sat(RecordSum(records, ReachedSet(m, x), AllocatedOf, |records|))
    ensures m.nodes[x].subtreeFiles == Sat(RecordSum(records, ReachedSet(m, x), FilesOf, |records|))
  {
    SubtreeTotals(m, x);
    SumsOfRecords(m, drive, records, categorize, ReachedSet(m, x));
  }

  /** The totals of the model are those of its root; the root itself is no folder of the volume. */
  lemma TotalsFromRecords(m: DiskAnalysisModel, drive: char, records: seq<Record>, categorize: string -> FileCategory)
    requires IsTree(m) && TotalsExact(m) && Represents(m, drive, records, categorize)
    ensures m.totalSize == Sat(RecordSum(records, ReachedSet(m, m.root), SizeOf, |records|))
    ensures m.totalAllocatedSize == Sat(RecordSum(records, ReachedSet(m, m.root), AllocatedOf, |records|))
    ensures m.totalFiles == RecordSum(records, ReachedSet(m, m.root), FilesOf, |records|)
    ensures m.totalFolders == RecordSum(records, ReachedSet(m, m.root), FoldersOf, |records|) - if m.root == 0 then 0 else 1
  {
    var u, s := UnitsOf(m.nodes), ReachedSet(m, m.root);
    RootIsReached(m);
    SumsOfRecords(m, drive, records, categorize, s);
    WeightIsSumOverReached(m, m.root, u.sizes);
    WeightIsSumOverReached(m, m.root, u.allocatedSizes);
    WeightIsSumOverReached(m, m.root, u.files);
    WeightIsSumOverReached(m, m.root, u.folders);
    SyntheticIsReached(m, drive, records, categorize);
  }

  lemma RootIsReached(m: DiskAnalysisModel)
    requires IsTree(m)
    ensures Rooted(Links(m), m.root) && Reached(Links(m), m.root, m.root) && m.root < |m.nodes|
  {
    assert AtDepth(Links(m), m.root, 0) && Below(Links(m), m.root, m.root, 0);
    RootedInRange(Links(m), m.root);
  }

  /** With a volume record the node in front of the records is not reached. */
  lemma SyntheticIsReached(m: DiskAnalysisModel, drive: char, records: seq<Record>, categorize: string -> FileCategory)
    requires IsTree(m) && Represents(m, drive, records, categorize)
    ensures 0 in ReachedSet(m, m.root) <==> m.root == 0
  {
    RootIsReached(m);
    SyntheticNode(m, drive, records, categorize);
    assert LinkAt(Links(m), m.nodes, m.childLinks, 0);
  }

  // ---- Categories ------------------------------------------------------------------------------------

  /** What a record adds to the bytes or the number of files of a category. */
  function InCategory(categorize: string -> FileCategory, category: FileCategory, f: Record -> nat): Record -> nat {
    (r: Record) => if !r.isDir && categorize(r.name) == category then f(r) else 0
  }

  lemma CountersOfNode(node: AnalysisNode, c: FileCategory)
    ensures var k := CategoryIndex(c); var counts := !node.isDir && node.category == c;
      && CounterOf(node, k) == (if counts then node.allocatedSize else 0)
      && CounterOf(node, 8 + k) == (if counts then node.size else 0)
      && CounterOf(node, 16 + k) == (if counts then 1 else 0)
  {
    assert CATEGORIES[CategoryIndex(c)] == c && CATEGORIES[CategoryIndex(node.category)] == node.category;
  }

  lemma CounterInUnits(nodes: seq<AnalysisNode>, k: nat, x: nat)
    requires k < 24 && x < |nodes|
    ensures |UnitsOf(nodes).counters| == 24 && |UnitsOf(nodes).counters[k]| == |nodes|
    ensures UnitsOf(nodes).counters[k][x] == CounterOf(nodes[x], k)
  {
  }

  lemma CounterOfRecord(m: DiskAnalysisModel, drive: char, records: seq<Record>, categorize: string -> FileCategory, c: FileCategory, i: nat)
    requires Represents(m, drive, records, categorize) && i < |records|
    ensures var u, k, r := UnitsOf(m.nodes), CategoryIndex(c), records[i];
      && u.counters[k][i + 1] == InCategory(categorize, c, AllocatedOf)(r)
      && u.counters[8 + k][i + 1] == InCategory(categorize, c, SizeOf)(r)
      && u.counters[16 + k][i + 1] == InCategory(categorize, c, FilesOf)(r)
  {
    var k := CategoryIndex(c);
    NodeOfRecord(m, drive, records, categorize, i);
    CountersOfNode(m.nodes[i + 1], c);
    CounterInUnits(m.nodes, k, i + 1);
    CounterInUnits(m.nodes, 8 + k, i + 1);
    CounterInUnits(m.nodes, 16 + k, i + 1);
  }

  lemma CounterColumns(m: DiskAnalysisModel, drive: char, records: seq<Record>, categorize: string -> FileCategory, c: FileCategory)
    requires Represents(m, drive, records, categorize)
    ensures var u, k := UnitsOf(m.nodes), CategoryIndex(c);
      && IsRecordColumn(u.counters[k], records, InCategory(categorize, c, AllocatedOf))
      && IsRecordColumn(u.counters[8 + k], records, InCategory(categorize, c, SizeOf))
      && IsRecordColumn(u.counters[16 + k], records, InCategory(categorize, c, FilesOf))
  {
    SyntheticNode(m, drive, records, categorize);
    forall i | 0 <= i < |records| ensures var u, k, r := UnitsOf(m.nodes), CategoryIndex(c), records[i];
      && u.counters[k][i + 1] == InCategory(categorize, c, AllocatedOf)(r)
      && u.counters[8 + k][i + 1] == InCategory(categorize, c, SizeOf)(r)
      && u.counters[16 + k][i + 1] == InCategory(categorize, c, FilesOf)(r)
    {
      CounterOfRecord(m, drive, records, categorize, c, i);
    }
  }

  /** The column holds `f` of every record, behind a zero for the node in front of them. */
  ghost predicate IsRecordColumn(own: seq<nat>, records: seq<Record>, f: Record -> nat) {
    |own| == |records| + 1 && own[0] == 0 && forall i :: 0 <= i < |records| ==> own[i + 1] == f(records[i])
  }

  lemma FlatFromRecords(m: DiskAnalysisModel, records: seq<Record>, k: nat, f: Record -> nat)
    requires IsTree(m) && TotalsExact(m) && k < 24 && |m.nodes| == |records| + 1
    requires |m.categoryTotals.allocatedBytes| == |m.categoryTotals.logicalBytes| == |m.categoryTotals.fileCounts| == 8
    requires |UnitsOf(m.nodes).counters| == 24 && IsRecordColumn(UnitsOf(m.nodes).counters[k], records, f)
    ensures FlatCounter(m.categoryTotals, k) == Sat(RecordSum(records, ReachedSet(m, m.root), f, |records|))
  {
    var own := UnitsOf(m.nodes).counters[k];
    RootIsReached(m);
    CategoryTotalsAreRollUp(m, k);
    WeightIsSumOverReached(m, m.root, own);
    SumOverRecords(records, ReachedSet(m, m.root), f, own, |records|);
  }

  /** The flat totals of a category are the sums over the reached files whose name has that category. */
  lemma CategoryFromRecords(m: DiskAnalysisModel, drive: char, records: seq<Record>, categorize: string -> FileCategory, c: FileCategory)
    requires IsTree(m) && TotalsExact(m) && Represents(m, drive, records, categorize)
    ensures |m.categoryTotals.allocatedBytes| == |m.categoryTotals.logicalBytes| == |m.categoryTotals.fileCounts| == 8
    ensures m.categoryTotals.allocatedBytes[CategoryIndex(c)] ==
      Sat(RecordSum(records, ReachedSet(m, m.root), InCategory(categorize, c, AllocatedOf), |records|))
    ensures m.categoryTotals.logicalBytes[CategoryIndex(c)] ==
      Sat(RecordSum(records, ReachedSet(m, m.root), InCategory(categorize, c, SizeOf), |records|))
    ensures m.categoryTotals.fileCounts[CategoryIndex(c)] ==
      Sat(RecordSum(records, ReachedSet(m, m.root), InCategory(categorize, c, FilesOf), |records|))
  {
    var k := CategoryIndex(c);
    CategoryTotalsAreRollUp(m, 0);
    CounterColumns(m, drive, records, categorize, c);
    FlatFromRecords(m, records, k, InCategory(categorize, c, AllocatedOf));
    FlatFromRecords(m, records, 8 + k, InCategory(categorize, c, SizeOf));
    FlatFromRecords(m, records, 16 + k, InCategory(categorize, c, FilesOf));
  }
}
