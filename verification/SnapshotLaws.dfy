/** Promises that hold only for some snapshots: their conditions in terms of the records, and snapshots that fail them. */
module SnapshotLaws {
  import opened BuiltVolume
  import opened DiskModel
  import opened FilterLaws
  import opened FilteredWeights
  import opened Folding
  import opened ForestTheory
  import opened FrnIndex
  import opened ParentLinks
  import opened Saturating
  import opened SizeFilter
  import opened VolumeBuilder
  import opened VolumeTotals
  import opened Walks
  import opened Wrappers

  // ---- The deepest path ------------------------------------------------------------------

  /** The record that stands for the volume is a reparse point. */
  predicate RootIsReparse(records: seq<Record>) {
    RootIndex(records) > 0 && records[RootIndex(records) - 1].isReparse
  }

  /** Record `i` goes directly below the root. */
  predicate IsTopLevel(records: seq<Record>, i: nat) {
    i < |records| && i + 1 != RootIndex(records) && ParentOf(records, i) == RootIndex(records)
  }

  /** There is something directly below a root that walks look into. */
  ghost predicate HasTopLevel(records: seq<Record>) {
    !RootIsReparse(records) && exists i: nat :: IsTopLevel(records, i)
  }

  /** What a walk finds below the root of a model. */
  lemma KidOfModelRoot(m: DiskAnalysisModel, c: nat)
    requires IsTree(m) && m.root < |m.nodes|
    ensures c in Down(Links(m), m.root) <==>
      !m.nodes[m.root].isReparse && 1 <= c < |m.nodes| && c != m.root && m.nodes[c].parent == m.root
  {
    assert Unfold(1);
    DownAt(Links(m), m.nodes, m.childLinks, m.root, m.root);
    assert SliceOfChildren(m.nodes, m.childLinks, m.root, m.root);
  }

  /** The root of a built model, read off the records. */
  lemma RootOfRecords(m: DiskAnalysisModel, drive: char, records: seq<Record>, categorize: string -> FileCategory)
    requires Represents(m, drive, records, categorize)
    ensures m.root == RootIndex(records) < |m.nodes| == |records| + 1
    ensures m.nodes[m.root].isReparse <==> RootIsReparse(records)
  {
    assert m.nodes[m.root].SameRecord(RecordNode(drive, records, categorize, m.root));
  }

  /** What a walk finds below the root, read off the records. */
  lemma KidOfRoot(m: DiskAnalysisModel, drive: char, records: seq<Record>, categorize: string -> FileCategory, c: nat)
    requires IsTree(m) && Represents(m, drive, records, categorize)
    ensures c in Down(Links(m), m.root) <==> !RootIsReparse(records) && c > 0 && IsTopLevel(records, c - 1)
  {
    RootOfRecords(m, drive, records, categorize);
    KidOfModelRoot(m, c);
    if 1 <= c < |m.nodes| {
      assert m.nodes[c].parent == RecordNode(drive, records, categorize, c).parent;
    }
  }

  /** `deepestPath` is the depth of a reached node exactly if something lies directly below the root, or nothing lies below it at all. */
  lemma DeepestPathFromRecords(m: DiskAnalysisModel, drive: char, records: seq<Record>, categorize: string -> FileCategory)
    requires IsTree(m) && DepthExact(m) && Represents(m, drive, records, categorize)
    ensures (exists x: nat :: Reached(Links(m), m.root, x) && AtDepth(Links(m), x, m.deepestPath)) <==>
      HasTopLevel(records) || |records| == if RootIndex(records) == 0 then 0 else 1
  {
    DeepestPathIsReachedDepth(m);
    var kids := Down(Links(m), m.root);
    if kids != [] {
      assert kids[0] in kids;
      KidOfRoot(m, drive, records, categorize, kids[0]);
    }
    forall i: nat | IsTopLevel(records, i) && !RootIsReparse(records) ensures kids != [] {
      KidOfRoot(m, drive, records, categorize, i + 1);
    }
  }

  function Folder(frn: U64, parent: U64, size: U64): Record {
    Record(frn, parent, "folder", size, size, true, false)
  }

  /** Two folders recorded as each other's parent, and no volume record. */
  const CYCLE: seq<Record> := [Folder(1, 2, 0), Folder(2, 1, 0)]

  lemma CycleHasNoRoot()
    ensures RootIndex(CYCLE) == 0 && !HasTopLevel(CYCLE)
    ensures ParentField(CYCLE, 1) == 2 && ParentField(CYCLE, 2) == 1
  {
    assert VolumeRoot(CYCLE, 0).None? && VolumeRoot(CYCLE, 1).None? && VolumeRoot(CYCLE, 2).None?;
    assert LastAmong(CYCLE, 2, 2) == Some(2);
    assert LastAmong(CYCLE, 1, 1) == Some(1);
    assert LastAmong(CYCLE, 1, 2) == Some(1);
    assert ParentOf(CYCLE, 0) == 2 && ParentOf(CYCLE, 1) == 1;
    assert !IsTopLevel(CYCLE, 0) && !IsTopLevel(CYCLE, 1);
  }

  /** For that snapshot the deepest path is no depth of any reached node. */
  lemma CycleHasNoDeepestNode(m: DiskAnalysisModel, drive: char, categorize: string -> FileCategory, x: nat)
    requires IsTree(m) && DepthExact(m) && Represents(m, drive, CYCLE, categorize)
    requires Reached(Links(m), m.root, x)
    ensures m.deepestPath == 1 && !AtDepth(Links(m), x, m.deepestPath)
  {
    CycleHasNoRoot();
    DeepestPathFromRecords(m, drive, CYCLE, categorize);
    if Down(Links(m), m.root) != [] {
      KidOfRoot(m, drive, CYCLE, categorize, Down(Links(m), m.root)[0]);
    }
    DeepestPathIsReachedDepth(m);
  }

  /** Nor would a walk from one of those folders end, so it must not be started there. */
  lemma CycleNeverEnds(m: DiskAnalysisModel, drive: char, categorize: string -> FileCategory)
    requires IsTree(m) && Represents(m, drive, CYCLE, categorize)
    ensures !Ends(Links(m), 1) && !Rooted(Links(m), 1)
  {
    var g := Links(m);
    CycleHasNoRoot();
    forall x | 1 <= x < 3 ensures m.nodes[x].Descends() && m.nodes[x].parent == ParentField(CYCLE, x) {
      assert m.nodes[x].SameRecord(RecordNode(drive, CYCLE, categorize, x));
      assert m.nodes[x].parent == RecordNode(drive, CYCLE, categorize, x).parent;
    }
    assert LinkAt(g, m.nodes, m.childLinks, 1) && LinkAt(g, m.nodes, m.childLinks, 2);
    assert Below(g, 1, 1, 0) && Below(g, 1, 2, 1) && Below(g, 1, 1, 2);
    assert Reached(g, 1, 1) && OnCycle(g, 1);
    EndsIffNoCycle(g, 1);
    if Rooted(g, 1) {
      RootedMeetsNoCycle(g, 1);
    }
  }

  // ---- A filter that every leaf passes -------------------------------------------------------

  /** A volume folder, a folder of 10 bytes of its own below it, and a file of 3 bytes in that. */
  const HEAVY_FOLDER: seq<Record> := [
    Folder(5, 5, 0), Folder(6, 5, 10), Record(7, 6, "file", 3, 3, false, false)]

  /** Active, but nothing is smaller than it asks for. */
  const ANY_SIZE := DiskAnalysisFilter(ALL_CATEGORIES, [], Some(0), None, LogicalBase)

  lemma HeavyFolderParents()
    ensures RootIndex(HEAVY_FOLDER) == 1
    ensures ParentField(HEAVY_FOLDER, 1) == 1 && ParentField(HEAVY_FOLDER, 2) == 1 && ParentField(HEAVY_FOLDER, 3) == 2
  {
    assert VolumeRoot(HEAVY_FOLDER, 0).None? && VolumeRoot(HEAVY_FOLDER, 1) == Some(1);
    assert VolumeRoot(HEAVY_FOLDER, 2) == Some(1) && VolumeRoot(HEAVY_FOLDER, 3) == Some(1);
    assert LastAmong(HEAVY_FOLDER, 5, 1) == Some(1) && LastAmong(HEAVY_FOLDER, 5, 2) == Some(1);
    assert LastAmong(HEAVY_FOLDER, 5, 3) == Some(1);
    assert LastAmong(HEAVY_FOLDER, 6, 2) == Some(2) && LastAmong(HEAVY_FOLDER, 6, 3) == Some(2);
    assert ParentOf(HEAVY_FOLDER, 1) == 1 && ParentOf(HEAVY_FOLDER, 2) == 2;
  }

  lemma HeavyFolderNodes(m: DiskAnalysisModel, drive: char, categorize: string -> FileCategory)
    requires IsTree(m) && Represents(m, drive, HEAVY_FOLDER, categorize)
    ensures m.root == 1 && |m.nodes| == 4
    ensures m.nodes[1].Descends() && m.nodes[2].Descends() && m.nodes[0].Descends() && !m.nodes[3].isDir
    ensures m.nodes[2].size == 10 && m.nodes[3].size == 3 && m.nodes[2].parent == 1
  {
    HeavyFolderParents();
    forall x | 0 <= x < 4 ensures m.nodes[x].SameRecord(RecordNode(drive, HEAVY_FOLDER, categorize, x)) {
    }
    assert m.nodes[2].parent == RecordNode(drive, HEAVY_FOLDER, categorize, 2).parent;
  }

  lemma HeavyFolderReached(m: DiskAnalysisModel, drive: char, categorize: string -> FileCategory)
    requires IsTree(m) && Represents(m, drive, HEAVY_FOLDER, categorize)
    ensures Rooted(Links(m), 1) && Rooted(Links(m), 2)
    ensures Reached(Links(m), 1, 2) && Reached(Links(m), 2, 2)
  {
    var g := Links(m);
    HeavyFolderNodes(m, drive, categorize);
    assert LinkAt(g, m.nodes, m.childLinks, 2) && LinkAt(g, m.nodes, m.childLinks, 1);
    assert AtDepth(g, 1, 0) && AtDepth(g, 2, 1);
    assert Below(g, 1, 1, 0) && Below(g, 1, 2, 1) && Below(g, 2, 2, 0);
  }

  lemma {:induction false} SumHas(s: set<nat>, own: seq<nat>, n: nat, x: nat)
    requires x < n && x in s && x < |own|
    ensures SumIn(s, own, n) >= own[x]
  {
    if x < n - 1 {
      SumHas(s, own, n - 1, x);
    }
  }

  lemma {:induction false} SumOfZeros(s: set<nat>, own: seq<nat>, n: nat)
    requires n <= |own| && forall i | 0 <= i < n :: own[i] == 0
    ensures SumIn(s, own, n) == 0
  {
    if n > 0 {
      SumOfZeros(s, own, n - 1);
    }
  }

  lemma HeavyFolderValues(m: DiskAnalysisModel, drive: char, categorize: string -> FileCategory)
    requires IsTree(m) && Represents(m, drive, HEAVY_FOLDER, categorize)
    ensures |m.nodes| == 4 && DirectoryValues(m.nodes, Logical)[2] == 10
    ensures LeafValues(m.nodes, ANY_SIZE, Logical)[3] <= 3
    ensures forall i | 0 <= i < 3 :: LeafValues(m.nodes, ANY_SIZE, Logical)[i] == 0
  {
    HeavyFolderNodes(m, drive, categorize);
  }

  /** The folder's own bytes count in the natural total, the filtered weight sees the file only. */
  lemma HeavyFolderSums(m: DiskAnalysisModel, drive: char, categorize: string -> FileCategory)
    requires IsTree(m) && Represents(m, drive, HEAVY_FOLDER, categorize)
    ensures Rooted(Links(m), 2)
    ensures Weight(TreesOf(m), 2, DirectoryValues(m.nodes, Logical)) >= 10
    ensures Weight(TreesOf(m), 2, LeafValues(m.nodes, ANY_SIZE, Logical)) <= 3
  {
    HeavyFolderReached(m, drive, categorize);
    HeavyFolderValues(m, drive, categorize);
    var dirs, leaves, s := DirectoryValues(m.nodes, Logical), LeafValues(m.nodes, ANY_SIZE, Logical), ReachedSet(m, 2);
    WeightIsSumOverReached(m, 2, dirs);
    WeightIsSumOverReached(m, 2, leaves);
    assert 2 in s;
    SumHas(s, dirs, 4, 2);
    SumOfZeros(s, leaves, 3);
  }

  /** For that snapshot a filter that every file passes gives the folder less than no filter. */
  lemma HeavyFolderDisagrees(m: DiskAnalysisModel, drive: char, categorize: string -> FileCategory,
                             filtered: FilteredResult, plain: FilteredResult)
    requires IsTree(m) && TotalsExact(m) && Represents(m, drive, HEAVY_FOLDER, categorize) && Rooted(Links(m), m.root)
    requires IsFilterAnswer(filtered, m, m.root, ANY_SIZE, Logical) && IsPlainAnswer(plain, m, m.root, Logical)
    ensures ANY_SIZE.IsActive() && EveryLeafPasses(m, 2, ANY_SIZE)
    ensures |filtered.weights| > 2 && |plain.weights| > 2 && filtered.weights[2] != plain.weights[2]
  {
    HeavyFolderNodes(m, drive, categorize);
    HeavyFolderReached(m, drive, categorize);
    HeavyFolderSums(m, drive, categorize);
    forall j: nat {:trigger Reached(Links(m), 2, j)} | Reached(Links(m), 2, j) && j < |m.nodes| && !m.nodes[j].Descends()
      ensures ANY_SIZE.MatchesLeaf(m.nodes[j])
    {
    }
    AllPassMeetsFastPath(m, m.root, ANY_SIZE, Logical, filtered, plain, 2);
  }
}
