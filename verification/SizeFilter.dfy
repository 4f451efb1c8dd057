/** Size metrics and the combined leaf filter of the analyzer. */
module SizeFilter {
  import opened DiskModel
  import opened Saturating
  import opened Wrappers

  datatype SizeMetric = Allocated | Logical | FileCount
  {
    /** What the node itself counts, apart from anything below it. */
    function Own(node: AnalysisNode): U64 {
      match this
      case Allocated => node.allocatedSize
      case Logical => node.size
      case FileCount => if node.isDir then 0 else 1
    }

    /** Aggregated value the builder left at the node. */
    function Subtree(node: AnalysisNode): U64 {
      match this
      case Allocated => node.subtreeAllocatedSize
      case Logical => node.subtreeSize
      case FileCount => node.subtreeFiles
    }
  }

  datatype FilterSizeBase = LogicalBase | AllocatedBase

  const ALL_CATEGORIES: bv8 := 0xFF

  datatype DiskAnalysisFilter = DiskAnalysisFilter(
    categoriesMask: bv8, extensions: seq<string>, minSize: Option<U64>, maxSize: Option<U64>, sizeBase: FilterSizeBase)
  {
    /** True when any condition can hide data. */
    predicate IsActive() {
      categoriesMask != ALL_CATEGORIES || extensions != [] || minSize.Some? || maxSize.Some?
    }

    predicate SizeInRange(node: AnalysisNode) {
      var value := if sizeBase.LogicalBase? then node.size else node.allocatedSize;
      (minSize.Some? ==> minSize.value <= value) && (maxSize.Some? ==> value <= maxSize.value)
    }

    /** Whether a file, or a reparse directory treated like one, satisfies every condition. */
    predicate MatchesLeaf(node: AnalysisNode) {
      && (categoriesMask == ALL_CATEGORIES || categoriesMask & ((1 as bv8) << CategoryIndex(node.category)) != 0)
      && (extensions == [] || LowerAscii(ExtensionOf(node.name, |node.name|)) in extensions)
      && SizeInRange(node)
    }
  }

  /** What follows the last dot of the first `n` characters; nothing if there is no dot. */
  function ExtensionOf(name: string, n: nat): string
    requires n <= |name|
  {
    if n == 0 then "" else if name[n - 1] == '.' then name[n..] else ExtensionOf(name, n - 1)
  }

  /** The extension is what follows the last dot: it holds no dot, and is empty for a name without one. */
  lemma {:induction false} ExtensionIsAfterLastDot(name: string, n: nat, k: nat)
    requires n <= |name|
    ensures '.' !in name[..n] ==> ExtensionOf(name, n) == ""
    ensures k < n && name[k] == '.' && '.' !in name[k + 1..n] ==> ExtensionOf(name, n) == name[k + 1..]
  {
    if n > 0 {
      assert name[..n] == name[..n - 1] + [name[n - 1]];
      if k < n - 1 {
        assert name[k + 1..n] == name[k + 1..n - 1] + [name[n - 1]];
      }
      ExtensionIsAfterLastDot(name, n - 1, k);
    }
  }

  function LowerAscii(s: string): string {
    seq(|s|, i requires 0 <= i < |s| => if 'A' <= s[i] <= 'Z' then ((s[i] as int) + 32) as char else s[i])
  }

  /** A filter without restrictive conditions lets every leaf pass. */
  lemma InactivePasses(filter: DiskAnalysisFilter, node: AnalysisNode)
    requires !filter.IsActive()
    ensures filter.MatchesLeaf(node)
  {
  }

  /** Only a filter without any condition is inactive. */
  lemma InactiveMeansNoCondition(filter: DiskAnalysisFilter)
    ensures !filter.IsActive() <==> filter == DiskAnalysisFilter(0xFF, [], None, None, filter.sizeBase)
  {
  }

  // ---- What each condition lets through ------------------------------------------------------

  /** The bit that keeps one category. */
  function MaskOf(category: FileCategory): bv8 {
    match category
    case Video => 0x01
    case Images => 0x02
    case Audio => 0x04
    case Archives => 0x08
    case Code => 0x10
    case Documents => 0x20
    case System => 0x40
    case Other => 0x80
  }

  /** The same filter with one of its conditions only. */
  function CategoriesOnly(filter: DiskAnalysisFilter): DiskAnalysisFilter {
    DiskAnalysisFilter(filter.categoriesMask, [], None, None, filter.sizeBase)
  }

  function ExtensionsOnly(filter: DiskAnalysisFilter): DiskAnalysisFilter {
    DiskAnalysisFilter(0xFF, filter.extensions, None, None, filter.sizeBase)
  }

  function SizesOnly(filter: DiskAnalysisFilter): DiskAnalysisFilter {
    DiskAnalysisFilter(0xFF, [], filter.minSize, filter.maxSize, filter.sizeBase)
  }

  /** A leaf passes exactly if it passes each of the three conditions alone. */
  lemma MatchesEachCondition(filter: DiskAnalysisFilter, node: AnalysisNode)
    ensures filter.MatchesLeaf(node) <==>
      CategoriesOnly(filter).MatchesLeaf(node) && ExtensionsOnly(filter).MatchesLeaf(node) && SizesOnly(filter).MatchesLeaf(node)
  {
  }

  lemma BitOf(category: FileCategory)
    ensures (1 as bv8) << CategoryIndex(category) == MaskOf(category)
  {
    match category
    case Video =>
    case Images =>
    case Audio =>
    case Archives =>
    case Code =>
    case Documents =>
    case System =>
    case Other =>
  }

  lemma MasksDiffer(a: FileCategory, b: FileCategory)
    ensures MaskOf(a) & MaskOf(b) != 0 <==> a == b
  {
  }

  /** The mask of one category lets exactly the leaves of that category through. */
  lemma OneCategoryPasses(category: FileCategory, base: FilterSizeBase, node: AnalysisNode)
    ensures DiskAnalysisFilter(MaskOf(category), [], None, None, base).MatchesLeaf(node) <==> node.category == category
  {
    BitOf(node.category);
    MasksDiffer(category, node.category);
  }

  lemma UnionOfBits(a: bv8, b: bv8, bit: bv8)
    ensures (a | b) & bit != 0 <==> a & bit != 0 || b & bit != 0
  {
  }

  lemma FullMaskHasAllBits(category: FileCategory)
    ensures ALL_CATEGORIES & MaskOf(category) != 0
  {
  }

  /** Two masks together let exactly those leaves through that one of them lets through. */
  lemma MasksJoin(filter: DiskAnalysisFilter, a: bv8, b: bv8, node: AnalysisNode)
    ensures filter.(categoriesMask := a | b).MatchesLeaf(node) <==>
      filter.(categoriesMask := a).MatchesLeaf(node) || filter.(categoriesMask := b).MatchesLeaf(node)
  {
    BitOf(node.category);
    FullMaskHasAllBits(node.category);
    UnionOfBits(a, b, MaskOf(node.category));
  }

  /** No bit lets nothing through, all bits ask for no category. */
  lemma EmptyAndFullMask(filter: DiskAnalysisFilter, node: AnalysisNode, category: FileCategory)
    ensures !filter.(categoriesMask := 0).MatchesLeaf(node)
    ensures filter.(categoriesMask := 0xFF).MatchesLeaf(node) <==> filter.(categoriesMask := 0xFF).MatchesLeaf(node.(category := category))
  {
  }

  /** Limits let exactly the leaves through whose size in the chosen base lies between them, the limits included. */
  lemma SizesPass(filter: DiskAnalysisFilter, node: AnalysisNode)
    ensures SizesOnly(filter).MatchesLeaf(node) <==>
      && (filter.sizeBase.LogicalBase? && filter.minSize.Some? ==> filter.minSize.value <= node.size)
      && (filter.sizeBase.LogicalBase? && filter.maxSize.Some? ==> node.size <= filter.maxSize.value)
      && (filter.sizeBase.AllocatedBase? && filter.minSize.Some? ==> filter.minSize.value <= node.allocatedSize)
      && (filter.sizeBase.AllocatedBase? && filter.maxSize.Some? ==> node.allocatedSize <= filter.maxSize.value)
  {
  }

  /** Lower case keeps the length, takes each letter A to Z to the one at the same place from a to z, and changes nothing else. */
  lemma LowerAsciiLetters(s: string, i: nat)
    requires i < |s|
    ensures |LowerAscii(s)| == |s|
    ensures 'A' <= s[i] <= 'Z' ==> LowerAscii(s)[i] as int - 'a' as int == s[i] as int - 'A' as int
    ensures !('A' <= s[i] <= 'Z') ==> LowerAscii(s)[i] == s[i]
    ensures LowerAscii(LowerAscii(s)) == LowerAscii(s)
  {
  }

  /** A name with an extension passes exactly if that is listed in lower case; a name without a dot only if the empty one is. */
  lemma ExtensionsPass(filter: DiskAnalysisFilter, node: AnalysisNode, stem: string, ext: string)
    requires filter.extensions != [] && '.' !in ext
    ensures node.name == stem + "." + ext ==> (ExtensionsOnly(filter).MatchesLeaf(node) <==> LowerAscii(ext) in filter.extensions)
    ensures '.' !in node.name ==> (ExtensionsOnly(filter).MatchesLeaf(node) <==> "" in filter.extensions)
  {
    var name := node.name;
    if name == stem + "." + ext {
      assert name[|stem|] == '.' && name[|stem| + 1..] == ext;
      assert name[|stem| + 1..|name|] == ext;
    }
    assert name[..|name|] == name;
    ExtensionIsAfterLastDot(name, |name|, |stem|);
    assert LowerAscii("") == "";
  }
}
