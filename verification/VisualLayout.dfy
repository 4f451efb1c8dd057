/** The padded grid and column layouts of a grouped list, and keyboard movement over them. */
module VisualLayout {
  import opened Grouping
  import opened Wrappers

  // ---- Visible items -------------------------------------------------------------------------

  /** The indices of a section that still name an item, among its first `n`. */
  function Present(indices: seq<nat>, itemCount: nat, n: nat): seq<nat>
    requires n <= |indices|
  {
    if n == 0 then []
    else if indices[n - 1] < itemCount then Present(indices, itemCount, n - 1) + [indices[n - 1]]
    else Present(indices, itemCount, n - 1)
  }

  predicate IsCollapsed<K(==)>(collapsed: Option<set<K>>, key: K) {
    collapsed.Some? && key in collapsed.value
  }

  function SectionItems<K(==)>(section: Section<K>, collapsed: Option<set<K>>, itemCount: nat): seq<nat> {
    if IsCollapsed(collapsed, section.key) then [] else Present(section.indices, itemCount, |section.indices|)
  }

  function SectionsItems<K(==)>(sections: seq<Section<K>>, collapsed: Option<set<K>>, itemCount: nat, n: nat): seq<nat>
    requires n <= |sections|
  {
    if n == 0 then [] else SectionsItems(sections, collapsed, itemCount, n - 1) + SectionItems(sections[n - 1], collapsed, itemCount)
  }

  function UpTo(n: nat): seq<nat> {
    if n == 0 then [] else UpTo(n - 1) + [n - 1]
  }

  /** The items shown, in order; a list without sections shows everything. */
  function VisibleItems<K(==)>(sections: seq<Section<K>>, collapsed: Option<set<K>>, itemCount: nat): seq<nat> {
    if sections == [] then UpTo(itemCount) else SectionsItems(sections, collapsed, itemCount, |sections|)
  }

  // ---- Slots ------------------------------------------------------------------------------------

  type Slots = seq<Option<nat>>

  /** The items of a layout without its empty slots. */
  function Erase(slots: Slots): seq<nat> {
    if slots == [] then []
    else
      var before, last := Erase(slots[..|slots| - 1]), slots[|slots| - 1];
      if last.None? then before else before + [last.value]
  }

  function Filled(items: seq<nat>): Slots {
    seq(|items|, i requires 0 <= i < |items| => Some(items[i]))
  }

  function Blank(n: nat): Slots {
    seq(n, i => None)
  }

  lemma {:induction false} EraseConcat(a: Slots, b: Slots)
    ensures Erase(a + b) == Erase(a) + Erase(b)
    decreases b
  {
    if b == [] {
      assert a + b == a;
    } else {
      var c := b[..|b| - 1];
      assert (a + b)[..|a + b| - 1] == a + c;
      EraseConcat(a, c);
    }
  }

  lemma {:induction false} EraseFilled(items: seq<nat>)
    ensures Erase(Filled(items)) == items
    decreases items
  {
    if items != [] {
      var init := items[..|items| - 1];
      assert Filled(items)[..|items| - 1] == Filled(init);
      EraseFilled(init);
      assert items == init + [items[|items| - 1]];
    }
  }

  lemma {:induction false} EraseBlank(n: nat)
    ensures Erase(Blank(n)) == []
  {
    if n > 0 {
      assert Blank(n)[..n - 1] == Blank(n - 1);
      EraseBlank(n - 1);
    }
  }

  /** Every block of `width` slots starts with an item. */
  ghost predicate HeadsOccupied(slots: Slots, width: nat)
    requires width > 0
  {
    forall i {:trigger slots[i]} :: 0 <= i < |slots| && i % width == 0 ==> slots[i].Some?
  }

  function Padding(length: nat, width: nat): nat
    requires width > 0
  {
    if length % width == 0 then 0 else width - length % width
  }

  lemma PaddingFits(length: nat, width: nat)
    requires width > 0
    ensures Padding(length, width) < width
    ensures (length + Padding(length, width)) % width == 0
    ensures forall i {:trigger i % width} :: length <= i < length + Padding(length, width) ==> i % width != 0
  {
    var q, r := length / width, length % width;
    assert length == q * width + r;
    if r != 0 {
      NextMultiple(q, width);
      forall i {:trigger i % width} | length <= i < length + Padding(length, width) ensures i % width != 0 {
        Between(q, i - q * width, width);
      }
    }
  }

  lemma NextMultiple(q: nat, width: nat)
    requires width > 0
    ensures (q * width + width) % width == 0
  {
    Between(q + 1, 0, width);
    assert (q + 1) * width == q * width + width;
  }

  lemma AtLeastWidth(k: nat, width: nat)
    requires k > 0
    ensures k * width >= width
  {
    assert k * width == (k - 1) * width + width;
  }

  lemma Between(q: nat, r: nat, width: nat)
    requires r < width
    ensures (q * width + r) % width == r
  {
    QuotientUnique(q, r, (q * width + r) / width, (q * width + r) % width, width);
  }

  lemma QuotientUnique(q: nat, r: nat, q': nat, r': nat, width: nat)
    requires r < width && r' < width && q * width + r == q' * width + r'
    ensures r == r'
  {
    assert (q' - q) * width == q' * width - q * width && (q - q') * width == q * width - q' * width;
    if q < q' {
      AtLeastWidth(q' - q, width);
    } else if q' < q {
      AtLeastWidth(q - q', width);
    }
  }

  /** Pad to a full row. */
  method PadRow(slots: Slots, width: nat) returns (padded: Slots)
    requires width > 0
    ensures padded == slots + Blank(Padding(|slots|, width))
  {
    padded := slots;
    PaddingFits(|slots|, width);
    ghost var k := 0;
    while |padded| % width != 0
      invariant k <= Padding(|slots|, width) && padded == slots + Blank(k)
      decreases Padding(|slots|, width) - k
    {
      padded := padded + [None];
      assert Blank(k) + [None] == Blank(k + 1);
      k := k + 1;
    }
    assert k == Padding(|slots|, width);
  }

  /** The rows of one section: its items, then empty slots to the end of the last row, fewer than a row. */
  function Rows(items: seq<nat>, width: nat): Slots
    requires width > 0
  {
    Filled(items) + Blank(Padding(|items|, width))
  }

  /** The grid of the first `n` sections: the rows of the open ones. */
  function GridLayout<K(==)>(sections: seq<Section<K>>, collapsed: Option<set<K>>, itemCount: nat, width: nat, n: nat): Slots
    requires n <= |sections| && width > 0
  {
    if n == 0 then []
    else
      var before, s := GridLayout(sections, collapsed, itemCount, width, n - 1), sections[n - 1];
      if IsCollapsed(collapsed, s.key) then before else before + Rows(Present(s.indices, itemCount, |s.indices|), width)
  }

  /** The columns of one section; a collapsed one leaves one empty column. */
  function SectionColumns<K(==)>(s: Section<K>, collapsed: Option<set<K>>, itemCount: nat, width: nat): Slots
    requires width > 0
  {
    if IsCollapsed(collapsed, s.key) then Blank(width) else Rows(Present(s.indices, itemCount, |s.indices|), width)
  }

  /** The columns of the first `n` sections. */
  function ColumnLayout<K(==)>(sections: seq<Section<K>>, collapsed: Option<set<K>>, itemCount: nat, width: nat, n: nat): Slots
    requires n <= |sections| && width > 0
  {
    if n == 0 then []
    else ColumnLayout(sections, collapsed, itemCount, width, n - 1) + SectionColumns(sections[n - 1], collapsed, itemCount, width)
  }

  lemma PaddingAfterFullRows(before: nat, length: nat, width: nat)
    requires width > 0 && before % width == 0
    ensures Padding(before + length, width) == Padding(length, width)
  {
    var q, r := length / width, length % width;
    assert before + length == (before / width + q) * width + r;
    Between(before / width + q, r, width);
  }

  lemma RowAppended(slots: Slots, items: seq<nat>, width: nat)
    requires width > 0 && |slots| % width == 0
    ensures slots + Filled(items) + Blank(Padding(|slots + Filled(items)|, width)) == slots + Rows(items, width)
    ensures |slots + Rows(items, width)| % width == 0
    ensures HeadsOccupied(slots, width) ==> HeadsOccupied(slots + Rows(items, width), width)
  {
    PaddingFits(|slots| + |items|, width);
    PaddingAfterFullRows(|slots|, |items|, width);
    var padded := slots + Rows(items, width);
    assert padded == slots + Filled(items) + Blank(Padding(|slots + Filled(items)|, width));
    assert |padded| == |slots| + |items| + Padding(|slots| + |items|, width);
    if HeadsOccupied(slots, width) {
      forall i {:trigger padded[i]} | 0 <= i < |padded| && i % width == 0 ensures padded[i].Some? {
        assert i < |slots| ==> padded[i] == slots[i];
      }
    }
  }

  lemma RowErased(slots: Slots, items: seq<nat>, width: nat)
    requires width > 0
    ensures Erase(slots + Rows(items, width)) == Erase(slots) + items
  {
    var n := Padding(|items|, width);
    EraseConcat(slots, Rows(items, width));
    EraseConcat(Filled(items), Blank(n));
    EraseFilled(items);
    EraseBlank(n);
  }

  method PresentItems(indices: seq<nat>, itemCount: nat) returns (r: Slots)
    ensures r == Filled(Present(indices, itemCount, |indices|))
  {
    r := [];
    for i := 0 to |indices|
      invariant r == Filled(Present(indices, itemCount, i))
    {
      if indices[i] < itemCount {
        r := r + [Some(indices[i])];
      }
    }
  }

  method Ungrouped(itemCount: nat) returns (slots: Slots)
    ensures slots == Filled(UpTo(itemCount))
  {
    slots := [];
    for i := 0 to itemCount
      invariant slots == Filled(UpTo(i))
    {
      slots := slots + [Some(i)];
    }
  }

  function AtLeastOne(n: nat): (r: nat)
    ensures r > 0 && (n > 0 ==> r == n)
  {
    if n == 0 then 1 else n
  }

  /** One open section: its items, padded to full rows. */
  method AppendRows(slots: Slots, indices: seq<nat>, itemCount: nat, width: nat) returns (slots': Slots)
    requires width > 0 && |slots| % width == 0
    ensures slots' == slots + Rows(Present(indices, itemCount, |indices|), width)
    ensures Erase(slots') == Erase(slots) + Present(indices, itemCount, |indices|)
    ensures |slots'| % width == 0 && (HeadsOccupied(slots, width) ==> HeadsOccupied(slots', width))
  {
    var items := PresentItems(indices, itemCount);
    ghost var present := Present(indices, itemCount, |indices|);
    RowAppended(slots, present, width);
    RowErased(slots, present, width);
    slots' := PadRow(slots + items, width);
  }

  /** Grid layout: every section starts a new row; collapsed sections take no room. */
  method GridVisualSlots<K(==)>(sections: seq<Section<K>>, collapsed: Option<set<K>>, itemCount: nat, columns: nat) returns (slots: Slots)
    ensures Erase(slots) == VisibleItems(sections, collapsed, itemCount)
    ensures HeadsOccupied(slots, AtLeastOne(columns))
    ensures sections != [] ==> slots == GridLayout(sections, collapsed, itemCount, AtLeastOne(columns), |sections|)
    ensures sections != [] ==> |slots| % AtLeastOne(columns) == 0
    ensures sections == [] ==> slots == Filled(UpTo(itemCount))
  {
    var width := AtLeastOne(columns);
    if sections == [] {
      slots := Ungrouped(itemCount);
      EraseFilled(UpTo(itemCount));
      return;
    }
    slots := [];
    for p := 0 to |sections|
      invariant slots == GridLayout(sections, collapsed, itemCount, width, p)
      invariant Erase(slots) == SectionsItems(sections, collapsed, itemCount, p)
      invariant HeadsOccupied(slots, width) && |slots| % width == 0
    {
      if !IsCollapsed(collapsed, sections[p].key) {
        slots := AppendRows(slots, sections[p].indices, itemCount, width);
      }
    }
  }

  method AppendColumns<K(==)>(slots: Slots, s: Section<K>, collapsed: Option<set<K>>, itemCount: nat, width: nat) returns (slots': Slots)
    requires width > 0 && |slots| % width == 0
    ensures slots' == slots + SectionColumns(s, collapsed, itemCount, width)
    ensures Erase(slots') == Erase(slots) + SectionItems(s, collapsed, itemCount) && |slots'| % width == 0
  {
    if IsCollapsed(collapsed, s.key) {
      BlankColumn(slots, width);
      slots' := slots + Blank(width);
    } else {
      slots' := AppendRows(slots, s.indices, itemCount, width);
    }
  }

  /** Column layout: the same, but a collapsed section leaves one empty column. */
  method ColumnVisualSlots<K(==)>(sections: seq<Section<K>>, collapsed: Option<set<K>>, itemCount: nat, rowsPerColumn: nat) returns (slots: Slots)
    ensures Erase(slots) == VisibleItems(sections, collapsed, itemCount)
    ensures sections != [] ==> slots == ColumnLayout(sections, collapsed, itemCount, AtLeastOne(rowsPerColumn), |sections|)
    ensures sections != [] ==> |slots| % AtLeastOne(rowsPerColumn) == 0
    ensures sections == [] ==> slots == Filled(UpTo(itemCount))
  {
    var width := AtLeastOne(rowsPerColumn);
    if sections == [] {
      slots := Ungrouped(itemCount);
      EraseFilled(UpTo(itemCount));
      return;
    }
    slots := [];
    for p := 0 to |sections|
      invariant slots == ColumnLayout(sections, collapsed, itemCount, width, p)
      invariant Erase(slots) == SectionsItems(sections, collapsed, itemCount, p)
      invariant |slots| % width == 0
    {
      slots := AppendColumns(slots, sections[p], collapsed, itemCount, width);
    }
  }

  lemma BlankColumn(slots: Slots, width: nat)
    requires width > 0 && |slots| % width == 0
    ensures Erase(slots + Blank(width)) == Erase(slots) && |slots + Blank(width)| % width == 0
  {
    EraseConcat(slots, Blank(width));
    EraseBlank(width);
    OneMoreBlock(|slots|, width);
  }

  lemma OneMoreBlock(n: nat, width: nat)
    requires width > 0 && n % width == 0
    ensures (n + width) % width == 0
  {
    NextMultiple(n / width, width);
  }

  // ---- Keyboard movement ---------------------------------------------------------------------------

  /** The first item in slots `lo` to `hi`. */
  function FirstItem(slots: Slots, lo: nat, hi: nat): Option<nat>
    requires lo <= hi <= |slots|
    decreases hi - lo
  {
    if lo == hi then None else if slots[lo].Some? then slots[lo] else FirstItem(slots, lo + 1, hi)
  }

  /** The last item in slots `lo` to `hi`. */
  function LastItem(slots: Slots, lo: nat, hi: nat): Option<nat>
    requires lo <= hi <= |slots|
    decreases hi
  {
    if lo == hi then None else if slots[hi - 1].Some? then slots[hi - 1] else LastItem(slots, lo, hi - 1)
  }

  function BlockStart(target: nat, width: nat): nat
    requires width > 0
    ensures BlockStart(target, width) <= target && BlockStart(target, width) % width == 0
  {
    Between(target / width, 0, width);
    target / width * width
  }

  function Lesser(a: nat, b: nat): nat { if a <= b then a else b }

  /** The item a movement to slot `target` lands on. */
  function ResolveVisualSlot(slots: Slots, target: nat, previous: Option<nat>, blockSize: nat, advancePastPadding: bool): Option<nat> {
    if slots == [] then None
    else
      var at := Lesser(target, |slots| - 1);
      if slots[at].Some? then slots[at]
      else
        var later := FirstItem(slots, at + 1, |slots|);
        if advancePastPadding && later.Some? then later
        else
          var width := AtLeastOne(blockSize);
          var start := BlockStart(at, width);
          var inBlock := LastItem(slots, start, Lesser(start + width, |slots|));
          if inBlock.Some? then inBlock
          else if previous.Some? && at < previous.value then LastItem(slots, 0, at)
          else if later.Some? then later
          else LastItem(slots, 0, at)
  }

  ghost predicate NoItem(slots: Slots, lo: nat, hi: nat)
    requires lo <= hi <= |slots|
  {
    forall i :: lo <= i < hi ==> slots[i].None?
  }

  lemma {:induction false} FirstItemNone(slots: Slots, lo: nat, hi: nat)
    requires lo <= hi <= |slots|
    ensures FirstItem(slots, lo, hi).None? <==> NoItem(slots, lo, hi)
    decreases hi - lo
  {
    if lo < hi {
      FirstItemNone(slots, lo + 1, hi);
    }
  }

  lemma {:induction false} LastItemNone(slots: Slots, lo: nat, hi: nat)
    requires lo <= hi <= |slots|
    ensures LastItem(slots, lo, hi).None? <==> NoItem(slots, lo, hi)
    decreases hi
  {
    if lo < hi {
      LastItemNone(slots, lo, hi - 1);
    }
  }

  /** A movement fails exactly without items, or upwards over leading empty blocks. */
  lemma ResolveFails(slots: Slots, target: nat, previous: Option<nat>, blockSize: nat, advance: bool)
    requires slots != []
    ensures var at, width := Lesser(target, |slots| - 1), AtLeastOne(blockSize);
      ResolveVisualSlot(slots, target, previous, blockSize, advance).None? <==>
      NoItem(slots, 0, Lesser(BlockStart(at, width) + width, |slots|)) &&
      (NoItem(slots, at, |slots|) || (!advance && previous.Some? && at < previous.value))
  {
    var at, width := Lesser(target, |slots| - 1), AtLeastOne(blockSize);
    var start := BlockStart(at, width);
    BlockHolds(at, width);
    var end := Lesser(start + width, |slots|);
    FirstItemNone(slots, at + 1, |slots|);
    LastItemNone(slots, start, end);
    LastItemNone(slots, 0, at);
    assert NoItem(slots, 0, end) <==> NoItem(slots, 0, at) && NoItem(slots, start, end);
    assert NoItem(slots, at, |slots|) <==> slots[at].None? && NoItem(slots, at + 1, |slots|);
  }

  lemma BlockHolds(at: nat, width: nat)
    requires width > 0
    ensures BlockStart(at, width) <= at < BlockStart(at, width) + width
  {
    assert at == at / width * width + at % width;
  }

  /** On a non-empty grid every movement lands on an item, whatever the target and the previous position. */
  lemma GridMovesAlwaysLand(slots: Slots, target: nat, previous: Option<nat>, columns: nat, advance: bool)
    requires slots != [] && HeadsOccupied(slots, AtLeastOne(columns))
    ensures ResolveVisualSlot(slots, target, previous, columns, advance).Some?
  {
    var at, width := Lesser(target, |slots| - 1), AtLeastOne(columns);
    ResolveFails(slots, target, previous, columns, advance);
    BlockHolds(at, width);
    assert slots[BlockStart(at, width)].Some?;
  }

  lemma {:induction false} FirstItemIn(slots: Slots, lo: nat, hi: nat)
    requires lo <= hi <= |slots| && FirstItem(slots, lo, hi).Some?
    ensures FirstItem(slots, lo, hi) in slots
    decreases hi - lo
  {
    if slots[lo].None? {
      FirstItemIn(slots, lo + 1, hi);
    }
  }

  lemma {:induction false} LastItemIn(slots: Slots, lo: nat, hi: nat)
    requires lo <= hi <= |slots| && LastItem(slots, lo, hi).Some?
    ensures LastItem(slots, lo, hi) in slots
    decreases hi
  {
    if slots[hi - 1].None? {
      LastItemIn(slots, lo, hi - 1);
    }
  }

  lemma {:induction false} EraseMembers(slots: Slots, item: nat)
    ensures item in Erase(slots) <==> Some(item) in slots
    decreases slots
  {
    if slots != [] {
      EraseMembers(slots[..|slots| - 1], item);
      assert slots == slots[..|slots| - 1] + [slots[|slots| - 1]];
    }
  }

  /** A movement only ever lands on a visible item. */
  lemma MovesLandOnVisible(slots: Slots, target: nat, previous: Option<nat>, blockSize: nat, advance: bool)
    requires ResolveVisualSlot(slots, target, previous, blockSize, advance).Some?
    ensures ResolveVisualSlot(slots, target, previous, blockSize, advance).value in Erase(slots)
  {
    var at, width := Lesser(target, |slots| - 1), AtLeastOne(blockSize);
    var start := BlockStart(at, width);
    BlockHolds(at, width);
    if FirstItem(slots, at + 1, |slots|).Some? {
      FirstItemIn(slots, at + 1, |slots|);
    }
    if LastItem(slots, start, Lesser(start + width, |slots|)).Some? {
      LastItemIn(slots, start, Lesser(start + width, |slots|));
    }
    if LastItem(slots, 0, at).Some? {
      LastItemIn(slots, 0, at);
    }
    EraseMembers(slots, ResolveVisualSlot(slots, target, previous, blockSize, advance).value);
  }

  lemma {:induction false} FirstItemNearest(slots: Slots, lo: nat, hi: nat) returns (i: nat)
    requires lo <= hi <= |slots| && FirstItem(slots, lo, hi).Some?
    ensures lo <= i < hi && slots[i] == FirstItem(slots, lo, hi) && NoItem(slots, lo, i)
    decreases hi - lo
  {
    i := lo;
    if slots[lo].None? {
      i := FirstItemNearest(slots, lo + 1, hi);
    }
  }

  lemma {:induction false} LastItemNearest(slots: Slots, lo: nat, hi: nat) returns (i: nat)
    requires lo <= hi <= |slots| && LastItem(slots, lo, hi).Some?
    ensures lo <= i < hi && slots[i] == LastItem(slots, lo, hi) && NoItem(slots, i + 1, hi)
    decreases hi
  {
    i := hi - 1;
    if slots[hi - 1].None? {
      i := LastItemNearest(slots, lo, hi - 1);
    }
  }

  /** How the slot a movement lands on lies to its target: the target itself, the next item, or the last one before. */
  datatype Landing = OnTarget | NextAfter | LastInBlock | LastBefore

  ghost predicate LandsBy(slots: Slots, at: nat, end: nat, i: nat, how: Landing)
    requires at < end <= |slots|
  {
    match how
    case OnTarget => i == at
    case NextAfter => at < i < |slots| && NoItem(slots, at, i)
    case LastInBlock => slots[at].None? && i < end && NoItem(slots, i + 1, end)
    case LastBefore => i < at && NoItem(slots, i + 1, end)
  }

  /** Where a movement lands, and by which rule. */
  lemma ResolveLands(slots: Slots, target: nat, previous: Option<nat>, blockSize: nat, advance: bool) returns (i: nat, how: Landing)
    requires ResolveVisualSlot(slots, target, previous, blockSize, advance).Some?
    ensures i < |slots| && slots[i] == ResolveVisualSlot(slots, target, previous, blockSize, advance)
    ensures var at, width := Lesser(target, |slots| - 1), AtLeastOne(blockSize); var start := BlockStart(at, width);
      var end := Lesser(start + width, |slots|);
      && at < end && LandsBy(slots, at, end, i, how)
      && (how.OnTarget? <==> slots[at].Some?)
      && (how.LastInBlock? ==> start <= i && (advance ==> NoItem(slots, at, |slots|)))
      && (how.NextAfter? ==> advance || (NoItem(slots, start, end) && !(previous.Some? && at < previous.value)))
      && (how.LastBefore? ==> i < start && ((previous.Some? && at < previous.value) || NoItem(slots, at, |slots|)))
  {
    var at, width := Lesser(target, |slots| - 1), AtLeastOne(blockSize);
    var start := BlockStart(at, width);
    BlockHolds(at, width);
    var end := Lesser(start + width, |slots|);
    FirstItemNone(slots, at + 1, |slots|);
    LastItemNone(slots, start, end);
    LastItemNone(slots, 0, at);
    var later := FirstItem(slots, at + 1, |slots|);
    if slots[at].Some? {
      i, how := at, OnTarget;
    } else if advance && later.Some? {
      i := FirstItemNearest(slots, at + 1, |slots|);
      how := NextAfter;
    } else if LastItem(slots, start, end).Some? {
      i := LastItemNearest(slots, start, end);
      how := LastInBlock;
    } else if (previous.Some? && at < previous.value) || later.None? {
      i := LastItemNearest(slots, 0, at);
      how := LastBefore;
    } else {
      i := FirstItemNearest(slots, at + 1, |slots|);
      how := NextAfter;
    }
  }

  // ---- A movement that finds nothing -------------------------------------------------------------------

  /** Two sections of one item each, the first collapsed. */
  lemma CollapsedColumnFirst()
    ensures ColumnLayout([Section(0, [1]), Section(1, [0])], Some({0}), 2, 2, 2) == [None, None, Some(0), None]
  {
    var sections := [Section(0, [1]), Section(1, [0])];
    assert Present([0], 2, 0) == [];
    assert Present([0], 2, 1) == [0];
    assert Rows([0], 2) == [Some(0), None];
    assert ColumnLayout(sections, Some({0}), 2, 2, 0) == [];
    assert ColumnLayout(sections, Some({0}), 2, 2, 1) == [None, None];
  }

  /** In that layout moving up to the empty column finds nothing; skipping the padding finds the item. */
  lemma UpwardsMoveCanFail()
    ensures ResolveVisualSlot(ColumnLayout([Section(0, [1]), Section(1, [0])], Some({0}), 2, 2, 2), 0, Some(2), 2, false) == None
    ensures ResolveVisualSlot(ColumnLayout([Section(0, [1]), Section(1, [0])], Some({0}), 2, 2, 2), 0, Some(2), 2, true) == Some(0)
  {
    var slots: Slots := [None, None, Some(0), None];
    CollapsedColumnFirst();
    ResolveFails(slots, 0, Some(2), 2, false);
    assert FirstItem(slots, 2, 4) == Some(0);
    assert FirstItem(slots, 1, 4) == Some(0);
  }
}
