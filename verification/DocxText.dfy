/** The text of a laid-out document page: streams of primitives, the segments in them, and what a search of them is. */
module DocxText {
  import opened Wrappers

  // ---- Bounds --------------------------------------------------------------------------

  datatype Bounds = Bounds(left: real, top: real, right: real, bottom: real)

  function Min(a: real, b: real): real { if a <= b then a else b }

  function Max(a: real, b: real): real { if a <= b then b else a }

  function Union(a: Bounds, b: Bounds): Bounds {
    Bounds(Min(a.left, b.left), Min(a.top, b.top), Max(a.right, b.right), Max(a.bottom, b.bottom))
  }

  predicate Covers(outer: Bounds, inner: Bounds) {
    outer.left <= inner.left && outer.top <= inner.top && inner.right <= outer.right && inner.bottom <= outer.bottom
  }

  /** The bounds that are known among some characters, joined together. */
  function UnionOf(window: seq<Option<Bounds>>): Option<Bounds> {
    if window == [] then None
    else
      var before, last := UnionOf(window[..|window| - 1]), window[|window| - 1];
      if last.None? then before
      else if before.None? then last
      else Some(Union(before.value, last.value))
  }

  ghost predicate CoversAll(box: Bounds, window: seq<Option<Bounds>>) {
    forall i :: 0 <= i < |window| && window[i].Some? ==> Covers(box, window[i].value)
  }

  /** The union is the least box around all known bounds, and exists when any bounds are known. */
  lemma {:induction false} UnionIsLeastBox(window: seq<Option<Bounds>>, box: Bounds)
    ensures UnionOf(window).None? <==> forall i :: 0 <= i < |window| ==> window[i].None?
    ensures UnionOf(window).Some? ==> (CoversAll(box, window) <==> Covers(box, UnionOf(window).value))
  {
    if window != [] {
      var before := window[..|window| - 1];
      UnionIsLeastBox(before, box);
      assert window == before + [window[|window| - 1]];
      assert forall i :: 0 <= i < |before| ==> window[i] == before[i];
    }
  }

  // ---- Pages and their streams ------------------------------------------------------------

  /** A character with the bounds of its glyphs. */
  datatype Cell = Cell(letter: char, bounds: Option<Bounds>)

  datatype Attributes = Attributes(paraId: Option<string>, blockKey: Option<string>, blockId: Option<string>)

  datatype Primitive = Run(attributes: Attributes, hidden: bool, cells: seq<Cell>) | Shape

  datatype NoteArea = NoteArea(separators: seq<Primitive>, primitives: seq<Primitive>)

  datatype Page = Page(primitives: seq<Primitive>, noteAreas: seq<NoteArea>,
                       header: Option<seq<Primitive>>, footer: Option<seq<Primitive>>)

  datatype Area = Body | NoteSeparator(area: nat) | Note(area: nat) | Header | Footer

  datatype Location = Location(area: Area, index: nat)

  datatype Indexed = Indexed(location: Location, key: Option<string>, hidden: bool)

  function ParagraphKey(a: Attributes): Option<string> {
    if a.paraId.Some? then Some("p:" + a.paraId.value)
    else if a.blockKey.Some? then Some("k:" + a.blockKey.value)
    else if a.blockId.Some? then Some("b:" + a.blockId.value)
    else None
  }

  /** Two runs share a paragraph key exactly when the same kind of identifier comes first and agrees. */
  lemma ParagraphKeysAgree(a: Attributes, b: Attributes)
    ensures ParagraphKey(a) == ParagraphKey(b) <==>
      a.paraId == b.paraId && 
      (a.paraId.Some? || (a.blockKey == b.blockKey && (a.blockKey.Some? || a.blockId == b.blockId)))
  {
    var p, k, i := "p:", "k:", "b:";
    assert p[0] != k[0] && k[0] != i[0] && p[0] != i[0];
    SameTail(p, a.paraId.GetOr(""), b.paraId.GetOr(""));
    SameTail(k, a.blockKey.GetOr(""), b.blockKey.GetOr(""));
    SameTail(i, a.blockId.GetOr(""), b.blockId.GetOr(""));
    assert forall x: string, y: string {:trigger p + x, k + y} :: (p + x)[0] != (k + y)[0];
    assert forall x: string, y: string {:trigger p + x, i + y} :: (p + x)[0] != (i + y)[0];
    assert forall x: string, y: string {:trigger k + x, i + y} :: (k + x)[0] != (i + y)[0];
  }

  lemma SameTail(tag: string, x: string, y: string)
    ensures tag + x == tag + y <==> x == y
  {
    assert x == (tag + x)[|tag|..] && y == (tag + y)[|tag|..];
  }

  /** The primitives of one area that carry text. */
  function IndexPrimitives(primitives: seq<Primitive>, area: Area, n: nat): seq<Indexed>
    requires n <= |primitives|
  {
    if n == 0 then []
    else
      var before, p := IndexPrimitives(primitives, area, n - 1), primitives[n - 1];
      if p.Shape? then before
      else before + [Indexed(Location(area, n - 1), ParagraphKey(p.attributes), p.hidden)]
  }

  function AreaPrimitives(page: Page, area: Area): Option<seq<Primitive>> {
    match area
    case Body => Some(page.primitives)
    case NoteSeparator(k) => if k < |page.noteAreas| then Some(page.noteAreas[k].separators) else None
    case Note(k) => if k < |page.noteAreas| then Some(page.noteAreas[k].primitives) else None
    case Header => page.header
    case Footer => page.footer
  }

  /** A location names a text primitive of the page, and the indexed key and flag are the primitive's own. */
  ghost predicate Resolves(page: Page, indexed: Indexed) {
    var primitives := AreaPrimitives(page, indexed.location.area);
    primitives.Some? && indexed.location.index < |primitives.value| &&
    var p := primitives.value[indexed.location.index];
    p.Run? && indexed.key == ParagraphKey(p.attributes) && indexed.hidden == p.hidden
  }

  ghost predicate AllResolve(page: Page, stream: seq<Indexed>) {
    forall i :: 0 <= i < |stream| ==> Resolves(page, stream[i])
  }

  function PrimitiveAt(page: Page, indexed: Indexed): (p: Primitive)
    requires Resolves(page, indexed)
    ensures p.Run? && indexed.key == ParagraphKey(p.attributes) && indexed.hidden == p.hidden
  {
    AreaPrimitives(page, indexed.location.area).value[indexed.location.index]
  }

  lemma {:induction false} IndexResolves(page: Page, area: Area, n: nat)
    requires AreaPrimitives(page, area).Some? && n <= |AreaPrimitives(page, area).value|
    ensures AllResolve(page, IndexPrimitives(AreaPrimitives(page, area).value, area, n))
  {
    if n > 0 {
      IndexResolves(page, area, n - 1);
    }
  }

  function NoteStream(page: Page, k: nat): seq<Indexed>
    requires k < |page.noteAreas|
  {
    var notes := page.noteAreas[k];
    IndexPrimitives(notes.separators, NoteSeparator(k), |notes.separators|) +
    IndexPrimitives(notes.primitives, Note(k), |notes.primitives|)
  }

  function AreaStream(page: Page, area: Area): seq<Indexed> {
    var primitives := AreaPrimitives(page, area);
    if primitives.None? then [] else IndexPrimitives(primitives.value, area, |primitives.value|)
  }

  /** Empty streams are left out. */
  function PushStream(streams: seq<seq<Indexed>>, stream: seq<Indexed>): seq<seq<Indexed>> {
    if stream == [] then streams else streams + [stream]
  }

  function NoteStreams(page: Page, n: nat): seq<seq<Indexed>>
    requires n <= |page.noteAreas|
  {
    if n == 0 then PushStream([], AreaStream(page, Body)) else PushStream(NoteStreams(page, n - 1), NoteStream(page, n - 1))
  }

  /** The streams of a page in reading order: body, notes, header, footer. */
  function StreamsOf(page: Page): seq<seq<Indexed>> {
    PushStream(PushStream(NoteStreams(page, |page.noteAreas|), AreaStream(page, Header)), AreaStream(page, Footer))
  }

  ghost predicate EveryStreamResolves(page: Page, streams: seq<seq<Indexed>>) {
    forall k :: 0 <= k < |streams| ==> AllResolve(page, streams[k])
  }

  lemma NoteResolves(page: Page, k: nat)
    requires k < |page.noteAreas|
    ensures AllResolve(page, NoteStream(page, k))
  {
    IndexResolves(page, NoteSeparator(k), |page.noteAreas[k].separators|);
    IndexResolves(page, Note(k), |page.noteAreas[k].primitives|);
  }

  lemma AreaResolves(page: Page, area: Area)
    ensures AllResolve(page, AreaStream(page, area))
  {
    if AreaPrimitives(page, area).Some? {
      IndexResolves(page, area, |AreaPrimitives(page, area).value|);
    }
  }

  lemma {:induction false} NotesResolve(page: Page, n: nat)
    requires n <= |page.noteAreas|
    ensures EveryStreamResolves(page, NoteStreams(page, n))
  {
    if n > 0 {
      NotesResolve(page, n - 1);
      NoteResolves(page, n - 1);
    } else {
      AreaResolves(page, Body);
    }
  }

  /** Looking up an indexed primitive never fails: in particular an indexed header is there. */
  lemma StreamsResolve(page: Page)
    ensures EveryStreamResolves(page, StreamsOf(page))
  {
    NotesResolve(page, |page.noteAreas|);
    AreaResolves(page, Header);
    AreaResolves(page, Footer);
  }

  // ---- Normalised text ---------------------------------------------------------------------

  function Spread(letters: string, bounds: Option<Bounds>): seq<Cell> {
    seq(|letters|, i requires 0 <= i < |letters| => Cell(letters[i], bounds))
  }

  /** Each of the first `n` characters in lower case; a character that becomes several keeps its bounds for each. */
  function Normalized(cells: seq<Cell>, lower: char -> string, n: nat): seq<Cell>
    requires n <= |cells|
  {
    if n == 0 then [] else Normalized(cells, lower, n - 1) + Spread(lower(cells[n - 1].letter), cells[n - 1].bounds)
  }

  function Letters(text: seq<Cell>): string {
    seq(|text|, i requires 0 <= i < |text| => text[i].letter)
  }

  function BoundsIn(text: seq<Cell>): seq<Option<Bounds>> {
    seq(|text|, i requires 0 <= i < |text| => text[i].bounds)
  }

  // ---- Segments ---------------------------------------------------------------------------

  /** A primitive of a stream with its text in lower case. */
  datatype Item = Item(key: Option<string>, hidden: bool, cells: seq<Cell>)

  ghost function ItemsOf(page: Page, stream: seq<Indexed>, lower: char -> string): seq<Item>
    requires AllResolve(page, stream)
  {
    seq(|stream|, i requires 0 <= i < |stream| =>
      var p := PrimitiveAt(page, stream[i]); Item(stream[i].key, stream[i].hidden, Normalized(p.cells, lower, |p.cells|)))
  }

  /** Item `i` continues the text of the item before it: both are shown and belong to the same paragraph. */
  predicate Joined(items: seq<Item>, i: nat) {
    0 < i < |items| && !items[i - 1].hidden && !items[i].hidden && items[i].key.Some? && items[i - 1].key == items[i].key
  }

  /** The segments among the first `n` items, as ranges. */
  function Segments(items: seq<Item>, n: nat): (r: seq<(nat, nat)>)
    requires n <= |items|
    ensures n > 0 && !items[n - 1].hidden ==> r != [] && r[|r| - 1].1 == n
  {
    if n == 0 then []
    else
      var before := Segments(items, n - 1);
      if items[n - 1].hidden then before
      else if Joined(items, n - 1) then before[..|before| - 1] + [(before[|before| - 1].0, n)]
      else before + [(n - 1, n)]
  }

  /** A maximal run of shown items that continue each other. */
  ghost predicate IsSegment(items: seq<Item>, n: nat, lo: nat, hi: nat) {
    && lo < hi <= n <= |items| && !items[lo].hidden
    && (forall i {:trigger Joined(items, i)} :: lo < i < hi ==> Joined(items, i))
    && !Joined(items, lo) && (hi < n ==> !Joined(items, hi))
  }

  /** The first segment of a pair of neighbours ends before the second starts. */
  ghost predicate InOrder(r: seq<(nat, nat)>, n: nat) {
    && (forall k :: 0 <= k < |r| ==> r[k].0 < r[k].1 <= n)
    && (forall j, k :: 0 <= j < k < |r| ==> r[j].1 <= r[k].0)
  }

  lemma OneRangeMore(r: seq<(nat, nat)>, n: nat)
    requires InOrder(r, n)
    ensures InOrder(r + [(n, n + 1)], n + 1)
  {
  }

  lemma LastRangeLonger(r: seq<(nat, nat)>, n: nat)
    requires r != [] && InOrder(r, n)
    ensures InOrder(r[..|r| - 1] + [(r[|r| - 1].0, n + 1)], n + 1)
  {
  }

  lemma {:induction false} SegmentsInOrder(items: seq<Item>, n: nat)
    requires n <= |items|
    ensures InOrder(Segments(items, n), n)
  {
    if n > 0 {
      SegmentsInOrder(items, n - 1);
      if Joined(items, n - 1) {
        LastRangeLonger(Segments(items, n - 1), n - 1);
      } else {
        OneRangeMore(Segments(items, n - 1), n - 1);
      }
    }
  }

  /** A run that ends before the newest item is judged as before, unless that item continues it. */
  lemma EarlierSegment(items: seq<Item>, n: nat, lo: nat, hi: nat)
    requires 0 < n <= |items| && hi < n
    ensures IsSegment(items, n, lo, hi) <==> IsSegment(items, n - 1, lo, hi) && (hi < n - 1 || !Joined(items, n - 1))
  {
  }

  /** Runs that end at the same item are the same run. */
  lemma SameStart(items: seq<Item>, n: nat, lo: nat, lo': nat, hi: nat)
    requires IsSegment(items, n, lo, hi) && IsSegment(items, n, lo', hi)
    ensures lo == lo'
  {
    assert lo < lo' ==> Joined(items, lo');
    assert lo' < lo ==> Joined(items, lo);
  }

  /** The run that ends with the newest item. */
  lemma LastSegment(items: seq<Item>, n: nat, lo: nat)
    requires 0 < n <= |items|
    ensures IsSegment(items, n, lo, n) <==>
      !items[n - 1].hidden && if Joined(items, n - 1) then IsSegment(items, n - 1, lo, n - 1) else lo == n - 1
  {
    if IsSegment(items, n, lo, n) && lo < n - 1 {
      assert Joined(items, n - 1);
    }
  }

  lemma LastReplaced(r: seq<(nat, nat)>, n: nat, x: (nat, nat), y: (nat, nat))
    requires r != [] && InOrder(r, n)
    ensures y in r[..|r| - 1] + [x] <==> (y in r && y != r[|r| - 1]) || y == x
  {
    assert r == r[..|r| - 1] + [r[|r| - 1]];
  }

  /** The ranges are exactly the maximal runs. */
  lemma {:induction false} SegmentsAreMaximalRuns(items: seq<Item>, n: nat, lo: nat, hi: nat)
    requires n <= |items|
    ensures (lo, hi) in Segments(items, n) <==> IsSegment(items, n, lo, hi)
    decreases n, 1
  {
    if n > 0 {
      var before := Segments(items, n - 1);
      SegmentsInOrder(items, n - 1);
      SegmentsAreMaximalRuns(items, n - 1, lo, hi);
      if hi < n {
        EarlierSegment(items, n, lo, hi);
      } else {
        LastSegment(items, n, lo);
      }
      if Joined(items, n - 1) {
        LastExtended(items, n, lo, hi);
      }
    }
  }

  lemma {:induction false} LastExtended(items: seq<Item>, n: nat, lo: nat, hi: nat)
    requires 0 < n <= |items| && Joined(items, n - 1) && InOrder(Segments(items, n - 1), n - 1)
    requires (lo, hi) in Segments(items, n - 1) <==> IsSegment(items, n - 1, lo, hi)
    ensures (lo, hi) in Segments(items, n) <==> IsSegment(items, n, lo, hi)
    decreases n, 0
  {
    var before := Segments(items, n - 1);
    var last := before[|before| - 1];
    assert last in before;
    SegmentsAreMaximalRuns(items, n - 1, last.0, n - 1);
    LastReplaced(before, n - 1, (last.0, n), (lo, hi));
    if hi == n {
      LastSegment(items, n, lo);
      SegmentsAreMaximalRuns(items, n - 1, lo, n - 1);
    } else if hi < n {
      EarlierSegment(items, n, lo, hi);
    }
    if hi >= n - 1 && IsSegment(items, n - 1, lo, n - 1) {
      SameStart(items, n - 1, lo, last.0, n - 1);
    }
  }
}
