/** What a search covers in terms of the primitives of a page: every text primitive once, in reading order, none skipped. */
module DocxPages {
  import opened DocxLaws
  import opened DocxSearch
  import opened DocxText
  import opened LowerCase

  // ---- Reading order ---------------------------------------------------------------------------

  predicate IsNote(area: Area) {
    area.NoteSeparator? || area.Note?
  }

  /** Body, then the note areas by number, each with its separators first, then the header, then the footer. */
  predicate AreaBefore(a: Area, b: Area) {
    || (a.Body? && !b.Body?)
    || (IsNote(a) && IsNote(b) && (a.area < b.area || (a.area == b.area && a.NoteSeparator? && b.Note?)))
    || (IsNote(a) && (b.Header? || b.Footer?))
    || (a.Header? && b.Footer?)
  }

  predicate ReadsBefore(x: Location, y: Location) {
    AreaBefore(x.area, y.area) || (x.area == y.area && x.index < y.index)
  }

  /** Areas whose text is read as one: a note area and its separators. */
  predicate SameText(a: Area, b: Area) {
    a == b || (IsNote(a) && IsNote(b) && a.area == b.area)
  }

  // ---- What a stream holds -----------------------------------------------------------------------

  ghost predicate InStream(stream: seq<Indexed>, loc: Location) {
    exists i :: 0 <= i < |stream| && stream[i].location == loc
  }

  ghost predicate InStreams(streams: seq<seq<Indexed>>, loc: Location) {
    exists k :: 0 <= k < |streams| && InStream(streams[k], loc)
  }

  ghost predicate Ordered(stream: seq<Indexed>) {
    forall i, j :: 0 <= i < j < |stream| ==> ReadsBefore(stream[i].location, stream[j].location)
  }

  ghost predicate OneText(stream: seq<Indexed>) {
    forall i, j :: 0 <= i < |stream| && 0 <= j < |stream| ==> SameText(stream[i].location.area, stream[j].location.area)
  }

  /** All of `a` is read before all of `b`, and is not read together with it. */
  ghost predicate Apart(a: seq<Indexed>, b: seq<Indexed>) {
    forall i, j :: 0 <= i < |a| && 0 <= j < |b| ==>
      ReadsBefore(a[i].location, b[j].location) && !SameText(a[i].location.area, b[j].location.area)
  }

  ghost predicate LaidOut(streams: seq<seq<Indexed>>) {
    && (forall k :: 0 <= k < |streams| ==> streams[k] != [] && Ordered(streams[k]) && OneText(streams[k]))
    && (forall j, k :: 0 <= j < k < |streams| ==> Apart(streams[j], streams[k]))
  }

  // ---- One area -------------------------------------------------------------------------------------

  /** Of the first `n` primitives of an area exactly those with text are indexed. */
  lemma {:induction false} IndexExact(primitives: seq<Primitive>, area: Area, n: nat, loc: Location)
    requires n <= |primitives|
    ensures InStream(IndexPrimitives(primitives, area, n), loc) <==> loc.area == area && loc.index < n && primitives[loc.index].Run?
  {
    if n > 0 {
      IndexExact(primitives, area, n - 1, loc);
      var before, all := IndexPrimitives(primitives, area, n - 1), IndexPrimitives(primitives, area, n);
      if primitives[n - 1].Run? {
        assert all[|before|].location == Location(area, n - 1);
        assert forall i :: 0 <= i < |before| ==> all[i] == before[i];
      }
    }
  }

  lemma {:induction false} IndexOrdered(primitives: seq<Primitive>, area: Area, n: nat)
    requires n <= |primitives|
    ensures Ordered(IndexPrimitives(primitives, area, n))
    ensures forall i :: 0 <= i < |IndexPrimitives(primitives, area, n)| ==>
      IndexPrimitives(primitives, area, n)[i].location.area == area && IndexPrimitives(primitives, area, n)[i].location.index < n
  {
    if n > 0 {
      IndexOrdered(primitives, area, n - 1);
    }
  }

  // ---- One stream more -------------------------------------------------------------------------------

  lemma PushKeeps(streams: seq<seq<Indexed>>, stream: seq<Indexed>)
    requires LaidOut(streams) && Ordered(stream) && OneText(stream)
    requires forall k :: 0 <= k < |streams| ==> Apart(streams[k], stream)
    ensures LaidOut(PushStream(streams, stream))
  {
  }

  lemma PushHolds(streams: seq<seq<Indexed>>, stream: seq<Indexed>, loc: Location)
    ensures InStreams(PushStream(streams, stream), loc) <==> InStreams(streams, loc) || InStream(stream, loc)
  {
    var all := PushStream(streams, stream);
    assert forall k :: 0 <= k < |streams| ==> all[k] == streams[k];
    if InStream(stream, loc) {
      assert all[|streams|] == stream;
    }
  }

  // ---- The notes -------------------------------------------------------------------------------------

  /** The text primitives of one note area. */
  ghost predicate InNotes(page: Page, k: nat, loc: Location)
    requires k < |page.noteAreas|
  {
    || (loc.area == NoteSeparator(k) && loc.index < |page.noteAreas[k].separators| && page.noteAreas[k].separators[loc.index].Run?)
    || (loc.area == Note(k) && loc.index < |page.noteAreas[k].primitives| && page.noteAreas[k].primitives[loc.index].Run?)
  }

  lemma ConcatHolds(a: seq<Indexed>, b: seq<Indexed>, loc: Location)
    ensures InStream(a + b, loc) <==> InStream(a, loc) || InStream(b, loc)
  {
    if InStream(b, loc) {
      var i :| 0 <= i < |b| && b[i].location == loc;
      assert (a + b)[|a| + i] == b[i];
    }
    if InStream(a, loc) {
      var i :| 0 <= i < |a| && a[i].location == loc;
      assert (a + b)[i] == a[i];
    }
  }

  lemma NoteExact(page: Page, k: nat, loc: Location)
    requires k < |page.noteAreas|
    ensures InStream(NoteStream(page, k), loc) <==> InNotes(page, k, loc)
  {
    var notes := page.noteAreas[k];
    IndexExact(notes.separators, NoteSeparator(k), |notes.separators|, loc);
    IndexExact(notes.primitives, Note(k), |notes.primitives|, loc);
    ConcatHolds(IndexPrimitives(notes.separators, NoteSeparator(k), |notes.separators|),
                IndexPrimitives(notes.primitives, Note(k), |notes.primitives|), loc);
  }

  lemma NoteOrdered(page: Page, k: nat)
    requires k < |page.noteAreas|
    ensures Ordered(NoteStream(page, k)) && OneText(NoteStream(page, k))
    ensures forall i :: 0 <= i < |NoteStream(page, k)| ==> IsNote(NoteStream(page, k)[i].location.area) && NoteStream(page, k)[i].location.area.area == k
  {
    var notes := page.noteAreas[k];
    IndexOrdered(notes.separators, NoteSeparator(k), |notes.separators|);
    IndexOrdered(notes.primitives, Note(k), |notes.primitives|);
  }

  /** The body, and the first `n` note areas. */
  predicate UpToNote(area: Area, n: nat) {
    area.Body? || (IsNote(area) && area.area < n)
  }

  ghost predicate AllUpToNote(streams: seq<seq<Indexed>>, n: nat) {
    forall k, i :: 0 <= k < |streams| && 0 <= i < |streams[k]| ==> UpToNote(streams[k][i].location.area, n)
  }

  lemma LaterNote(streams: seq<seq<Indexed>>, stream: seq<Indexed>, n: nat)
    requires LaidOut(streams) && AllUpToNote(streams, n) && Ordered(stream) && OneText(stream)
    requires forall i :: 0 <= i < |stream| ==> IsNote(stream[i].location.area) && stream[i].location.area.area == n
    ensures LaidOut(PushStream(streams, stream)) && AllUpToNote(PushStream(streams, stream), n + 1)
  {
    assert forall k :: 0 <= k < |streams| ==> Apart(streams[k], stream);
    PushKeeps(streams, stream);
  }

  lemma BodyLaidOut(page: Page)
    ensures LaidOut(NoteStreams(page, 0)) && AllUpToNote(NoteStreams(page, 0), 0)
  {
    IndexOrdered(page.primitives, Body, |page.primitives|);
  }

  lemma {:induction false} NotesLaidOut(page: Page, n: nat)
    requires n <= |page.noteAreas|
    ensures LaidOut(NoteStreams(page, n)) && AllUpToNote(NoteStreams(page, n), n)
  {
    if n == 0 {
      BodyLaidOut(page);
    } else {
      NotesLaidOut(page, n - 1);
      NoteOrdered(page, n - 1);
      LaterNote(NoteStreams(page, n - 1), NoteStream(page, n - 1), n - 1);
    }
  }

  ghost predicate InBody(page: Page, loc: Location) {
    loc.area.Body? && loc.index < |page.primitives| && page.primitives[loc.index].Run?
  }

  lemma {:induction false} NotesExact(page: Page, n: nat, loc: Location)
    requires n <= |page.noteAreas|
    ensures InStreams(NoteStreams(page, n), loc) <==>
      InBody(page, loc) || (IsNote(loc.area) && loc.area.area < n && InNotes(page, loc.area.area, loc))
  {
    if n == 0 {
      IndexExact(page.primitives, Body, |page.primitives|, loc);
      PushHolds([], AreaStream(page, Body), loc);
    } else {
      NotesExact(page, n - 1, loc);
      NoteExact(page, n - 1, loc);
      PushHolds(NoteStreams(page, n - 1), NoteStream(page, n - 1), loc);
    }
  }

  // ---- The page -----------------------------------------------------------------------------------------

  ghost predicate InHeader(page: Page, loc: Location) {
    loc.area.Header? && page.header.Some? && loc.index < |page.header.value| && page.header.value[loc.index].Run?
  }

  ghost predicate InFooter(page: Page, loc: Location) {
    loc.area.Footer? && page.footer.Some? && loc.index < |page.footer.value| && page.footer.value[loc.index].Run?
  }

  /** A primitive of the page that carries text. */
  ghost predicate IsText(page: Page, loc: Location) {
    || InBody(page, loc) || InHeader(page, loc) || InFooter(page, loc)
    || (IsNote(loc.area) && loc.area.area < |page.noteAreas| && InNotes(page, loc.area.area, loc))
  }

  lemma EdgeExact(page: Page, loc: Location)
    ensures InStream(AreaStream(page, Header), loc) <==> InHeader(page, loc)
    ensures InStream(AreaStream(page, Footer), loc) <==> InFooter(page, loc)
  {
    if page.header.Some? {
      IndexExact(page.header.value, Header, |page.header.value|, loc);
    }
    if page.footer.Some? {
      IndexExact(page.footer.value, Footer, |page.footer.value|, loc);
    }
  }

  /** The streams of a page hold exactly its text primitives: nothing with text is left out, shown or hidden. */
  lemma StreamsHoldAllText(page: Page, loc: Location)
    ensures InStreams(StreamsOf(page), loc) <==> IsText(page, loc)
  {
    var notes := NoteStreams(page, |page.noteAreas|);
    NotesExact(page, |page.noteAreas|, loc);
    EdgeExact(page, loc);
    PushHolds(notes, AreaStream(page, Header), loc);
    PushHolds(PushStream(notes, AreaStream(page, Header)), AreaStream(page, Footer), loc);
  }

  lemma EdgeOrdered(page: Page, area: Area)
    requires area.Header? || area.Footer?
    ensures Ordered(AreaStream(page, area)) && OneText(AreaStream(page, area))
    ensures forall i :: 0 <= i < |AreaStream(page, area)| ==> AreaStream(page, area)[i].location.area == area
  {
    if AreaPrimitives(page, area).Some? {
      IndexOrdered(AreaPrimitives(page, area).value, area, |AreaPrimitives(page, area).value|);
    }
  }

  /** The streams and what is in them follow the reading order, and two primitives share a stream exactly if they are read as one text. */
  lemma StreamsInReadingOrder(page: Page)
    ensures LaidOut(StreamsOf(page))
  {
    var notes := NoteStreams(page, |page.noteAreas|);
    var header := AreaStream(page, Header);
    NotesLaidOut(page, |page.noteAreas|);
    EdgeOrdered(page, Header);
    EdgeOrdered(page, Footer);
    PushKeeps(notes, header);
    PushKeeps(PushStream(notes, header), AreaStream(page, Footer));
  }

  lemma LaterStream(streams: seq<seq<Indexed>>, s: nat, i: nat, t: nat, j: nat)
    requires LaidOut(streams) && s < t < |streams| && i < |streams[s]| && j < |streams[t]|
    ensures ReadsBefore(streams[s][i].location, streams[t][j].location)
    ensures !SameText(streams[s][i].location.area, streams[t][j].location.area)
  {
    assert Apart(streams[s], streams[t]);
  }

  /** Positions in the index stand for reading order; no primitive is indexed twice. */
  lemma PositionsFollowReading(page: Page, s: nat, i: nat, t: nat, j: nat)
    requires s < |StreamsOf(page)| && i < |StreamsOf(page)[s]| && t < |StreamsOf(page)| && j < |StreamsOf(page)[t]|
    ensures s < t || (s == t && i < j) <==> ReadsBefore(StreamsOf(page)[s][i].location, StreamsOf(page)[t][j].location)
    ensures s == t && i == j <==> StreamsOf(page)[s][i].location == StreamsOf(page)[t][j].location
    ensures s == t <==> SameText(StreamsOf(page)[s][i].location.area, StreamsOf(page)[t][j].location.area)
  {
    StreamsInReadingOrder(page);
    if s < t {
      LaterStream(StreamsOf(page), s, i, t, j);
    } else if t < s {
      LaterStream(StreamsOf(page), t, j, s, i);
    }
  }

  // ---- Segments ------------------------------------------------------------------------------------------

  /** The items from `i` to `j` lie in one segment. */
  ghost predicate OneSegment(items: seq<Item>, i: nat, j: nat) {
    exists lo: nat, hi: nat :: IsSegment(items, |items|, lo, hi) && lo <= i <= j < hi
  }

  ghost predicate AllJoined(items: seq<Item>, lo: nat, hi: nat) {
    forall k :: lo < k < hi ==> Joined(items, k)
  }

  lemma {:induction false} JoinedAgree(items: seq<Item>, i: nat, j: nat)
    requires i <= j < |items| && !items[i].hidden && AllJoined(items, i, j + 1)
    ensures !items[j].hidden && items[j].key == items[i].key && (i < j ==> items[i].key.Some?)
    decreases j
  {
    if i < j {
      JoinedAgree(items, i, j - 1);
      assert Joined(items, j);
    }
  }

  /** A run of joined items lies in a maximal one. */
  lemma {:induction false} MaximalRun(items: seq<Item>, lo: nat, hi: nat)
    requires lo < hi <= |items| && !items[lo].hidden && AllJoined(items, lo, hi)
    ensures exists lo': nat, hi': nat :: IsSegment(items, |items|, lo', hi') && lo' <= lo < hi <= hi'
    decreases lo + |items| - hi
  {
    if Joined(items, lo) {
      MaximalRun(items, lo - 1, hi);
    } else if hi < |items| && Joined(items, hi) {
      MaximalRun(items, lo, hi + 1);
    } else {
      assert IsSegment(items, |items|, lo, hi);
    }
  }

  /** Shown, and if there are several, all with the same key. */
  ghost predicate Continues(items: seq<Item>, i: nat, j: nat)
    requires i <= j < |items|
  {
    forall k :: i <= k <= j ==> !items[k].hidden && (i < j ==> items[k].key.Some? && items[k].key == items[i].key)
  }

  lemma SegmentContinues(items: seq<Item>, i: nat, j: nat, lo: nat, hi: nat)
    requires IsSegment(items, |items|, lo, hi) && lo <= i <= j < hi
    ensures Continues(items, i, j)
  {
    JoinedAgree(items, lo, i);
    forall k | i <= k <= j ensures !items[k].hidden && (i < j ==> items[k].key.Some? && items[k].key == items[i].key) {
      JoinedAgree(items, lo, k);
      JoinedAgree(items, lo, j);
    }
  }

  /** Items share a segment exactly if everything from one to the other is shown and has one and the same key. */
  lemma SegmentIffContinues(items: seq<Item>, i: nat, j: nat)
    requires i <= j < |items|
    ensures OneSegment(items, i, j) <==> Continues(items, i, j)
  {
    if OneSegment(items, i, j) {
      var lo: nat, hi: nat :| IsSegment(items, |items|, lo, hi) && lo <= i <= j < hi;
      SegmentContinues(items, i, j, lo, hi);
    } else if Continues(items, i, j) {
      assert forall k :: i < k < j + 1 ==> Joined(items, k);
      MaximalRun(items, i, j + 1);
    }
  }

  // ---- Segments on the page ----------------------------------------------------------------------------------

  function TextAt(page: Page, loc: Location): (p: Primitive)
    requires IsText(page, loc)
    ensures p.Run?
  {
    AreaPrimitives(page, loc.area).value[loc.index]
  }

  /** A text primitive of the same text as `a`, between `a` and `b`. */
  ghost predicate Between(page: Page, a: Location, b: Location, loc: Location) {
    IsText(page, loc) && SameText(a.area, loc.area) && !ReadsBefore(loc, a) && !ReadsBefore(b, loc)
  }

  /** Every text primitive between the two is shown and has the paragraph key of the first. */
  ghost predicate RunsOn(page: Page, a: Location, b: Location)
    requires IsText(page, a)
  {
    var key := ParagraphKey(TextAt(page, a).attributes);
    forall loc :: Between(page, a, b, loc) ==>
      var p := TextAt(page, loc);
      !p.hidden && (a != b ==> key.Some? && ParagraphKey(p.attributes) == key)
  }

  lemma EntryIsText(page: Page, s: nat, i: nat)
    requires s < |StreamsOf(page)| && i < |StreamsOf(page)[s]|
    ensures AllResolve(page, StreamsOf(page)[s]) && IsText(page, StreamsOf(page)[s][i].location)
    ensures StreamsOf(page)[s][i].hidden == TextAt(page, StreamsOf(page)[s][i].location).hidden
    ensures StreamsOf(page)[s][i].key == ParagraphKey(TextAt(page, StreamsOf(page)[s][i].location).attributes)
  {
    StreamsResolve(page);
    assert InStream(StreamsOf(page)[s], StreamsOf(page)[s][i].location);
    StreamsHoldAllText(page, StreamsOf(page)[s][i].location);
    assert Resolves(page, StreamsOf(page)[s][i]);
  }

  /** What lies between two entries of a stream is exactly what the stream holds between them. */
  lemma BetweenIsIndexed(page: Page, s: nat, i: nat, j: nat, loc: Location)
    requires s < |StreamsOf(page)| && i <= j < |StreamsOf(page)[s]|
    ensures Between(page, StreamsOf(page)[s][i].location, StreamsOf(page)[s][j].location, loc) <==>
      exists k :: i <= k <= j && StreamsOf(page)[s][k].location == loc
  {
    var streams := StreamsOf(page);
    var stream := streams[s];
    if Between(page, stream[i].location, stream[j].location, loc) {
      StreamsHoldAllText(page, loc);
      var t: nat :| t < |streams| && InStream(streams[t], loc);
      var k: nat :| k < |streams[t]| && streams[t][k].location == loc;
      PositionsFollowReading(page, s, i, t, k);
      PositionsFollowReading(page, t, k, s, i);
      PositionsFollowReading(page, s, j, t, k);
      assert i <= k <= j;
    }
    forall k | i <= k <= j ensures Between(page, stream[i].location, stream[j].location, stream[k].location) {
      EntryIsText(page, s, k);
      PositionsFollowReading(page, s, i, s, k);
      PositionsFollowReading(page, s, k, s, i);
      PositionsFollowReading(page, s, j, s, k);
    }
  }

  lemma EntriesRunOn(page: Page, s: nat, i: nat, j: nat)
    requires s < |StreamsOf(page)| && i <= j < |StreamsOf(page)[s]| && IsText(page, StreamsOf(page)[s][i].location)
    ensures RunsOn(page, StreamsOf(page)[s][i].location, StreamsOf(page)[s][j].location) <==>
      forall k :: i <= k <= j ==>
        !StreamsOf(page)[s][k].hidden &&
        (i < j ==> StreamsOf(page)[s][k].key.Some? && StreamsOf(page)[s][k].key == StreamsOf(page)[s][i].key)
  {
    var stream := StreamsOf(page)[s];
    PositionsFollowReading(page, s, i, s, j);
    forall k | i <= k <= j ensures Between(page, stream[i].location, stream[j].location, stream[k].location) {
      BetweenIsIndexed(page, s, i, j, stream[k].location);
    }
    forall k | i <= k <= j
      ensures IsText(page, stream[k].location) && stream[k].hidden == TextAt(page, stream[k].location).hidden
      ensures stream[k].key == ParagraphKey(TextAt(page, stream[k].location).attributes)
    {
      EntryIsText(page, s, k);
    }
    forall loc | Between(page, stream[i].location, stream[j].location, loc) ensures exists k :: i <= k <= j && stream[k].location == loc {
      BetweenIsIndexed(page, s, i, j, loc);
    }
  }

  /**
    Two text primitives of a page are searched as one text exactly if they are in the same text and
    every text primitive from one to the other is shown and belongs to the same identified paragraph.
   */
  lemma SegmentsOnPage(page: Page, lower: char -> string, s: nat, i: nat, j: nat)
    requires s < |StreamsOf(page)| && i <= j < |StreamsOf(page)[s]|
    ensures AllResolve(page, StreamsOf(page)[s]) && IsText(page, StreamsOf(page)[s][i].location)
    ensures OneSegment(ItemsOf(page, StreamsOf(page)[s], lower), i, j) <==>
      RunsOn(page, StreamsOf(page)[s][i].location, StreamsOf(page)[s][j].location)
  {
    EntryIsText(page, s, i);
    var items := ItemsOf(page, StreamsOf(page)[s], lower);
    SegmentIffContinues(items, i, j);
    EntriesRunOn(page, s, i, j);
    assert forall k :: i <= k <= j ==> items[k].hidden == StreamsOf(page)[s][k].hidden && items[k].key == StreamsOf(page)[s][k].key;
  }

  // ---- The text of a segment --------------------------------------------------------------------------------

  lemma LettersConcat(a: seq<Cell>, b: seq<Cell>)
    ensures Letters(a + b) == Letters(a) + Letters(b)
  {
  }

  lemma {:induction false} NormalizedLetters(cells: seq<Cell>, lower: char -> string, n: nat)
    requires n <= |cells|
    ensures Letters(Normalized(cells, lower, n)) == Lowered(lower, Letters(cells[..n]))
  {
    if n > 0 {
      NormalizedLetters(cells, lower, n - 1);
      var cell := cells[n - 1];
      LettersConcat(Normalized(cells, lower, n - 1), Spread(lower(cell.letter), cell.bounds));
      assert Letters(Spread(lower(cell.letter), cell.bounds)) == lower(cell.letter);
      assert Letters(cells[..n])[..n - 1] == Letters(cells[..n - 1]);
    }
  }

  /** A character of normalised text comes from one character of the source, has its bounds, and stands where the lowered text has it. */
  lemma {:induction false} LetterKeepsBounds(cells: seq<Cell>, lower: char -> string, n: nat, p: nat) returns (c: nat, o: nat)
    requires n <= |cells| && p < |Normalized(cells, lower, n)|
    ensures c < n && o < |lower(cells[c].letter)| && p == |Lowered(lower, Letters(cells[..c]))| + o
    ensures Normalized(cells, lower, n)[p] == Cell(lower(cells[c].letter)[o], cells[c].bounds)
  {
    var before := Normalized(cells, lower, n - 1);
    if p < |before| {
      c, o := LetterKeepsBounds(cells, lower, n - 1, p);
    } else {
      NormalizedLetters(cells, lower, n - 1);
      c, o := n - 1, p - |before|;
    }
  }

  /** The characters of the primitives `lo` up to `hi` of a stream, as the document has them. */
  ghost function Source(page: Page, stream: seq<Indexed>, lo: nat, hi: nat): seq<Cell>
    requires lo <= hi <= |stream| && AllResolve(page, stream)
  {
    if lo == hi then [] else Source(page, stream, lo, hi - 1) + PrimitiveAt(page, stream[hi - 1]).cells
  }

  lemma OneRunMore(lower: char -> string, text: seq<Cell>, source: seq<Cell>, run: seq<Cell>)
    requires Letters(text) == Lowered(lower, Letters(source))
    ensures Letters(text + Normalized(run, lower, |run|)) == Lowered(lower, Letters(source + run))
  {
    NormalizedLetters(run, lower, |run|);
    assert run[..|run|] == run;
    LettersConcat(text, Normalized(run, lower, |run|));
    LettersConcat(source, run);
    LoweredConcat(lower, Letters(source), Letters(run));
  }

  /** The text of a range of items is the lowered text of its primitives, run after run. */
  lemma {:induction false} TextIsLowered(page: Page, stream: seq<Indexed>, lower: char -> string, lo: nat, hi: nat)
    requires lo <= hi <= |stream| && AllResolve(page, stream)
    ensures Letters(Text(ItemsOf(page, stream, lower), lo, hi)) == Lowered(lower, Letters(Source(page, stream, lo, hi)))
    decreases hi
  {
    if lo < hi {
      TextIsLowered(page, stream, lower, lo, hi - 1);
      OneRunMore(lower, Text(ItemsOf(page, stream, lower), lo, hi - 1), Source(page, stream, lo, hi - 1), PrimitiveAt(page, stream[hi - 1]).cells);
    }
  }

  /** The word stands in the text with its last letter right before position `end`. */
  ghost predicate EndsAt(word: string, text: string, end: nat) {
    exists a: string, b: string :: text == a + word + b && |a| + |word| == end
  }

  lemma OccursIsEndsAt(q: string, text: seq<Cell>, e: nat)
    ensures Occurs(q, text, e) <==> EndsAt(q, Letters(text), e)
  {
    var t := Letters(text);
    if Occurs(q, text, e) {
      assert Letters(text[e - |q|..e]) == t[e - |q|..e];
      assert t == t[..e - |q|] + q + t[e..];
    }
    if EndsAt(q, t, e) {
      var a: string, b: string :| t == a + q + b && |a| + |q| == e;
      assert t[|a|..e] == q;
      assert Letters(text[e - |q|..e]) == t[|a|..e];
    }
  }

  /** A query is reported where, both in lower case, it stands in what the document has in one segment. */
  lemma FoundInSource(pages: seq<Page>, query: string, lower: char -> string, place: Place)
    requires place.page < |pages| && place.stream < |StreamsOf(pages[place.page])|
    ensures AllResolve(pages[place.page], StreamsOf(pages[place.page])[place.stream])
    ensures StandsAt(Lowered(lower, query), pages, lower, place) <==>
      var page, stream := pages[place.page], StreamsOf(pages[place.page])[place.stream];
      IsSegment(ItemsOf(page, stream, lower), |stream|, place.lo, place.hi) && place.end > 0 &&
      EndsAt(Lowered(lower, query), Lowered(lower, Letters(Source(page, stream, place.lo, place.hi))), place.end)
  {
    var page, stream := pages[place.page], StreamsOf(pages[place.page])[place.stream];
    StreamsResolve(page);
    if place.lo <= place.hi <= |stream| {
      TextIsLowered(page, stream, lower, place.lo, place.hi);
      OccursIsEndsAt(Lowered(lower, query), Text(ItemsOf(page, stream, lower), place.lo, place.hi), place.end);
    }
  }
}
