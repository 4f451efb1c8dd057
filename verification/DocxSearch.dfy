/** Finding every occurrence of a query in the text of a document. */
module DocxSearch {
  import opened DocxText
  import opened Kmp
  import opened LowerCase
  import opened SearchRequests
  import opened Wrappers

  // ---- What is to be found ---------------------------------------------------------------

  datatype Match = Match(page: nat, bounds: Option<Bounds>)

  /** The query stands in the text, ending before position `e`. */
  predicate Occurs(q: string, text: seq<Cell>, e: nat) {
    |q| <= e <= |text| && Letters(text[e - |q|..e]) == q
  }

  /** The match that ends before position `e`, with the bounds of the matched characters. */
  function Hit(q: string, page: nat, text: seq<Cell>, e: nat): seq<Match> {
    if Occurs(q, text, e) then [Match(page, UnionOf(BoundsIn(text[e - |q|..e])))] else []
  }

  /** `before`, then the matches that end after position `a`, up to position `b`, overlapping ones included. */
  function Hits(before: seq<Match>, q: string, page: nat, text: seq<Cell>, a: nat, b: nat): seq<Match>
    requires a <= b
    decreases b
  {
    if a == b then before else Hits(before, q, page, text, a, b - 1) + Hit(q, page, text, b)
  }

  ghost function Text(items: seq<Item>, lo: nat, hi: nat): seq<Cell>
    requires lo <= hi <= |items|
    decreases hi
  {
    if lo == hi then [] else Text(items, lo, hi - 1) + items[hi - 1].cells
  }

  ghost predicate Ranges(items: seq<Item>, segments: seq<(nat, nat)>) {
    forall k :: 0 <= k < |segments| ==> segments[k].0 <= segments[k].1 <= |items|
  }

  /** `before`, then the matches in the first `n` segments, segment by segment. */
  ghost function SegmentHits(before: seq<Match>, q: string, page: nat, items: seq<Item>, segments: seq<(nat, nat)>, n: nat): seq<Match>
    requires n <= |segments| && Ranges(items, segments)
  {
    if n == 0 then before
    else
      var text := Text(items, segments[n - 1].0, segments[n - 1].1);
      Hits(SegmentHits(before, q, page, items, segments, n - 1), q, page, text, 0, |text|)
  }

  /** `before`, then the matches in the first `n` items of a stream. */
  ghost function ItemHits(before: seq<Match>, q: string, page: nat, items: seq<Item>, n: nat): seq<Match>
    requires n <= |items|
  {
    SegmentsInOrder(items, n);
    SegmentHits(before, q, page, items, Segments(items, n), |Segments(items, n)|)
  }

  ghost function StreamHits(before: seq<Match>, q: string, page: nat, layout: Page, stream: seq<Indexed>, lower: char -> string): seq<Match>
    requires AllResolve(layout, stream)
  {
    ItemHits(before, q, page, ItemsOf(layout, stream, lower), |stream|)
  }

  /** `before`, then the matches in the first `n` streams of a page. */
  ghost function StreamsHits(before: seq<Match>, q: string, page: nat, layout: Page, streams: seq<seq<Indexed>>,
                             lower: char -> string, n: nat): seq<Match>
    requires n <= |streams| && EveryStreamResolves(layout, streams)
  {
    if n == 0 then before
    else StreamHits(StreamsHits(before, q, page, layout, streams, lower, n - 1), q, page, layout, streams[n - 1], lower)
  }

  /** `before`, then the matches on one page. */
  ghost function PageHits(before: seq<Match>, q: string, page: nat, layout: Page, lower: char -> string): seq<Match> {
    StreamsResolve(layout);
    StreamsHits(before, q, page, layout, StreamsOf(layout), lower, |StreamsOf(layout)|)
  }

  /** The matches on the first `n` pages. */
  ghost function PagesHits(q: string, pages: seq<Page>, lower: char -> string, n: nat): seq<Match>
    requires n <= |pages|
  {
    if n == 0 then [] else PageHits(PagesHits(q, pages, lower, n - 1), q, n - 1, pages[n - 1], lower)
  }

  /** Everything a complete search reports: nothing for a query without letters. */
  ghost function Answer(pages: seq<Page>, query: string, lower: char -> string): seq<Match> {
    var q := Lowered(lower, query);
    if q == "" then [] else PagesHits(q, pages, lower, |pages|)
  }

  // ---- The matches of one text, position by position -----------------------------------------

  function EndsOf(q: string, text: seq<Cell>, b: nat): seq<nat> {
    if b == 0 then [] else EndsOf(q, text, b - 1) + if Occurs(q, text, b) then [b] else []
  }

  /** The ends are exactly the positions where the query stands. */
  lemma {:induction false} EndsExact(q: string, text: seq<Cell>, b: nat, e: nat)
    ensures e in EndsOf(q, text, b) <==> 0 < e <= b && Occurs(q, text, e)
  {
    if b > 0 {
      EndsExact(q, text, b - 1, e);
    }
  }

  ghost predicate Ascending(s: seq<nat>) {
    forall i, j :: 0 <= i < j < |s| ==> s[i] < s[j]
  }

  lemma {:induction false} EndsAscend(q: string, text: seq<Cell>, b: nat)
    ensures Ascending(EndsOf(q, text, b))
  {
    if b > 0 {
      var before := EndsOf(q, text, b - 1);
      EndsAscend(q, text, b - 1);
      forall i | 0 <= i < |before| ensures before[i] < b {
        EndsExact(q, text, b - 1, before[i]);
      }
    }
  }

  /** After `before` there is one match per end, in the same order, with the bounds of exactly the matched characters. */
  lemma {:induction false} HitsAreEnds(before: seq<Match>, q: string, page: nat, text: seq<Cell>, b: nat, k: nat)
    ensures |Hits(before, q, page, text, 0, b)| == |before| + |EndsOf(q, text, b)|
    ensures before <= Hits(before, q, page, text, 0, b)
    ensures k < |EndsOf(q, text, b)| ==>
      var e := EndsOf(q, text, b)[k];
      Occurs(q, text, e) && Hits(before, q, page, text, 0, b)[|before| + k] == Match(page, UnionOf(BoundsIn(text[e - |q|..e])))
  {
    if b > 0 {
      HitsAreEnds(before, q, page, text, b - 1, k);
    }
  }

  // ---- Hits of a growing text -----------------------------------------------------------------

  lemma HitLocal(q: string, page: nat, text: seq<Cell>, more: seq<Cell>, e: nat)
    requires e <= |text|
    ensures Hit(q, page, text + more, e) == Hit(q, page, text, e)
  {
    if |q| <= e {
      assert (text + more)[e - |q|..e] == text[e - |q|..e];
    }
  }

  lemma {:induction false} HitsLocal(before: seq<Match>, q: string, page: nat, text: seq<Cell>, more: seq<Cell>, a: nat, b: nat)
    requires a <= b <= |text|
    ensures Hits(before, q, page, text + more, a, b) == Hits(before, q, page, text, a, b)
    decreases b
  {
    if a < b {
      HitsLocal(before, q, page, text, more, a, b - 1);
      HitLocal(q, page, text, more, b);
    }
  }

  lemma {:induction false} HitsSplit(before: seq<Match>, q: string, page: nat, text: seq<Cell>, a: nat, b: nat, c: nat)
    requires a <= b <= c
    ensures Hits(Hits(before, q, page, text, a, b), q, page, text, b, c) == Hits(before, q, page, text, a, c)
    decreases c
  {
    if b < c {
      HitsSplit(before, q, page, text, a, b, c - 1);
    }
  }

  /** `matches` is `before` and the matches that end inside `fed`, which follows `open` in its segment. */
  ghost predicate Fed(q: string, page: nat, open: seq<Cell>, fed: seq<Cell>, before: seq<Match>, matches: seq<Match>) {
    matches == Hits(before, q, page, open + fed, |open|, |open + fed|)
  }

  lemma Regroup<T>(a: seq<T>, b: seq<T>, c: seq<T>)
    ensures (a + b) + c == a + (b + c)
  {
  }

  lemma HitsChain(before: seq<Match>, q: string, page: nat, text: seq<Cell>, more: seq<Cell>, a: nat)
    requires a <= |text|
    ensures Hits(Hits(before, q, page, text, a, |text|), q, page, text + more, |text|, |text + more|) ==
      Hits(before, q, page, text + more, a, |text + more|)
  {
    HitsLocal(before, q, page, text, more, a, |text|);
    HitsSplit(before, q, page, text + more, a, |text|, |text + more|);
  }

  lemma FedMore(q: string, page: nat, open: seq<Cell>, fed: seq<Cell>, more: seq<Cell>,
                before: seq<Match>, between: seq<Match>, matches: seq<Match>)
    requires Fed(q, page, open, fed, before, between) && Fed(q, page, open + fed, more, between, matches)
    ensures Fed(q, page, open, fed + more, before, matches)
  {
    Regroup(open, fed, more);
    HitsChain(before, q, page, open + fed, more, |open|);
  }

  // ---- The matcher ---------------------------------------------------------------------------

  function Tail<T>(s: seq<T>, n: nat): seq<T> {
    if |s| <= n then s else s[|s| - n..]
  }

  /** The matcher after the text `open`: the partial match is the longest, the window holds the last bounds. */
  ghost predicate Tracks(q: string, open: seq<Cell>, matched: nat, window: seq<Option<Bounds>>) {
    LongestPartial(q, Letters(open), matched) && window == BoundsIn(Tail(open, |q|))
  }

  lemma StartTracking(q: string)
    requires q != ""
    ensures Tracks(q, [], 0, [])
  {
    NothingEnds(q);
  }

  lemma LettersMore(open: seq<Cell>, cell: Cell)
    ensures Letters(open + [cell]) == Letters(open) + [cell.letter]
    ensures BoundsIn(open + [cell]) == BoundsIn(open) + [cell.bounds]
  {
  }

  lemma WindowMoves(open: seq<Cell>, cell: Cell, n: nat)
    requires n > 0
    ensures BoundsIn(Tail(open + [cell], n)) == Tail(BoundsIn(Tail(open, n)) + [cell.bounds], n)
  {
  }

  /** The whole query ends the letters exactly when the query occurs at the end of the text. */
  lemma WholeMatchOccurs(q: string, text: seq<Cell>, m: nat)
    requires LongestEnd(q, Letters(text), m)
    ensures m == |q| <==> Occurs(q, text, |text|)
    ensures m == |q| ==> Tail(text, |q|) == text[|text| - |q|..|text|]
    ensures m <= |q|
  {
    if |q| <= |text| {
      assert Letters(text)[|text| - |q|..] == Letters(text[|text| - |q|..|text|]);
    }
    assert Ends(q, Letters(text), |q|) <==> Occurs(q, text, |text|);
  }

  lemma PartialWhenNotWhole(q: string, t: string, m: nat)
    requires LongestEnd(q, t, m) && m < |q|
    ensures LongestPartial(q, t, m)
  {
  }

  method Slide(q: string, window: seq<Option<Bounds>>, cell: Cell, ghost open: seq<Cell>) returns (window': seq<Option<Bounds>>)
    requires q != "" && window == BoundsIn(Tail(open, |q|))
    ensures window' == BoundsIn(Tail(open + [cell], |q|))
  {
    WindowMoves(open, cell, |q|);
    window' := window + [cell.bounds];
    if |window'| > |q| {
      window' := window'[1..];
    }
  }

  /** One character of normalised text. */
  method Feed(q: string, table: seq<nat>, page: nat, matched: nat, window: seq<Option<Bounds>>, matches: seq<Match>,
              cell: Cell, ghost open: seq<Cell>)
    returns (matched': nat, window': seq<Option<Bounds>>, matches': seq<Match>)
    requires q != "" && TableTo(q, table, |q|) && Tracks(q, open, matched, window)
    ensures Tracks(q, open + [cell], matched', window')
    ensures matches' == matches + Hit(q, page, open + [cell], |open| + 1)
  {
    LettersMore(open, cell);
    matched' := Advance(q, table, Letters(open), matched, cell.letter);
    window' := Slide(q, window, cell, open);
    matches' := matches;
    WholeMatchOccurs(q, open + [cell], matched');
    if matched' == |q| {
      matches' := matches' + [Match(page, UnionOf(window'))];
      AfterMatch(q, Letters(open + [cell]), table[matched' - 1]);
      matched' := table[matched' - 1];
    } else {
      PartialWhenNotWhole(q, Letters(open + [cell]), matched');
    }
  }

  // ---- Runs of text ------------------------------------------------------------------------

  /** The changing variables of a search. */
  datatype Scan = Scan(matched: nat, window: seq<Option<Bounds>>, matches: seq<Match>, work: nat)

  /** `scan` has read `open` in the current segment. */
  ghost predicate Reads(q: string, open: seq<Cell>, scan: Scan) {
    Tracks(q, open, scan.matched, scan.window)
  }

  /** From `scan`, reading `fed` after `open` led to `scan'`. */
  ghost predicate ReadOn(q: string, page: nat, open: seq<Cell>, fed: seq<Cell>, scan: Scan, scan': Scan) {
    Reads(q, open + fed, scan') && Fed(q, page, open, fed, scan.matches, scan'.matches)
  }

  lemma ReadNothing(q: string, page: nat, open: seq<Cell>, scan: Scan)
    requires Reads(q, open, scan)
    ensures ReadOn(q, page, open, [], scan, scan)
  {
    assert open + [] == open;
  }

  lemma ReadMore(q: string, page: nat, open: seq<Cell>, fed: seq<Cell>, more: seq<Cell>, a: Scan, b: Scan, c: Scan)
    requires ReadOn(q, page, open, fed, a, b) && ReadOn(q, page, open + fed, more, b, c)
    ensures ReadOn(q, page, open, fed + more, a, c)
  {
    Regroup(open, fed, more);
    FedMore(q, page, open, fed, more, a.matches, b.matches, c.matches);
  }

  lemma OneHit(before: seq<Match>, q: string, page: nat, text: seq<Cell>, e: nat)
    requires e > 0
    ensures Hits(before, q, page, text, e - 1, e) == before + Hit(q, page, text, e)
  {
  }

  /** One character, and a look at the channel after every 256 of them. */
  method ReadCell(q: string, table: seq<nat>, page: nat, scan: Scan, cell: Cell, rx: RequestReceiver,
                  ghost open: seq<Cell>, ghost since: nat)
    returns (scan': Scan, stop: bool)
    requires q != "" && TableTo(q, table, |q|) && Reads(q, open, scan) && rx.Undisturbed(since)
    modifies rx
    ensures if stop then rx.Replaced(since) else rx.Undisturbed(since)
    ensures !stop ==> ReadOn(q, page, open, [cell], scan, scan')
  {
    var matched, window, matches := Feed(q, table, page, scan.matched, scan.window, scan.matches, cell, open);
    OneHit(scan.matches, q, page, open + [cell], |open| + 1);
    scan' := Scan(matched, window, matches, scan.work + 1);
    stop := false;
    if scan'.work >= 256 {
      scan' := scan'.(work := 0);
      stop := rx.ShouldInterrupt(since);
    }
  }

  /** The lower-case form of one source character. */
  method ReadLetters(q: string, table: seq<nat>, page: nat, scan: Scan, letters: string, bounds: Option<Bounds>,
                     rx: RequestReceiver, ghost open: seq<Cell>, ghost since: nat)
    returns (scan': Scan, stop: bool)
    requires q != "" && TableTo(q, table, |q|) && Reads(q, open, scan) && rx.Undisturbed(since)
    modifies rx
    ensures if stop then rx.Replaced(since) else rx.Undisturbed(since)
    ensures !stop ==> ReadOn(q, page, open, Spread(letters, bounds), scan, scan')
  {
    scan', stop := scan, false;
    ghost var fed: seq<Cell> := [];
    ReadNothing(q, page, open, scan);
    for i := 0 to |letters|
      invariant rx.Undisturbed(since) && !stop
      invariant fed == Spread(letters[..i], bounds) && ReadOn(q, page, open, fed, scan, scan')
    {
      var before := scan';
      scan', stop := ReadCell(q, table, page, before, Cell(letters[i], bounds), rx, open + fed, since);
      if stop {
        return;
      }
      ReadMore(q, page, open, fed, [Cell(letters[i], bounds)], scan, before, scan');
      fed := fed + [Cell(letters[i], bounds)];
    }
    assert letters[..|letters|] == letters;
  }

  /** The characters of one primitive. */
  method ReadRun(q: string, table: seq<nat>, page: nat, scan: Scan, cells: seq<Cell>, lower: char -> string,
                 rx: RequestReceiver, ghost open: seq<Cell>, ghost since: nat)
    returns (scan': Scan, stop: bool)
    requires q != "" && TableTo(q, table, |q|) && Reads(q, open, scan) && rx.Undisturbed(since)
    modifies rx
    ensures if stop then rx.Replaced(since) else rx.Undisturbed(since)
    ensures !stop ==> ReadOn(q, page, open, Normalized(cells, lower, |cells|), scan, scan')
  {
    scan', stop := scan, false;
    ReadNothing(q, page, open, scan);
    for i := 0 to |cells|
      invariant rx.Undisturbed(since) && !stop
      invariant ReadOn(q, page, open, Normalized(cells, lower, i), scan, scan')
    {
      var before := scan';
      ghost var fed := Normalized(cells, lower, i);
      scan', stop := ReadLetters(q, table, page, before, lower(cells[i].letter), cells[i].bounds, rx, open + fed, since);
      if stop {
        return;
      }
      ReadMore(q, page, open, fed, Spread(lower(cells[i].letter), cells[i].bounds), scan, before, scan');
    }
  }

  // ---- Streams ---------------------------------------------------------------------------------

  /** The text of the segment that item `n - 1` belongs to, up to and including that item. */
  ghost function Open(items: seq<Item>, n: nat): seq<Cell>
    requires n <= |items|
  {
    if n == 0 || items[n - 1].hidden then []
    else
      SegmentsInOrder(items, n);
      var segments := Segments(items, n);
      Text(items, segments[|segments| - 1].0, n)
  }

  /** The text already read in the segment that item `n` belongs to. */
  ghost function Carried(items: seq<Item>, n: nat): seq<Cell>
    requires n <= |items|
  {
    if Joined(items, n) then Open(items, n) else []
  }

  lemma {:induction false} SegmentHitsPrefix(before: seq<Match>, q: string, page: nat, items: seq<Item>,
                                             a: seq<(nat, nat)>, b: seq<(nat, nat)>, n: nat)
    requires n <= |a| && n <= |b| && a[..n] == b[..n] && Ranges(items, a) && Ranges(items, b)
    ensures SegmentHits(before, q, page, items, a, n) == SegmentHits(before, q, page, items, b, n)
  {
    if n > 0 {
      assert a[n - 1] == a[..n][n - 1] == b[n - 1];
      assert a[..n - 1] == a[..n][..n - 1] == b[..n - 1];
      SegmentHitsPrefix(before, q, page, items, a, b, n - 1);
    }
  }

  lemma ContinuedItem(before: seq<Match>, q: string, page: nat, items: seq<Item>, i: nat)
    requires i < |items| && Joined(items, i)
    ensures Fed(q, page, Open(items, i), items[i].cells, ItemHits(before, q, page, items, i), ItemHits(before, q, page, items, i + 1))
    ensures Open(items, i + 1) == Open(items, i) + items[i].cells
  {
    SegmentsInOrder(items, i);
    SegmentsInOrder(items, i + 1);
    var a, b := Segments(items, i), Segments(items, i + 1);
    var last := |a| - 1;
    assert a[..last] == b[..last];
    SegmentHitsPrefix(before, q, page, items, a, b, last);
    var earlier, text, all := SegmentHits(before, q, page, items, a, last), Open(items, i), Open(items, i + 1);
    assert all == text + items[i].cells;
    HitsLocal(earlier, q, page, text, items[i].cells, 0, |text|);
    HitsSplit(earlier, q, page, all, 0, |text|, |all|);
  }

  lemma FreshItem(before: seq<Match>, q: string, page: nat, items: seq<Item>, i: nat)
    requires i < |items| && !items[i].hidden && !Joined(items, i)
    ensures Fed(q, page, [], items[i].cells, ItemHits(before, q, page, items, i), ItemHits(before, q, page, items, i + 1))
    ensures Open(items, i + 1) == items[i].cells
  {
    SegmentsInOrder(items, i);
    SegmentsInOrder(items, i + 1);
    var a, b := Segments(items, i), Segments(items, i + 1);
    assert a[..|a|] == b[..|a|];
    SegmentHitsPrefix(before, q, page, items, a, b, |a|);
    assert Text(items, i, i + 1) == items[i].cells;
    assert [] + items[i].cells == items[i].cells;
  }

  /** Reading one shown item adds exactly its part of the hits. */
  lemma NextItem(before: seq<Match>, q: string, page: nat, items: seq<Item>, i: nat)
    requires i < |items| && !items[i].hidden
    ensures Fed(q, page, Carried(items, i), items[i].cells, ItemHits(before, q, page, items, i), ItemHits(before, q, page, items, i + 1))
    ensures Open(items, i + 1) == Carried(items, i) + items[i].cells
  {
    if Joined(items, i) {
      ContinuedItem(before, q, page, items, i);
    } else {
      FreshItem(before, q, page, items, i);
    }
  }

  /** After `i` items of a stream. */
  ghost predicate InStream(q: string, page: nat, items: seq<Item>, i: nat, before: seq<Match>, scan: Scan) {
    i <= |items| && Reads(q, Open(items, i), scan) && scan.matches == ItemHits(before, q, page, items, i)
  }

  lemma ItemRead(q: string, page: nat, items: seq<Item>, i: nat, before: seq<Match>, scan: Scan, scan': Scan)
    requires i < |items| && !items[i].hidden && scan.matches == ItemHits(before, q, page, items, i)
    requires ReadOn(q, page, Carried(items, i), items[i].cells, scan, scan')
    ensures InStream(q, page, items, i + 1, before, scan')
  {
    NextItem(before, q, page, items, i);
  }

  lemma ItemHidden(q: string, page: nat, items: seq<Item>, i: nat, before: seq<Match>, scan: Scan)
    requires q != "" && i < |items| && items[i].hidden && scan.matches == ItemHits(before, q, page, items, i)
    ensures InStream(q, page, items, i + 1, before, scan.(matched := 0, window := []))
  {
    StartTracking(q);
  }

  /** The flag and key remembered from the item before `i`. */
  ghost predicate Remembers(items: seq<Item>, i: nat, hadPrevious: bool, previous: Option<string>)
    requires i <= |items|
  {
    hadPrevious == (i > 0 && !items[i - 1].hidden) && previous == if hadPrevious then items[i - 1].key else None
  }

  /** The reset at a paragraph boundary keeps exactly the text that the next item continues. */
  method EnterItem(q: string, page: nat, scan: Scan, key: Option<string>, hadPrevious: bool, previous: Option<string>,
                   ghost items: seq<Item>, ghost i: nat)
    returns (scan': Scan)
    requires q != "" && i < |items| && !items[i].hidden && key == items[i].key
    requires Remembers(items, i, hadPrevious, previous) && Reads(q, Open(items, i), scan)
    ensures Reads(q, Carried(items, i), scan') && scan'.matches == scan.matches
  {
    scan' := scan;
    StartTracking(q);
    if hadPrevious && (key.None? || previous.None? || key != previous) {
      scan' := scan.(matched := 0, window := []);
    }
  }

  method SearchStream(q: string, table: seq<nat>, page: nat, layout: Page, stream: seq<Indexed>, lower: char -> string,
                      matches: seq<Match>, work: nat, rx: RequestReceiver, ghost since: nat)
    returns (scan: Scan, stop: bool)
    requires q != "" && TableTo(q, table, |q|) && AllResolve(layout, stream) && rx.Undisturbed(since)
    modifies rx
    ensures if stop then rx.Replaced(since) else rx.Undisturbed(since)
    ensures !stop ==> scan.matches == StreamHits(matches, q, page, layout, stream, lower)
  {
    scan, stop := Scan(0, [], matches, work), false;
    var hadPrevious, previous := false, None;
    ghost var items := ItemsOf(layout, stream, lower);
    StartTracking(q);
    for i := 0 to |stream|
      invariant rx.Undisturbed(since) && !stop
      invariant Remembers(items, i, hadPrevious, previous) && InStream(q, page, items, i, matches, scan)
    {
      stop := rx.ShouldInterrupt(since);
      if stop {
        return;
      }
      if stream[i].hidden {
        ItemHidden(q, page, items, i, matches, scan);
        scan, hadPrevious, previous := scan.(matched := 0, window := []), false, None;
      } else {
        var entered := EnterItem(q, page, scan, stream[i].key, hadPrevious, previous, items, i);
        hadPrevious, previous := true, stream[i].key;
        var primitive := PrimitiveAt(layout, stream[i]);
        scan, stop := ReadRun(q, table, page, entered, primitive.cells, lower, rx, Carried(items, i), since);
        if stop {
          return;
        }
        ItemRead(q, page, items, i, matches, entered, scan);
      }
    }
  }

  // ---- The index and the whole search -----------------------------------------------------------

  datatype Index = Index(pages: seq<Page>, streams: seq<seq<seq<Indexed>>>) {
    ghost predicate Valid() {
      |streams| == |pages| && forall p :: 0 <= p < |pages| ==> streams[p] == StreamsOf(pages[p])
    }
  }

  method IndexPage(page: Page) returns (streams: seq<seq<Indexed>>)
    ensures streams == StreamsOf(page)
  {
    streams := PushStream([], IndexPrimitives(page.primitives, Body, |page.primitives|));
    for k := 0 to |page.noteAreas|
      invariant streams == NoteStreams(page, k)
    {
      var stream := NoteStream(page, k);
      if stream != [] {
        streams := streams + [stream];
      }
    }
    if page.header.Some? {
      streams := PushStream(streams, IndexPrimitives(page.header.value, Header, |page.header.value|));
    }
    if page.footer.Some? {
      streams := PushStream(streams, IndexPrimitives(page.footer.value, Footer, |page.footer.value|));
    }
  }

  method NewIndex(pages: seq<Page>) returns (index: Index)
    ensures index.Valid() && index.pages == pages
  {
    var streams := [];
    for p := 0 to |pages|
      invariant |streams| == p && forall k :: 0 <= k < p ==> streams[k] == StreamsOf(pages[k])
    {
      var s := IndexPage(pages[p]);
      streams := streams + [s];
    }
    index := Index(pages, streams);
  }

  method SearchPage(q: string, table: seq<nat>, page: nat, layout: Page, streams: seq<seq<Indexed>>, lower: char -> string,
                    matches: seq<Match>, work: nat, rx: RequestReceiver, ghost since: nat)
    returns (matches': seq<Match>, work': nat, stop: bool)
    requires q != "" && TableTo(q, table, |q|) && rx.Undisturbed(since) && streams == StreamsOf(layout)
    modifies rx
    ensures if stop then rx.Replaced(since) else rx.Undisturbed(since)
    ensures !stop ==> matches' == PageHits(matches, q, page, layout, lower)
  {
    matches', work' := matches, work;
    StreamsResolve(layout);
    stop := rx.ShouldInterrupt(since);
    if stop {
      return;
    }
    for k := 0 to |streams|
      invariant rx.Undisturbed(since) && !stop
      invariant matches' == StreamsHits(matches, q, page, layout, streams, lower, k)
    {
      var scan;
      scan, stop := SearchStream(q, table, page, layout, streams[k], lower, matches', work', rx, since);
      if stop {
        return;
      }
      matches', work' := scan.matches, scan.work;
    }
  }

  /**
    All matches in reading order, or nothing if a newer request arrived first; that request is
    then taken from the channel.
   */
  method Search(index: Index, query: string, lower: char -> string, rx: RequestReceiver, ghost since: nat)
    returns (matches: Option<seq<Match>>)
    requires index.Valid() && rx.Undisturbed(since)
    modifies rx
    ensures matches.None? ==> rx.Replaced(since)
    ensures matches.Some? ==> rx.Undisturbed(since) && matches.value == Answer(index.pages, query, lower)
  {
    var q := Lowered(lower, query);
    if q == "" {
      return Some([]);
    }
    var table := PrefixTable(q);
    var found, work := [], 0;
    for p := 0 to |index.pages|
      invariant rx.Undisturbed(since) && found == PagesHits(q, index.pages, lower, p)
    {
      var stop;
      found, work, stop := SearchPage(q, table, p, index.pages[p], index.streams[p], lower, found, work, rx, since);
      if stop {
        return None;
      }
    }
    matches := Some(found);
  }
}
