/** What a complete search reports, without looking at how it searches. */
module DocxLaws {
  import opened DocxSearch
  import opened DocxText
  import opened Folding
  import opened LowerCase
  import opened Wrappers

  /** A place where a query may stand: page, stream, segment and end within the text of the segment. */
  datatype Place = Place(page: nat, stream: nat, lo: nat, hi: nat, end: nat)

  ghost function PlaceItems(pages: seq<Page>, lower: char -> string, page: nat, stream: nat): seq<Item>
    requires page < |pages| && stream < |StreamsOf(pages[page])|
  {
    StreamsResolve(pages[page]);
    ItemsOf(pages[page], StreamsOf(pages[page])[stream], lower)
  }

  /** The query stands inside one segment, a maximal run of shown primitives of one paragraph. */
  ghost predicate Stands(q: string, items: seq<Item>, lo: nat, hi: nat, end: nat) {
    IsSegment(items, |items|, lo, hi) && 0 < end && Occurs(q, Text(items, lo, hi), end)
  }

  ghost function MatchIn(q: string, page: nat, items: seq<Item>, lo: nat, hi: nat, end: nat): Match
    requires Stands(q, items, lo, hi, end)
  {
    Match(page, UnionOf(BoundsIn(Text(items, lo, hi)[end - |q|..end])))
  }

  ghost predicate StandsAt(q: string, pages: seq<Page>, lower: char -> string, place: Place) {
    && place.page < |pages| && place.stream < |StreamsOf(pages[place.page])|
    && Stands(q, PlaceItems(pages, lower, place.page, place.stream), place.lo, place.hi, place.end)
  }

  ghost function MatchAt(q: string, pages: seq<Page>, lower: char -> string, place: Place): Match
    requires StandsAt(q, pages, lower, place)
  {
    MatchIn(q, place.page, PlaceItems(pages, lower, place.page, place.stream), place.lo, place.hi, place.end)
  }

  /** Reading order: page by page, stream by stream, segment by segment, end by end. */
  predicate Earlier(a: Place, b: Place) {
    || a.page < b.page
    || (a.page == b.page && (
          || a.stream < b.stream
          || (a.stream == b.stream && (
                || a.lo < b.lo
                || (a.lo == b.lo && (a.hi < b.hi || (a.hi == b.hi && a.end < b.end)))))))
  }

  ghost predicate InReadingOrder(places: seq<Place>) {
    forall i, j :: 0 <= i < j < |places| ==> Earlier(places[i], places[j])
  }

  // ---- Listing places in reading order ---------------------------------------------------------

  /** `places` are exactly the standing places before `limit`, in reading order, and `matches` their matches. */
  ghost predicate Listed(stands: Place -> bool, found: Place -> Match, places: seq<Place>, matches: seq<Match>, limit: Place) {
    && InReadingOrder(places) && |places| == |matches|
    && (forall p :: p in places <==> stands(p) && Earlier(p, limit))
    && (forall i :: 0 <= i < |places| ==> matches[i] == found(places[i]))
  }

  lemma NothingListed(stands: Place -> bool, found: Place -> Match)
    ensures Listed(stands, found, [], [], Place(0, 0, 0, 0, 0))
  {
  }

  /** No place stands between the two limits. */
  lemma NoneBetween(stands: Place -> bool, found: Place -> Match, places: seq<Place>, matches: seq<Match>, limit: Place, next: Place)
    requires Listed(stands, found, places, matches, limit) && Earlier(limit, next)
    requires forall p :: stands(p) && Earlier(p, next) ==> Earlier(p, limit)
    ensures Listed(stands, found, places, matches, next)
  {
  }

  /** A place stands at the limit and no other before the next one. */
  lemma OneBetween(stands: Place -> bool, found: Place -> Match, places: seq<Place>, matches: seq<Match>, limit: Place, next: Place)
    requires Listed(stands, found, places, matches, limit) && Earlier(limit, next) && stands(limit)
    requires forall p :: stands(p) && Earlier(p, next) ==> Earlier(p, limit) || p == limit
    ensures Listed(stands, found, places + [limit], matches + [found(limit)], next)
  {
    var longer := places + [limit];
    forall i, j | 0 <= i < j < |longer| ensures Earlier(longer[i], longer[j]) {
      assert longer[i] in places;
    }
    forall p ensures p in longer <==> stands(p) && Earlier(p, next) {
      assert p in longer <==> p in places || p == limit;
    }
  }

  // ---- One text -----------------------------------------------------------------------------------

  /** What stands in the text of the segment of `at`. */
  ghost predicate TextPlaces(stands: Place -> bool, found: Place -> Match, q: string, at: Place, text: seq<Cell>) {
    forall e: nat ::
      && (stands(at.(end := e)) <==> 0 < e && Occurs(q, text, e))
      && (stands(at.(end := e)) ==> Hit(q, at.page, text, e) == [found(at.(end := e))])
  }

  lemma EndListed(stands: Place -> bool, found: Place -> Match, places: seq<Place>, before: seq<Match>,
                  q: string, at: Place, text: seq<Cell>, b: nat) returns (places': seq<Place>)
    requires b > 0 && TextPlaces(stands, found, q, at, text) && Listed(stands, found, places, before, at.(end := b))
    ensures Listed(stands, found, places', before + Hit(q, at.page, text, b), at.(end := b + 1))
  {
    if stands(at.(end := b)) {
      places' := places + [at.(end := b)];
      OneBetween(stands, found, places, before, at.(end := b), at.(end := b + 1));
    } else {
      places' := places;
      NoneBetween(stands, found, places, before, at.(end := b), at.(end := b + 1));
      assert Hit(q, at.page, text, b) == [];
      assert before + [] == before;
    }
  }

  lemma {:induction false} TextListed(stands: Place -> bool, found: Place -> Match, places: seq<Place>, before: seq<Match>,
                                      q: string, at: Place, text: seq<Cell>, b: nat) returns (places': seq<Place>)
    requires TextPlaces(stands, found, q, at, text) && Listed(stands, found, places, before, at.(end := 0))
    ensures Listed(stands, found, places', Hits(before, q, at.page, text, 0, b), at.(end := b + 1))
  {
    if b == 0 {
      places' := places;
      NoneBetween(stands, found, places, before, at.(end := 0), at.(end := 1));
    } else {
      places' := TextListed(stands, found, places, before, q, at, text, b - 1);
      places' := EndListed(stands, found, places', Hits(before, q, at.page, text, 0, b - 1), q, at, text, b);
    }
  }

  // ---- One stream -----------------------------------------------------------------------------------

  /** What stands in one stream with these items. */
  ghost predicate StreamPlaces(stands: Place -> bool, found: Place -> Match, q: string, page: nat, stream: nat, items: seq<Item>) {
    forall lo: nat, hi: nat, e: nat {:trigger stands(Place(page, stream, lo, hi, e))} ::
      && (stands(Place(page, stream, lo, hi, e)) <==> Stands(q, items, lo, hi, e))
      && (stands(Place(page, stream, lo, hi, e)) ==> found(Place(page, stream, lo, hi, e)) == MatchIn(q, page, items, lo, hi, e))
  }

  function SegmentLimit(page: nat, stream: nat, segments: seq<(nat, nat)>, n: nat): Place {
    if n < |segments| then Place(page, stream, segments[n].0, segments[n].1, 0) else Place(page, stream + 1, 0, 0, 0)
  }

  lemma SegmentTextPlaces(stands: Place -> bool, found: Place -> Match, q: string, page: nat, stream: nat, items: seq<Item>, lo: nat, hi: nat)
    requires q != "" && StreamPlaces(stands, found, q, page, stream, items) && IsSegment(items, |items|, lo, hi)
    ensures TextPlaces(stands, found, q, Place(page, stream, lo, hi, 0), Text(items, lo, hi))
  {
    forall e: nat ensures Place(page, stream, lo, hi, 0).(end := e) == Place(page, stream, lo, hi, e) {
    }
  }

  /** What stands in a stream before its `n`-th segment stands in one of the segments before that. */
  lemma NothingBetweenSegments(stands: Place -> bool, found: Place -> Match, q: string, page: nat, stream: nat, items: seq<Item>,
                               n: nat, p: Place)
    requires StreamPlaces(stands, found, q, page, stream, items) && n <= |Segments(items, |items|)|
    requires stands(p) && Earlier(p, SegmentLimit(page, stream, Segments(items, |items|), n)) && p.page == page && p.stream == stream
    ensures exists k: nat :: k < n && Segments(items, |items|)[k] == (p.lo, p.hi) && Stands(q, items, p.lo, p.hi, p.end)
  {
    var segments := Segments(items, |items|);
    assert p == Place(page, stream, p.lo, p.hi, p.end);
    SegmentsInOrder(items, |items|);
    SegmentsAreMaximalRuns(items, |items|, p.lo, p.hi);
    var k: nat :| k < |segments| && segments[k] == (p.lo, p.hi);
    assert k < n;
  }

  lemma {:induction false} SegmentsListed(stands: Place -> bool, found: Place -> Match, places: seq<Place>, before: seq<Match>,
                                          q: string, page: nat, stream: nat, items: seq<Item>, n: nat) returns (places': seq<Place>)
    requires q != "" && StreamPlaces(stands, found, q, page, stream, items) && n <= |Segments(items, |items|)|
    requires Ranges(items, Segments(items, |items|)) && Listed(stands, found, places, before, Place(page, stream, 0, 0, 0))
    ensures Listed(stands, found, places', SegmentHits(before, q, page, items, Segments(items, |items|), n),
                   SegmentLimit(page, stream, Segments(items, |items|), n))
  {
    var segments := Segments(items, |items|);
    var next := SegmentLimit(page, stream, segments, n);
    SegmentsInOrder(items, |items|);
    if n == 0 {
      places' := places;
      forall p | stands(p) && Earlier(p, next) ensures Earlier(p, Place(page, stream, 0, 0, 0)) {
        if p.page == page && p.stream == stream {
          NothingBetweenSegments(stands, found, q, page, stream, items, 0, p);
        }
      }
      NoneBetween(stands, found, places, before, Place(page, stream, 0, 0, 0), next);
    } else {
      var inner := SegmentHits(before, q, page, items, segments, n - 1);
      var at := SegmentLimit(page, stream, segments, n - 1);
      places' := SegmentsListed(stands, found, places, before, q, page, stream, items, n - 1);
      places' := SegmentListed(stands, found, places', inner, q, items, at, Text(items, at.lo, at.hi), n);
    }
  }

  lemma SegmentListed(stands: Place -> bool, found: Place -> Match, places: seq<Place>, before: seq<Match>, q: string, items: seq<Item>,
                      at: Place, text: seq<Cell>, n: nat) returns (places': seq<Place>)
    requires q != "" && StreamPlaces(stands, found, q, at.page, at.stream, items) && 0 < n <= |Segments(items, |items|)|
    requires Segments(items, |items|)[n - 1] == (at.lo, at.hi) && at.lo <= at.hi <= |items| && text == Text(items, at.lo, at.hi)
    requires at.end == 0 && Listed(stands, found, places, before, at)
    ensures Listed(stands, found, places', Hits(before, q, at.page, text, 0, |text|),
                   SegmentLimit(at.page, at.stream, Segments(items, |items|), n))
  {
    var segments := Segments(items, |items|);
    var next := SegmentLimit(at.page, at.stream, segments, n);
    assert (at.lo, at.hi) in segments;
    SegmentsInOrder(items, |items|);
    SegmentsAreMaximalRuns(items, |items|, at.lo, at.hi);
    SegmentTextPlaces(stands, found, q, at.page, at.stream, items, at.lo, at.hi);
    places' := TextListed(stands, found, places, before, q, at, text, |text|);
    forall p | stands(p) && Earlier(p, next) ensures Earlier(p, at.(end := |text| + 1)) {
      if p.page == at.page && p.stream == at.stream {
        NothingBetweenSegments(stands, found, q, at.page, at.stream, items, n, p);
      }
    }
    NoneBetween(stands, found, places', Hits(before, q, at.page, text, 0, |text|), at.(end := |text| + 1), next);
  }

  lemma ItemsListed(stands: Place -> bool, found: Place -> Match, places: seq<Place>, before: seq<Match>,
                    q: string, page: nat, stream: nat, items: seq<Item>) returns (places': seq<Place>)
    requires q != "" && StreamPlaces(stands, found, q, page, stream, items)
    requires Listed(stands, found, places, before, Place(page, stream, 0, 0, 0))
    ensures Listed(stands, found, places', ItemHits(before, q, page, items, |items|), Place(page, stream + 1, 0, 0, 0))
  {
    SegmentsInOrder(items, |items|);
    places' := SegmentsListed(stands, found, places, before, q, page, stream, items, |Segments(items, |items|)|);
  }

  // ---- Pages ------------------------------------------------------------------------------------------

  /** What stands in the streams of one page (folded, see Unfold). */
  ghost predicate LayoutPlaces(stands: Place -> bool, found: Place -> Match, q: string, page: nat, layout: Page, lower: char -> string)
    requires EveryStreamResolves(layout, StreamsOf(layout))
  {
    forall key {:trigger Unfold(key)} :: Unfold(key) ==>
      forall k: nat :: k < |StreamsOf(layout)| ==> StreamPlaces(stands, found, q, page, k, ItemsOf(layout, StreamsOf(layout)[k], lower))
  }

  // Here and below a folded predicate is compared with `true` because a goal that is a mere call would be opened.

  lemma StreamListed(stands: Place -> bool, found: Place -> Match, places: seq<Place>, before: seq<Match>,
                     q: string, page: nat, layout: Page, lower: char -> string, k: nat) returns (places': seq<Place>)
    requires q != "" && k < |StreamsOf(layout)| && EveryStreamResolves(layout, StreamsOf(layout))
    requires LayoutPlaces(stands, found, q, page, layout, lower) == true
    requires Listed(stands, found, places, before, Place(page, k, 0, 0, 0))
    ensures Listed(stands, found, places', StreamHits(before, q, page, layout, StreamsOf(layout)[k], lower), Place(page, k + 1, 0, 0, 0))
  {
    assert Unfold(0);
    places' := ItemsListed(stands, found, places, before, q, page, k, ItemsOf(layout, StreamsOf(layout)[k], lower));
  }

  lemma {:induction false} StreamsListed(stands: Place -> bool, found: Place -> Match, places: seq<Place>, before: seq<Match>,
                                         q: string, page: nat, layout: Page, lower: char -> string, n: nat) returns (places': seq<Place>)
    requires q != "" && n <= |StreamsOf(layout)| && EveryStreamResolves(layout, StreamsOf(layout))
    requires LayoutPlaces(stands, found, q, page, layout, lower) == true
    requires Listed(stands, found, places, before, Place(page, 0, 0, 0, 0))
    ensures Listed(stands, found, places', StreamsHits(before, q, page, layout, StreamsOf(layout), lower, n), Place(page, n, 0, 0, 0)) == true
  {
    if n == 0 {
      places' := places;
    } else {
      var inner := StreamsHits(before, q, page, layout, StreamsOf(layout), lower, n - 1);
      var earlier := StreamsListed(stands, found, places, before, q, page, layout, lower, n - 1);
      places' := StreamListed(stands, found, earlier, inner, q, page, layout, lower, n - 1);
    }
  }

  ghost function StandsIn(q: string, pages: seq<Page>, lower: char -> string): Place -> bool {
    (place: Place) => StandsAt(q, pages, lower, place)
  }

  ghost function FoundIn(q: string, pages: seq<Page>, lower: char -> string): Place -> Match {
    (place: Place) => if StandsAt(q, pages, lower, place) then MatchAt(q, pages, lower, place) else Match(0, None)
  }

  lemma PagePlaces(q: string, pages: seq<Page>, lower: char -> string, page: nat, k: nat)
    requires page < |pages| && k < |StreamsOf(pages[page])| && AllResolve(pages[page], StreamsOf(pages[page])[k])
    ensures StreamPlaces(StandsIn(q, pages, lower), FoundIn(q, pages, lower), q, page, k, ItemsOf(pages[page], StreamsOf(pages[page])[k], lower))
  {
  }

  lemma PageListed(q: string, pages: seq<Page>, lower: char -> string, page: nat, places: seq<Place>, before: seq<Match>)
    returns (places': seq<Place>)
    requires q != "" && page < |pages|
    requires Listed(StandsIn(q, pages, lower), FoundIn(q, pages, lower), places, before, Place(page, 0, 0, 0, 0))
    ensures Listed(StandsIn(q, pages, lower), FoundIn(q, pages, lower), places', PageHits(before, q, page, pages[page], lower),
                   Place(page + 1, 0, 0, 0, 0))
  {
    var stands, found, layout := StandsIn(q, pages, lower), FoundIn(q, pages, lower), pages[page];
    var streams := StreamsOf(layout);
    StreamsResolve(layout);
    forall k: nat | k < |streams| ensures StreamPlaces(stands, found, q, page, k, ItemsOf(layout, streams[k], lower)) {
      PagePlaces(q, pages, lower, page, k);
    }
    places' := StreamsListed(stands, found, places, before, q, page, layout, lower, |streams|);
    forall p | stands(p) && Earlier(p, Place(page + 1, 0, 0, 0, 0)) ensures Earlier(p, Place(page, |streams|, 0, 0, 0)) {
      assert StandsAt(q, pages, lower, p);
    }
    NoneBetween(stands, found, places', PageHits(before, q, page, layout, lower), Place(page, |streams|, 0, 0, 0), Place(page + 1, 0, 0, 0, 0));
  }

  /** The places on the first `n` pages (folded, see Unfold). */
  ghost predicate PagesList(q: string, pages: seq<Page>, lower: char -> string, n: nat, places: seq<Place>) {
    n <= |pages| && forall k {:trigger Unfold(k)} :: Unfold(k) ==>
      Listed(StandsIn(q, pages, lower), FoundIn(q, pages, lower), places, PagesHits(q, pages, lower, n), Place(n, 0, 0, 0, 0))
  }

  lemma NoPagesListed(q: string, pages: seq<Page>, lower: char -> string)
    ensures PagesList(q, pages, lower, 0, [])
  {
    NothingListed(StandsIn(q, pages, lower), FoundIn(q, pages, lower));
  }

  lemma NextPageListed(q: string, pages: seq<Page>, lower: char -> string, n: nat, places: seq<Place>) returns (places': seq<Place>)
    requires q != "" && n < |pages| && PagesList(q, pages, lower, n, places)
    ensures PagesList(q, pages, lower, n + 1, places')
  {
    assert Unfold(0);
    places' := PageListed(q, pages, lower, n, places, PagesHits(q, pages, lower, n));
  }

  lemma {:induction false} PagesListed(q: string, pages: seq<Page>, lower: char -> string, n: nat, places: seq<Place>)
    returns (all: seq<Place>)
    requires q != "" && PagesList(q, pages, lower, n, places) == true
    ensures PagesList(q, pages, lower, |pages|, all) == true
    decreases |pages| - n
  {
    if n == |pages| {
      all := places;
    } else {
      var places' := NextPageListed(q, pages, lower, n, places);
      all := PagesListed(q, pages, lower, n + 1, places');
    }
  }

  /** The answer has one match per place where the query stands, no place twice, in reading order. */
  lemma AnswerInOrder(pages: seq<Page>, query: string, lower: char -> string) returns (places: seq<Place>)
    requires Lowered(lower, query) != ""
    ensures InReadingOrder(places)
    ensures forall place :: place in places <==> StandsAt(Lowered(lower, query), pages, lower, place)
    ensures |Answer(pages, query, lower)| == |places|
    ensures forall i :: 0 <= i < |places| ==>
      StandsAt(Lowered(lower, query), pages, lower, places[i]) &&
      Answer(pages, query, lower)[i] == MatchAt(Lowered(lower, query), pages, lower, places[i])
  {
    var q := Lowered(lower, query);
    var stands, found := StandsIn(q, pages, lower), FoundIn(q, pages, lower);
    NoPagesListed(q, pages, lower);
    places := PagesListed(q, pages, lower, 0, []);
    assert Unfold(0);
    forall place ensures place in places <==> StandsAt(q, pages, lower, place) {
      assert place in places <==> stands(place) && Earlier(place, Place(|pages|, 0, 0, 0, 0));
    }
    forall i | 0 <= i < |places| ensures StandsAt(q, pages, lower, places[i]) && Answer(pages, query, lower)[i] == MatchAt(q, pages, lower, places[i]) {
      assert places[i] in places;
      assert Answer(pages, query, lower)[i] == found(places[i]);
    }
  }

  /** A match is reported exactly when its query stands at some place, with the bounds of that place. */
  lemma AnswerExact(pages: seq<Page>, query: string, lower: char -> string, m: Match)
    requires Lowered(lower, query) != ""
    ensures m in Answer(pages, query, lower) <==>
      exists place :: StandsAt(Lowered(lower, query), pages, lower, place) && m == MatchAt(Lowered(lower, query), pages, lower, place)
  {
    var q := Lowered(lower, query);
    var places := AnswerInOrder(pages, query, lower);
    forall place | StandsAt(q, pages, lower, place) && m == MatchAt(q, pages, lower, place) ensures m in Answer(pages, query, lower) {
      var i :| 0 <= i < |places| && places[i] == place;
      assert Answer(pages, query, lower)[i] == m;
    }
  }
}
