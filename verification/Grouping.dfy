/** Sections of a file list: which items they hold and in which order they come. */
module Grouping {
  import opened Calendar
  import opened Wrappers

  datatype Section<K> = Section(key: K, indices: seq<nat>)

  // ---- Which items a section holds ---------------------------------------------------------

  function Occurrences<K(==)>(keys: seq<K>, key: K, n: nat): seq<nat>
    requires n <= |keys|
  {
    if n == 0 then []
    else if keys[n - 1] == key then Occurrences(keys, key, n - 1) + [n - 1]
    else Occurrences(keys, key, n - 1)
  }

  ghost predicate Ascending(s: seq<nat>) {
    forall i, j :: 0 <= i < j < |s| ==> s[i] < s[j]
  }

  lemma {:induction false} OccurrencesExact<K>(keys: seq<K>, key: K, n: nat, i: nat)
    requires n <= |keys|
    ensures i in Occurrences(keys, key, n) <==> i < n && keys[i] == key
    decreases n
  {
    if n > 0 {
      OccurrencesExact(keys, key, n - 1, i);
    }
  }

  lemma {:induction false} OccurrencesAscend<K>(keys: seq<K>, key: K, n: nat)
    requires n <= |keys|
    ensures Ascending(Occurrences(keys, key, n))
    decreases n
  {
    if n > 0 {
      var before := Occurrences(keys, key, n - 1);
      OccurrencesAscend(keys, key, n - 1);
      forall i | 0 <= i < |before| ensures before[i] < n - 1 {
        OccurrencesExact(keys, key, n - 1, before[i]);
      }
    }
  }

  ghost predicate SectionIs<K(!new)>(s: Section<K>, keys: seq<K>, n: nat)
    requires n <= |keys|
  {
    s.indices != [] && s.indices == Occurrences(keys, s.key, n)
  }

  ghost predicate EachSectionIs<K(!new)>(sections: seq<Section<K>>, keys: seq<K>, n: nat)
    requires n <= |keys|
  {
    forall p :: 0 <= p < |sections| ==> SectionIs(sections[p], keys, n)
  }

  ghost predicate DistinctKeys<K(!new)>(sections: seq<Section<K>>) {
    forall p, q :: 0 <= p < q < |sections| ==> sections[p].key != sections[q].key
  }

  /** `positions` finds the section of every key met so far, and only of those. */
  ghost predicate Finds<K(!new)>(positions: map<K, nat>, sections: seq<Section<K>>) {
    && (forall k :: k in positions ==> positions[k] < |sections| && sections[positions[k]].key == k)
    && (forall p :: 0 <= p < |sections| ==> sections[p].key in positions && positions[sections[p].key] == p)
  }

  /** Sections come in the order in which their first items were met. */
  ghost predicate ByFirstItem<K(!new)>(sections: seq<Section<K>>) {
    && (forall p :: 0 <= p < |sections| ==> sections[p].indices != [])
    && (forall p, q :: 0 <= p < q < |sections| ==> sections[p].indices[0] < sections[q].indices[0])
  }

  ghost predicate Gathered<K(!new)>(positions: map<K, nat>, sections: seq<Section<K>>, keys: seq<K>, n: nat)
    requires n <= |keys|
  {
    && EachSectionIs(sections, keys, n) && Finds(positions, sections) && ByFirstItem(sections)
    && (forall i :: 0 <= i < n ==> keys[i] in positions)
    && (forall p :: 0 <= p < |sections| ==> sections[p].indices != [] && sections[p].indices[0] < n)
  }

  lemma {:induction false} NewKey<K>(keys: seq<K>, key: K, n: nat)
    requires n <= |keys| && forall i :: 0 <= i < n ==> keys[i] != key
    ensures Occurrences(keys, key, n) == []
  {
    if n > 0 {
      NewKey(keys, key, n - 1);
    }
  }

  lemma KnownKeyGathers<K(!new)>(positions: map<K, nat>, sections: seq<Section<K>>, keys: seq<K>, n: nat, s: Section<K>)
    requires n < |keys| && Gathered(positions, sections, keys, n) && keys[n] in positions
    requires s == Section(keys[n], sections[positions[keys[n]]].indices + [n])
    ensures Gathered(positions, sections[positions[keys[n]] := s], keys, n + 1)
  {
    var at := positions[keys[n]];
    var sections' := sections[at := s];
    forall p | 0 <= p < |sections'| ensures SectionIs(sections'[p], keys, n + 1) {
      assert SectionIs(sections[p], keys, n);
    }
    assert sections'[at].indices[0] == sections[at].indices[0];
  }

  lemma NewKeyGathers<K(!new)>(positions: map<K, nat>, sections: seq<Section<K>>, keys: seq<K>, n: nat)
    requires n < |keys| && Gathered(positions, sections, keys, n) && keys[n] !in positions
    ensures Gathered(positions[keys[n] := |sections|], sections + [Section(keys[n], [n])], keys, n + 1)
  {
    var sections' := sections + [Section(keys[n], [n])];
    NewKey(keys, keys[n], n);
    forall p | 0 <= p < |sections'| ensures SectionIs(sections'[p], keys, n + 1) {
      assert p < |sections| ==> SectionIs(sections[p], keys, n) && sections[p].key != keys[n];
    }
  }

  /** One item joins the section of its key, or opens a new one. */
  method GatherItem<K(==, !new)>(keys: seq<K>, n: nat, positions: map<K, nat>, sections: seq<Section<K>>)
    returns (positions': map<K, nat>, sections': seq<Section<K>>)
    requires n < |keys| && Gathered(positions, sections, keys, n)
    ensures Gathered(positions', sections', keys, n + 1)
  {
    if keys[n] in positions {
      var p := positions[keys[n]];
      var longer := Section(keys[n], sections[p].indices + [n]);
      KnownKeyGathers(positions, sections, keys, n, longer);
      positions', sections' := positions, sections[p := longer];
    } else {
      NewKeyGathers(positions, sections, keys, n);
      positions', sections' := positions[keys[n] := |sections|], sections + [Section(keys[n], [n])];
    }
  }

  /** One pass over the items. */
  method Gather<K(==, !new)>(keys: seq<K>) returns (sections: seq<Section<K>>, positions: map<K, nat>)
    ensures Gathered(positions, sections, keys, |keys|)
  {
    positions, sections := map[], [];
    for n := 0 to |keys|
      invariant Gathered(positions, sections, keys, n)
    {
      positions, sections := GatherItem(keys, n, positions, sections);
    }
  }

  // ---- The order of the sections -------------------------------------------------------------

  /** A comparison a sort can use: total, transitive and antisymmetric up to equality. */
  ghost predicate Lawful<K(!new)>(compare: (K, K) -> int) {
    && (forall a, b {:trigger compare(a, b)} :: compare(a, b) <= 0 <==> compare(b, a) >= 0)
    && (forall a, b, c {:trigger compare(a, b), compare(b, c)} :: compare(a, b) <= 0 && compare(b, c) <= 0 ==> compare(a, c) <= 0)
  }

  /** Descending order turns the comparison around. */
  function Ordering<K>(compare: (K, K) -> int, descending: bool): (K, K) -> int {
    (a, b) => if descending then compare(b, a) else compare(a, b)
  }

  lemma OrderingLawful<K(!new)>(compare: (K, K) -> int, descending: bool)
    requires Lawful(compare)
    ensures Lawful(Ordering(compare, descending))
  {
    var o := Ordering(compare, descending);
    forall a, b ensures o(a, b) <= 0 <==> o(b, a) >= 0 {
      assert compare(a, b) <= 0 <==> compare(b, a) >= 0;
      assert compare(b, a) <= 0 <==> compare(a, b) >= 0;
    }
    forall a, b, c | o(a, b) <= 0 && o(b, c) <= 0 ensures o(a, c) <= 0 {
      assert compare(a, b) <= 0 && compare(b, c) <= 0 ==> compare(a, c) <= 0;
      assert compare(c, b) <= 0 && compare(b, a) <= 0 ==> compare(c, a) <= 0;
    }
  }

  /** Section `s` comes before section `t`: by key, and among equal keys by first item. */
  ghost predicate Before<K(!new)>(order: (K, K) -> int, s: Section<K>, t: Section<K>) {
    order(s.key, t.key) <= 0 && s.indices != [] && t.indices != [] && (order(s.key, t.key) == 0 ==> s.indices[0] < t.indices[0])
  }

  ghost predicate InOrder<K(!new)>(order: (K, K) -> int, sections: seq<Section<K>>) {
    forall p, q :: 0 <= p < q < |sections| ==> Before(order, sections[p], sections[q])
  }

  /** Insert into a sorted list, in front of the first section that does not come strictly before. */
  function Insert<K>(order: (K, K) -> int, s: Section<K>, sorted: seq<Section<K>>): seq<Section<K>> {
    if sorted == [] then [s]
    else if order(s.key, sorted[0].key) <= 0 then [s] + sorted
    else [sorted[0]] + Insert(order, s, sorted[1..])
  }

  /** A stable sort by key. */
  function StableSort<K>(order: (K, K) -> int, sections: seq<Section<K>>): seq<Section<K>> {
    if sections == [] then [] else Insert(order, sections[0], StableSort(order, sections[1..]))
  }

  lemma {:induction false} InsertMembers<K>(order: (K, K) -> int, s: Section<K>, sorted: seq<Section<K>>)
    ensures multiset(Insert(order, s, sorted)) == multiset(sorted) + multiset{s}
    decreases sorted
  {
    if sorted != [] && order(s.key, sorted[0].key) > 0 {
      InsertMembers(order, s, sorted[1..]);
      assert sorted == [sorted[0]] + sorted[1..];
    }
  }

  lemma {:induction false} SortMembers<K>(order: (K, K) -> int, sections: seq<Section<K>>)
    ensures multiset(StableSort(order, sections)) == multiset(sections)
    decreases sections
  {
    if sections != [] {
      SortMembers(order, sections[1..]);
      InsertMembers(order, sections[0], StableSort(order, sections[1..]));
      assert sections == [sections[0]] + sections[1..];
    }
  }

  ghost predicate FirstItemAfter<K(!new)>(s: Section<K>, sections: seq<Section<K>>) {
    s.indices != [] && forall t :: t in sections ==> t.indices != [] && s.indices[0] < t.indices[0]
  }

  lemma InsertInFront<K(!new)>(order: (K, K) -> int, s: Section<K>, sorted: seq<Section<K>>)
    requires Lawful(order) && InOrder(order, sorted) && FirstItemAfter(s, sorted)
    requires sorted != [] && order(s.key, sorted[0].key) <= 0
    ensures InOrder(order, [s] + sorted)
  {
    forall p | 0 <= p < |sorted| ensures Before(order, s, sorted[p]) {
      assert sorted[p] in sorted;
      assert p > 0 ==> Before(order, sorted[0], sorted[p]);
      BeforeAll(order, s, sorted[0], sorted[p]);
    }
  }

  lemma FirstStaysFirst<K(!new)>(order: (K, K) -> int, s: Section<K>, sorted: seq<Section<K>>, p: nat)
    requires Lawful(order) && InOrder(order, sorted) && FirstItemAfter(s, sorted)
    requires sorted != [] && order(s.key, sorted[0].key) > 0 && p < |Insert(order, s, sorted[1..])|
    ensures Before(order, sorted[0], Insert(order, s, sorted[1..])[p])
  {
    var inserted := Insert(order, s, sorted[1..]);
    InsertMembers(order, s, sorted[1..]);
    assert sorted[0] in sorted && inserted[p] in multiset(inserted);
    if inserted[p] != s {
      assert inserted[p] in sorted[1..];
      var q :| 0 <= q < |sorted[1..]| && sorted[1..][q] == inserted[p];
      assert Before(order, sorted[0], sorted[q + 1]);
    }
  }

  lemma {:induction false} InsertKeepsOrder<K(!new)>(order: (K, K) -> int, s: Section<K>, sorted: seq<Section<K>>)
    requires Lawful(order) && InOrder(order, sorted) && FirstItemAfter(s, sorted)
    ensures InOrder(order, Insert(order, s, sorted))
    decreases sorted
  {
    if sorted != [] {
      if order(s.key, sorted[0].key) <= 0 {
        InsertInFront(order, s, sorted);
      } else {
        InsertKeepsOrder(order, s, sorted[1..]);
        forall p | 0 <= p < |Insert(order, s, sorted[1..])| ensures Before(order, sorted[0], Insert(order, s, sorted[1..])[p]) {
          FirstStaysFirst(order, s, sorted, p);
        }
      }
    }
  }

  lemma BeforeAll<K(!new)>(order: (K, K) -> int, s: Section<K>, first: Section<K>, t: Section<K>)
    requires Lawful(order) && order(s.key, first.key) <= 0 && (t == first || Before(order, first, t))
    requires s.indices != [] && t.indices != [] && s.indices[0] < t.indices[0]
    ensures Before(order, s, t)
  {
    assert t == first || order(first.key, t.key) <= 0;
  }

  lemma {:induction false} SortOrders<K(!new)>(order: (K, K) -> int, sections: seq<Section<K>>)
    requires Lawful(order) && ByFirstItem(sections)
    ensures InOrder(order, StableSort(order, sections))
    decreases sections
  {
    if sections != [] {
      var rest := sections[1..];
      assert forall p :: 0 <= p < |rest| ==> rest[p] == sections[p + 1];
      SortOrders(order, rest);
      SortMembers(order, rest);
      forall t | t in StableSort(order, rest) ensures t.indices != [] && sections[0].indices[0] < t.indices[0] {
        assert t in multiset(StableSort(order, rest));
        assert t in rest;
      }
      InsertKeepsOrder(order, sections[0], StableSort(order, rest));
    }
  }

  // ---- The projection ------------------------------------------------------------------------------

  ghost predicate HasSection<K(!new)>(sections: seq<Section<K>>, key: K) {
    exists p :: 0 <= p < |sections| && sections[p].key == key
  }

  /**
    A partition of the items into sections: one for each key that occurs, holding all its items
    in their old order; sections by key, and equal keys by first item.
   */
  ghost predicate IsProjection<K(!new)>(sections: seq<Section<K>>, keys: seq<K>, order: (K, K) -> int) {
    && DistinctKeys(sections) && EachSectionIs(sections, keys, |keys|)
    && (forall i :: 0 <= i < |keys| ==> HasSection(sections, keys[i]))
    && InOrder(order, sections)
  }

  method BuildProjection<K(==, !new)>(keys: seq<K>, compare: (K, K) -> int, descending: bool) returns (sections: seq<Section<K>>)
    requires Lawful(compare)
    ensures IsProjection(sections, keys, Ordering(compare, descending))
  {
    var gathered, positions := Gather(keys);
    sections := StableSort(Ordering(compare, descending), gathered);
    OrderingLawful(compare, descending);
    SortIsProjection(positions, gathered, keys, Ordering(compare, descending));
  }

  lemma SortIsProjection<K(!new)>(positions: map<K, nat>, gathered: seq<Section<K>>, keys: seq<K>, order: (K, K) -> int)
    requires Gathered(positions, gathered, keys, |keys|) && Lawful(order)
    ensures IsProjection(StableSort(order, gathered), keys, order)
  {
    var sections := StableSort(order, gathered);
    SortMembers(order, gathered);
    SortOrders(order, gathered);
    forall p | 0 <= p < |sections| ensures SectionIs(sections[p], keys, |keys|) {
      assert sections[p] in multiset(sections);
      var q :| 0 <= q < |gathered| && gathered[q] == sections[p];
    }
    forall p, q | 0 <= p < q < |sections| ensures sections[p].key != sections[q].key {
      assert Before(order, sections[p], sections[q]);
      assert SectionIs(sections[p], keys, |keys|) && SectionIs(sections[q], keys, |keys|);
      if sections[p].key == sections[q].key {
        EqualKeysCompareEqual(order, sections[p].key);
      }
    }
    forall i | 0 <= i < |keys| ensures HasSection(sections, keys[i]) {
      var q := positions[keys[i]];
      assert gathered[q] in multiset(gathered);
      assert gathered[q] in sections;
    }
  }

  lemma EqualKeysCompareEqual<K(!new)>(order: (K, K) -> int, k: K)
    requires Lawful(order)
    ensures order(k, k) == 0
  {
  }

  /** Every item is in exactly one section. */
  lemma EachItemOnce<K(!new)>(sections: seq<Section<K>>, keys: seq<K>, order: (K, K) -> int, i: nat) returns (p: nat)
    requires IsProjection(sections, keys, order) && i < |keys|
    ensures p < |sections| && i in sections[p].indices && Ascending(sections[p].indices)
    ensures forall q :: 0 <= q < |sections| && i in sections[q].indices ==> q == p
  {
    assert HasSection(sections, keys[i]);
    p :| 0 <= p < |sections| && sections[p].key == keys[i];
    assert SectionIs(sections[p], keys, |keys|);
    OccurrencesExact(keys, keys[i], |keys|, i);
    OccurrencesAscend(keys, keys[i], |keys|);
    forall q | 0 <= q < |sections| && i in sections[q].indices ensures q == p {
      assert SectionIs(sections[q], keys, |keys|);
      OccurrencesExact(keys, sections[q].key, |keys|, i);
    }
  }

  // ---- Grouping by date ---------------------------------------------------------------------------

  function CompareDateGroups(a: DateGroup, b: DateGroup): int {
    Rank(a) - Rank(b)
  }

  lemma DateGroupsLawful()
    ensures Lawful(CompareDateGroups)
  {
  }

  /** The group of an item; items without a date, and all items on a day without one, are unspecified. */
  function ClassifyDate(date: Option<CivilDate>, today: Option<CivilDate>): DateGroup {
    if date.None? || today.None? then Unspecified else Classify(date.value, today.value)
  }

  function DateKeys(dates: seq<Option<CivilDate>>, today: Option<CivilDate>): seq<DateGroup> {
    seq(|dates|, i requires 0 <= i < |dates| => ClassifyDate(dates[i], today))
  }

  /** Section `p` does not stand behind section `q` in the chosen direction. */
  predicate NotBehind(p: nat, q: nat, descending: bool) {
    if descending then q <= p else p <= q
  }

  ghost predicate DateSections(sections: seq<Section<DateGroup>>, dates: seq<Option<CivilDate>>, today: Option<CivilDate>, descending: bool) {
    IsProjection(sections, DateKeys(dates, today), Ordering(CompareDateGroups, descending))
  }

  predicate Dated(dates: seq<Option<CivilDate>>, today: Option<CivilDate>, i: nat) {
    i < |dates| && dates[i].Some? && ValidDate(dates[i].value) && today.Some? && ValidDate(today.value)
  }

  predicate Holds(sections: seq<Section<DateGroup>>, p: nat, i: nat) {
    p < |sections| && i in sections[p].indices
  }

  lemma KeyOfItem(sections: seq<Section<DateGroup>>, keys: seq<DateGroup>, order: (DateGroup, DateGroup) -> int, p: nat, i: nat)
    requires IsProjection(sections, keys, order) && Holds(sections, p, i)
    ensures i < |keys| && sections[p].key == keys[i]
  {
    assert SectionIs(sections[p], keys, |keys|);
    OccurrencesExact(keys, sections[p].key, |keys|, i);
  }

  /** In a list grouped by date, an item that is not later is never in a later section; descending, never in an earlier one. */
  lemma DateSectionsAreChronological(sections: seq<Section<DateGroup>>, dates: seq<Option<CivilDate>>, today: Option<CivilDate>,
                                     descending: bool, i: nat, j: nat, p: nat, q: nat)
    requires DateSections(sections, dates, today, descending)
    requires Dated(dates, today, i) && Dated(dates, today, j) && !Earlier(dates[j].value, dates[i].value)
    requires Holds(sections, p, i) && Holds(sections, q, j)
    ensures NotBehind(p, q, descending)
  {
    var keys, order := DateKeys(dates, today), Ordering(CompareDateGroups, descending);
    KeyOfItem(sections, keys, order, p, i);
    KeyOfItem(sections, keys, order, q, j);
    ClassifyMonotone(dates[i].value, dates[j].value, today.value);
    if q < p {
      RanksFollow(sections, descending, q, p);
    } else if p < q {
      RanksFollow(sections, descending, p, q);
    }
  }

  /** Of two dated items the one that is not later does not stand in a section behind the other's. */
  ghost predicate Chronological(sections: seq<Section<DateGroup>>, dates: seq<Option<CivilDate>>, today: Option<CivilDate>, descending: bool) {
    forall i: nat, j: nat, p: nat, q: nat {:trigger Holds(sections, p, i), Holds(sections, q, j)} ::
      Holds(sections, p, i) && Holds(sections, q, j) && Dated(dates, today, i) && Dated(dates, today, j) ==>
        Earlier(dates[j].value, dates[i].value) || NotBehind(p, q, descending)
  }

  /** Nothing to classify the item by, or a date that is still to come. */
  predicate Unplaced(dates: seq<Option<CivilDate>>, today: Option<CivilDate>, i: nat)
    requires i < |dates|
  {
    dates[i].None? || today.None? || Earlier(today.value, dates[i].value)
  }

  /**
    Sections hold the items of one calendar group. The group of the items that cannot be placed is one
    section like any other, and stands last, or in descending order first.
   */
  ghost predicate ByCalendar(sections: seq<Section<DateGroup>>, dates: seq<Option<CivilDate>>, today: Option<CivilDate>, descending: bool) {
    forall i: nat, p: nat {:trigger Holds(sections, p, i)} :: Holds(sections, p, i) ==>
      && i < |dates| && (dates[i].Some? && today.Some? ==> sections[p].key == Classify(dates[i].value, today.value))
      && (sections[p].key == Unspecified <==> Unplaced(dates, today, i))
      && (Unplaced(dates, today, i) ==> p == if descending then 0 else |sections| - 1)
  }

  predicate AllValid(dates: seq<Option<CivilDate>>, today: Option<CivilDate>) {
    (today.Some? ==> ValidDate(today.value)) && forall i :: 0 <= i < |dates| && dates[i].Some? ==> ValidDate(dates[i].value)
  }

  lemma UnspecifiedIsUnplaced(dates: seq<Option<CivilDate>>, today: Option<CivilDate>, i: nat)
    requires i < |dates| && AllValid(dates, today)
    ensures ClassifyDate(dates[i], today) == Unspecified <==> Unplaced(dates, today, i)
  {
    if dates[i].Some? && today.Some? {
      ClassifyMonotone(dates[i].value, dates[i].value, today.value);
    }
  }

  /** Neighbouring or not, an earlier section of distinct groups has the smaller rank, or in descending order the greater. */
  lemma RanksFollow(sections: seq<Section<DateGroup>>, descending: bool, p: nat, q: nat)
    requires InOrder(Ordering(CompareDateGroups, descending), sections) && DistinctKeys(sections) && p < q < |sections|
    ensures if descending then Rank(sections[q].key) < Rank(sections[p].key) else Rank(sections[p].key) < Rank(sections[q].key)
  {
    var order, a, b := Ordering(CompareDateGroups, descending), sections[p].key, sections[q].key;
    RankInjective(a, b);
    assert a != b && Before(order, sections[p], sections[q]);
    assert order(a, b) == if descending then CompareDateGroups(b, a) else CompareDateGroups(a, b);
  }

  lemma UnspecifiedIsLast(sections: seq<Section<DateGroup>>, descending: bool, p: nat)
    requires InOrder(Ordering(CompareDateGroups, descending), sections) && DistinctKeys(sections)
    requires p < |sections| && sections[p].key == Unspecified
    ensures p == if descending then 0 else |sections| - 1
  {
    if !descending && p < |sections| - 1 {
      RanksFollow(sections, descending, p, |sections| - 1);
    } else if descending && p > 0 {
      RanksFollow(sections, descending, 0, p);
    }
  }

  /** Items without a date, all items on a day without one, and dates to come stand together at the end of the order; all others are with their calendar group. */
  lemma SectionsAreByCalendar(sections: seq<Section<DateGroup>>, dates: seq<Option<CivilDate>>, today: Option<CivilDate>, descending: bool)
    requires DateSections(sections, dates, today, descending) && AllValid(dates, today)
    ensures ByCalendar(sections, dates, today, descending)
  {
    var keys, order := DateKeys(dates, today), Ordering(CompareDateGroups, descending);
    forall i: nat, p: nat {:trigger Holds(sections, p, i)} | Holds(sections, p, i)
      ensures i < |dates| && (dates[i].Some? && today.Some? ==> sections[p].key == Classify(dates[i].value, today.value))
      ensures sections[p].key == Unspecified <==> Unplaced(dates, today, i)
      ensures Unplaced(dates, today, i) ==> p == if descending then 0 else |sections| - 1
    {
      KeyOfItem(sections, keys, order, p, i);
      UnspecifiedIsUnplaced(dates, today, i);
      if sections[p].key == Unspecified {
        UnspecifiedIsLast(sections, descending, p);
      }
    }
  }

  /** The sections of a list grouped by date. */
  method GroupByDate(dates: seq<Option<CivilDate>>, today: Option<CivilDate>, descending: bool)
    returns (sections: seq<Section<DateGroup>>)
    ensures DateSections(sections, dates, today, descending) && Chronological(sections, dates, today, descending)
    ensures AllValid(dates, today) ==> ByCalendar(sections, dates, today, descending)
  {
    DateGroupsLawful();
    sections := BuildProjection(DateKeys(dates, today), CompareDateGroups, descending);
    forall i: nat, j: nat, p: nat, q: nat {:trigger Holds(sections, p, i), Holds(sections, q, j)} |
      Holds(sections, p, i) && Holds(sections, q, j) && Dated(dates, today, i) && Dated(dates, today, j) &&
      !Earlier(dates[j].value, dates[i].value)
      ensures NotBehind(p, q, descending)
    {
      DateSectionsAreChronological(sections, dates, today, descending, i, j, p, q);
    }
    if AllValid(dates, today) {
      SectionsAreByCalendar(sections, dates, today, descending);
    }
  }

  lemma RankInjective(a: DateGroup, b: DateGroup)
    ensures Rank(a) == Rank(b) <==> a == b
  {
  }
}
