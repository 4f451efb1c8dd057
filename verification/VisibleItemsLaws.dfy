/** Which items a grouped list shows, and in which order. */
module VisibleItemsLaws {
  import opened Grouping
  import opened VisualLayout
  import opened Wrappers

  // ---- Which items ----------------------------------------------------------------------------

  predicate IsOpen<K(==)>(s: Section<K>, collapsed: Option<set<K>>) {
    collapsed.None? || s.key !in collapsed.value
  }

  lemma {:induction false} PresentExact(indices: seq<nat>, itemCount: nat, n: nat, x: nat)
    requires n <= |indices|
    ensures x in Present(indices, itemCount, n) <==> x in indices[..n] && x < itemCount
  {
    if n > 0 {
      PresentExact(indices, itemCount, n - 1, x);
      assert indices[..n] == indices[..n - 1] + [indices[n - 1]];
    }
  }

  lemma SectionShows<K>(s: Section<K>, collapsed: Option<set<K>>, itemCount: nat, x: nat)
    ensures x in SectionItems(s, collapsed, itemCount) <==> IsOpen(s, collapsed) && x in s.indices && x < itemCount
  {
    PresentExact(s.indices, itemCount, |s.indices|, x);
    assert s.indices[..|s.indices|] == s.indices;
  }

  lemma {:induction false} SectionsShow<K>(sections: seq<Section<K>>, collapsed: Option<set<K>>, itemCount: nat, n: nat, x: nat)
    requires n <= |sections|
    ensures x in SectionsItems(sections, collapsed, itemCount, n) <==>
      exists p :: 0 <= p < n && IsOpen(sections[p], collapsed) && x in sections[p].indices && x < itemCount
  {
    if n > 0 {
      SectionsShow(sections, collapsed, itemCount, n - 1, x);
      SectionShows(sections[n - 1], collapsed, itemCount, x);
    }
  }

  lemma {:induction false} UpToExact(n: nat)
    ensures |UpTo(n)| == n && forall i :: 0 <= i < n ==> UpTo(n)[i] == i
  {
    if n > 0 {
      UpToExact(n - 1);
    }
  }

  /** Shown are exactly the items of the list that are in an open section; without sections, all of them in their order. */
  lemma ShownExactly<K>(sections: seq<Section<K>>, collapsed: Option<set<K>>, itemCount: nat, x: nat)
    ensures sections != [] ==> (x in VisibleItems(sections, collapsed, itemCount) <==>
      x < itemCount && exists p :: 0 <= p < |sections| && IsOpen(sections[p], collapsed) && x in sections[p].indices)
    ensures sections == [] ==> |VisibleItems(sections, collapsed, itemCount)| == itemCount
    ensures sections == [] && x < itemCount ==> VisibleItems(sections, collapsed, itemCount)[x] == x
  {
    SectionsShow(sections, collapsed, itemCount, |sections|, x);
    UpToExact(itemCount);
  }

  // ---- In which order ---------------------------------------------------------------------------

  /** The `i`-th index of section `p` is shown. */
  predicate Shows<K(==)>(sections: seq<Section<K>>, collapsed: Option<set<K>>, itemCount: nat, p: nat, i: nat) {
    p < |sections| && IsOpen(sections[p], collapsed) && i < |sections[p].indices| && sections[p].indices[i] < itemCount
  }

  /** How many items are shown before it. */
  function PlaceOf<K(==)>(sections: seq<Section<K>>, collapsed: Option<set<K>>, itemCount: nat, p: nat, i: nat): nat
    requires Shows(sections, collapsed, itemCount, p, i)
  {
    |SectionsItems(sections, collapsed, itemCount, p)| + |Present(sections[p].indices, itemCount, i)|
  }

  lemma {:induction false} PresentPlace(indices: seq<nat>, itemCount: nat, i: nat, n: nat)
    requires i < n <= |indices| && indices[i] < itemCount
    ensures |Present(indices, itemCount, i)| < |Present(indices, itemCount, n)|
    ensures Present(indices, itemCount, n)[|Present(indices, itemCount, i)|] == indices[i]
    decreases n
  {
    if i < n - 1 {
      PresentPlace(indices, itemCount, i, n - 1);
    }
  }

  lemma {:induction false} SectionsPrefix<K>(sections: seq<Section<K>>, collapsed: Option<set<K>>, itemCount: nat, m: nat, n: nat)
    requires m <= n <= |sections|
    ensures SectionsItems(sections, collapsed, itemCount, m) <= SectionsItems(sections, collapsed, itemCount, n)
    decreases n
  {
    if m < n {
      SectionsPrefix(sections, collapsed, itemCount, m, n - 1);
    }
  }

  lemma PlaceInSections<K>(sections: seq<Section<K>>, collapsed: Option<set<K>>, itemCount: nat, p: nat, i: nat)
    requires Shows(sections, collapsed, itemCount, p, i)
    ensures PlaceOf(sections, collapsed, itemCount, p, i) < |SectionsItems(sections, collapsed, itemCount, p + 1)|
    ensures SectionsItems(sections, collapsed, itemCount, p + 1)[PlaceOf(sections, collapsed, itemCount, p, i)] == sections[p].indices[i]
  {
    PresentPlace(sections[p].indices, itemCount, i, |sections[p].indices|);
  }

  lemma PlaceHolds<K>(sections: seq<Section<K>>, collapsed: Option<set<K>>, itemCount: nat, p: nat, i: nat)
    requires Shows(sections, collapsed, itemCount, p, i)
    ensures PlaceOf(sections, collapsed, itemCount, p, i) < |VisibleItems(sections, collapsed, itemCount)|
    ensures VisibleItems(sections, collapsed, itemCount)[PlaceOf(sections, collapsed, itemCount, p, i)] == sections[p].indices[i]
  {
    PlaceInSections(sections, collapsed, itemCount, p, i);
    SectionsPrefix(sections, collapsed, itemCount, p + 1, |sections|);
  }

  /** Every shown item stands at its place: behind all items of earlier sections, and of its own in the section's order. */
  lemma ShownInOrder<K>(sections: seq<Section<K>>, collapsed: Option<set<K>>, itemCount: nat, p: nat, i: nat, q: nat, j: nat)
    requires Shows(sections, collapsed, itemCount, p, i) && Shows(sections, collapsed, itemCount, q, j)
    ensures PlaceOf(sections, collapsed, itemCount, p, i) < |VisibleItems(sections, collapsed, itemCount)|
    ensures VisibleItems(sections, collapsed, itemCount)[PlaceOf(sections, collapsed, itemCount, p, i)] == sections[p].indices[i]
    ensures PlaceOf(sections, collapsed, itemCount, p, i) < PlaceOf(sections, collapsed, itemCount, q, j) <==> p < q || (p == q && i < j)
  {
    PlaceHolds(sections, collapsed, itemCount, p, i);
    PlacesAscend(sections, collapsed, itemCount, p, i, q, j);
    PlacesAscend(sections, collapsed, itemCount, q, j, p, i);
  }

  lemma EarlierSectionFirst<K>(sections: seq<Section<K>>, collapsed: Option<set<K>>, itemCount: nat, p: nat, i: nat, q: nat)
    requires Shows(sections, collapsed, itemCount, p, i) && p < q <= |sections|
    ensures PlaceOf(sections, collapsed, itemCount, p, i) < |SectionsItems(sections, collapsed, itemCount, q)|
  {
    PlaceInSections(sections, collapsed, itemCount, p, i);
    SectionsPrefix(sections, collapsed, itemCount, p + 1, q);
  }

  lemma PlacesAscend<K>(sections: seq<Section<K>>, collapsed: Option<set<K>>, itemCount: nat, p: nat, i: nat, q: nat, j: nat)
    requires Shows(sections, collapsed, itemCount, p, i) && Shows(sections, collapsed, itemCount, q, j)
    ensures p < q || (p == q && i < j) ==> PlaceOf(sections, collapsed, itemCount, p, i) < PlaceOf(sections, collapsed, itemCount, q, j)
  {
    if p < q {
      EarlierSectionFirst(sections, collapsed, itemCount, p, i, q);
    } else if p == q && i < j {
      PresentPlace(sections[p].indices, itemCount, i, j);
    }
  }

  lemma {:induction false} SectionsCount<K>(sections: seq<Section<K>>, collapsed: Option<set<K>>, itemCount: nat, n: nat, at: nat)
    returns (p: nat, i: nat)
    requires n <= |sections| && at < |SectionsItems(sections, collapsed, itemCount, n)|
    ensures p < n && Shows(sections, collapsed, itemCount, p, i) && at == PlaceOf(sections, collapsed, itemCount, p, i)
  {
    var before := SectionsItems(sections, collapsed, itemCount, n - 1);
    if at < |before| {
      p, i := SectionsCount(sections, collapsed, itemCount, n - 1, at);
    } else {
      p := n - 1;
      i := PresentAt(sections[n - 1].indices, itemCount, |sections[n - 1].indices|, at - |before|);
    }
  }

  lemma {:induction false} PresentAt(indices: seq<nat>, itemCount: nat, n: nat, at: nat) returns (i: nat)
    requires n <= |indices| && at < |Present(indices, itemCount, n)|
    ensures i < n && indices[i] < itemCount && at == |Present(indices, itemCount, i)|
  {
    if at < |Present(indices, itemCount, n - 1)| {
      i := PresentAt(indices, itemCount, n - 1, at);
    } else {
      i := n - 1;
    }
  }

  /** Nothing else is shown: every place of the list belongs to one index of one open section. */
  lemma EveryPlaceIsShown<K>(sections: seq<Section<K>>, collapsed: Option<set<K>>, itemCount: nat, at: nat) returns (p: nat, i: nat)
    requires sections != [] && at < |VisibleItems(sections, collapsed, itemCount)|
    ensures Shows(sections, collapsed, itemCount, p, i) && at == PlaceOf(sections, collapsed, itemCount, p, i)
  {
    p, i := SectionsCount(sections, collapsed, itemCount, |sections|, at);
  }
}
