/**
  Looking up a record by its file reference number.

  The builder keeps (frn, index) pairs in a sorted vector instead of a hash map. Sorting,
  compacting in place and searching must agree with "the last record with that number wins".
 */
module FrnIndex {
  import opened DiskModel
  import opened Saturating
  import opened Wrappers

  /** A reference number and the node index of a record that carries it. */
  datatype Pair = Pair(frn: U64, node: nat)

  /** Node index of the last of the first `n` records numbered `frn`; record `i` becomes node `i + 1`. */
  function LastAmong(records: seq<Record>, frn: U64, n: nat): (index: Option<nat>)
    requires n <= |records|
    ensures index.Some? ==> 1 <= index.value <= n && records[index.value - 1].frn == frn
  {
    if n == 0 then None
    else if records[n - 1].frn == frn then Some(n)
    else LastAmong(records, frn, n - 1)
  }

  lemma {:induction false} LastAmongIsLast(records: seq<Record>, frn: U64, n: nat, i: nat)
    requires i < n <= |records| && records[i].frn == frn
    ensures LastAmong(records, frn, n).Some? && i + 1 <= LastAmong(records, frn, n).value
  {
    if i < n - 1 {
      LastAmongIsLast(records, frn, n - 1, i);
    }
  }

  function LastWithFrn(records: seq<Record>, frn: U64): Option<nat> {
    LastAmong(records, frn, |records|)
  }

  predicate PairLe(a: Pair, b: Pair) {
    a.frn < b.frn || (a.frn == b.frn && a.node <= b.node)
  }

  predicate Sorted(s: seq<Pair>) {
    forall i, j :: 0 <= i < j < |s| ==> PairLe(s[i], s[j])
  }

  function InsertPair(s: seq<Pair>, pair: Pair): seq<Pair> {
    if s == [] || PairLe(pair, s[0]) then [pair] + s else [s[0]] + InsertPair(s[1..], pair)
  }

  lemma {:induction false} InsertPairBag(s: seq<Pair>, pair: Pair)
    ensures multiset(InsertPair(s, pair)) == multiset(s) + multiset{pair}
  {
    if s != [] && !PairLe(pair, s[0]) {
      InsertPairBag(s[1..], pair);
      assert s == [s[0]] + s[1..];
    }
  }

  lemma {:induction false} InsertPairSorts(s: seq<Pair>, pair: Pair)
    requires Sorted(s)
    ensures Sorted(InsertPair(s, pair))
  {
    if s != [] && !PairLe(pair, s[0]) {
      var r := InsertPair(s[1..], pair);
      InsertPairSorts(s[1..], pair);
      InsertPairBag(s[1..], pair);
      forall k | 0 <= k < |r| ensures PairLe(s[0], r[k]) {
        assert r[k] in multiset(r);
      }
    }
  }

  /** What a vector sort delivers. */
  method SortPairs(pairs: seq<Pair>) returns (sorted: array<Pair>)
    ensures fresh(sorted)
    ensures Sorted(sorted[..]) && multiset(sorted[..]) == multiset(pairs)
  {
    var s: seq<Pair> := [];
    for n := 0 to |pairs|
      invariant Sorted(s) && multiset(s) == multiset(pairs[..n])
    {
      assert pairs[..n + 1] == pairs[..n] + [pairs[n]];
      InsertPairSorts(s, pairs[n]);
      InsertPairBag(s, pairs[n]);
      s := InsertPair(s, pairs[n]);
    }
    assert pairs[..|pairs|] == pairs;
    sorted := new Pair[|s|](i requires 0 <= i < |s| => s[i]);
    assert sorted[..] == s;
  }

  /** Append a pair, replacing the last one if it carries the same number. */
  function PutLast(kept: seq<Pair>, pair: Pair): seq<Pair> {
    if kept != [] && kept[|kept| - 1].frn == pair.frn then kept[|kept| - 1 := pair] else kept + [pair]
  }

  /** Of equal numbers in a row among the first `n` pairs, the last pair. */
  function KeepLast(s: seq<Pair>, n: nat): (r: seq<Pair>)
    requires n <= |s|
    ensures |r| <= n
  {
    if n == 0 then [] else PutLast(KeepLast(s, n - 1), s[n - 1])
  }

  /** Compact the sorted vector in place. */
  method Dedupe(a: array<Pair>) returns (len: nat)
    modifies a
    ensures len <= a.Length && a[..len] == KeepLast(old(a[..]), a.Length)
  {
    ghost var source := a[..];
    ghost var kept: seq<Pair> := [];
    len := 0;
    for i := 0 to a.Length
      invariant kept == KeepLast(source, i) && |kept| == len
      invariant forall k {:trigger a[k]} :: 0 <= k < len ==> a[k] == kept[k]
      invariant forall k {:trigger a[k]} :: i <= k < a.Length ==> a[k] == source[k]
    {
      var pair := a[i];
      kept := PutLast(kept, pair);
      if len > 0 && a[len - 1].frn == pair.frn {
        a[len - 1] := pair;
      } else {
        a[len] := pair;
        len := len + 1;
      }
    }
  }

  ghost predicate Ascending(s: seq<Pair>) {
    forall i, j :: 0 <= i < j < |s| ==> s[i].frn < s[j].frn
  }

  lemma {:induction false} KeepLastSubset(s: seq<Pair>, n: nat, k: nat)
    requires n <= |s| && k < |KeepLast(s, n)|
    ensures KeepLast(s, n)[k] in s[..n]
  {
    var r := KeepLast(s, n - 1);
    assert s[..n] == s[..n - 1] + [s[n - 1]];
    if k < |r| && KeepLast(s, n)[k] == r[k] {
      KeepLastSubset(s, n - 1, k);
    }
  }

  /** After compaction the numbers are unique. */
  lemma {:induction false} KeepLastAscending(s: seq<Pair>, n: nat)
    requires Sorted(s) && n <= |s|
    ensures Ascending(KeepLast(s, n))
  {
    if n > 0 {
      var r := KeepLast(s, n - 1);
      KeepLastAscending(s, n - 1);
      forall i | 0 <= i < |r| ensures PairLe(r[i], s[n - 1]) {
        KeepLastSubset(s, n - 1, i);
      }
    }
  }

  /** After compaction each number keeps its highest node index. */
  lemma {:induction false} KeepLastCovers(s: seq<Pair>, n: nat, i: nat) returns (k: nat)
    requires Sorted(s) && i < n <= |s|
    ensures k < |KeepLast(s, n)|
    ensures KeepLast(s, n)[k].frn == s[i].frn && s[i].node <= KeepLast(s, n)[k].node
  {
    k := |KeepLast(s, n)| - 1;
    if i < n - 1 {
      var j := KeepLastCovers(s, n - 1, i);
      var r := KeepLast(s, n - 1);
      if j < |r| - 1 || r[j].frn != s[n - 1].frn {
        k := j;
      } else {
        assert PairLe(s[i], s[n - 1]);
      }
    }
  }

  /** `index` answers every lookup in `records` with the last matching record. */
  ghost predicate Indexes(index: seq<Pair>, records: seq<Record>) {
    && Ascending(index)
    && (forall k {:trigger LastWithFrn(records, index[k].frn)} :: 0 <= k < |index| ==>
      LastWithFrn(records, index[k].frn) == Some(index[k].node))
    && (forall i {:trigger HasFrn(index, records[i].frn)} :: 0 <= i < |records| ==> HasFrn(index, records[i].frn))
  }

  ghost predicate HasFrn(index: seq<Pair>, frn: U64) {
    exists k :: 0 <= k < |index| && index[k].frn == frn
  }

  function PairsOf(records: seq<Record>): seq<Pair> {
    seq(|records|, i requires 0 <= i < |records| => Pair(records[i].frn, i + 1))
  }

  lemma InBoth(records: seq<Record>, sorted: seq<Pair>, p: Pair)
    requires multiset(sorted) == multiset(PairsOf(records))
    ensures p in sorted <==> 1 <= p.node <= |records| && p.frn == records[p.node - 1].frn
  {
    assert p in sorted <==> p in multiset(sorted);
    assert p in PairsOf(records) <==> p in multiset(PairsOf(records));
    if 1 <= p.node <= |records| {
      assert PairsOf(records)[p.node - 1] == Pair(records[p.node - 1].frn, p.node);
    }
  }

  lemma LastInIndex(records: seq<Record>, sorted: seq<Pair>, i: nat) returns (k: nat)
    requires Sorted(sorted) && multiset(sorted) == multiset(PairsOf(records)) && i < |records|
    ensures var kept := KeepLast(sorted, |sorted|);
      k < |kept| && kept[k].frn == records[i].frn && i + 1 <= kept[k].node
  {
    InBoth(records, sorted, Pair(records[i].frn, i + 1));
    var at :| 0 <= at < |sorted| && sorted[at] == Pair(records[i].frn, i + 1);
    k := KeepLastCovers(sorted, |sorted|, at);
  }

  lemma KeptPair(records: seq<Record>, sorted: seq<Pair>, k: nat)
    requires multiset(sorted) == multiset(PairsOf(records)) && k < |KeepLast(sorted, |sorted|)|
    ensures var p := KeepLast(sorted, |sorted|)[k];
      1 <= p.node <= |records| && p.frn == records[p.node - 1].frn
  {
    KeepLastSubset(sorted, |sorted|, k);
    InBoth(records, sorted, KeepLast(sorted, |sorted|)[k]);
  }

  lemma KeptIsLast(records: seq<Record>, sorted: seq<Pair>, k: nat)
    requires Sorted(sorted) && multiset(sorted) == multiset(PairsOf(records)) && k < |KeepLast(sorted, |sorted|)|
    ensures var p := KeepLast(sorted, |sorted|)[k];
      LastWithFrn(records, p.frn) == Some(p.node)
  {
    var p := KeepLast(sorted, |sorted|)[k];
    KeepLastAscending(sorted, |sorted|);
    KeptPair(records, sorted, k);
    LastAmongIsLast(records, p.frn, |records|, p.node - 1);
    var q := LastInIndex(records, sorted, LastWithFrn(records, p.frn).value - 1);
    assert q == k;
  }

  /** Sorting and compacting yields an index of the records. */
  lemma KeepLastIndexes(records: seq<Record>, sorted: seq<Pair>)
    requires Sorted(sorted) && multiset(sorted) == multiset(PairsOf(records))
    ensures Indexes(KeepLast(sorted, |sorted|), records)
  {
    var out := KeepLast(sorted, |sorted|);
    KeepLastAscending(sorted, |sorted|);
    forall i | 0 <= i < |records| ensures HasFrn(out, records[i].frn) {
      var k := LastInIndex(records, sorted, i);
    }
    forall k | 0 <= k < |out| ensures LastWithFrn(records, out[k].frn) == Some(out[k].node) {
      KeptIsLast(records, sorted, k);
    }
  }

  lemma IndexedFrn(index: seq<Pair>, records: seq<Record>, i: nat)
    requires Indexes(index, records) && i < |records|
    ensures exists k :: 0 <= k < |index| && index[k].frn == records[i].frn
  {
    assert HasFrn(index, records[i].frn);
  }

  lemma NotIndexed(index: seq<Pair>, frn: U64, records: seq<Record>)
    requires Indexes(index, records)
    requires forall k :: 0 <= k < |index| ==> index[k].frn != frn
    ensures LastWithFrn(records, frn) == None
  {
    var last := LastWithFrn(records, frn);
    if last.Some? {
      IndexedFrn(index, records, last.value - 1);
    }
  }

  /** Binary search by number, as over any sorted slice. */
  method Lookup(index: seq<Pair>, frn: U64, ghost records: seq<Record>) returns (found: Option<nat>)
    requires Indexes(index, records)
    ensures found == LastWithFrn(records, frn)
  {
    var lo, hi := 0, |index|;
    while lo < hi
      invariant 0 <= lo <= hi <= |index|
      invariant forall k :: 0 <= k < lo ==> index[k].frn < frn
      invariant forall k :: hi <= k < |index| ==> frn < index[k].frn
    {
      var mid := (lo + hi) / 2;
      if index[mid].frn == frn {
        return Some(index[mid].node);
      } else if index[mid].frn < frn {
        lo := mid + 1;
      } else {
        hi := mid;
      }
    }
    NotIndexed(index, frn, records);
    return None;
  }
}
