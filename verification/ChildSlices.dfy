/** The flat child array: one contiguous slice per node, filled by a counting sort on parents. */
module ChildSlices {
  import opened DiskModel
  import opened ParentLinks

  /** First slot of node `p`: the slots before it belong to the nodes before it. */
  function StartOf(counts: seq<nat>, p: nat): nat
    requires p <= |counts|
  {
    if p == 0 then 0 else StartOf(counts, p - 1) + counts[p - 1]
  }

  lemma {:induction false} StartsApart(counts: seq<nat>, p: nat, q: nat)
    requires p < q <= |counts|
    ensures StartOf(counts, p) + counts[p] <= StartOf(counts, q)
  {
    if p + 1 < q {
      StartsApart(counts, p, q - 1);
    }
  }

  /** All slots together are as many as there are placed nodes. */
  lemma {:induction false} StartsTotal(counts: seq<nat>, parents: seq<nat>, idxs: seq<nat>, n: nat)
    requires n <= |parents| == |idxs| && forall k :: 0 <= k < |parents| ==> parents[k] < |counts|
    requires forall p :: 0 <= p < |counts| ==> counts[p] == |Picked(parents, idxs, p, n)|
    ensures StartOf(counts, |counts|) == n
    decreases n
  {
    if n == 0 {
      StartsZero(counts, |counts|);
    } else {
      var fewer := counts[parents[n - 1] := counts[parents[n - 1]] - 1];
      StartsTotal(fewer, parents, idxs, n - 1);
      StartsBump(fewer, counts, parents[n - 1], |counts|);
    }
  }

  lemma {:induction false} StartsZero(counts: seq<nat>, p: nat)
    requires p <= |counts| && forall q :: 0 <= q < |counts| ==> counts[q] == 0
    ensures StartOf(counts, p) == 0
  {
    if p > 0 {
      StartsZero(counts, p - 1);
    }
  }

  lemma {:induction false} StartsBump(counts: seq<nat>, more: seq<nat>, q: nat, p: nat)
    requires |counts| == |more| && q < |counts| && p <= |counts|
    requires more == counts[q := counts[q] + 1]
    ensures StartOf(more, p) == StartOf(counts, p) + if q < p then 1 else 0
  {
    if p > 0 {
      StartsBump(counts, more, q, p - 1);
    }
  }

  /** The slice of every node holds the children picked so far. */
  ghost predicate FilledUpTo(links: seq<nat>, cursors: seq<nat>, counts: seq<nat>, parents: seq<nat>, idxs: seq<nat>, i: nat)
    requires i <= |parents| == |idxs|
  {
    && |cursors| == |counts|
    && forall p {:trigger FilledAt(links, cursors, counts, parents, idxs, i, p)} ::
      0 <= p < |counts| ==> FilledAt(links, cursors, counts, parents, idxs, i, p)
  }

  ghost predicate FilledAt(links: seq<nat>, cursors: seq<nat>, counts: seq<nat>, parents: seq<nat>, idxs: seq<nat>, i: nat, p: nat)
    requires i <= |parents| == |idxs| && p < |counts| == |cursors|
  {
    && StartOf(counts, p) <= cursors[p] <= |links|
    && links[StartOf(counts, p)..cursors[p]] == Picked(parents, idxs, p, i)
  }

  lemma {:induction false} PickedGrows(parents: seq<nat>, idxs: seq<nat>, p: nat, i: nat, n: nat)
    requires i <= n <= |parents| == |idxs|
    ensures |Picked(parents, idxs, p, i)| <= |Picked(parents, idxs, p, n)|
  {
    if i < n {
      PickedGrows(parents, idxs, p, i, n - 1);
    }
  }

  /** The next free slot of a node whose children are not all written lies in its own slice. */
  lemma SlotInSlice(links: seq<nat>, cursors: seq<nat>, counts: seq<nat>, parents: seq<nat>, idxs: seq<nat>, i: nat, p: nat)
    requires i <= |parents| == |idxs| && p < |counts| == |cursors|
    requires FilledAt(links, cursors, counts, parents, idxs, i, p)
    requires counts[p] == |Picked(parents, idxs, p, |idxs|)|
    ensures StartOf(counts, p) <= cursors[p] <= StartOf(counts, p) + counts[p]
    ensures i < |parents| && parents[i] == p ==> cursors[p] < StartOf(counts, p) + counts[p]
  {
    assert |links[StartOf(counts, p)..cursors[p]]| == |Picked(parents, idxs, p, i)|;
    PickedGrows(parents, idxs, p, i, |idxs|);
    if i < |parents| && parents[i] == p {
      PickedGrows(parents, idxs, p, i + 1, |idxs|);
    }
  }

  /** Writing the next child into its parent's slice leaves the other slices alone. */
  lemma FillStepAt(links: seq<nat>, cursors: seq<nat>, counts: seq<nat>, parents: seq<nat>, idxs: seq<nat>, i: nat, p: nat)
    requires i < |parents| == |idxs| && p < |counts| == |cursors| && parents[i] < |counts|
    requires FilledAt(links, cursors, counts, parents, idxs, i, p)
    requires FilledAt(links, cursors, counts, parents, idxs, i, parents[i])
    requires Counted(counts, parents, idxs) && cursors[parents[i]] < |links|
    ensures FilledAt(links[cursors[parents[i]] := idxs[i]], cursors[parents[i] := cursors[parents[i]] + 1],
                     counts, parents, idxs, i + 1, p)
  {
    var q := parents[i];
    var start, slot := StartOf(counts, p), cursors[q];
    var links' := links[slot := idxs[i]];
    if p == q {
      assert links'[start..slot + 1] == links[start..slot] + [idxs[i]];
    } else {
      SlotInSlice(links, cursors, counts, parents, idxs, i, p);
      SlotInSlice(links, cursors, counts, parents, idxs, i, q);
      if p < q { StartsApart(counts, p, q); } else { StartsApart(counts, q, p); }
      assert links'[start..cursors[p]] == links[start..cursors[p]];
    }
  }

  lemma FillStep(links: seq<nat>, cursors: seq<nat>, counts: seq<nat>, parents: seq<nat>, idxs: seq<nat>, i: nat)
    requires i < |parents| == |idxs| && FilledUpTo(links, cursors, counts, parents, idxs, i)
    requires Counted(counts, parents, idxs) && parents[i] < |counts|
    requires |links| == StartOf(counts, |counts|)
    ensures cursors[parents[i]] < |links|
    ensures FilledUpTo(links[cursors[parents[i]] := idxs[i]], cursors[parents[i] := cursors[parents[i]] + 1],
                       counts, parents, idxs, i + 1)
  {
    var n, q := i + 1, parents[i];
    assert FilledAt(links, cursors, counts, parents, idxs, i, q);
    SlotInSlice(links, cursors, counts, parents, idxs, i, q);
    StartsApart(counts, q, |counts|);
    var links', cursors' := links[cursors[q] := idxs[i]], cursors[q := cursors[q] + 1];
    forall p | 0 <= p < |counts| ensures FilledAt(links', cursors', counts, parents, idxs, n, p) {
      assert FilledAt(links, cursors, counts, parents, idxs, i, p);
      FillStepAt(links, cursors, counts, parents, idxs, i, p);
    }
  }

  /** Every node owns the slice that starts where its predecessor's ends. */
  ghost predicate Sliced(nodes: seq<AnalysisNode>, before: seq<AnalysisNode>, counts: seq<nat>, n: nat)
    requires |nodes| == |before| == |counts| && n <= |nodes|
  {
    forall x {:trigger nodes[x]} :: 0 <= x < |nodes| ==>
      nodes[x] == if x < n then before[x].(childStart := StartOf(counts, x), childLen := counts[x]) else before[x]
  }

  method AssignStarts(nodes: array<AnalysisNode>, childCounts: array<nat>) returns (cursors: array<nat>, total: nat)
    requires childCounts.Length == nodes.Length
    modifies nodes
    ensures fresh(cursors) && cursors.Length == nodes.Length
    ensures Sliced(nodes[..], old(nodes[..]), childCounts[..], nodes.Length)
    ensures total == StartOf(childCounts[..], nodes.Length)
    ensures forall p {:trigger cursors[p]} :: 0 <= p < nodes.Length ==> cursors[p] == StartOf(childCounts[..], p)
  {
    ghost var counts := childCounts[..];
    cursors := new nat[nodes.Length](_ => 0);
    total := 0;
    for x := 0 to nodes.Length
      invariant total == StartOf(counts, x)
      invariant forall p {:trigger nodes[p]} :: 0 <= p < x ==>
        nodes[p] == old(nodes[p]).(childStart := StartOf(counts, p), childLen := counts[p])
      invariant forall p :: x <= p < nodes.Length ==> nodes[p] == old(nodes[p])
      invariant forall p {:trigger cursors[p]} :: 0 <= p < x ==> cursors[p] == StartOf(counts, p)
    {
      var count := childCounts[x];
      nodes[x] := nodes[x].(childStart := total, childLen := count);
      cursors[x] := total;
      total := total + count;
    }
  }

  method FillLinks(parents: seq<nat>, idxs: seq<nat>, cursors: array<nat>, total: nat, ghost counts: seq<nat>)
    returns (links: array<nat>)
    requires |parents| == |idxs| && Counted(counts, parents, idxs)
    requires forall k :: 0 <= k < |parents| ==> parents[k] < |counts|
    requires cursors.Length == |counts| && total == StartOf(counts, |counts|)
    requires forall p {:trigger cursors[p]} :: 0 <= p < |counts| ==> cursors[p] == StartOf(counts, p)
    modifies cursors
    ensures fresh(links) && links.Length == total
    ensures FilledUpTo(links[..], cursors[..], counts, parents, idxs, |idxs|)
  {
    links := new nat[total](_ => 0);
    FillStart(links[..], cursors[..], counts, parents, idxs);
    for i := 0 to |parents|
      invariant FilledUpTo(links[..], cursors[..], counts, parents, idxs, i)
    {
      ghost var l, c := links[..], cursors[..];
      FillStep(l, c, counts, parents, idxs, i);
      var slot := cursors[parents[i]];
      links[slot] := idxs[i];
      cursors[parents[i]] := slot + 1;
      assert links[..] == l[slot := idxs[i]] && cursors[..] == c[parents[i] := slot + 1];
    }
  }

  method BuildSlices(nodes: array<AnalysisNode>, parents: seq<nat>, idxs: seq<nat>, childCounts: array<nat>)
    returns (links: array<nat>)
    requires childCounts.Length == nodes.Length && |parents| == |idxs|
    requires Counted(childCounts[..], parents, idxs)
    requires forall k :: 0 <= k < |parents| ==> parents[k] < nodes.Length
    modifies nodes
    ensures fresh(links) && links.Length == |idxs| == StartOf(childCounts[..], childCounts.Length)
    ensures Sliced(nodes[..], old(nodes[..]), childCounts[..], nodes.Length)
    ensures forall x {:trigger nodes[x]} :: 0 <= x < nodes.Length ==>
      && nodes[x].childStart + nodes[x].childLen <= links.Length
      && Slice(nodes[x], links[..]) == Picked(parents, idxs, x, |idxs|)
  {
    ghost var counts := childCounts[..];
    var cursors, total := AssignStarts(nodes, childCounts);
    StartsTotal(counts, parents, idxs, |idxs|);
    links := FillLinks(parents, idxs, cursors, total, counts);
    FillEnd(links[..], cursors[..], counts, parents, idxs);
  }

  lemma FillStart(links: seq<nat>, cursors: seq<nat>, counts: seq<nat>, parents: seq<nat>, idxs: seq<nat>)
    requires |cursors| == |counts| && |parents| == |idxs| && |links| == StartOf(counts, |counts|)
    requires forall p {:trigger cursors[p]} :: 0 <= p < |counts| ==> cursors[p] == StartOf(counts, p)
    ensures FilledUpTo(links, cursors, counts, parents, idxs, 0)
  {
    forall p | 0 <= p < |counts| ensures FilledAt(links, cursors, counts, parents, idxs, 0, p) {
      StartsApart(counts, p, |counts|);
    }
  }

  lemma FillEnd(links: seq<nat>, cursors: seq<nat>, counts: seq<nat>, parents: seq<nat>, idxs: seq<nat>)
    requires |parents| == |idxs| && FilledUpTo(links, cursors, counts, parents, idxs, |idxs|)
    requires Counted(counts, parents, idxs)
    ensures forall p :: 0 <= p < |counts| ==>
      && StartOf(counts, p) + counts[p] <= |links|
      && links[StartOf(counts, p)..StartOf(counts, p) + counts[p]] == Picked(parents, idxs, p, |idxs|)
  {
    forall p | 0 <= p < |counts|
      ensures StartOf(counts, p) + counts[p] <= |links|
      ensures links[StartOf(counts, p)..StartOf(counts, p) + counts[p]] == Picked(parents, idxs, p, |idxs|)
    {
      assert FilledAt(links, cursors, counts, parents, idxs, |idxs|, p);
    }
  }
}
