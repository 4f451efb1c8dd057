/** Breadth-first search below a node, by name or by full path. */
module SubtreeSearch {
  import opened BuiltVolume
  import opened Cancellation
  import opened DiskModel
  import opened ForestTheory
  import opened Paths
  import opened Walks
  import opened Wrappers

  // ---- Breadth-first order, level by level ------------------------------------------

  function TopIds(f: Forest): seq<nat> {
    match f
    case Nil => []
    case Cons(id, kids, rest) => [id] + TopIds(rest)
  }

  function Append(f: Forest, h: Forest): Forest {
    match f
    case Nil => h
    case Cons(id, kids, rest) => Cons(id, kids, Append(rest, h))
  }

  /** The next level: the children of all trees, in order. */
  function NextLevel(f: Forest): Forest {
    match f
    case Nil => Nil
    case Cons(id, kids, rest) => Append(kids, NextLevel(rest))
  }

  lemma AppendSize(f: Forest, h: Forest)
    ensures Size(Append(f, h)) == Size(f) + Size(h)
  {
  }

  lemma NextLevelSmaller(f: Forest)
    ensures Size(NextLevel(f)) + |TopIds(f)| == Size(f)
  {
    if f.Cons? {
      NextLevelSmaller(f.rest);
      AppendSize(f.kids, NextLevel(f.rest));
    }
  }

  /** All nodes of a forest, level by level. */
  ghost function LevelOrder(f: Forest): seq<nat>
    decreases Size(f)
  {
    NextLevelSmaller(f);
    if f.Nil? then [] else TopIds(f) + LevelOrder(NextLevel(f))
  }

  lemma AppendAssoc(a: Forest, b: Forest, c: Forest)
    ensures Append(Append(a, b), c) == Append(a, Append(b, c))
  {
  }

  lemma AppendNil(a: Forest)
    ensures Append(a, Nil) == a
  {
  }

  lemma AppendBag(f: Forest, h: Forest)
    ensures Bag(Append(f, h)) == Bag(f) + Bag(h)
  {
  }

  lemma {:induction false} LevelsBag(f: Forest)
    ensures Bag(f) == multiset(TopIds(f)) + Bag(NextLevel(f))
    decreases f
  {
    if f.Cons? {
      LevelsBag(f.rest);
      AppendBag(f.kids, NextLevel(f.rest));
    }
  }

  /** Level order lists every node of the forest exactly as often as the forest contains it. */
  lemma {:induction false} LevelOrderBag(f: Forest)
    ensures multiset(LevelOrder(f)) == Bag(f)
    decreases Size(f)
  {
    NextLevelSmaller(f);
    LevelsBag(f);
    if f.Cons? {
      LevelOrderBag(NextLevel(f));
    }
  }

  /** What is still to come when `a` is left of the current level and `b` is collected of the next. */
  ghost function StillToCome(a: Forest, b: Forest): seq<nat> {
    TopIds(a) + LevelOrder(Append(b, NextLevel(a)))
  }

  lemma LevelDone(b: Forest)
    ensures StillToCome(Nil, b) == StillToCome(b, Nil)
  {
    AppendNil(b);
  }

  lemma LevelStep(a: Forest, b: Forest)
    requires a.Cons?
    ensures StillToCome(a, b) == [a.id] + StillToCome(a.rest, Append(b, a.kids))
  {
    AppendAssoc(b, a.kids, NextLevel(a.rest));
  }

  lemma {:induction false} AppendMirrors(g: Graph, f: Forest, h: Forest, list: seq<nat>, more: seq<nat>)
    requires Mirrors(g, f, list) && Mirrors(g, h, more)
    ensures Mirrors(g, Append(f, h), list + more)
    decreases f
  {
    if f.Nil? {
      assert list + more == more;
    } else {
      AppendMirrors(g, f.rest, h, list[1..], more);
      assert (list + more)[1..] == list[1..] + more;
    }
  }

  // ---- Text matching ---------------------------------------------------------------------

  predicate OccursAt(text: string, needle: string, i: nat) {
    i + |needle| <= |text| && text[i..i + |needle|] == needle
  }

  predicate Contains(text: string, needle: string) {
    exists i | 0 <= i <= |text| :: OccursAt(text, needle, i)
  }

  function ReplaceSlashes(s: string): string {
    seq(|s|, i requires 0 <= i < |s| => if s[i] == '/' then '\\' else s[i])
  }

  /** The text holds the needle somewhere, with anything in front of it and behind it. */
  ghost predicate Within(needle: string, text: string) {
    exists a, b :: text == a + needle + b
  }

  lemma ContainsIsWithin(text: string, needle: string)
    ensures Contains(text, needle) <==> Within(needle, text)
  {
    if Contains(text, needle) {
      var i :| 0 <= i <= |text| && OccursAt(text, needle, i);
      assert text == text[..i] + needle + text[i + |needle|..];
    }
    if a, b :| text == a + needle + b {
      assert text[|a|..|a| + |needle|] == needle;
      assert OccursAt(text, needle, |a|);
    }
  }

  /** Slashes become backslashes and nothing else changes. */
  lemma SlashesReplaced(s: string, i: nat)
    requires i < |s|
    ensures |ReplaceSlashes(s)| == |s| && '/' !in ReplaceSlashes(s)
    ensures s[i] == '/' ==> ReplaceSlashes(s)[i] == '\\'
    ensures s[i] != '/' ==> ReplaceSlashes(s)[i] == s[i]
  {
  }

  /** The query after trimming and lowercasing, and how it is compared. */
  datatype Needle = Needle(text: string, lower: string -> string) {
    predicate PathMode() {
      '\\' in text || '/' in text
    }
  }

  /** Whether the mask lets a node through; entries the mask does not have count as false. */
  predicate Masked(matches: Option<seq<bool>>, x: nat) {
    matches.None? || (x < |matches.value| && matches.value[x])
  }

  ghost predicate TextMatches(m: DiskAnalysisModel, x: nat, needle: Needle)
    requires IsTree(m)
  {
    x < |m.nodes| && Rooted(Links(m), x) &&
    if needle.PathMode() then Contains(needle.lower(PathSpec(m, x)), ReplaceSlashes(needle.text))
    else Contains(needle.lower(m.nodes[x].name), needle.text)
  }

  ghost predicate IsHit(m: DiskAnalysisModel, root: nat, matches: Option<seq<bool>>, needle: Needle, x: nat)
    requires IsTree(m)
  {
    x != root && Masked(matches, x) && TextMatches(m, x, needle)
  }

  /** The hits among the first `n` nodes of a list, in order. */
  ghost function HitsOf(m: DiskAnalysisModel, root: nat, matches: Option<seq<bool>>, needle: Needle, list: seq<nat>, n: nat): seq<nat>
    requires IsTree(m) && n <= |list|
  {
    if n == 0 then []
    else if IsHit(m, root, matches, needle, list[n - 1])
      then HitsOf(m, root, matches, needle, list, n - 1) + [list[n - 1]]
    else HitsOf(m, root, matches, needle, list, n - 1)
  }

  lemma {:induction false} HitsPrefix(m: DiskAnalysisModel, root: nat, matches: Option<seq<bool>>, needle: Needle, list: seq<nat>, n: nat, k: nat)
    requires IsTree(m) && n <= k <= |list|
    ensures HitsOf(m, root, matches, needle, list, n) <= HitsOf(m, root, matches, needle, list, k)
    decreases k
  {
    if n < k {
      HitsPrefix(m, root, matches, needle, list, n, k - 1);
    }
  }

  /** All hits below `root`, in breadth-first order. */
  ghost function AllHits(m: DiskAnalysisModel, root: nat, matches: Option<seq<bool>>, needle: Needle): seq<nat>
    requires IsTree(m)
  {
    var order := LevelOrder(TreeAt(TreesOf(m), root));
    HitsOf(m, root, matches, needle, order, |order|)
  }

  /** The answer of a search that runs to its end. */
  ghost function FirstHits(m: DiskAnalysisModel, root: nat, query: string, matches: Option<seq<bool>>, limit: nat,
                           trim: string -> string, lower: string -> string): seq<nat>
    requires IsTree(m)
  {
    if lower(trim(query)) == "" then []
    else
      var all := AllHits(m, root, matches, Needle(lower(trim(query)), lower));
      if |all| <= limit then all else all[..limit]
  }

  /** What a search promises of its hits when it was not cancelled. */
  ghost predicate IsSearchAnswer(hits: seq<nat>, m: DiskAnalysisModel, root: nat, query: string, matches: Option<seq<bool>>, limit: nat,
                                 trim: string -> string, lower: string -> string)
    requires IsTree(m)
  {
    && (lower(trim(query)) == "" || limit == 0 ==> hits == [])
    && (lower(trim(query)) != "" ==>
          var all := AllHits(m, root, matches, Needle(lower(trim(query)), lower));
          hits <= all && |hits| <= limit && (hits == all || |hits| == limit))
  }

  /** That promise has one answer only. */
  lemma SearchAnswerIsUnique(m: DiskAnalysisModel, root: nat, query: string, matches: Option<seq<bool>>, limit: nat,
                             trim: string -> string, lower: string -> string, hits: seq<nat>)
    requires IsTree(m)
    ensures IsSearchAnswer(hits, m, root, query, matches, limit, trim, lower) <==>
      hits == FirstHits(m, root, query, matches, limit, trim, lower)
  {
    if lower(trim(query)) != "" {
      var all := AllHits(m, root, matches, Needle(lower(trim(query)), lower));
      assert |all| == limit ==> all[..limit] == all;
      assert hits <= all && |hits| == limit ==> hits == all[..limit];
    }
  }

  // ---- The search ------------------------------------------------------------------------------

  method Consider(m: DiskAnalysisModel, root: nat, x: nat, matches: Option<seq<bool>>, needle: Needle)
    returns (matched: bool)
    requires IsTree(m) && Rooted(Links(m), x) && x < |m.nodes|
    ensures matched == IsHit(m, root, matches, needle, x)
  {
    if x == root || !Masked(matches, x) {
      matched := false;
    } else if needle.PathMode() {
      var path := PathOf(m, x);
      matched := Contains(needle.lower(path), ReplaceSlashes(needle.text));
    } else {
      matched := Contains(needle.lower(m.nodes[x].name), needle.text);
    }
  }

  /** The children a popped node adds to the queue. */
  method KidsOf(m: DiskAnalysisModel, x: nat, ghost g: Graph) returns (kids: seq<nat>)
    requires Depicts(g, m.nodes, m.childLinks, m.root) && x < |m.nodes|
    ensures kids == Down(g, x)
  {
    DownAt(g, m.nodes, m.childLinks, m.root, x);
    kids := [];
    if m.nodes[x].isDir && !m.nodes[x].isReparse {
      kids := Slice(m.nodes[x], m.childLinks);
    }
  }

  /** The queue between two pops: the rest of one level, then what is collected of the next. */
  ghost predicate QueueIs(queue: seq<nat>, g: Graph, t: Chart, a: Forest, b: Forest) {
    exists n: nat :: SplitAt(queue, g, a, b, n) && AllIn(t, queue)
  }

  ghost predicate SplitAt(queue: seq<nat>, g: Graph, a: Forest, b: Forest, n: nat) {
    n <= |queue| && Mirrors(g, a, queue[..n]) && Mirrors(g, b, queue[n..])
  }

  /** When a level is exhausted, what was collected becomes the current level. */
  lemma NextLevelBegins(queue: seq<nat>, g: Graph, a: Forest, b: Forest, n: nat)
    returns (level: Forest, next: Forest, split: nat)
    requires queue != [] && SplitAt(queue, g, a, b, n)
    ensures level.Cons? && SplitAt(queue, g, level, next, split)
    ensures StillToCome(level, next) == StillToCome(a, b) && Size(level) + Size(next) == Size(a) + Size(b)
  {
    level, next, split := a, b, n;
    if a.Nil? {
      LevelDone(b);
      level, next, split := b, Nil, |queue|;
      assert queue[n..] == queue && queue[..|queue|] == queue && queue[|queue|..] == [];
    }
  }

  lemma LevelPop(queue: seq<nat>, g: Graph, level: Forest, next: Forest, split: nat)
    requires level.Cons? && SplitAt(queue, g, level, next, split)
    ensures queue != [] && level.id == queue[0]
    ensures SplitAt(queue[1..] + Down(g, queue[0]), g, level.rest, Append(next, level.kids), split - 1)
  {
    var kids := Down(g, queue[0]);
    AppendMirrors(g, next, level.kids, queue[split..], kids);
    var rest := queue[1..] + kids;
    assert rest[..split - 1] == queue[..split][1..];
    assert rest[split - 1..] == queue[split..] + kids;
  }

  /** Popping a node and queueing its children keeps the order still to come. */
  lemma QueueStep(queue: seq<nat>, g: Graph, t: Chart, a: Forest, b: Forest) returns (a': Forest, b': Forest)
    requires queue != [] && QueueIs(queue, g, t, a, b) && Charted(g, t)
    ensures QueueIs(queue[1..] + Down(g, queue[0]), g, t, a', b')
    ensures StillToCome(a, b) == [queue[0]] + StillToCome(a', b')
    ensures Size(a') + Size(b') < Size(a) + Size(b)
  {
    var n: nat :| SplitAt(queue, g, a, b, n) && AllIn(t, queue);
    var level, next, split := NextLevelBegins(queue, g, a, b, n);
    LevelPop(queue, g, level, next, split);
    LevelStep(level, next);
    AppendSize(next, level.kids);
    a', b' := level.rest, Append(next, level.kids);
    assert queue[0] in queue && ChartedAt(g, t, queue[0]);
    assert AllIn(t, queue[1..] + Down(g, queue[0]));
  }

  /** Pop the front of the queue, queue its children, and decide whether it is a hit. */
  method PopFront(m: DiskAnalysisModel, root: nat, matches: Option<seq<bool>>, needle: Needle, queue: seq<nat>,
                  ghost a: Forest, ghost b: Forest)
    returns (queue': seq<nat>, matched: bool, ghost a': Forest, ghost b': Forest)
    requires IsTree(m) && queue != [] && QueueIs(queue, Links(m), TreesOf(m), a, b)
    ensures QueueIs(queue', Links(m), TreesOf(m), a', b')
    ensures StillToCome(a, b) == [queue[0]] + StillToCome(a', b')
    ensures Size(a') + Size(b') < Size(a) + Size(b)
    ensures matched == IsHit(m, root, matches, needle, queue[0])
  {
    assert queue[0] in queue;
    var kids := KidsOf(m, queue[0], Links(m));
    a', b' := QueueStep(queue, Links(m), TreesOf(m), a, b);
    queue' := queue[1..] + kids;
    matched := Consider(m, root, queue[0], matches, needle);
  }

  /** One more node of the order is looked at. */
  lemma HitsNext(m: DiskAnalysisModel, root: nat, matches: Option<seq<bool>>, needle: Needle, order: seq<nat>, n: nat,
                 x: nat, later: seq<nat>)
    requires IsTree(m) && n <= |order| && order[n..] == [x] + later
    ensures n < |order| && order[n + 1..] == later
    ensures HitsOf(m, root, matches, needle, order, n + 1) ==
      HitsOf(m, root, matches, needle, order, n) + if IsHit(m, root, matches, needle, x) then [x] else []
  {
    assert order[n] == order[n..][0] == x;
    assert order[n + 1..] == order[n..][1..];
  }

  /**
    The first `limit` hits in breadth-first order. A cancelled search returns a prefix of that.
   */
  method SearchNodes(m: DiskAnalysisModel, root: nat, query: string, matches: Option<seq<bool>>, limit: nat,
                     trim: string -> string, lower: string -> string, token: CancelToken)
    returns (hits: seq<nat>)
    requires IsTree(m) && Rooted(Links(m), root) && !token.fired
    modifies token
    ensures lower(trim(query)) == "" || limit == 0 ==> hits == [] && !token.fired
    ensures lower(trim(query)) != "" ==>
      var all := AllHits(m, root, matches, Needle(lower(trim(query)), lower));
      hits <= all && |hits| <= limit && (!token.fired ==> hits == all || |hits| == limit)
    ensures !token.fired ==> IsSearchAnswer(hits, m, root, query, matches, limit, trim, lower)
  {
    var needle := Needle(lower(trim(query)), lower);
    hits := [];
    if needle.text == "" || limit == 0 {
      return;
    }
    ghost var order := LevelOrder(TreeAt(TreesOf(m), root));
    ghost var a, b := TreeAt(TreesOf(m), root), Nil;
    ghost var n := 0;
    var queue := [root];
    StartQueue(Links(m), TreesOf(m), root);
    while queue != []
      invariant !token.fired && QueueIs(queue, Links(m), TreesOf(m), a, b)
      invariant n <= |order| && order[n..] == StillToCome(a, b)
      invariant hits == HitsOf(m, root, matches, needle, order, n) && |hits| < limit
      decreases Size(a) + Size(b)
    {
      HitsPrefix(m, root, matches, needle, order, n, |order|);
      var cancelled := token.Poll();
      if cancelled {
        return;
      }
      var x, matched := queue[0], false;
      ghost var a0, b0 := a, b;
      queue, matched, a, b := PopFront(m, root, matches, needle, queue, a0, b0);
      HitsNext(m, root, matches, needle, order, n, x, StillToCome(a, b));
      n := n + 1;
      if matched {
        hits := hits + [x];
        if |hits| >= limit {
          HitsPrefix(m, root, matches, needle, order, n, |order|);
          return;
        }
      }
    }
    QueueEmpty(Links(m), TreesOf(m), a, b);
  }

  lemma StartQueue(g: Graph, t: Chart, root: nat)
    requires Charted(g, t) && root in t
    ensures QueueIs([root], g, t, TreeAt(t, root), Nil)
    ensures StillToCome(TreeAt(t, root), Nil) == LevelOrder(TreeAt(t, root))
  {
    assert ChartedAt(g, t, root);
    assert [root][..1] == [root] && [root][1..] == [];
    AppendNil(t[root]);
    assert SplitAt([root], g, TreeAt(t, root), Nil, 1);
  }

  lemma QueueEmpty(g: Graph, t: Chart, a: Forest, b: Forest)
    requires QueueIs([], g, t, a, b)
    ensures StillToCome(a, b) == []
  {
  }

  // ---- What the hits are ------------------------------------------------------------------------

  lemma {:induction false} HitsMembers(m: DiskAnalysisModel, root: nat, matches: Option<seq<bool>>, needle: Needle,
                                       list: seq<nat>, n: nat, x: nat)
    requires IsTree(m) && n <= |list|
    ensures x in HitsOf(m, root, matches, needle, list, n) <==> x in list[..n] && IsHit(m, root, matches, needle, x)
  {
    if n > 0 {
      HitsMembers(m, root, matches, needle, list, n - 1, x);
      assert list[..n] == list[..n - 1] + [list[n - 1]];
    }
  }

  lemma {:induction false} HitsDistinct(m: DiskAnalysisModel, root: nat, matches: Option<seq<bool>>, needle: Needle,
                                        list: seq<nat>, n: nat)
    requires IsTree(m) && n <= |list| && Distinct(list)
    ensures Distinct(HitsOf(m, root, matches, needle, list, n))
  {
    if n > 0 {
      var before := HitsOf(m, root, matches, needle, list, n - 1);
      HitsDistinct(m, root, matches, needle, list, n - 1);
      forall i | 0 <= i < |before| ensures before[i] != list[n - 1] {
        HitsMembers(m, root, matches, needle, list, n - 1, before[i]);
      }
    }
  }

  /** Level order lists exactly the reached nodes, each once. */
  lemma OrderIsReached(g: Graph, t: Chart, root: nat, x: nat)
    requires Linked(g) && Complete(g) && Charted(g, t) && root in t
    ensures Distinct(LevelOrder(TreeAt(t, root)))
    ensures x in LevelOrder(TreeAt(t, root)) <==> Reached(g, root, x)
  {
    var f := TreeAt(t, root);
    LevelOrderBag(f);
    assert ChartedAt(g, t, root);
    OrderDistinct(LevelOrder(f), Bag(f));
    HasIffReached(g, t, root, x);
    HasIsInBag(f, x);
    assert x in LevelOrder(f) <==> x in multiset(LevelOrder(f));
  }

  /** The hits are exactly the reached nodes that qualify, each once. */
  lemma SearchFindsExactly(m: DiskAnalysisModel, root: nat, matches: Option<seq<bool>>, needle: Needle, x: nat)
    requires IsTree(m) && Rooted(Links(m), root)
    ensures x in AllHits(m, root, matches, needle) <==>
      Reached(Links(m), root, x) && IsHit(m, root, matches, needle, x)
    ensures Distinct(AllHits(m, root, matches, needle))
  {
    var order := LevelOrder(TreeAt(TreesOf(m), root));
    OrderIsReached(Links(m), TreesOf(m), root, x);
    assert order[..|order|] == order;
    HitsMembers(m, root, matches, needle, order, |order|, x);
    HitsDistinct(m, root, matches, needle, order, |order|);
  }

  /** What the user reads as a match: the name holds the needle, or the path does when the query has a separator of either kind. */
  lemma SearchFindsText(m: DiskAnalysisModel, root: nat, matches: Option<seq<bool>>, needle: Needle, x: nat)
    requires IsTree(m) && Rooted(Links(m), root) && Rooted(Links(m), x) && x < |m.nodes|
    ensures x in AllHits(m, root, matches, needle) <==>
      && x != root && Reached(Links(m), root, x) && (matches.Some? ==> x < |matches.value| && matches.value[x])
      && ('\\' !in needle.text && '/' !in needle.text ==> Within(needle.text, needle.lower(m.nodes[x].name)))
      && ('\\' in needle.text || '/' in needle.text ==> Within(ReplaceSlashes(needle.text), needle.lower(PathSpec(m, x))))
  {
    SearchFindsExactly(m, root, matches, needle, x);
    ContainsIsWithin(needle.lower(m.nodes[x].name), needle.text);
    ContainsIsWithin(needle.lower(PathSpec(m, x)), ReplaceSlashes(needle.text));
  }

  lemma FirstOnes(all: seq<nat>, limit: nat, x: nat)
    requires Distinct(all)
    ensures var first := if |all| <= limit then all else all[..limit];
      |first| <= limit && Distinct(first) && first <= all && (x in first ==> x in all) && (|first| < limit && x in all ==> x in first)
  {
  }

  /** The first hits in breadth-first order: all of them unless the limit was reached, and none twice. */
  lemma FirstHitsAreHits(m: DiskAnalysisModel, root: nat, query: string, matches: Option<seq<bool>>, limit: nat,
                         trim: string -> string, lower: string -> string, x: nat)
    requires IsTree(m) && Rooted(Links(m), root) && lower(trim(query)) != ""
    ensures |FirstHits(m, root, query, matches, limit, trim, lower)| <= limit
    ensures Distinct(FirstHits(m, root, query, matches, limit, trim, lower))
    ensures FirstHits(m, root, query, matches, limit, trim, lower) <= AllHits(m, root, matches, Needle(lower(trim(query)), lower))
    ensures x in FirstHits(m, root, query, matches, limit, trim, lower) ==>
      Reached(Links(m), root, x) && IsHit(m, root, matches, Needle(lower(trim(query)), lower), x)
    ensures |FirstHits(m, root, query, matches, limit, trim, lower)| < limit ==>
      Reached(Links(m), root, x) && IsHit(m, root, matches, Needle(lower(trim(query)), lower), x) ==>
      x in FirstHits(m, root, query, matches, limit, trim, lower)
  {
    var needle := Needle(lower(trim(query)), lower);
    SearchFindsExactly(m, root, matches, needle, x);
    FirstOnes(AllHits(m, root, matches, needle), limit, x);
  }

  lemma {:induction false} NextLevelMirrors(g: Graph, f: Forest, list: seq<nat>, d: nat) returns (next: seq<nat>)
    requires Linked(g) && Mirrors(g, f, list) && AllAtDepth(g, list, d)
    ensures Mirrors(g, NextLevel(f), next) && AllAtDepth(g, next, d + 1) && TopIds(f) == list
    decreases f
  {
    if f.Nil? {
      next := [];
    } else {
      DownDepth(g, list, d);
      var rest := NextLevelMirrors(g, f.rest, list[1..], d);
      AppendMirrors(g, f.kids, NextLevel(f.rest), Down(g, f.id), rest);
      next := Down(g, f.id) + rest;
    }
  }

  /** Position `i` of the level order is in the first level, or a position of the levels below. */
  lemma LevelPosition(f: Forest, i: nat)
    requires i < |LevelOrder(f)|
    ensures i < |TopIds(f)| ==> LevelOrder(f)[i] == TopIds(f)[i]
    ensures i >= |TopIds(f)| ==>
      i - |TopIds(f)| < |LevelOrder(NextLevel(f))| && LevelOrder(f)[i] == LevelOrder(NextLevel(f))[i - |TopIds(f)|]
  {
    NextLevelSmaller(f);
  }

  lemma {:induction false} LevelCount(f: Forest)
    ensures |LevelOrder(f)| == Size(f)
    decreases Size(f)
  {
    NextLevelSmaller(f);
    if f.Cons? {
      LevelCount(NextLevel(f));
    }
  }

  /** Position `i` of the level order sits at depth `e`. */
  ghost predicate OrderAtDepth(g: Graph, f: Forest, i: nat, e: nat)
    requires Linked(g)
  {
    i < |LevelOrder(f)| && AtDepth(g, LevelOrder(f)[i], e)
  }

  lemma FirstLevelDepth(g: Graph, f: Forest, list: seq<nat>, d: nat, i: nat)
    requires Linked(g) && AllAtDepth(g, list, d) && TopIds(f) == list && i < |list|
    ensures OrderAtDepth(g, f, i, d)
  {
    LevelCount(f);
    NextLevelSmaller(f);
    LevelPosition(f, i);
    assert list[i] in list;
  }

  lemma LowerLevelDepth(g: Graph, f: Forest, i: nat, e: nat)
    requires Linked(g) && |TopIds(f)| <= i < Size(f) && OrderAtDepth(g, NextLevel(f), i - |TopIds(f)|, e)
    ensures OrderAtDepth(g, f, i, e)
  {
    LevelCount(f);
    LevelPosition(f, i);
  }

  lemma {:induction false} DepthsAscend(g: Graph, f: Forest, list: seq<nat>, d: nat, i: nat, j: nat) returns (e: nat, e': nat)
    requires Linked(g) && Mirrors(g, f, list) && AllAtDepth(g, list, d) && i <= j < Size(f)
    ensures d <= e <= e' && OrderAtDepth(g, f, i, e) && OrderAtDepth(g, f, j, e')
    decreases j
  {
    var n := |list|;
    var next := NextLevelMirrors(g, f, list, d);
    NextLevelSmaller(f);
    if j < n {
      e, e' := d, d;
      FirstLevelDepth(g, f, list, d, i);
      FirstLevelDepth(g, f, list, d, j);
    } else {
      TopNonempty(f);
      e, e' := DepthsAscend(g, NextLevel(f), next, d + 1, if i < n then j - n else i - n, j - n);
      LowerLevelDepth(g, f, j, e');
      if i < n {
        e := d;
        FirstLevelDepth(g, f, list, d, i);
      } else {
        LowerLevelDepth(g, f, i, e);
      }
    }
  }

  /** Breadth-first means: depth never decreases along the order. */
  lemma LevelOrderByDepth(g: Graph, f: Forest, list: seq<nat>, d: nat, i: nat, j: nat) returns (e: nat, e': nat)
    requires Linked(g) && Mirrors(g, f, list) && AllAtDepth(g, list, d) && i <= j < |LevelOrder(f)|
    ensures d <= e <= e' && AtDepth(g, LevelOrder(f)[i], e) && AtDepth(g, LevelOrder(f)[j], e')
  {
    LevelCount(f);
    e, e' := DepthsAscend(g, f, list, d, i, j);
  }

  lemma TopNonempty(f: Forest)
    requires Size(f) > 0
    ensures TopIds(f) != []
  {
  }
}
