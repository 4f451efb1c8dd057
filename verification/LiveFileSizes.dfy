/** Live file sizes: a bounded request protocol whose answers reach the cache only while they are current. */
module LiveFileSizes {
  import opened Folding
  import opened Wrappers

  const REVALIDATE: nat := 1000
  const STABLE_REVALIDATE: nat := 30000
  const STABLE_OBSERVATIONS: nat := 2
  const MAX_ACTIVE: nat := 64
  const U8_MAX: nat := 255

  datatype Observed = Observed(size: nat, modified: Option<nat>)

  datatype Entry = Entry(mtime: nat, observed: Option<Observed>, checkedAt: nat, stable: nat)

  datatype Active = Active(mtime: nat, id: nat)

  datatype Request = Request(path: string, mtime: nat, id: nat)

  datatype Response = Response(path: string, mtime: nat, id: nat, observed: Option<Observed>)

  // ---- The cache ----------------------------------------------------------------------------

  /** Least-recently-used cache: the most recently written entry first. */
  type Cache = seq<(string, Entry)>

  function Peek(cache: Cache, path: string): Option<Entry> {
    if cache == [] then None
    else if cache[0].0 == path then Some(cache[0].1)
    else Peek(cache[1..], path)
  }

  function Pop(cache: Cache, path: string): Cache {
    if cache == [] then []
    else if cache[0].0 == path then Pop(cache[1..], path)
    else [cache[0]] + Pop(cache[1..], path)
  }

  /** Write an entry; a full cache forgets the entry that was written longest ago. */
  function Put(cache: Cache, capacity: nat, path: string, entry: Entry): Cache
    requires capacity > 0
  {
    var all := [(path, entry)] + Pop(cache, path);
    if |all| <= capacity then all else all[..capacity]
  }

  lemma {:induction false} PopForgets(cache: Cache, path: string, other: string)
    ensures Peek(Pop(cache, path), other) == if other == path then None else Peek(cache, other)
    decreases cache
  {
    if cache != [] {
      PopForgets(cache[1..], path, other);
    }
  }

  lemma {:induction false} PeekPrefix(cache: Cache, n: nat, path: string)
    requires n <= |cache|
    ensures Peek(cache[..n], path).Some? ==> Peek(cache[..n], path) == Peek(cache, path)
    decreases cache
  {
    if n > 0 {
      assert cache[..n][1..] == cache[1..][..n - 1];
      PeekPrefix(cache[1..], n - 1, path);
    }
  }

  /** After a write the entry is there, the bound holds, and nothing else is invented. */
  lemma PutFinds(cache: Cache, capacity: nat, path: string, entry: Entry, other: string)
    requires capacity > 0
    ensures |Put(cache, capacity, path, entry)| <= capacity
    ensures Peek(Put(cache, capacity, path, entry), path) == Some(entry)
    ensures other != path && Peek(Put(cache, capacity, path, entry), other).Some? ==>
      Peek(Put(cache, capacity, path, entry), other) == Peek(cache, other)
  {
    var all := [(path, entry)] + Pop(cache, path);
    assert all[1..] == Pop(cache, path);
    PopForgets(cache, path, other);
    if |all| > capacity {
      PeekPrefix(all, capacity, other);
      assert all[..capacity][0] == all[0];
    }
  }

  lemma {:induction false} PopKeeps(cache: Cache, path: string)
    ensures Peek(cache, path).None? ==> Pop(cache, path) == cache
    ensures Peek(cache, path).Some? ==> |Pop(cache, path)| < |cache|
    decreases cache
  {
    if cache != [] {
      PopKeeps(cache[1..], path);
      PopShrinks(cache[1..], path);
    }
  }

  /** Room is only needed for a new path; then a full cache forgets exactly the entry written longest ago. */
  lemma PutForgetsOldest(cache: Cache, capacity: nat, path: string, entry: Entry, other: string)
    requires capacity > 0 && |cache| <= capacity
    ensures other != path && (|cache| < capacity || Peek(cache, path).Some?) ==>
      Peek(Put(cache, capacity, path, entry), other) == Peek(cache, other)
    ensures |cache| == capacity && Peek(cache, path).None? ==>
      Put(cache, capacity, path, entry) == [(path, entry)] + cache[..capacity - 1]
  {
    var all := [(path, entry)] + Pop(cache, path);
    assert all[1..] == Pop(cache, path);
    PopKeeps(cache, path);
    PopForgets(cache, path, other);
    PopShrinks(cache, path);
  }

  // ---- The decisions ---------------------------------------------------------------------------

  /** The cached entry, if it belongs to this modification time. */
  function Matching(cache: Cache, path: string, mtime: nat): Option<Entry> {
    var entry := Peek(cache, path);
    if entry.Some? && entry.value.mtime == mtime then entry else None
  }

  function ResolvedSize(cache: Cache, path: string, mtime: nat, fallback: nat): nat {
    var entry := Matching(cache, path, mtime);
    if entry.Some? && entry.value.observed.Some? then entry.value.observed.value.size else fallback
  }

  function Interval(stable: nat): nat {
    if stable >= STABLE_OBSERVATIONS then STABLE_REVALIDATE else REVALIDATE
  }

  predicate IsFresh(entry: Option<Entry>, now: nat) {
    entry.Some? && now - entry.value.checkedAt < Interval(entry.value.stable)
  }

  /** The time a probe is judged by: the one last observed, else the one of the listing. */
  function ProbeTime(entry: Option<Entry>, mtime: nat): nat {
    if entry.Some? && entry.value.observed.Some? && entry.value.observed.value.modified.Some?
      then entry.value.observed.value.modified.value
    else mtime
  }

  /** What an accepted answer leaves in the cache: a failed read keeps what was observed before. */
  function Updated(previous: Option<Entry>, response: Response, now: nat): Entry {
    var same := previous.Some? && response.observed == previous.value.observed;
    var stable := if same then if previous.value.stable < U8_MAX then previous.value.stable + 1 else U8_MAX else 0;
    var observed := if response.observed.Some? then response.observed else if previous.Some? then previous.value.observed else None;
    Entry(response.mtime, observed, now, stable)
  }

  // ---- The protocol --------------------------------------------------------------------------------

  /** The requests of the protocol: the current one of each path, those not yet answered, and the history. */
  datatype Books = Books(byPath: map<string, Active>, outstanding: set<nat>, sent: map<nat, Request>, answered: set<nat>,
                         floor: map<string, nat>, nextId: nat)

  /** The current request of a path is not answered yet, is the newest for it, and was sent after the last invalidation. */
  ghost predicate CurrentOk(b: Books, path: string)
    requires path in b.byPath
  {
    var a := b.byPath[path];
    && a.id in b.outstanding && a.id in b.sent && b.sent[a.id] == Request(path, a.mtime, a.id)
    && (forall id :: id in b.sent && b.sent[id].path == path ==> id <= a.id)
    && (path in b.floor ==> b.floor[path] <= a.id)
  }

  ghost predicate IdsOk(b: Books) {
    && b.outstanding == b.sent.Keys - b.answered && b.answered <= b.sent.Keys
    && (forall id :: id in b.sent ==> id < b.nextId && b.sent[id].id == id)
    && (forall p :: p in b.floor ==> b.floor[p] <= b.nextId)
  }

  /** What every step keeps (folded, see Unfold). */
  ghost predicate Consistent(b: Books) {
    forall key {:trigger Unfold(key)} :: Unfold(key) ==>
      IdsOk(b) && |b.outstanding| <= MAX_ACTIVE && forall p :: p in b.byPath ==> CurrentOk(b, p)
  }

  lemma FreshId(b: Books, id: nat)
    requires Consistent(b) && b.nextId <= id
    ensures id !in b.sent
  {
    assert Unfold(0);
  }

  lemma OutstandingIsSent(b: Books, id: nat)
    requires Consistent(b)
    ensures id in b.outstanding <==> id in b.sent && id !in b.answered
  {
    assert Unfold(0);
  }

  lemma CurrentOf(b: Books, path: string)
    requires Consistent(b) && path in b.byPath
    ensures CurrentOk(b, path)
  {
    assert Unfold(0);
  }

  /** A new request takes a slot and becomes the current one of its path. */
  function AfterSend(b: Books, path: string, mtime: nat, id: nat): Books {
    b.(byPath := b.byPath[path := Active(mtime, id)], outstanding := b.outstanding + {id},
       sent := b.sent[id := Request(path, mtime, id)], nextId := id + 1)
  }

  lemma SendIds(b: Books, path: string, mtime: nat, id: nat)
    requires IdsOk(b) && b.nextId <= id
    ensures IdsOk(AfterSend(b, path, mtime, id))
  {
    var c := AfterSend(b, path, mtime, id);
    assert c.sent.Keys == b.sent.Keys + {id} && id !in b.answered;
  }

  lemma SendCurrent(b: Books, path: string, mtime: nat, id: nat, p: string)
    requires IdsOk(b) && b.nextId <= id && (p in b.byPath && p != path ==> CurrentOk(b, p))
    requires p in AfterSend(b, path, mtime, id).byPath
    ensures CurrentOk(AfterSend(b, path, mtime, id), p)
  {
  }

  lemma SendKeeps(b: Books, path: string, mtime: nat, id: nat)
    requires Consistent(b) && b.nextId <= id && |b.outstanding| < MAX_ACTIVE
    ensures Consistent(AfterSend(b, path, mtime, id))
  {
    assert Unfold(0);
    SendIds(b, path, mtime, id);
    forall p | p in AfterSend(b, path, mtime, id).byPath ensures CurrentOk(AfterSend(b, path, mtime, id), p) {
      SendCurrent(b, path, mtime, id, p);
    }
  }

  lemma SkipKeeps(b: Books, nextId: nat)
    requires Consistent(b) && b.nextId <= nextId
    ensures Consistent(b.(nextId := nextId))
  {
    assert Unfold(0);
    forall p | p in b.byPath ensures CurrentOk(b.(nextId := nextId), p) {
      assert CurrentOk(b, p);
    }
  }

  /** An answer frees its slot. */
  function AfterAnswer(b: Books, id: nat, byPath: map<string, Active>): Books {
    b.(byPath := byPath, outstanding := b.outstanding - {id}, answered := b.answered + {id})
  }

  /** All current requests stay outstanding when one that is not current any more is answered. */
  lemma AnswerKeeps(b: Books, path: string, id: nat, byPath: map<string, Active>)
    requires Consistent(b) && id in b.outstanding && id in b.sent && b.sent[id].path == path
    requires byPath == b.byPath - {path} || (byPath == b.byPath && (path in byPath ==> byPath[path].id != id))
    ensures Consistent(AfterAnswer(b, id, byPath))
  {
    assert Unfold(0);
    var c := AfterAnswer(b, id, byPath);
    forall p | p in c.byPath ensures CurrentOk(c, p) {
      assert CurrentOk(b, p) && c.byPath[p] == b.byPath[p];
    }
  }

  function AfterInvalidation(b: Books, path: string): Books {
    b.(byPath := b.byPath - {path}, floor := b.floor[path := b.nextId])
  }

  /** Requests sent before an invalidation are never current again. */
  lemma InvalidateKeeps(b: Books, path: string)
    requires Consistent(b)
    ensures Consistent(AfterInvalidation(b, path))
  {
    assert Unfold(0);
    var c := AfterInvalidation(b, path);
    forall p | p in c.byPath ensures CurrentOk(c, p) {
      assert CurrentOk(b, p);
    }
  }

  class LiveFileSizeState {
    const capacity: nat
    var cache: Cache
    var byPath: map<string, Active>
    var outstanding: set<nat>
    var nextId: nat
    /** Every request sent, and the ids that were answered. */
    ghost var sent: map<nat, Request>
    ghost var answered: set<nat>
    /** For each invalidated path, the first id that was not yet given out then. */
    ghost var floor: map<string, nat>

    ghost function View(): Books
      reads this
    {
      Books(byPath, outstanding, sent, answered, floor, nextId)
    }

    ghost predicate Valid()
      reads this
    {
      capacity > 0 && |cache| <= capacity && Consistent(View())
    }

    constructor (capacity: nat)
      requires capacity > 0
      ensures Valid() && cache == [] && byPath == map[] && outstanding == {}
    {
      this.capacity := capacity;
      cache, byPath, outstanding, nextId := [], map[], {}, 1;
      sent, answered, floor := map[], {}, map[];
    }

    /** Whether a lookup asks the worker. */
    predicate Wants(path: string, mtime: nat, now: nat, probe: (string, nat) -> bool)
      reads this
    {
      var entry := Matching(cache, path, mtime);
      && !IsFresh(entry, now) && probe(path, ProbeTime(entry, mtime))
      && !(path in byPath && byPath[path].mtime == mtime) && |outstanding| < MAX_ACTIVE
    }

    method RecordRequest(path: string, mtime: nat, id: nat)
      modifies this`byPath, this`outstanding, this`nextId, this`sent
      ensures View() == AfterSend(old(View()), path, mtime, id)
    {
      outstanding := outstanding + {id};
      byPath := byPath[path := Active(mtime, id)];
      sent := sent[id := Request(path, mtime, id)];
      nextId := id + 1;
    }

    /** Give out an id and send. Ids are shared with other windows, so they may skip. */
    method Ask(path: string, mtime: nat, sends: bool) returns (request: Option<Request>)
      requires Valid() && |outstanding| < MAX_ACTIVE
      modifies this`byPath, this`outstanding, this`nextId, this`sent
      ensures Valid() && (request.Some? <==> sends)
      ensures request.None? ==> View() == old(View()).(nextId := nextId)
      ensures request.Some? ==> request.value == Request(path, mtime, request.value.id) && request.value.id !in old(sent)
      ensures request.Some? ==> View() == AfterSend(old(View()), path, mtime, request.value.id)
    {
      var skipped: int := *;
      var id := if nextId <= skipped then skipped else nextId;
      FreshId(View(), id);
      if sends {
        SendKeeps(View(), path, mtime, id);
        RecordRequest(path, mtime, id);
        request := Some(Request(path, mtime, id));
      } else {
        SkipKeeps(View(), id + 1);
        nextId := id + 1;
        request := None;
      }
    }

    /** Look a size up, and ask for a newer one if it is time to. */
    method Resolve(path: string, mtime: nat, fallback: nat, now: nat, probe: (string, nat) -> bool, sends: bool)
      returns (size: nat, request: Option<Request>)
      requires Valid()
      modifies this`byPath, this`outstanding, this`nextId, this`sent
      ensures Valid() && size == ResolvedSize(cache, path, mtime, fallback)
      ensures request.Some? <==> old(Wants(path, mtime, now, probe)) && sends
      ensures request.None? ==> View() == old(View()).(nextId := nextId)
      ensures request.Some? ==> request.value == Request(path, mtime, request.value.id) && request.value.id !in old(sent)
      ensures request.Some? ==> View() == AfterSend(old(View()), path, mtime, request.value.id)
    {
      size := ResolvedSize(cache, path, mtime, fallback);
      request := None;
      if Wants(path, mtime, now, probe) {
        request := Ask(path, mtime, sends);
      }
    }

    /**
      Take an answer. Its slot is freed in any case; the cache changes exactly if the answer is to
      the current request of its path, which is the newest one, sent after the last invalidation.
     */
    method Accept(response: Response, now: nat) returns (next: Option<nat>)
      requires Valid()
      requires response.id in sent ==> sent[response.id] == Request(response.path, response.mtime, response.id)
      modifies this`cache, this`byPath, this`outstanding, this`answered
      ensures Valid() && outstanding == old(outstanding) - {response.id}
      ensures next.Some? <==> response.path in old(byPath) && old(byPath)[response.path] == Active(response.mtime, response.id)
      ensures next.None? ==> cache == old(cache) && byPath == old(byPath)
      ensures next.Some? ==>
        && cache == Put(old(cache), capacity, response.path, Updated(Matching(old(cache), response.path, response.mtime), response, now))
        && byPath == old(byPath) - {response.path}
        && next.value == Interval(Updated(Matching(old(cache), response.path, response.mtime), response, now).stable)
      ensures next.Some? ==>
        && (forall id :: id in sent && sent[id].path == response.path ==> id <= response.id)
        && (response.path in floor ==> floor[response.path] <= response.id)
      ensures response.id in old(outstanding) ==> answered == old(answered) + {response.id}
    {
      next := None;
      OutstandingIsSent(View(), response.id);
      if response.path in byPath {
        CurrentOf(View(), response.path);
      }
      if response.id !in outstanding {
        assert outstanding - {response.id} == outstanding;
        return;
      }
      var current := response.path in byPath && byPath[response.path] == Active(response.mtime, response.id);
      var remaining := if current then byPath - {response.path} else byPath;
      AnswerKeeps(View(), response.path, response.id, remaining);
      RecordAnswer(response.id, remaining);
      if !current {
        return;
      }
      var previous := Matching(cache, response.path, response.mtime);
      var entry := Updated(previous, response, now);
      PutFinds(cache, capacity, response.path, entry, response.path);
      cache := Put(cache, capacity, response.path, entry);
      next := Some(Interval(entry.stable));
    }

    method RecordAnswer(id: nat, remaining: map<string, Active>)
      modifies this`byPath, this`outstanding, this`answered
      ensures View() == AfterAnswer(old(View()), id, remaining)
    {
      outstanding := outstanding - {id};
      answered := answered + {id};
      byPath := remaining;
    }

    /** A file changed: forget its size and make its running requests stale. Their slots stay taken until they are answered. */
    method Invalidate(path: string)
      requires Valid()
      modifies this`cache, this`byPath, this`floor
      ensures Valid() && outstanding == old(outstanding)
      ensures cache == Pop(old(cache), path) && byPath == old(byPath) - {path}
      ensures floor == old(floor)[path := nextId]
    {
      InvalidateKeeps(View(), path);
      PopShrinks(cache, path);
      cache := Pop(cache, path);
      RecordInvalidation(path);
    }

    method RecordInvalidation(path: string)
      modifies this`byPath, this`floor
      ensures View() == AfterInvalidation(old(View()), path)
    {
      byPath := byPath - {path};
      floor := floor[path := nextId];
    }
  }

  lemma {:induction false} PopShrinks(cache: Cache, path: string)
    ensures |Pop(cache, path)| <= |cache|
    decreases cache
  {
    if cache != [] {
      PopShrinks(cache[1..], path);
    }
  }

  /** An answer with the time it came. */
  datatype Answer = Answer(response: Response, at: nat)

  /** The entry of a file after answers to its requests, all for one modification time. */
  function AfterAnswers(entry: Entry, answers: seq<Answer>): Entry {
    if answers == [] then entry
    else
      var last := answers[|answers| - 1];
      Updated(Some(AfterAnswers(entry, answers[..|answers| - 1])), last.response, last.at)
  }

  /** Answer `k` says what was observed before it. */
  predicate Confirms(entry: Entry, answers: seq<Answer>, k: nat)
    requires k < |answers|
  {
    answers[k].response.observed == AfterAnswers(entry, answers[..k]).observed
  }

  /** How many of the last answers confirm, one after the other. */
  function Confirmations(entry: Entry, answers: seq<Answer>, n: nat): nat
    requires n <= |answers|
  {
    if n == 0 || !Confirms(entry, answers, n - 1) then 0 else Confirmations(entry, answers, n - 1) + 1
  }

  lemma {:induction false} StableCountsConfirmations(entry: Entry, answers: seq<Answer>, n: nat)
    requires n <= |answers| && entry.stable == 0
    ensures AfterAnswers(entry, answers[..n]).stable ==
      if Confirmations(entry, answers, n) <= U8_MAX then Confirmations(entry, answers, n) else U8_MAX
  {
    if n > 0 {
      StableCountsConfirmations(entry, answers, n - 1);
      assert answers[..n][..n - 1] == answers[..n - 1];
    } else {
      assert answers[..0] == [];
    }
  }

  /**
    After any answers to a file that was first seen with `first`, the file is probed rarely exactly
    if the last two answers each confirm what was observed before them.
   */
  lemma RarelyAfterTwoConfirmations(first: Answer, answers: seq<Answer>)
    ensures var entry, n := Updated(None, first.response, first.at), |answers|;
      Interval(AfterAnswers(entry, answers).stable) == STABLE_REVALIDATE <==>
      n >= 2 && Confirms(entry, answers, n - 1) && Confirms(entry, answers, n - 2)
  {
    var entry, n := Updated(None, first.response, first.at), |answers|;
    assert answers[..n] == answers;
    StableCountsConfirmations(entry, answers, n);
  }

  /** The last size that could be read stays, until another one is read. */
  lemma {:induction false} FailedReadsKeepSize(entry: Entry, answers: seq<Answer>)
    requires forall a :: a in answers ==> a.response.observed.None?
    ensures AfterAnswers(entry, answers).observed == entry.observed
    decreases answers
  {
    if answers != [] {
      assert answers[|answers| - 1] in answers;
      FailedReadsKeepSize(entry, answers[..|answers| - 1]);
    }
  }

  // ---- What is shown after an answer ------------------------------------------------------------

  /** The cache after an answer to the current request of a path. */
  function AfterAccepted(cache: Cache, capacity: nat, r: Response, now: nat): Cache
    requires capacity > 0
  {
    Put(cache, capacity, r.path, Updated(Matching(cache, r.path, r.mtime), r, now))
  }

  /**
    From then on the size that was read is shown for the file as it was listed, and the size of the listing once
    the listing shows another modification time; a failed read changes nothing of what is shown.
   */
  lemma AnswerIsShown(cache: Cache, capacity: nat, r: Response, now: nat, mtime: nat, fallback: nat)
    requires capacity > 0
    ensures r.observed.Some? ==> ResolvedSize(AfterAccepted(cache, capacity, r, now), r.path, r.mtime, fallback) == r.observed.value.size
    ensures r.observed.None? ==>
      ResolvedSize(AfterAccepted(cache, capacity, r, now), r.path, r.mtime, fallback) == ResolvedSize(cache, r.path, r.mtime, fallback)
    ensures mtime != r.mtime ==> ResolvedSize(AfterAccepted(cache, capacity, r, now), r.path, mtime, fallback) == fallback
  {
    PutFinds(cache, capacity, r.path, Updated(Matching(cache, r.path, r.mtime), r, now), r.path);
  }

  /** Other files show what they showed, or the size of the listing if their entry had to go. */
  lemma OtherFilesStay(cache: Cache, capacity: nat, r: Response, now: nat, path: string, mtime: nat, fallback: nat)
    requires capacity > 0 && path != r.path
    ensures ResolvedSize(AfterAccepted(cache, capacity, r, now), path, mtime, fallback) in {ResolvedSize(cache, path, mtime, fallback), fallback}
    ensures |cache| < capacity ==>
      ResolvedSize(AfterAccepted(cache, capacity, r, now), path, mtime, fallback) == ResolvedSize(cache, path, mtime, fallback)
  {
    var entry := Updated(Matching(cache, r.path, r.mtime), r, now);
    PutFinds(cache, capacity, r.path, entry, path);
    if |cache| < capacity {
      PutForgetsOldest(cache, capacity, r.path, entry, path);
    }
  }

  /** A file that changed shows the size of the listing again. */
  lemma InvalidatedShowsListing(cache: Cache, path: string, mtime: nat, fallback: nat)
    ensures ResolvedSize(Pop(cache, path), path, mtime, fallback) == fallback
  {
    PopForgets(cache, path, path);
  }

  /** For a second after an answer the file is not asked about again, and not for half a minute once it is stable. */
  lemma NotAskedAgainSoon(state: LiveFileSizeState, cache: Cache, r: Response, at: nat, now: nat, probe: (string, nat) -> bool)
    requires state.capacity > 0 && state.cache == AfterAccepted(cache, state.capacity, r, at)
    requires now < at + 1000 ||
      (now < at + 30000 && Matching(cache, r.path, r.mtime).Some? && Matching(cache, r.path, r.mtime).value.stable >= 1 &&
       Matching(cache, r.path, r.mtime).value.observed == r.observed)
    ensures !state.Wants(r.path, r.mtime, now, probe)
  {
    PutFinds(cache, state.capacity, r.path, Updated(Matching(cache, r.path, r.mtime), r, at), r.path);
  }

  /** Later it is asked about exactly if the file looks changed since the last read, nothing is under way for it, and a slot is free. */
  lemma AskedAgainLater(state: LiveFileSizeState, cache: Cache, r: Response, at: nat, now: nat, probe: (string, nat) -> bool)
    requires state.capacity > 0 && state.cache == AfterAccepted(cache, state.capacity, r, at) && now >= at + 30000
    ensures r.observed.Some? ==>
      (state.Wants(r.path, r.mtime, now, probe) <==>
        probe(r.path, r.observed.value.modified.GetOr(r.mtime)) &&
        !(r.path in state.byPath && state.byPath[r.path].mtime == r.mtime) && |state.outstanding| < 64)
  {
    PutFinds(cache, state.capacity, r.path, Updated(Matching(cache, r.path, r.mtime), r, at), r.path);
  }
}
