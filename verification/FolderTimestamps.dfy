/** Bounded, coalesced reads of folder dates: one batch at a time, newest wishes win. */
module FolderTimestamps {
  import opened Folding
  import opened Wrappers

  const DEBOUNCE: nat := 2000
  const MAX_PENDING: nat := 1024
  const BATCH_SIZE: nat := 16

  datatype RefreshReason = Missing | Watcher | Manual {
    function Priority(): nat {
      match this
      case Manual => 0
      case Missing => 1
      case Watcher => 2
    }
  }

  datatype FolderDates = FolderDates(modified: nat, created: Option<nat>)

  datatype Pending = Pending(path: string, due: nat, reason: RefreshReason)

  datatype ReadResult = ReadResult(path: string, dates: Option<FolderDates>)

  /** What a look at the worker's channel finds. */
  datatype WorkerNews = Silent | Done(results: seq<ReadResult>) | Gone

  type Queue = map<string, Pending>

  /** The earlier a request is served, the less it weighs: priority first, then the time it is due. */
  predicate NotAfter(a: Pending, b: Pending) {
    a.reason.Priority() < b.reason.Priority() || (a.reason.Priority() == b.reason.Priority() && a.due <= b.due)
  }

  predicate IsDue(pending: Queue, key: string, now: nat) {
    key in pending && pending[key].due <= now
  }

  ghost predicate KeysMatch(normalize: string -> string, pending: Queue) {
    forall k :: k in pending ==> normalize(pending[k].path) == k
  }

  // ---- Choosing a victim ----------------------------------------------------------------------

  /** A request the queue can give up for a manual one: not manual itself, and none weighs more. */
  ghost predicate IsVictim(pending: Queue, key: string) {
    && key in pending && !pending[key].reason.Manual?
    && (forall k :: k in pending && !pending[k].reason.Manual? ==> NotAfter(pending[k], pending[key]))
  }

  ghost predicate BestSoFar(pending: Queue, rest: set<string>, best: Option<string>) {
    && (best.Some? ==> best.value in pending && !pending[best.value].reason.Manual?)
    && (forall k :: k in pending && k !in rest && !pending[k].reason.Manual? ==> best.Some? && NotAfter(pending[k], pending[best.value]))
  }

  method FindVictim(pending: Queue) returns (victim: Option<string>)
    ensures victim.Some? ==> IsVictim(pending, victim.value)
    ensures victim.None? ==> forall k :: k in pending ==> pending[k].reason.Manual?
  {
    victim := None;
    var rest := pending.Keys;
    while rest != {}
      invariant rest <= pending.Keys && BestSoFar(pending, rest, victim)
      decreases |rest|
    {
      var key :| key in rest;
      rest := rest - {key};
      if !pending[key].reason.Manual? && (victim.None? || NotAfter(pending[victim.value], pending[key])) {
        victim := Some(key);
      }
    }
  }

  // ---- Choosing a batch ----------------------------------------------------------------------

  /** A due request with what it is sorted by. */
  datatype Deadline = Deadline(key: string, priority: nat, due: nat)

  predicate Sooner(a: Deadline, b: Deadline) {
    a.priority < b.priority || (a.priority == b.priority && a.due <= b.due)
  }

  function DeadlineOf(key: string, request: Pending): Deadline {
    Deadline(key, request.reason.Priority(), request.due)
  }

  ghost predicate Sorted(list: seq<Deadline>) {
    forall i, j :: 0 <= i < j < |list| ==> Sooner(list[i], list[j])
  }

  ghost predicate NoRepeats(keys: seq<string>) {
    forall i, j :: 0 <= i < j < |keys| ==> keys[i] != keys[j]
  }

  function KeysOf(list: seq<Deadline>): seq<string> {
    seq(|list|, i requires 0 <= i < |list| => list[i].key)
  }

  function Insert(d: Deadline, list: seq<Deadline>): seq<Deadline> {
    if list == [] || Sooner(d, list[0]) then [d] + list else [list[0]] + Insert(d, list[1..])
  }

  lemma {:induction false} InsertMembers(d: Deadline, list: seq<Deadline>, x: Deadline)
    ensures x in Insert(d, list) <==> x == d || x in list
    decreases list
  {
    if list != [] && !Sooner(d, list[0]) {
      InsertMembers(d, list[1..], x);
      assert list == [list[0]] + list[1..];
    }
  }

  lemma InsertBehind(d: Deadline, list: seq<Deadline>, i: nat)
    requires list != [] && !Sooner(d, list[0]) && Sorted(list) && d.key !in KeysOf(list) && NoRepeats(KeysOf(list))
    requires i < |Insert(d, list[1..])|
    ensures Sooner(list[0], Insert(d, list[1..])[i]) && list[0].key != Insert(d, list[1..])[i].key
  {
    var x := Insert(d, list[1..])[i];
    InsertMembers(d, list[1..], x);
    assert KeysOf(list)[0] == list[0].key;
    if x != d {
      var j :| 0 <= j < |list[1..]| && list[1..][j] == x;
      assert list[j + 1] == x && KeysOf(list)[j + 1] == x.key;
    }
  }

  lemma {:induction false} InsertSorted(d: Deadline, list: seq<Deadline>)
    requires Sorted(list) && NoRepeats(KeysOf(list)) && d.key !in KeysOf(list)
    ensures Sorted(Insert(d, list)) && NoRepeats(KeysOf(Insert(d, list)))
    decreases list
  {
    if list == [] || Sooner(d, list[0]) {
      assert forall i :: 0 <= i < |list| ==> KeysOf(list)[i] == list[i].key;
    } else {
      var rest := list[1..];
      assert KeysOf(rest) == KeysOf(list)[1..];
      InsertSorted(d, rest);
      var inserted := Insert(d, rest);
      forall i | 0 <= i < |inserted| ensures Sooner(list[0], inserted[i]) && list[0].key != inserted[i].key {
        InsertBehind(d, list, i);
      }
      assert KeysOf([list[0]] + inserted) == [list[0].key] + KeysOf(inserted);
    }
  }

  /** The list holds exactly the due requests that are not in `rest`. */
  ghost predicate ListsDue(list: seq<Deadline>, pending: Queue, rest: set<string>, now: nat) {
    && (forall x :: x in list ==> IsDue(pending, x.key, now) && x.key !in rest && x == DeadlineOf(x.key, pending[x.key]))
    && (forall k :: IsDue(pending, k, now) && k !in rest ==> DeadlineOf(k, pending[k]) in list)
  }

  lemma KeyInKeys(list: seq<Deadline>, k: string)
    ensures k in KeysOf(list) <==> exists x :: x in list && x.key == k
  {
    if k in KeysOf(list) {
      var i :| 0 <= i < |list| && KeysOf(list)[i] == k;
      assert list[i] in list;
    }
    forall x | x in list && x.key == k ensures k in KeysOf(list) {
      var i :| 0 <= i < |list| && list[i] == x;
      assert KeysOf(list)[i] == k;
    }
  }

  lemma ListsOneMore(list: seq<Deadline>, pending: Queue, rest: set<string>, now: nat, key: string)
    requires key in rest && IsDue(pending, key, now) && ListsDue(list, pending, rest, now)
    requires Sorted(list) && NoRepeats(KeysOf(list))
    ensures ListsDue(Insert(DeadlineOf(key, pending[key]), list), pending, rest - {key}, now)
    ensures Sorted(Insert(DeadlineOf(key, pending[key]), list)) && NoRepeats(KeysOf(Insert(DeadlineOf(key, pending[key]), list)))
  {
    var d := DeadlineOf(key, pending[key]);
    KeyInKeys(list, key);
    InsertSorted(d, list);
    forall x ensures x in Insert(d, list) <==> x == d || x in list {
      InsertMembers(d, list, x);
    }
  }

  /** All due requests, the most urgent first. Requests that weigh the same come in any order. */
  method CollectDue(pending: Queue, now: nat) returns (due: seq<Deadline>)
    ensures ListsDue(due, pending, {}, now) && Sorted(due) && NoRepeats(KeysOf(due))
  {
    due := [];
    var rest := pending.Keys;
    while rest != {}
      invariant rest <= pending.Keys && ListsDue(due, pending, rest, now) && Sorted(due) && NoRepeats(KeysOf(due))
      decreases |rest|
    {
      var key :| key in rest;
      if pending[key].due <= now {
        ListsOneMore(due, pending, rest, now, key);
        due := Insert(DeadlineOf(key, pending[key]), due);
      }
      rest := rest - {key};
    }
  }

  /** The sixteen most urgent due requests, or all of them if there are fewer (folded, see Unfold). */
  ghost predicate IsBatch(pending: Queue, now: nat, batch: seq<string>) {
    forall key {:trigger Unfold(key)} :: Unfold(key) ==>
      && NoRepeats(batch) && |batch| <= BATCH_SIZE
      && (forall k :: k in batch ==> IsDue(pending, k, now))
      && (|batch| < BATCH_SIZE ==> forall k :: IsDue(pending, k, now) ==> k in batch)
      && (forall a, b :: a in batch && IsDue(pending, b, now) && b !in batch ==> a in pending && NotAfter(pending[a], pending[b]))
  }

  lemma BatchIsQueued(pending: Queue, now: nat, batch: seq<string>)
    requires IsBatch(pending, now, batch)
    ensures NoRepeats(batch) && |batch| <= BATCH_SIZE && forall k :: k in batch ==> k in pending
  {
    assert Unfold(0);
  }

  lemma FirstOnesAreBatch(pending: Queue, now: nat, due: seq<Deadline>, n: nat)
    requires ListsDue(due, pending, {}, now) && Sorted(due) && NoRepeats(KeysOf(due))
    requires n <= |due| && n <= BATCH_SIZE && (n == |due| || n == BATCH_SIZE)
    ensures IsBatch(pending, now, KeysOf(due[..n]))
  {
    var batch := KeysOf(due[..n]);
    assert forall i :: 0 <= i < n ==> batch[i] == KeysOf(due)[i];
    forall k | k in batch ensures IsDue(pending, k, now) {
      KeyInKeys(due[..n], k);
    }
    forall k | IsDue(pending, k, now) && k !in batch ensures n < |due| && UrgentBefore(pending, batch, k) {
      LaterIsLess(pending, now, due, n, k);
    }
  }

  ghost predicate UrgentBefore(pending: Queue, batch: seq<string>, k: string) {
    forall a :: a in batch ==> a in pending && k in pending && NotAfter(pending[a], pending[k])
  }

  lemma KeyAmongFirst(list: seq<Deadline>, n: nat, j: nat)
    requires n <= |list| && j < |list|
    ensures j < n ==> list[j].key in KeysOf(list[..n])
  {
    if j < n {
      assert KeysOf(list[..n])[j] == list[j].key;
    }
  }

  lemma LaterIsLess(pending: Queue, now: nat, due: seq<Deadline>, n: nat, k: string)
    requires ListsDue(due, pending, {}, now) && Sorted(due) && n <= |due|
    requires IsDue(pending, k, now) && k !in KeysOf(due[..n])
    ensures n < |due| && UrgentBefore(pending, KeysOf(due[..n]), k)
  {
    var d := DeadlineOf(k, pending[k]);
    var j :| 0 <= j < |due| && due[j] == d;
    KeyAmongFirst(due, n, j);
    forall a | a in KeysOf(due[..n]) ensures a in pending && NotAfter(pending[a], pending[k]) {
      var i :| 0 <= i < n && KeysOf(due[..n])[i] == a;
      assert due[i] in due;
      assert Sooner(due[i], due[j]);
    }
  }

  // ---- The queue and its batch ---------------------------------------------------------------------

  function Reported(normalize: string -> string, inFlight: map<string, bool>, touched: set<string>, results: seq<ReadResult>, n: nat)
    : seq<(string, FolderDates)>
    requires n <= |results|
  {
    if n == 0 then []
    else
      var before, r := Reported(normalize, inFlight, touched, results, n - 1), results[n - 1];
      if normalize(r.path) in inFlight && normalize(r.path) !in touched && r.dates.Some? then before + [(r.path, r.dates.value)] else before
  }

  /** A read is reported exactly if its key was in the batch, was not asked for again, and dates were found. */
  lemma {:induction false} ReportedExactly(normalize: string -> string, inFlight: map<string, bool>, touched: set<string>,
                                           results: seq<ReadResult>, n: nat, path: string, dates: FolderDates)
    requires n <= |results|
    ensures (path, dates) in Reported(normalize, inFlight, touched, results, n) <==>
      ReadResult(path, Some(dates)) in results[..n] && normalize(path) in inFlight && normalize(path) !in touched
  {
    if n > 0 {
      ReportedExactly(normalize, inFlight, touched, results, n - 1, path, dates);
      assert results[..n] == results[..n - 1] + [results[n - 1]];
    }
  }

  /** The read of a key that is asked for again counts no more; all others are as before. */
  function Superseded(inFlight: map<string, bool>, key: string): map<string, bool> {
    if key in inFlight then inFlight[key := false] else inFlight
  }

  ghost predicate PathsOf(pending: Queue, batch: seq<string>, paths: seq<string>) {
    |paths| == |batch| && forall i :: 0 <= i < |batch| ==> batch[i] in pending && paths[i] == pending[batch[i]].path
  }

  /** A manual request took the place of a victim. */
  ghost predicate Displaced(before: Queue, after: Queue, key: string, request: Pending) {
    exists victim :: IsVictim(before, victim) && after == (before - {victim})[key := request]
  }

  /** A request for a key that was not queued. */
  function Queued(path: string, reason: RefreshReason, now: nat): Pending {
    Pending(path, if reason.Watcher? then now + DEBOUNCE else now, reason)
  }

  /** What an accepted request does to a queued one for the same key. */
  function Coalesced(queued: Pending, reason: RefreshReason, now: nat): Pending {
    if !reason.Watcher? then queued.(reason := reason, due := now)
    else if queued.reason.Watcher? then queued.(due := now + DEBOUNCE)
    else queued
  }

  /** The first `n` keys joined the queue as background requests, and all other requests are as before. */
  ghost predicate Rejoined(before: Queue, after: Queue, paths: seq<string>, keys: seq<string>, n: nat, now: nat)
    requires n <= |keys| == |paths|
  {
    && after.Keys == before.Keys + KeySet(keys[..n])
    && (forall k :: k in before ==> after[k] == before[k])
    && (forall i :: 0 <= i < n ==> keys[i] in after && after[keys[i]] == Queued(paths[i], Watcher, now))
  }

  /** The queue when a batch could not be started: its requests are background ones now, all others are as before. */
  ghost function Demoted(queue: Queue, batch: seq<string>, now: nat): Queue {
    map k | k in queue :: if k in batch then Queued(queue[k].path, Watcher, now) else queue[k]
  }

  /** A least selection of the due requests was tried, and went back as background requests. */
  ghost predicate NotStarted(before: Queue, now: nat, after: Queue) {
    exists batch :: IsBatch(before, now, batch) && after == Demoted(before, batch, now)
  }

  /** A least selection of the due requests left the queue and is in flight. */
  ghost predicate Started(before: Queue, now: nat, after: Queue, flight: set<string>) {
    exists batch :: IsBatch(before, now, batch) && after == before - KeySet(batch) && flight == KeySet(batch)
  }

  class FolderTimestampState {
    const normalize: string -> string
    var pending: Queue
    var inFlight: map<string, bool>
    var workerRunning: bool
    /** Keys a watcher or the user asked for since the batch in flight was taken. */
    ghost var touched: set<string>

    ghost predicate Valid()
      reads this
    {
      && |pending| <= MAX_PENDING && |inFlight| <= BATCH_SIZE
      && KeysMatch(normalize, pending)
      && (forall k :: k in inFlight ==> (inFlight[k] <==> k !in touched))
      && (forall k :: k in inFlight && k in pending ==> k in touched)
    }

    /** Between two polls a batch is in flight exactly while a worker is running. */
    ghost predicate Settled()
      reads this
    {
      Valid() && (workerRunning <==> inFlight != map[])
    }

    constructor (normalize: string -> string)
      ensures Settled() && pending == map[] && inFlight == map[] && this.normalize == normalize
    {
      this.normalize := normalize;
      pending, inFlight, workerRunning, touched := map[], map[], false, {};
    }

    method Request(path: string, reason: RefreshReason, now: nat) returns (accepted: bool)
      requires Valid()
      modifies this`pending, this`inFlight, this`touched
      ensures Valid() && inFlight.Keys == old(inFlight.Keys)
      ensures reason.Missing? && (normalize(path) in old(pending) || normalize(path) in old(inFlight)) ==>
        !accepted && pending == old(pending) && inFlight == old(inFlight) && touched == old(touched)
      ensures reason.Missing? ==> touched == old(touched) && inFlight == old(inFlight)
      ensures reason.Missing? && normalize(path) !in old(pending) && normalize(path) !in old(inFlight) && |old(pending)| < MAX_PENDING ==>
        accepted
      ensures !reason.Missing? ==> touched == old(touched) + {normalize(path)}
      ensures !reason.Missing? ==> inFlight == Superseded(old(inFlight), normalize(path))
      ensures normalize(path) in old(pending) && !reason.Missing? ==>
        accepted && pending == old(pending)[normalize(path) := Coalesced(old(pending)[normalize(path)], reason, now)]
      ensures normalize(path) !in old(pending) && !accepted ==> pending == old(pending)
      ensures normalize(path) !in old(pending) && accepted && |old(pending)| < MAX_PENDING ==>
        pending == old(pending)[normalize(path) := Queued(path, reason, now)]
      ensures normalize(path) !in old(pending) && accepted && |old(pending)| >= MAX_PENDING ==>
        reason.Manual? && Displaced(old(pending), pending, normalize(path), Queued(path, reason, now))
      ensures |old(pending)| < 1024 && !reason.Missing? ==> accepted
      ensures accepted && reason.Manual? ==>
        normalize(path) in pending && pending[normalize(path)].reason.Manual? && pending[normalize(path)].due == now
      ensures accepted && normalize(path) !in old(pending) ==>
        normalize(path) in pending && pending[normalize(path)] == Pending(path, if reason.Watcher? then now + 2000 else now, reason)
      ensures reason.Manual? && !accepted ==>
        |pending| == 1024 && forall k :: k in pending ==> pending[k].reason.Manual?
    {
      var key := normalize(path);
      if reason.Missing? && (key in pending || key in inFlight) {
        return false;
      }
      if !reason.Missing? {
        Supersede(key);
      }
      if key in pending {
        pending := pending[key := Coalesced(pending[key], reason, now)];
        return true;
      }
      accepted := Enqueue(key, Queued(path, reason, now));
    }

    /** A read that is under way for this key will not be reported. */
    method Supersede(key: string)
      requires Valid()
      modifies this`inFlight, this`touched
      ensures Valid() && inFlight == Superseded(old(inFlight), key) && touched == old(touched) + {key}
    {
      touched := touched + {key};
      if key in inFlight {
        inFlight := inFlight[key := false];
      }
    }

    /** A new key: a full queue gives up one request for a manual one, and refuses all others. */
    method Enqueue(key: string, request: Pending) returns (accepted: bool)
      requires |pending| <= MAX_PENDING && KeysMatch(normalize, pending)
      requires key !in pending && normalize(request.path) == key
      modifies this`pending
      ensures |pending| <= MAX_PENDING && KeysMatch(normalize, pending)
      ensures !accepted ==> pending == old(pending) && |pending| == MAX_PENDING
      ensures accepted && |old(pending)| < MAX_PENDING ==> pending == old(pending)[key := request]
      ensures accepted && |old(pending)| >= MAX_PENDING ==> request.reason.Manual? && Displaced(old(pending), pending, key, request)
      ensures |old(pending)| < MAX_PENDING ==> accepted
      ensures request.reason.Manual? && !accepted ==> forall k :: k in pending ==> pending[k].reason.Manual?
    {
      if |pending| >= MAX_PENDING && request.reason.Manual? {
        var victim := FindVictim(pending);
        if victim.Some? {
          RemoveOne(pending, victim.value);
          pending := pending - {victim.value};
        }
      }
      if |pending| >= MAX_PENDING {
        return false;
      }
      InsertOne(pending, key, request);
      pending := pending[key := request];
      accepted := true;
    }

    /** Move queued requests into flight. */
    method MoveToFlight(batch: seq<string>) returns (paths: seq<string>)
      requires inFlight == map[] && NoRepeats(batch) && forall k :: k in batch ==> k in pending
      modifies this`pending, this`inFlight
      ensures pending == old(pending) - KeySet(batch)
      ensures inFlight.Keys == KeySet(batch) && (forall k :: k in batch ==> inFlight[k])
      ensures PathsOf(old(pending), batch, paths)
    {
      paths := [];
      ghost var before := pending;
      for i := 0 to |batch|
        invariant pending == before - KeySet(batch[..i]) && inFlight.Keys == KeySet(batch[..i])
        invariant forall k :: k in inFlight ==> inFlight[k]
        invariant |paths| == i && (forall j :: 0 <= j < i ==> paths[j] == before[batch[j]].path)
      {
        var key := batch[i];
        KeySetNext(batch, i);
        assert key in batch && key in pending;
        paths := paths + [pending[key].path];
        pending := pending - {key};
        inFlight := inFlight[key := true];
      }
      assert batch[..|batch|] == batch;
    }

    /** Start the next batch, unless one is in flight. */
    method TakeDue(now: nat) returns (paths: seq<string>, batch: seq<string>)
      requires Valid()
      modifies this`pending, this`inFlight, this`touched
      ensures Valid()
      ensures old(inFlight) != map[] ==>
        paths == [] && batch == [] && pending == old(pending) && inFlight == old(inFlight) && touched == old(touched)
      ensures old(inFlight) == map[] ==>
        && IsBatch(old(pending), now, batch) && pending == old(pending) - KeySet(batch)
        && inFlight.Keys == KeySet(batch) && (forall k :: k in batch ==> inFlight[k]) && touched == {}
        && PathsOf(old(pending), batch, paths)
    {
      paths, batch := [], [];
      if inFlight != map[] {
        return;
      }
      touched := {};
      var due := CollectDue(pending, now);
      var n := if |due| <= BATCH_SIZE then |due| else BATCH_SIZE;
      FirstOnesAreBatch(pending, now, due, n);
      batch := KeysOf(due[..n]);
      BatchIsQueued(pending, now, batch);
      BatchLeaves(pending, batch);
      paths := MoveToFlight(batch);
      KeySetSize(batch);
      MapSize(inFlight, KeySet(batch));
    }

    /** A batch has been read: report what nobody asked for again in the meantime. */
    method Finish(results: seq<ReadResult>) returns (ready: seq<(string, FolderDates)>)
      requires Valid()
      modifies this`inFlight
      ensures Valid() && inFlight == map[]
      ensures ready == Reported(normalize, old(inFlight), touched, results, |results|)
    {
      var read := inFlight;
      inFlight := map[];
      ready := [];
      for i := 0 to |results|
        invariant ready == Reported(normalize, read, touched, results, i)
      {
        var key := normalize(results[i].path);
        if !(key !in read || !read[key] || key in pending) && results[i].dates.Some? {
          ready := ready + [(results[i].path, results[i].dates.value)];
        }
      }
    }

    /** A request that could not be started is queued again as a background one. */
    method Requeue(path: string, ghost key: string, now: nat)
      requires Valid() && inFlight == map[] && |pending| < MAX_PENDING && key == normalize(path) && key !in pending
      modifies this`pending, this`inFlight, this`touched
      ensures Valid() && inFlight == map[]
      ensures pending == old(pending)[key := Queued(path, Watcher, now)] && |pending| == |old(pending)| + 1
    {
      InsertOne(pending, key, Queued(path, Watcher, now));
      var accepted := Request(path, Watcher, now);
    }

    /** The first `i` keys are queued again, and there is room for the others. */
    ghost predicate Returned(before: Queue, paths: seq<string>, keys: seq<string>, i: nat, now: nat)
      requires i <= |keys| == |paths|
      reads this
    {
      Valid() && inFlight == map[] && |pending| + |keys| - i <= MAX_PENDING && Rejoined(before, pending, paths, keys, i, now)
    }

    method RetryNext(paths: seq<string>, i: nat, ghost keys: seq<string>, ghost before: Queue, now: nat)
      requires i < |paths| == |keys| && normalize(paths[i]) == keys[i] && NoRepeats(keys) && keys[i] !in before
      requires Returned(before, paths, keys, i, now)
      modifies this`pending, this`inFlight, this`touched
      ensures Returned(before, paths, keys, i + 1, now)
    {
      ghost var mid := pending;
      RejoinedNext(before, mid, paths, keys, i, now);
      Requeue(paths[i], keys[i], now);
      assert pending == mid[keys[i] := Queued(paths[i], Watcher, now)];
    }

    /** Requests of a batch that could not be started go back to the queue. */
    method Retry(paths: seq<string>, ghost keys: seq<string>, now: nat)
      requires Valid() && inFlight == map[] && |paths| == |keys| <= BATCH_SIZE && |pending| + |keys| <= MAX_PENDING
      requires forall i :: 0 <= i < |keys| ==> normalize(paths[i]) == keys[i]
      requires NoRepeats(keys) && forall k :: k in keys ==> k !in pending
      modifies this`pending, this`inFlight, this`touched
      ensures Valid() && inFlight == map[] && Rejoined(old(pending), pending, paths, keys, |keys|, now)
    {
      ghost var before := pending;
      assert KeySet(keys[..0]) == {};
      for i := 0 to |paths|
        invariant Returned(before, paths, keys, i, now)
      {
        assert keys[i] in keys;
        RetryNext(paths, i, keys, before, now);
      }
    }

    /** Take in what the worker has to say. */
    method Absorb(news: WorkerNews) returns (ready: seq<(string, FolderDates)>)
      requires Settled()
      modifies this`workerRunning, this`inFlight
      ensures Settled() && pending == old(pending)
      ensures ready == if old(workerRunning) && news.Done? then Reported(normalize, old(inFlight), touched, news.results, |news.results|) else []
      ensures old(workerRunning) && news.Silent? ==> inFlight == old(inFlight) && workerRunning
      ensures !(old(workerRunning) && news.Silent?) ==> inFlight == map[] && !workerRunning
    {
      ready := [];
      if workerRunning {
        match news
        case Done(results) =>
          workerRunning := false;
          ready := Finish(results);
        case Gone =>
          workerRunning := false;
          inFlight := map[];
        case Silent =>
      }
    }

    /** No worker can be started: the batch that was just taken goes back. */
    method PutBack(ghost queued: Queue, paths: seq<string>, ghost batch: seq<string>, now: nat)
      requires Valid() && |queued| <= MAX_PENDING && KeysMatch(normalize, queued)
      requires IsBatch(queued, now, batch) && pending == queued - KeySet(batch) && PathsOf(queued, batch, paths)
      modifies this`pending, this`inFlight, this`touched
      ensures Valid() && inFlight == map[] && pending == Demoted(queued, batch, now)
    {
      inFlight := map[];
      BatchIsQueued(queued, now, batch);
      BatchLeaves(queued, batch);
      ghost var left := pending;
      Retry(paths, batch, now);
      RejoinedIsDemoted(queued, left, pending, paths, batch, now);
    }

    /** A worker takes the batch that was just taken, or the batch goes back. */
    method StartBatch(ghost queued: Queue, paths: seq<string>, ghost batch: seq<string>, now: nat, spawns: bool)
      requires Valid() && !workerRunning && inFlight != map[] && |queued| <= MAX_PENDING && KeysMatch(normalize, queued)
      requires IsBatch(queued, now, batch) && pending == queued - KeySet(batch) && PathsOf(queued, batch, paths)
      modifies this
      ensures Settled()
      ensures spawns ==> pending == old(pending) && inFlight == old(inFlight) && touched == old(touched)
      ensures !spawns ==> pending == Demoted(queued, batch, now) && inFlight == map[]
    {
      if spawns {
        workerRunning := true;
      } else {
        PutBack(queued, paths, batch, now);
      }
    }

    /** Start a worker for the next batch, if there is one. */
    method StartNext(now: nat, spawns: bool)
      requires Settled()
      modifies this
      ensures Settled()
      ensures old(workerRunning) ==> pending == old(pending) && inFlight == old(inFlight) && touched == old(touched) && workerRunning
      ensures !old(workerRunning) && spawns ==> Started(old(pending), now, pending, inFlight.Keys) && touched == {}
      ensures !old(workerRunning) && !spawns ==> NotStarted(old(pending), now, pending) && inFlight == map[]
      ensures !spawns ==> pending.Keys == old(pending.Keys)
    {
      ghost var queued := pending;
      var paths, batch := TakeDue(now);
      if paths != [] {
        assert batch[0] in KeySet(batch);
        StartBatch(queued, paths, batch, now, spawns);
      } else {
        assert KeySet([]) == {} && Demoted(queued, [], now) == queued;
      }
    }

    /** One round: take in a finished batch, then start the next one. No accepted request is lost when none can start. */
    method Poll(news: WorkerNews, now: nat, spawns: bool) returns (ready: seq<(string, FolderDates)>)
      requires Settled()
      modifies this
      ensures Settled()
      ensures ready == if old(workerRunning) && news.Done? then Reported(normalize, old(inFlight), old(touched), news.results, |news.results|) else []
      ensures old(workerRunning) && news.Silent? ==>
        pending == old(pending) && inFlight == old(inFlight) && touched == old(touched) && workerRunning
      ensures !(old(workerRunning) && news.Silent?) && spawns ==> Started(old(pending), now, pending, inFlight.Keys) && touched == {}
      ensures !(old(workerRunning) && news.Silent?) && !spawns ==> NotStarted(old(pending), now, pending) && inFlight == map[]
      ensures !spawns ==> pending.Keys == old(pending.Keys)
    {
      ready := Absorb(news);
      StartNext(now, spawns);
    }
  }

  // ---- One read from start to report -----------------------------------------------------------------

  /** What the window does while a batch is being read. */
  datatype Call = Ask(path: string, reason: RefreshReason, now: nat) | Wait(now: nat, spawns: bool)

  /** The keys a watcher or the user asked for in the first `n` calls. */
  function AskedFor(normalize: string -> string, calls: seq<Call>, n: nat): set<string>
    requires n <= |calls|
  {
    if n == 0 then {}
    else if calls[n - 1].Ask? && !calls[n - 1].reason.Missing? then AskedFor(normalize, calls, n - 1) + {normalize(calls[n - 1].path)}
    else AskedFor(normalize, calls, n - 1)
  }

  method BeginReading(q: FolderTimestampState, now: nat) returns (ghost batch: seq<string>)
    requires q.Settled() && !q.workerRunning && exists k :: IsDue(q.pending, k, now)
    modifies q
    ensures q.Settled() && q.workerRunning && q.touched == {}
    ensures batch != [] && IsBatch(old(q.pending), now, batch) && q.inFlight.Keys == KeySet(batch)
  {
    ghost var queued := q.pending;
    var nothing := q.Poll(Silent, now, true);
    batch :| IsBatch(queued, now, batch) && q.pending == queued - KeySet(batch) && q.inFlight.Keys == KeySet(batch);
    SomeAreTaken(queued, now, batch);
    assert batch[0] in q.inFlight;
  }

  method WhileReading(q: FolderTimestampState, calls: seq<Call>)
    requires q.Settled() && q.workerRunning
    modifies q
    ensures q.Settled() && q.workerRunning && q.inFlight.Keys == old(q.inFlight.Keys)
    ensures q.touched == old(q.touched) + AskedFor(q.normalize, calls, |calls|)
  {
    for i := 0 to |calls|
      invariant q.Settled() && q.workerRunning && q.inFlight.Keys == old(q.inFlight.Keys)
      invariant q.touched == old(q.touched) + AskedFor(q.normalize, calls, i)
    {
      match calls[i]
      case Ask(path, reason, now) =>
        var accepted := q.Request(path, reason, now);
        assert q.inFlight != map[];
      case Wait(now, spawns) =>
        var ready := q.Poll(Silent, now, spawns);
    }
  }

  /**
    From the poll that starts a batch, through any requests and polls in between, to the poll that takes
    its results in: reported are exactly the results with dates for keys of the batch that neither a
    watcher nor the user asked for in the meantime.
   */
  method ReadCycle(q: FolderTimestampState, start: nat, calls: seq<Call>, results: seq<ReadResult>, end: nat, spawns: bool)
    returns (ready: seq<(string, FolderDates)>, ghost batch: seq<string>)
    requires q.Settled() && !q.workerRunning && exists k :: IsDue(q.pending, k, start)
    modifies q
    ensures q.Settled() && IsBatch(old(q.pending), start, batch) && batch != []
    ensures forall path, dates {:trigger (path, dates) in ready} :: (path, dates) in ready <==>
      ReadResult(path, Some(dates)) in results && q.normalize(path) in batch && q.normalize(path) !in AskedFor(q.normalize, calls, |calls|)
  {
    batch := BeginReading(q, start);
    WhileReading(q, calls);
    ghost var read, touched := q.inFlight, q.touched;
    ready := q.Poll(Done(results), end, spawns);
    ReportedOverall(q.normalize, read, touched, results, ready);
  }

  lemma ReportedOverall(normalize: string -> string, read: map<string, bool>, touched: set<string>, results: seq<ReadResult>,
                        ready: seq<(string, FolderDates)>)
    requires ready == Reported(normalize, read, touched, results, |results|)
    ensures forall path, dates {:trigger (path, dates) in ready} :: (path, dates) in ready <==>
      ReadResult(path, Some(dates)) in results && normalize(path) in read && normalize(path) !in touched
  {
    assert results[..|results|] == results;
    forall path, dates ensures (path, dates) in ready <==>
      ReadResult(path, Some(dates)) in results && normalize(path) in read && normalize(path) !in touched
    {
      ReportedExactly(normalize, read, touched, results, |results|, path, dates);
    }
  }

  lemma SomeAreTaken(pending: Queue, now: nat, batch: seq<string>)
    requires IsBatch(pending, now, batch) && exists k :: IsDue(pending, k, now)
    ensures batch != []
  {
    assert Unfold(0);
  }

  // ---- Sizes ---------------------------------------------------------------------------------------

  ghost function KeySet(keys: seq<string>): set<string> {
    set k | k in keys
  }

  lemma KeySetNext(keys: seq<string>, i: nat)
    requires i < |keys| && NoRepeats(keys)
    ensures KeySet(keys[..i + 1]) == KeySet(keys[..i]) + {keys[i]} && keys[i] !in KeySet(keys[..i])
  {
    assert keys[..i + 1] == keys[..i] + [keys[i]];
  }

  lemma {:induction false} KeySetSize(keys: seq<string>)
    requires NoRepeats(keys)
    ensures |KeySet(keys)| == |keys|
    decreases keys
  {
    if keys == [] {
      assert KeySet(keys) == {};
    } else {
      var init := keys[..|keys| - 1];
      KeySetSize(init);
      KeySetNext(keys, |keys| - 1);
      assert keys[..|keys|] == keys;
    }
  }

  lemma RemoveOne(pending: Queue, key: string)
    requires key in pending
    ensures |pending - {key}| == |pending| - 1
  {
    var smaller := pending - {key};
    assert smaller.Keys == pending.Keys - {key};
    MapSize(smaller, pending.Keys - {key});
    MapSize(pending, pending.Keys);
  }

  lemma InsertOne(pending: Queue, key: string, request: Pending)
    requires key !in pending
    ensures |pending[key := request]| == |pending| + 1
  {
    assert pending[key := request].Keys == pending.Keys + {key};
    MapSize(pending[key := request], pending.Keys + {key});
    MapSize(pending, pending.Keys);
  }

  lemma MapSize<V>(m: map<string, V>, keys: set<string>)
    requires m.Keys == keys
    ensures |m| == |keys|
  {
    assert |m| == |m.Keys|;
  }

  lemma SmallerQueue(pending: Queue, keys: set<string>)
    requires keys <= pending.Keys
    ensures |pending - keys| == |pending| - |keys|
  {
    assert (pending - keys).Keys == pending.Keys - keys;
    MapSize(pending - keys, pending.Keys - keys);
    MapSize(pending, pending.Keys);
  }

  lemma BatchLeaves(pending: Queue, batch: seq<string>)
    requires NoRepeats(batch) && forall k :: k in batch ==> k in pending
    ensures |pending - KeySet(batch)| + |batch| == |pending|
    ensures (pending - KeySet(batch)).Keys + KeySet(batch) == pending.Keys
  {
    SmallerQueue(pending, KeySet(batch));
    KeySetSize(batch);
  }

  lemma RejoinedNext(before: Queue, mid: Queue, paths: seq<string>, keys: seq<string>, i: nat, now: nat)
    requires i < |keys| == |paths| && NoRepeats(keys) && keys[i] !in before && Rejoined(before, mid, paths, keys, i, now)
    ensures keys[i] !in mid && Rejoined(before, mid[keys[i] := Queued(paths[i], Watcher, now)], paths, keys, i + 1, now)
  {
    KeySetNext(keys, i);
  }

  lemma RejoinedIsDemoted(queued: Queue, left: Queue, after: Queue, paths: seq<string>, batch: seq<string>, now: nat)
    requires left == queued - KeySet(batch) && PathsOf(queued, batch, paths) && Rejoined(left, after, paths, batch, |batch|, now)
    ensures after == Demoted(queued, batch, now)
  {
    assert batch[..|batch|] == batch;
    forall k | k in after ensures k in queued && after[k] == Demoted(queued, batch, now)[k] {
      if k in batch {
        var i :| 0 <= i < |batch| && batch[i] == k;
        assert after[batch[i]] == Queued(paths[i], Watcher, now);
      } else {
        assert k in left;
      }
    }
    forall k | k in queued ensures k in after {
      assert k in left || k in KeySet(batch);
    }
  }
}
