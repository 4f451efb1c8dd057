/** The search worker: one search at a time, always for the newest request. */
module SearchWorker {
  import opened DocxSearch
  import opened Folding
  import opened SearchRequests
  import opened Wrappers

  datatype SearchResult = SearchResult(query: string, generation: nat, matches: seq<Match>)

  /** The sending end for results. `takenAt` remembers how many requests were dequeued when each result was sent. */
  class ResultSender {
    var delivered: seq<SearchResult>
    ghost var takenAt: seq<nat>

    constructor ()
      ensures delivered == [] && takenAt == []
    {
      delivered, takenAt := [], [];
    }

    /** Sending fails once the receiver is gone. */
    method Send(result: SearchResult, ghost taken: nat) returns (ok: bool)
      modifies this
      ensures ok ==> delivered == old(delivered) + [result] && takenAt == old(takenAt) + [taken]
      ensures !ok ==> delivered == old(delivered) && takenAt == old(takenAt)
    {
      ok := *;
      if ok {
        delivered, takenAt := delivered + [result], takenAt + [taken];
      }
    }
  }

  /** `answer` gives the complete result for each request (folded, see Unfold). */
  ghost predicate Answers(answer: SearchRequest -> SearchResult, index: Index, lower: char -> string) {
    forall key {:trigger Unfold(key)} :: Unfold(key) ==>
      forall r {:trigger answer(r)} :: answer(r) == SearchResult(r.query, r.generation, Answer(index.pages, r.query, lower))
  }

  /** The complete result for each request. */
  ghost function CompleteAnswers(index: Index, lower: char -> string): SearchRequest -> SearchResult {
    (r: SearchRequest) => SearchResult(r.query, r.generation, Answer(index.pages, r.query, lower))
  }

  lemma CompleteAnswersAnswer(index: Index, lower: char -> string)
    ensures Answers(CompleteAnswers(index, lower), index, lower)
  {
  }

  /** At most one result for each request, in the order of the requests. */
  ghost predicate InStep(takenAt: seq<nat>, taken: nat) {
    && (forall k :: 0 <= k < |takenAt| ==> 0 < takenAt[k] <= taken)
    && (forall j, k :: 0 <= j < k < |takenAt| ==> takenAt[j] < takenAt[k])
  }

  /**
    Every result sent is the complete answer to the request that was dequeued last at that moment,
    and results come in the order of their requests.
   */
  ghost predicate Faithful(answer: SearchRequest -> SearchResult, script: seq<SearchRequest>,
                           delivered: seq<SearchResult>, takenAt: seq<nat>, taken: nat) {
    && |delivered| == |takenAt| && taken <= |script| && InStep(takenAt, taken)
    && (forall k :: 0 <= k < |takenAt| ==> delivered[k] == answer(script[takenAt[k] - 1]))
  }

  /** The newest dequeued request is blank, or its result was sent last. */
  ghost predicate Settled(script: seq<SearchRequest>, blank: string -> bool, takenAt: seq<nat>, taken: nat) {
    0 < taken <= |script| && !blank(script[taken - 1].query) ==> takenAt != [] && takenAt[|takenAt| - 1] == taken
  }

  /** Drop all requests but the newest. */
  method LatestRequest(first: SearchRequest, rx: RequestReceiver) returns (latest: SearchRequest)
    requires rx.Valid() && 0 < rx.taken && first == rx.script[rx.taken - 1]
    modifies rx`visible, rx`taken
    ensures rx.Valid() && old(rx.taken) <= rx.taken && latest == rx.script[rx.taken - 1]
    ensures rx.taken == rx.visible
  {
    latest := first;
    var next := rx.TryRecv();
    while next.Some?
      invariant rx.Valid() && old(rx.taken) <= rx.taken && 0 < rx.taken
      invariant next.Some? ==> next.value == rx.script[rx.taken - 1]
      invariant next.None? ==> latest == rx.script[rx.taken - 1] && rx.taken == rx.visible
      decreases |rx.script| - rx.taken, if next.Some? then 1 else 0
    {
      latest := next.value;
      next := rx.TryRecv();
    }
  }

  lemma OneMoreResult(answer: SearchRequest -> SearchResult, script: seq<SearchRequest>,
                      delivered: seq<SearchResult>, takenAt: seq<nat>, before: nat, taken: nat, result: SearchResult)
    requires before < taken <= |script| && Faithful(answer, script, delivered, takenAt, before)
    requires result == answer(script[taken - 1])
    ensures Faithful(answer, script, delivered + [result], takenAt + [taken], taken)
  {
  }

  lemma LaterTaken(answer: SearchRequest -> SearchResult, script: seq<SearchRequest>,
                   delivered: seq<SearchResult>, takenAt: seq<nat>, before: nat, taken: nat)
    requires before <= taken <= |script| && Faithful(answer, script, delivered, takenAt, before)
    ensures Faithful(answer, script, delivered, takenAt, taken)
  {
  }

  /** One search: a complete result, or the request that stopped it. */
  method Attempt(index: Index, request: SearchRequest, lower: char -> string, rx: RequestReceiver,
                 ghost answer: SearchRequest -> SearchResult)
    returns (result: Option<SearchResult>)
    requires index.Valid() && Answers(answer, index, lower)
    requires rx.Valid() && 0 < rx.taken && request == rx.script[rx.taken - 1]
    modifies rx
    ensures result.Some? ==> rx.Undisturbed(old(rx.taken)) && result.value == answer(request)
    ensures result.None? ==> rx.Replaced(old(rx.taken))
  {
    rx.replacement := None;
    var matches := Search(index, request.query, lower, rx, rx.taken);
    if rx.replacement.Some? {
      return None;
    }
    if matches.None? {
      assert false;
    }
    assert Unfold(0);
    result := Some(SearchResult(request.query, request.generation, matches.value));
  }

  /** Search for a request, restarting with newer ones, until a result is out or the newest is blank. */
  method Serve(index: Index, first: SearchRequest, lower: char -> string, blank: string -> bool, rx: RequestReceiver, tx: ResultSender,
               ghost answer: SearchRequest -> SearchResult)
    returns (gone: bool)
    requires index.Valid() && Answers(answer, index, lower)
    requires rx.Valid() && 0 < rx.taken && first == rx.script[rx.taken - 1]
    requires Faithful(answer, rx.script, tx.delivered, tx.takenAt, rx.taken - 1)
    modifies rx, tx
    ensures rx.Valid() && old(rx.taken) <= rx.taken
    ensures Faithful(answer, rx.script, tx.delivered, tx.takenAt, rx.taken)
    ensures !gone ==> Settled(rx.script, blank, tx.takenAt, rx.taken)
  {
    var request := LatestRequest(first, rx);
    ghost var script, before := rx.script, old(rx.taken) - 1;
    while true
      invariant rx.Valid() && old(rx.taken) <= rx.taken && request == script[rx.taken - 1]
      invariant Faithful(answer, script, tx.delivered, tx.takenAt, before)
      decreases |script| - rx.taken
    {
      LaterTaken(answer, script, tx.delivered, tx.takenAt, before, rx.taken);
      if blank(request.query) {
        return false;
      }
      var result := Attempt(index, request, lower, rx, answer);
      if result.None? {
        request := LatestRequest(rx.replacement.value, rx);
      } else {
        OneMoreResult(answer, script, tx.delivered, tx.takenAt, before, rx.taken, result.value);
        var sent := tx.Send(result.value, rx.taken);
        return !sent;
      }
    }
  }

  /** Serve requests until no more can come. */
  method ServeAll(index: Index, lower: char -> string, blank: string -> bool, rx: RequestReceiver, tx: ResultSender,
                  ghost answer: SearchRequest -> SearchResult)
    returns (gone: bool)
    requires index.Valid() && Answers(answer, index, lower)
    requires rx.Valid() && rx.taken == 0 && tx.delivered == [] && tx.takenAt == []
    modifies rx, tx
    ensures Faithful(answer, rx.script, tx.delivered, tx.takenAt, rx.taken)
    ensures !gone ==> rx.taken == |rx.script| && Settled(rx.script, blank, tx.takenAt, rx.taken)
  {
    gone := false;
    while true
      invariant rx.Valid() && !gone
      invariant Faithful(answer, rx.script, tx.delivered, tx.takenAt, rx.taken)
      invariant Settled(rx.script, blank, tx.takenAt, rx.taken)
      decreases |rx.script| - rx.taken
    {
      var first := rx.Recv();
      if first.None? {
        return;
      }
      gone := Serve(index, first.value, lower, blank, rx, tx, answer);
      if gone {
        return;
      }
    }
  }

  /** A result repeats query and number of some request and has all its matches. */
  ghost predicate AnswersRequest(result: SearchResult, index: Index, lower: char -> string, script: seq<SearchRequest>) {
    exists i :: 0 <= i < |script| && result.query == script[i].query && result.generation == script[i].generation &&
      result.matches == Answer(index.pages, script[i].query, lower)
  }

  /**
    The whole life of the worker. When the senders are gone and the receiver of results is not,
    the last request was answered unless it is blank.
   */
  method RunSearchWorker(index: Index, lower: char -> string, blank: string -> bool, rx: RequestReceiver, tx: ResultSender)
    returns (gone: bool)
    requires index.Valid() && rx.Valid() && rx.taken == 0 && tx.delivered == [] && tx.takenAt == []
    modifies rx, tx
    ensures Faithful(CompleteAnswers(index, lower), rx.script, tx.delivered, tx.takenAt, rx.taken)
    ensures forall k :: 0 <= k < |tx.delivered| ==> AnswersRequest(tx.delivered[k], index, lower, rx.script)
    ensures !gone ==> rx.taken == |rx.script| && Settled(rx.script, blank, tx.takenAt, rx.taken)
  {
    CompleteAnswersAnswer(index, lower);
    gone := ServeAll(index, lower, blank, rx, tx, CompleteAnswers(index, lower));
    forall k | 0 <= k < |tx.delivered| ensures AnswersRequest(tx.delivered[k], index, lower, rx.script) {
      assert tx.delivered[k] == CompleteAnswers(index, lower)(rx.script[tx.takenAt[k] - 1]);
    }
  }
}
