/** The request channel of the search worker, as the worker sees it. */
module SearchRequests {
  import opened Wrappers

  datatype SearchRequest = SearchRequest(query: string, generation: nat)

  /**
    The receiving end. `script` is everything that is ever sent, in order; `visible` counts what
    has arrived and grows between any two calls by an unknown amount; `taken` counts what was
    dequeued. `replacement` is what an interrupted search has dequeued.
   */
  class RequestReceiver {
    const script: seq<SearchRequest>
    var visible: nat
    var taken: nat
    var replacement: Option<SearchRequest>

    ghost predicate Valid()
      reads this
    {
      taken <= visible <= |script|
    }

    constructor (script: seq<SearchRequest>)
      ensures Valid() && this.script == script && taken == 0 && replacement.None?
    {
      this.script := script;
      visible, taken, replacement := 0, 0, None;
    }

    /** Other threads send more requests. */
    method Arrive()
      requires Valid()
      modifies this`visible
      ensures Valid() && old(visible) <= visible
    {
      var arrived: int := *;
      if visible <= arrived <= |script| {
        visible := arrived;
      }
    }

    /** The next request in order if one is there; nothing if all that arrived is taken. */
    method TryRecv() returns (next: Option<SearchRequest>)
      requires Valid()
      modifies this`visible, this`taken
      ensures Valid()
      ensures next.None? ==> taken == old(taken) && taken == visible
      ensures next.Some? ==> taken == old(taken) + 1 && next.value == script[old(taken)]
    {
      Arrive();
      if taken == visible {
        return None;
      }
      next := Some(script[taken]);
      taken := taken + 1;
    }

    /** Wait for the next request; nothing only after everything was taken and the senders are gone. */
    method Recv() returns (next: Option<SearchRequest>)
      requires Valid()
      modifies this`visible, this`taken
      ensures Valid()
      ensures next.None? ==> taken == old(taken) == |script|
      ensures next.Some? ==> taken == old(taken) + 1 && next.value == script[old(taken)]
    {
      if taken == |script| {
        return None;
      }
      Arrive();
      visible := if visible == taken then taken + 1 else visible;
      next := Some(script[taken]);
      taken := taken + 1;
    }

    /** No request was dequeued since `since` were taken. */
    ghost predicate Undisturbed(since: nat)
      reads this
    {
      Valid() && replacement.None? && taken == since
    }

    /** Exactly one request was dequeued since `since` were taken, and it is kept as the replacement. */
    ghost predicate Replaced(since: nat)
      reads this
    {
      Valid() && taken == since + 1 && replacement == Some(script[since])
    }

    /** The poll of a running search: it stops the search by taking the next request. */
    method ShouldInterrupt(ghost since: nat) returns (stop: bool)
      requires Undisturbed(since)
      modifies this
      ensures if stop then Replaced(since) else Undisturbed(since)
    {
      var next := TryRecv();
      stop := next.Some?;
      if stop {
        replacement := next;
      }
    }
  }
}
