/** Which folder dates are read first, and what asking again does to a folder that waits. */
module FolderUrgency {
  import opened FolderTimestamps
  import opened Folding

  // ---- Asking again --------------------------------------------------------------------------

  /** A watcher event or a request of the user for a folder that is queued already. */
  datatype Repeat = Repeat(byUser: bool, now: nat)

  function ReasonOf(r: Repeat): RefreshReason {
    if r.byUser then Manual else Watcher
  }

  /** What is queued for the folder after the first `n` of them. */
  function AfterRepeats(queued: Pending, repeats: seq<Repeat>, n: nat): Pending
    requires n <= |repeats|
  {
    if n == 0 then queued else Coalesced(AfterRepeats(queued, repeats, n - 1), ReasonOf(repeats[n - 1]), repeats[n - 1].now)
  }

  /** The last request of the user is the `i`-th one, or there is none for -1. */
  predicate LastByUser(repeats: seq<Repeat>, i: int) {
    -1 <= i < |repeats| && (i >= 0 ==> repeats[i].byUser) && forall k :: i < k < |repeats| ==> !repeats[k].byUser
  }

  /**
    The user's wish is never lowered or put off by later events: the folder waits for the user since the last such
    request. Without one, a missing date stays wanted since it was queued, and background events alone keep
    putting each other off, two seconds from the last one.
   */
  lemma {:induction false} RepeatsKeepUrgency(queued: Pending, repeats: seq<Repeat>, i: int)
    requires LastByUser(repeats, i)
    ensures AfterRepeats(queued, repeats, |repeats|).path == queued.path
    ensures i >= 0 ==> AfterRepeats(queued, repeats, |repeats|) == Pending(queued.path, repeats[i].now, Manual)
    ensures i < 0 && (!queued.reason.Watcher? || repeats == []) ==> AfterRepeats(queued, repeats, |repeats|) == queued
    ensures i < 0 && queued.reason.Watcher? && repeats != [] ==>
      AfterRepeats(queued, repeats, |repeats|) == Pending(queued.path, repeats[|repeats| - 1].now + 2000, Watcher)
    decreases repeats
  {
    if repeats != [] {
      var earlier := repeats[..|repeats| - 1];
      RepeatsOfPrefix(queued, repeats, |earlier|);
      if i < |earlier| {
        RepeatsKeepUrgency(queued, earlier, i);
      } else {
        var j := LastOne(earlier);
        RepeatsKeepUrgency(queued, earlier, j);
      }
    }
  }

  lemma {:induction false} RepeatsOfPrefix(queued: Pending, repeats: seq<Repeat>, n: nat)
    requires n < |repeats|
    ensures AfterRepeats(queued, repeats, n) == AfterRepeats(queued, repeats[..|repeats| - 1], n)
  {
    if n > 0 {
      RepeatsOfPrefix(queued, repeats, n - 1);
    }
  }

  lemma {:induction false} LastOne(repeats: seq<Repeat>) returns (i: int)
    ensures LastByUser(repeats, i)
    decreases repeats
  {
    if repeats == [] {
      i := -1;
    } else if repeats[|repeats| - 1].byUser {
      i := |repeats| - 1;
    } else {
      i := LastOne(repeats[..|repeats| - 1]);
    }
  }

  // ---- Who is served first ---------------------------------------------------------------------

  /** First what the user asked for, then dates that are missing, then background events; among equals the one that waits longest. */
  predicate ServedBefore(a: Pending, b: Pending) {
    || (a.reason.Manual? && !b.reason.Manual?)
    || (a.reason.Missing? && b.reason.Watcher?)
    || (a.reason == b.reason && a.due < b.due)
  }

  /** No due request stays behind while one that comes after it is read. */
  lemma BatchServesTheUrgent(pending: Queue, now: nat, batch: seq<string>, taken: string, left: string)
    requires IsBatch(pending, now, batch) && taken in batch && left !in batch && left in pending && pending[left].due <= now
    ensures taken in pending && pending[taken].due <= now && !ServedBefore(pending[left], pending[taken]) && |batch| == 16
  {
    assert Unfold(0);
    assert IsDue(pending, left, now);
  }

  /** A full queue gives up the request that would be served last of all but the user's. */
  lemma VictimIsServedLast(pending: Queue, victim: string, other: string)
    requires IsVictim(pending, victim) && other in pending && !pending[other].reason.Manual?
    ensures !pending[victim].reason.Manual? && !ServedBefore(pending[victim], pending[other])
  {
  }
}
