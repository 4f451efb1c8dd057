/** Streaming Knuth-Morris-Pratt matching: the prefix table and one step of the matcher. */
module Kmp {

  /** The first `k` characters of `q` are the last `k` characters of `t`. */
  ghost predicate Ends(q: string, t: string, k: nat) {
    k <= |q| && k <= |t| && q[..k] == t[|t| - k..]
  }

  /** `k` is the longest prefix of `q`, `q` itself included, that `t` ends with. */
  ghost predicate LongestEnd(q: string, t: string, k: nat) {
    Ends(q, t, k) && forall j: nat {:trigger Ends(q, t, j)} :: Ends(q, t, j) ==> j <= k
  }

  /** `k` is the longest proper prefix of `q` that `t` ends with. */
  ghost predicate LongestPartial(q: string, t: string, k: nat) {
    k < |q| && Ends(q, t, k) && forall j: nat {:trigger Ends(q, t, j)} :: j < |q| && Ends(q, t, j) ==> j <= k
  }

  /** `k` is a proper border of `q[..n]`: both a prefix and a suffix of it, and shorter. */
  ghost predicate Border(q: string, n: nat, k: nat) {
    k < n <= |q| && q[..k] == q[n - k..n]
  }

  ghost predicate LongestBorder(q: string, n: nat, k: nat) {
    Border(q, n, k) && forall j: nat {:trigger Border(q, n, j)} :: Border(q, n, j) ==> j <= k
  }

  /** The first `n` entries of the table are right. */
  ghost predicate TableTo(q: string, table: seq<nat>, n: nat) {
    n <= |q| == |table| && forall i {:trigger table[i]} :: 0 <= i < n ==> LongestBorder(q, i + 1, table[i])
  }

  // ---- Shorter candidates are borders of longer ones --------------------------------

  lemma ShorterIsBorder(q: string, t: string, k: nat, j: nat)
    requires Ends(q, t, k) && j < k
    ensures Ends(q, t, j) <==> Border(q, k, j)
  {
    assert t[|t| - j..] == t[|t| - k..][k - j..];
    assert q[k - j..k] == q[..k][k - j..];
  }

  lemma OneMore(q: string, t: string, c: char, k: nat)
    requires k < |q|
    ensures Ends(q, t + [c], k + 1) <==> Ends(q, t, k) && q[k] == c
  {
    if k <= |t| {
      var u := t + [c];
      assert u[|u| - (k + 1)..] == t[|t| - k..] + [c];
      assert q[..k + 1] == q[..k] + [q[k]];
      if Ends(q, u, k + 1) {
        assert q[k] == q[..k + 1][k] == c;
        assert q[..k] == q[..k + 1][..k];
      }
    }
  }

  lemma NothingEnds(q: string)
    requires q != ""
    ensures LongestPartial(q, "", 0)
  {
  }

  /** No prefix of `q` longer than `m` can still be extended by `c`. */
  ghost predicate Candidate(q: string, t: string, c: char, m: nat) {
    m < |q| && Ends(q, t, m) && forall j: nat {:trigger Ends(q, t, j)} :: j < |q| && Ends(q, t, j) && q[j] == c ==> j <= m
  }

  /** Falling back to the longest border loses no candidate. */
  lemma FallBack(q: string, t: string, c: char, m: nat, k: nat)
    requires Candidate(q, t, c, m) && m > 0 && q[m] != c && LongestBorder(q, m, k)
    ensures Candidate(q, t, c, k) && k < m
  {
    ShorterIsBorder(q, t, m, k);
    forall j: nat {:trigger Ends(q, t, j)} | j < |q| && Ends(q, t, j) && q[j] == c
      ensures j <= k
    {
      ShorterIsBorder(q, t, m, j);
    }
  }

  lemma Settled(q: string, t: string, c: char, m: nat)
    requires Candidate(q, t, c, m) && (m == 0 || q[m] == c)
    ensures LongestEnd(q, t + [c], if q[m] == c then m + 1 else m)
  {
    OneMore(q, t, c, m);
    forall j: nat {:trigger Ends(q, t + [c], j)} | Ends(q, t + [c], j)
      ensures j <= if q[m] == c then m + 1 else m
    {
      if j > 0 {
        OneMore(q, t, c, j - 1);
      }
    }
  }

  /** The matcher reads one character: fall back until it fits, then take it. */
  method Advance(q: string, table: seq<nat>, ghost t: string, matched: nat, c: char) returns (m: nat)
    requires LongestPartial(q, t, matched) && TableTo(q, table, matched)
    ensures LongestEnd(q, t + [c], m)
  {
    m := matched;
    while m > 0 && q[m] != c
      invariant m <= matched && Candidate(q, t, c, m)
    {
      assert LongestBorder(q, m - 1 + 1, table[m - 1]);
      FallBack(q, t, c, m, table[m - 1]);
      m := table[m - 1];
    }
    Settled(q, t, c, m);
    if q[m] == c {
      m := m + 1;
    }
  }

  /** After a whole match the matcher goes on with the longest border of the query. */
  lemma AfterMatch(q: string, t: string, k: nat)
    requires q != "" && LongestEnd(q, t, |q|) && LongestBorder(q, |q|, k)
    ensures LongestPartial(q, t, k)
  {
    ShorterIsBorder(q, t, |q|, k);
    forall j: nat {:trigger Ends(q, t, j)} | j < |q| && Ends(q, t, j)
      ensures j <= k
    {
      ShorterIsBorder(q, t, |q|, j);
    }
  }

  // ---- The table ---------------------------------------------------------------------

  /** The borders of `q[..n]` are what `q` matches at the end of `q[1..n]`. */
  lemma BorderIsEnd(q: string, n: nat, k: nat)
    requires 1 <= n <= |q|
    ensures Border(q, n, k) <==> Ends(q, q[1..n], k)
  {
    if k < n {
      assert q[1..n][n - 1 - k..] == q[n - k..n];
    }
  }

  lemma LongestBorderIsEnd(q: string, n: nat, k: nat)
    requires 1 <= n <= |q| && LongestEnd(q, q[1..n], k)
    ensures LongestBorder(q, n, k) && LongestPartial(q, q[1..n], k)
  {
    BorderIsEnd(q, n, k);
    forall j: nat {:trigger Border(q, n, j)} | Border(q, n, j)
      ensures j <= k
    {
      BorderIsEnd(q, n, j);
    }
  }

  /** The value of entry `index`, and where the next entry starts looking. */
  method NextEntry(q: string, table: seq<nat>, index: nat, matched: nat) returns (m: nat)
    requires 1 <= index < |q| && LongestPartial(q, q[1..index], matched) && TableTo(q, table, index)
    ensures LongestBorder(q, index + 1, m) && LongestPartial(q, q[1..index + 1], m)
  {
    m := Advance(q, table, q[1..index], matched, q[index]);
    assert q[1..index] + [q[index]] == q[1..index + 1];
    LongestBorderIsEnd(q, index + 1, m);
  }

  lemma FirstEntry(q: string)
    requires q != ""
    ensures LongestPartial(q, q[1..1], 0) && LongestBorder(q, 1, 0)
  {
    assert Ends(q, q[1..1], 0) && Border(q, 1, 0);
  }

  lemma EntryWritten(q: string, table: seq<nat>, index: nat, m: nat)
    requires index < |q| && TableTo(q, table, index) && LongestBorder(q, index + 1, m)
    ensures TableTo(q, table[index := m], index + 1)
  {
  }

  /** Entry `i` of the prefix table is the longest proper border of the first `i + 1` characters. */
  method PrefixTable(q: string) returns (table: seq<nat>)
    ensures TableTo(q, table, |q|)
  {
    if q == "" {
      return [];
    }
    var prefix := new nat[|q|](_ => 0);
    var matched := 0;
    FirstEntry(q);
    for index := 1 to |q|
      invariant LongestPartial(q, q[1..index], matched)
      invariant TableTo(q, prefix[..], index)
    {
      matched := NextEntry(q, prefix[..], index, matched);
      EntryWritten(q, prefix[..], index, matched);
      prefix[index] := matched;
    }
    table := prefix[..];
  }
}
