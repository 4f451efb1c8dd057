/** Lower case, character by character. One character may become several. */
module LowerCase {

  function Lowered(lower: char -> string, s: string): string {
    if s == "" then "" else Lowered(lower, s[..|s| - 1]) + lower(s[|s| - 1])
  }

  lemma {:induction false} LoweredConcat(lower: char -> string, s: string, t: string)
    ensures Lowered(lower, s + t) == Lowered(lower, s) + Lowered(lower, t)
    decreases t
  {
    if t == "" {
      assert s + t == s;
    } else {
      var init := t[..|t| - 1];
      assert (s + t)[..|s + t| - 1] == s + init;
      LoweredConcat(lower, s, init);
    }
  }

  /** Where every character has a single lower-case form, the text keeps its length and each place its character. */
  lemma {:induction false} LoweredByLetter(lower: char -> string, s: string, i: nat)
    requires i < |s| && forall c {:trigger lower(c)} :: |lower(c)| == 1
    ensures |Lowered(lower, s)| == |s| && Lowered(lower, s)[i] == lower(s[i])[0]
    decreases s
  {
    if i < |s| - 1 {
      LoweredByLetter(lower, s[..|s| - 1], i);
    } else if |s| > 1 {
      LoweredByLetter(lower, s[..|s| - 1], i - 1);
    } else {
      assert Lowered(lower, s[..0]) == "";
    }
  }
}
