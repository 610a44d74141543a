/** Substrings, as Python's `in` finds them. */
module Substrings {

  predicate OccursAt(s: string, sub: string, i: int) {
    0 <= i <= |s| && sub <= s[i..]
  }

  predicate Contains(s: string, sub: string) {
    exists i :: 0 <= i <= |s| && OccursAt(s, sub, i)
  }

  lemma {:induction false} OccurrenceHas(s: string, sub: string, i: nat, k: nat)
    requires OccursAt(s, sub, i) && k < |sub|
    ensures i + k < |s| && s[i + k] == sub[k]
  {
    assert s[i..][k] == sub[k];
  }

  lemma {:induction false} LacksALetter(s: string, sub: string, k: nat)
    requires k < |sub| && sub[k] !in s
    ensures !Contains(s, sub)
  {
    if i :| 0 <= i <= |s| && OccursAt(s, sub, i) {
      OccurrenceHas(s, sub, i, k);
    }
  }

  /** Nowhere in `s` does `b` follow `a`. */
  predicate LacksPair(s: string, a: char, b: char) {
    forall i :: 0 <= i < |s| - 1 && s[i] == a ==> s[i + 1] != b
  }

  lemma {:induction false} OccurrenceHasPair(s: string, sub: string, i: nat, k: nat)
    requires OccursAt(s, sub, i) && k + 1 < |sub|
    ensures !LacksPair(s, sub[k], sub[k + 1])
  {
    OccurrenceHas(s, sub, i, k);
    OccurrenceHas(s, sub, i, k + 1);
  }

  lemma {:induction false} LacksTwoLetters(s: string, sub: string, k: nat)
    requires k + 1 < |sub| && LacksPair(s, sub[k], sub[k + 1])
    ensures !Contains(s, sub)
  {
    if i :| 0 <= i <= |s| && OccursAt(s, sub, i) {
      OccurrenceHasPair(s, sub, i, k);
    }
  }

  lemma {:induction false} LacksPairAcross(s: string, t: string, a: char, b: char)
    requires LacksPair(s, a, b) && LacksPair(t, a, b) && s != "" && s[|s| - 1] != a
    ensures LacksPair(s + t, a, b)
  {
  }

  /** The substring stands somewhere in the string. */
  lemma {:induction false} ContainsMeans(s: string, sub: string)
    ensures Contains(s, sub) <==> exists a, b :: s == a + sub + b
  {
    if i :| 0 <= i <= |s| && OccursAt(s, sub, i) {
      assert s == s[..i] + sub + s[i..][|sub|..];
    }
    if a, b :| s == a + sub + b {
      assert s[|a|..] == sub + b;
      assert OccursAt(s, sub, |a|);
    }
  }
}
