/** Substring search. */
module Text {

  /** `s.find(pattern) >= 0`. */
  predicate Occurs(s: string, pattern: string) { exists i :: 0 <= i <= |s| && OccursAt(s, pattern, i) }

  predicate OccursAt(s: string, pattern: string, i: nat) { i + |pattern| <= |s| && s[i..i + |pattern|] == pattern }

  lemma {:induction false} Occurrence(s: string, pattern: string, i: nat, d: nat)
    requires OccursAt(s, pattern, i) && d < |pattern|
    ensures i + d < |s| && s[i + d] == pattern[d]
  {
    assert s[i..i + |pattern|][d] == s[i + d];
  }
}
