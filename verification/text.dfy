/** Structural facts about strings: prefixes, suffixes and substrings. */
module Text {

  predicate StartsWith(s: string, prefix: string) {
    |prefix| <= |s| && s[..|prefix|] == prefix
  }

  predicate EndsWith(s: string, suffix: string) {
    |suffix| <= |s| && s[|s| - |suffix|..] == suffix
  }

  /** `part` occurs in `s` starting at index `i`. */
  predicate OccursAt(s: string, part: string, i: int) {
    0 <= i <= |s| - |part| && s[i..i + |part|] == part
  }

  /** `part` occurs in `s` as a contiguous substring (Python's `part in s`). */
  ghost predicate Contains(s: string, part: string) {
    exists i :: OccursAt(s, part, i)
  }

  /** The right operand of a concatenation occurs in it. */
  lemma ContainsRight(a: string, b: string)
    ensures Contains(a + b, b)
  {
    assert OccursAt(a + b, b, |a|);
  }

  /** An occurrence survives appending more text. */
  lemma ContainsExtended(s: string, part: string, more: string)
    requires Contains(s, part)
    ensures Contains(s + more, part)
  {
    var i :| OccursAt(s, part, i);
    assert (s + more)[i..i + |part|] == s[i..i + |part|];
    assert OccursAt(s + more, part, i);
  }

  /** Appending a suffix can be undone by cutting it off again. */
  lemma EndsWithAppended(t: string, suffix: string)
    ensures EndsWith(t + suffix, suffix)
    ensures (t + suffix)[..|t|] == t
  {
  }

  /** Prepending a prefix can be undone by cutting it off again. */
  lemma StartsWithPrepended(prefix: string, t: string)
    ensures StartsWith(prefix + t, prefix)
    ensures (prefix + t)[|prefix|..] == t
  {
  }
}
