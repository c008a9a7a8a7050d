/** The string operations the adapter uses, on `seq<char>`. */
module Strings {

  /** `sub` occurs in `s` starting at offset `k`. */
  predicate OccursAt(s: string, sub: string, k: int)
  {
    0 <= k <= |s| - |sub| && s[k..k + |sub|] == sub
  }

  /** Substring inclusion: `sub` occurs in `s` at some offset
      (the empty string occurs in every string). */
  predicate Includes(s: string, sub: string)
  {
    exists k | 0 <= k <= |s| - |sub| :: OccursAt(s, sub, k)
  }

  /** `s` begins with `pre`. */
  predicate StartsWith(s: string, pre: string)
  {
    |pre| <= |s| && s[..|pre|] == pre
  }

  /** Whatever stands between a prefix and a suffix is included in the whole. */
  lemma IncludesMiddle(prefix: string, mid: string, suffix: string)
    ensures Includes(prefix + mid + suffix, mid)
  {
    var s := prefix + mid + suffix;
    assert OccursAt(s, mid, |prefix|);
  }
}
