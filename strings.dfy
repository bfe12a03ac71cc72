/** Facts about string concatenation used by the writer proofs. */
module Strings {

  lemma ConcatAssoc(a: string, b: string, c: string)
    ensures (a + b) + c == a + (b + c)
  {
  }

  /** The middle part of a three-part concatenation sits right after the
      first part. */
  lemma Segment(pre: string, mid: string, post: string)
    ensures (pre + mid + post)[|pre|..|pre| + |mid|] == mid
  {
    assert (pre + mid + post)[..|pre| + |mid|] == pre + mid;
  }
}
