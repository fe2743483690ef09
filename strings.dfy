/**
 * Small facts about string concatenation, stated over plain variables so that
 * callers can rewrite rendered markup without the solver looking inside it.
 */
module Strings {

  lemma {:induction false} Assoc(a: string, b: string, c: string)
    ensures a + (b + c) == a + b + c
  {
  }

  /** The middle part of a three-part concatenation sits right after the first part. */
  lemma {:induction false} SliceMiddle(a: string, b: string, c: string)
    ensures |a| + |b| <= |a + b + c| && (a + b + c)[|a|..|a| + |b|] == b
  {
  }

  /** A slice that lies inside the first part of a concatenation is a slice of that part. */
  lemma {:induction false} PrefixSlice(x: string, r: string, i: nat, j: nat)
    requires i <= j <= |x|
    ensures (x + r)[i..j] == x[i..j]
  {
  }

  /** The second part of a concatenation sits right after the first. */
  lemma {:induction false} AppendSlice(a: string, m: string)
    ensures (a + m)[|a|..] == m
  {
  }
}
