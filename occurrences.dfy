/**
 * Counting the places where a pattern occurs in a piece of markup.
 *
 * The renderer builds its output by plain string concatenation, so the
 * structural facts about it ("one `<li` per entry", "no `<ul>` for an entry
 * without children") are facts about occurrence counts, and the central tool
 * is how a count behaves when two strings are joined.
 */
module Occurrences {

  /** The number of positions at which `p` occurs in `s` (overlaps counted). */
  function Occ(p: string, s: string): nat
    decreases |s|
  {
    if |p| == 0 || |s| < |p| then 0
    else (if s[..|p|] == p then 1 else 0) + Occ(p, s[1..])
  }

  /**
   * No occurrence of `p` can straddle the join of `a` and `b`: either the last
   * character of `a` cannot start a proper prefix's end of `p`, or the first
   * character of `b` cannot continue one.
   */
  predicate Seam(p: string, a: string, b: string)
    requires |p| > 0
  {
    |a| == 0 || |b| == 0 || a[|a| - 1] !in p[..|p| - 1] || b[0] !in p[1..]
  }

  /** Counting is additive across a seam. */
  lemma {:induction false} OccAppend(p: string, a: string, b: string)
    requires |p| > 0 && Seam(p, a, b)
    ensures Occ(p, a + b) == Occ(p, a) + Occ(p, b)
    decreases |a|
  {
    if |a| == 0 {
      assert a + b == b;
    } else {
      var s := a + b;
      if |s| >= |p| {
        assert s[1..] == a[1..] + b;
        assert Seam(p, a[1..], b) by {
          if |a[1..]| > 0 {
            assert a[1..][|a[1..]| - 1] == a[|a| - 1];
          }
        }
        OccAppend(p, a[1..], b);
        if |a| >= |p| {
          assert s[..|p|] == a[..|p|];
        } else {
          if s[..|p|] == p {
            Straddle(p, a, b);
            assert false;
          }
        }
      }
    }
  }

  /** An occurrence at the start of `a + b` that is longer than `a` joins a proper prefix's end to a continuation. */
  lemma {:induction false} Straddle(p: string, a: string, b: string)
    requires 0 < |a| < |p| <= |a + b| && (a + b)[..|p|] == p
    ensures a[|a| - 1] in p[..|p| - 1] && b[0] in p[1..]
  {
    assert a[|a| - 1] == (a + b)[..|p|][|a| - 1] == p[..|p| - 1][|a| - 1];
    assert b[0] == (a + b)[..|p|][|a|] == p[1..][|a| - 1];
  }

  /** A string in which the first character of `p` never appears holds no occurrence of `p`. */
  lemma {:induction false} OccInert(p: string, s: string)
    requires |p| > 0 && p[0] !in s
    ensures Occ(p, s) == 0
    decreases |s|
  {
    if |s| >= |p| {
      assert s[..|p|][0] == s[0];
      OccInert(p, s[1..]);
    }
  }
}
