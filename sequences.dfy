/** Order-keeping selections from a sequence, as Kotlin's `filter` makes them. */
module Sequences {

  /** `r` is `s` with some elements left out and the others kept in their order. */
  predicate IsSubsequence<T(==)>(r: seq<T>, s: seq<T>)
    decreases |s|
  {
    r == [] || (s != [] && ((r[0] == s[0] && IsSubsequence(r[1..], s[1..])) || IsSubsequence(r, s[1..])))
  }

  /** Keeping the first element of `s` extends a subsequence of the rest. */
  lemma SubsequenceKeep<T>(x: T, r: seq<T>, s: seq<T>)
    requires IsSubsequence(r, s)
    ensures IsSubsequence([x] + r, [x] + s)
  {
    assert ([x] + r)[1..] == r && ([x] + s)[1..] == s;
  }

  /** Dropping the first element of `s` keeps a subsequence of the rest. */
  lemma SubsequenceDrop<T>(x: T, r: seq<T>, s: seq<T>)
    requires IsSubsequence(r, s)
    ensures IsSubsequence(r, [x] + s)
  {
    assert ([x] + s)[1..] == s;
  }

  lemma ConcatAssociative<T>(p: seq<T>, q: seq<T>, r: seq<T>)
    ensures p + (q + r) == (p + q) + r
  {
  }

  /** A subsequence keeps the order of what it keeps: its elements appear in `s` in the same order. */
  lemma {:induction false} SubsequenceOrder<T>(r: seq<T>, s: seq<T>, i: nat, j: nat)
    requires IsSubsequence(r, s) && i < j < |r|
    ensures exists a, b | 0 <= a < b < |s| :: s[a] == r[i] && s[b] == r[j]
    decreases |s|
  {
    if r[0] == s[0] && IsSubsequence(r[1..], s[1..]) {
      if i == 0 {
        SubsequenceIn(r[1..], s[1..], j - 1);
        var b :| 0 <= b < |s[1..]| && s[1..][b] == r[1..][j - 1];
        assert s[0] == r[i] && s[b + 1] == r[j];
      } else {
        SubsequenceOrder(r[1..], s[1..], i - 1, j - 1);
        var a, b :| 0 <= a < b < |s[1..]| && s[1..][a] == r[1..][i - 1] && s[1..][b] == r[1..][j - 1];
        assert s[a + 1] == r[i] && s[b + 1] == r[j];
      }
    } else {
      SubsequenceOrder(r, s[1..], i, j);
      var a, b :| 0 <= a < b < |s[1..]| && s[1..][a] == r[i] && s[1..][b] == r[j];
      assert s[a + 1] == r[i] && s[b + 1] == r[j];
    }
  }

  /** Every element of a subsequence is an element of `s`. */
  lemma {:induction false} SubsequenceIn<T>(r: seq<T>, s: seq<T>, i: nat)
    requires IsSubsequence(r, s) && i < |r|
    ensures exists a | 0 <= a < |s| :: s[a] == r[i]
    decreases |s|
  {
    if r[0] == s[0] && IsSubsequence(r[1..], s[1..]) {
      if i > 0 {
        SubsequenceIn(r[1..], s[1..], i - 1);
        var a :| 0 <= a < |s[1..]| && s[1..][a] == r[1..][i - 1];
        assert s[a + 1] == r[i];
      } else {
        assert s[0] == r[i];
      }
    } else {
      SubsequenceIn(r, s[1..], i);
      var a :| 0 <= a < |s[1..]| && s[1..][a] == r[i];
      assert s[a + 1] == r[i];
    }
  }
}
