/**
 * The Kotlin string operations the core relies on: `Char.isWhitespace`, `String.isBlank`,
 * `String.trim` and `joinTo(separator)`, together with a splitter that undoes the join.
 */
module Text {

  /**
   * Kotlin's `Char.isWhitespace()`: Java's `Character.isWhitespace` or `Character.isSpaceChar`,
   * i.e. the ASCII controls TAB, LF, VT, FF, CR, the four information separators U+001C..U+001F,
   * and every character of the Unicode categories Zs, Zl and Zp.
   */
  predicate IsWhitespace(c: char) {
    || c == ' ' || c == '\t' || c == '\n' || c == '\r' || c == '\U{000B}' || c == '\U{000C}'
    || ('\U{001C}' <= c <= '\U{001F}')
    || c == '\U{00A0}' || c == '\U{1680}' || ('\U{2000}' <= c <= '\U{200A}')
    || c == '\U{2028}' || c == '\U{2029}' || c == '\U{202F}' || c == '\U{205F}' || c == '\U{3000}'
  }

  /** `String.isBlank()`: empty, or made only of whitespace. */
  predicate IsBlank(s: string) {
    forall i | 0 <= i < |s| :: IsWhitespace(s[i])
  }

  /** Drops the leading whitespace. */
  function TrimStart(s: string): (r: string)
    ensures |r| <= |s| && r == s[|s| - |r|..]
    ensures IsBlank(s[..|s| - |r|])
    ensures r == [] || !IsWhitespace(r[0])
  {
    if |s| > 0 && IsWhitespace(s[0]) then
      var r := TrimStart(s[1..]);
      assert s[..|s| - |r|] == [s[0]] + s[1..][..|s[1..]| - |r|];
      r
    else
      s
  }

  /** Drops the trailing whitespace. */
  function TrimEnd(s: string): (r: string)
    ensures |r| <= |s| && r == s[..|r|]
    ensures IsBlank(s[|r|..])
    ensures r == [] || !IsWhitespace(r[|r| - 1])
  {
    if |s| > 0 && IsWhitespace(s[|s| - 1]) then
      var r := TrimEnd(s[..|s| - 1]);
      assert s[|r|..] == s[..|s| - 1][|r|..] + [s[|s| - 1]];
      r
    else
      s
  }

  /** `String.trim()`: removes whitespace at both ends, leaving nothing or a non-whitespace at each end. */
  function Trim(s: string): (r: string)
    ensures |r| <= |s|
    ensures r == [] || (!IsWhitespace(r[0]) && !IsWhitespace(r[|r| - 1]))
  {
    var t := TrimStart(s);
    var r := TrimEnd(t);
    assert r != [] ==> r[0] == t[0];
    r
  }

  /** What `trim()` returns is a factor of `s` with only whitespace before and after it. */
  lemma TrimFactor(s: string)
    ensures var r := Trim(s);
      exists i :: 0 <= i <= |s| - |r| && r == s[i..i + |r|] && IsBlank(s[..i]) && IsBlank(s[i + |r|..])
  {
    var t := TrimStart(s);
    var r := TrimEnd(t);
    var i := |s| - |t|;
    assert r == s[i..i + |r|] by {
      assert t == s[i..];
    }
    assert IsBlank(s[i + |r|..]) by {
      assert s[i + |r|..] == t[|r|..];
    }
    assert Trim(s) == r;
  }


  /** `trim()` returns the empty string exactly when `s` is blank. */
  lemma TrimEmptyIffBlank(s: string)
    ensures Trim(s) == [] <==> IsBlank(s)
  {
    var t := TrimStart(s);
    var r := TrimEnd(t);
    assert Trim(s) == r;
    var i := |s| - |t|;
    if r == [] {
      assert t[|r|..] == t;
      assert s == s[..i] + t;
      BlankConcat(s[..i], t);
    } else {
      assert r[0] == s[i];
      assert 0 <= i < |s| && !IsWhitespace(s[i]);
    }
  }


  lemma BlankConcat(a: string, b: string)
    requires IsBlank(a) && IsBlank(b)
    ensures IsBlank(a + b)
  {
  }

  /** A value that `trim()` leaves as it is. */
  predicate IsTrimmed(s: string) {
    Trim(s) == s
  }

  /** Trimming twice is trimming once: what `trim()` returns is trimmed. */
  lemma TrimIsTrimmed(s: string)
    ensures IsTrimmed(Trim(s))
  {
    var r := Trim(s);
    assert TrimStart(r) == r;
    assert TrimEnd(r) == r;
  }

  /** The blank string trims to the empty string, which is both blank and trimmed. */
  lemma BlankTrimsToEmpty(s: string)
    requires IsBlank(s)
    ensures Trim(s) == "" && IsTrimmed("")
  {
    TrimEmptyIffBlank(s);
  }

  /** `joinTo(separator)` over already rendered parts: `a` `sep` `b` `sep` ... */
  function Join(sep: string, parts: seq<string>): (r: string)
    ensures parts == [] ==> r == ""
    ensures |parts| == 1 ==> r == parts[0]
  {
    if |parts| == 0 then ""
    else if |parts| == 1 then parts[0]
    else parts[0] + sep + Join(sep, parts[1..])
  }

  /** Cuts `s` at every occurrence of `c`; `Split("", c) == [""]`, as Kotlin's `split` does. */
  function Split(s: string, c: char): (r: seq<string>)
    ensures |r| >= 1
  {
    if s == [] then [""]
    else
      var rest := Split(s[1..], c);
      if s[0] == c then [""] + rest else [[s[0]] + rest[0]] + rest[1..]
  }

  /** Cuts `s` at the first occurrence of `c`; without one, everything is the first half. */
  function SplitAtFirst(s: string, c: char): (r: (string, string))
    ensures c !in r.0
    ensures c !in s ==> r == (s, [])
    ensures c in s ==> r.0 + [c] + r.1 == s
  {
    if s == [] then ([], [])
    else if s[0] == c then
      assert [] + [c] + s[1..] == s;
      ([], s[1..])
    else
      var (a, b) := SplitAtFirst(s[1..], c);
      assert c in s ==> c in s[1..];
      assert [s[0]] + a + [c] + b == [s[0]] + (a + [c] + b);
      assert s == [s[0]] + s[1..];
      ([s[0]] + a, b)
  }

  /** A part free of `c` followed by `c` is cut off whole. */
  lemma {:induction false} SplitPrefix(a: string, t: string, c: char)
    requires c !in a
    ensures Split(a + [c] + t, c) == [a] + Split(t, c)
  {
    if a == [] {
      assert a + [c] + t == [c] + t;
      assert ([c] + t)[1..] == t;
    } else {
      SplitPrefix(a[1..], t, c);
      assert (a + [c] + t)[1..] == a[1..] + [c] + t;
      assert [a[0]] + a[1..] == a;
    }
  }

  /** A string free of `c` is not cut at all. */
  lemma {:induction false} SplitNone(a: string, c: char)
    requires c !in a
    ensures Split(a, c) == [a]
  {
    if a != [] {
      SplitNone(a[1..], c);
      assert [a[0]] + a[1..] == a;
    }
  }

  /** Splitting undoes a join with a one-character separator that no part contains. */
  lemma {:induction false} SplitJoin(parts: seq<string>, c: char)
    requires |parts| >= 1
    requires forall i | 0 <= i < |parts| :: c !in parts[i]
    ensures Split(Join([c], parts), c) == parts
  {
    if |parts| == 1 {
      SplitNone(parts[0], c);
    } else {
      SplitJoin(parts[1..], c);
      SplitPrefix(parts[0], Join([c], parts[1..]), c);
      assert [parts[0]] + parts[1..] == parts;
    }
  }

  /** Cutting `k` `c` `v` at its first `c` gives back `k` and `v` when `k` has no `c`. */
  lemma {:induction false} SplitAtFirstPair(k: string, v: string, c: char)
    requires c !in k
    ensures SplitAtFirst(k + [c] + v, c) == (k, v)
  {
    if k == [] {
      assert k + [c] + v == [c] + v;
      assert ([c] + v)[1..] == v;
    } else {
      SplitAtFirstPair(k[1..], v, c);
      assert (k + [c] + v)[1..] == k[1..] + [c] + v;
      assert [k[0]] + k[1..] == k;
    }
  }
}
