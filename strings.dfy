/** The handful of Python `str` operations the modelled code relies on:
    whitespace as `str.isspace` and the regex class `\s` see it, `strip`,
    `startswith`/`endswith`, ASCII `lower` and `', '.join`. */
module Strings {

  /** The characters CPython treats as whitespace (`str.isspace`, and `\s`
      in a `str` pattern). */
  predicate IsSpace(c: char) {
    var n := c as int;
    (9 <= n <= 13) || (28 <= n <= 32) || n == 0x85 || n == 0xA0 || n == 0x1680
    || (0x2000 <= n <= 0x200A) || n == 0x2028 || n == 0x2029 || n == 0x202F
    || n == 0x205F || n == 0x3000
  }

  predicate AllSpace(s: string) {
    forall i :: 0 <= i < |s| ==> IsSpace(s[i])
  }

  predicate StartsWith(s: string, prefix: string) {
    |prefix| <= |s| && s[..|prefix|] == prefix
  }

  predicate EndsWith(s: string, suffix: string) {
    |suffix| <= |s| && s[|s| - |suffix|..] == suffix
  }

  /** Length of the longest all-whitespace prefix of `s`. */
  function LeadCount(s: string): (n: nat)
    ensures n <= |s| && AllSpace(s[..n])
    ensures n < |s| ==> !IsSpace(s[n])
  {
    if s != [] && IsSpace(s[0]) then
      var n := 1 + LeadCount(s[1..]);
      assert s[..n] == [s[0]] + s[1..][..n - 1];
      n
    else 0
  }

  /** Length of the longest all-whitespace suffix of `s`. */
  function TrailCount(s: string): (n: nat)
    ensures n <= |s|
    ensures forall i :: |s| - n <= i < |s| ==> IsSpace(s[i])
    ensures n < |s| ==> !IsSpace(s[|s| - n - 1])
  {
    if s != [] && IsSpace(s[|s| - 1]) then 1 + TrailCount(s[..|s| - 1]) else 0
  }

  function LStrip(s: string): string {
    s[LeadCount(s)..]
  }

  function RStrip(s: string): string {
    s[..|s| - TrailCount(s)]
  }

  /** Python's `s.strip()`. */
  function Strip(s: string): string {
    LStrip(RStrip(s))
  }

  /** A whitespace prefix followed by a non-space character (or nothing) is
      exactly what LeadCount measures. */
  lemma {:induction false} LeadCountIs(s: string, n: nat)
    requires n <= |s| && AllSpace(s[..n]) && (n < |s| ==> !IsSpace(s[n]))
    ensures LeadCount(s) == n
  {
    if n > 0 {
      assert s[..n][0] == s[0];
      assert s[1..][..n - 1] == s[..n][1..];
      LeadCountIs(s[1..], n - 1);
    }
  }

  lemma {:induction false} TrailCountIs(s: string, n: nat)
    requires n <= |s| && (forall i :: |s| - n <= i < |s| ==> IsSpace(s[i]))
    requires n < |s| ==> !IsSpace(s[|s| - n - 1])
    ensures TrailCount(s) == n
  {
    if n > 0 {
      TrailCountIs(s[..|s| - 1], n - 1);
    }
  }

  /** Whitespace put in front of a string lengthens its whitespace prefix. */
  lemma LeadCountPadded(a: string, y: string)
    requires AllSpace(a)
    ensures LeadCount(a + y) == |a| + LeadCount(y)
  {
    var s, n := a + y, |a| + LeadCount(y);
    assert s[..n] == a + y[..LeadCount(y)];
    assert n < |s| ==> s[n] == y[LeadCount(y)];
    LeadCountIs(s, n);
  }

  /** Whitespace put after a string lengthens its whitespace suffix. */
  lemma TrailCountPadded(x: string, b: string)
    requires AllSpace(b)
    ensures TrailCount(x + b) == TrailCount(x) + |b|
  {
    var s, n := x + b, TrailCount(x) + |b|;
    assert forall i :: |s| - n <= i < |s| ==> IsSpace(s[i]) by {
      forall i | |s| - n <= i < |s| ensures IsSpace(s[i]) {
        if i < |x| { assert s[i] == x[i]; } else { assert s[i] == b[i - |x|]; }
      }
    }
    if n < |s| {
      assert s[|s| - n - 1] == x[|x| - TrailCount(x) - 1];
    }
    TrailCountIs(s, n);
  }

  lemma AllSpaceConcat(a: string, b: string)
    requires AllSpace(a) && AllSpace(b)
    ensures AllSpace(a + b)
  {
    forall i | 0 <= i < |a + b| ensures IsSpace((a + b)[i]) {
      if i < |a| { assert (a + b)[i] == a[i]; } else { assert (a + b)[i] == b[i - |a|]; }
    }
  }

  /** What comes before a string with a non-space character does not change
      its whitespace suffix. */
  lemma TrailCountPrefixed(a: string, t: string)
    requires TrailCount(t) < |t|
    ensures TrailCount(a + t) == TrailCount(t)
  {
    var s, n := a + t, TrailCount(t);
    assert forall i :: |s| - n <= i < |s| ==> IsSpace(s[i]) by {
      forall i | |s| - n <= i < |s| ensures IsSpace(s[i]) {
        assert s[i] == t[i - |a|];
      }
    }
    assert s[|s| - n - 1] == t[|t| - n - 1];
    TrailCountIs(s, n);
  }

  /** Stripping removes only whitespace from the ends: what is left neither
      starts nor ends with whitespace, and sits inside `s` between two
      all-whitespace pieces. */
  lemma StripShape(s: string)
    ensures var t := Strip(s);
      |t| <= |s| &&
      (t != [] ==> !IsSpace(t[0]) && !IsSpace(t[|t| - 1])) &&
      exists a, b :: s == a + t + b && AllSpace(a) && AllSpace(b)
  {
    var r := RStrip(s);
    var n, m := |s| - TrailCount(s), LeadCount(r);
    var a, t, b := r[..m], r[m..], s[n..];
    assert t == Strip(s);
    assert AllSpace(b) by {
      forall i | 0 <= i < |b| ensures IsSpace(b[i]) {
        assert b[i] == s[n + i];
      }
    }
    assert s == a + t + b by {
      SplitAt(s, n);
      SplitAt(r, m);
    }
    PaddedBy(s, a, t, b);
    if t != [] {
      assert t[0] == r[m];
      assert t[|t| - 1] == r[n - 1] == s[n - 1];
    }
  }

  lemma PaddedBy(s: string, a: string, t: string, b: string)
    requires s == a + t + b && AllSpace(a) && AllSpace(b)
    ensures exists a', b' :: s == a' + t + b' && AllSpace(a') && AllSpace(b')
  {
  }

  lemma SplitAt(s: string, i: nat)
    requires i <= |s|
    ensures s == s[..i] + s[i..]
  {
  }

  /** Whitespace added around a string does not survive `strip`. */
  lemma StripPadded(a: string, t: string, b: string)
    requires AllSpace(a) && AllSpace(b)
    ensures Strip(a + t + b) == Strip(t)
  {
    RStripPadded(a + t, b);
    if TrailCount(t) < |t| {
      RStripPrefixed(a, t);
      LStripPadded(a, RStrip(t));
    } else {
      assert AllSpace(a + t) by {
        assert AllSpace(t);
        AllSpaceConcat(a, t);
      }
      TrailCountIs(a + t, |a + t|);
    }
  }

  /** Right-stripping twice is right-stripping once. */
  lemma RStripTwice(s: string)
    ensures RStrip(RStrip(s)) == RStrip(s)
  {
    var r := RStrip(s);
    if r != [] {
      assert r[|r| - 1] == s[|s| - TrailCount(s) - 1];
    }
    TrailCountIs(r, 0);
    assert r[..|r|] == r;
  }

  lemma RStripPadded(x: string, b: string)
    requires AllSpace(b)
    ensures RStrip(x + b) == RStrip(x)
  {
    TrailCountPadded(x, b);
    assert (x + b)[..|x| - TrailCount(x)] == x[..|x| - TrailCount(x)];
  }

  lemma LStripPadded(a: string, y: string)
    requires AllSpace(a)
    ensures LStrip(a + y) == LStrip(y)
  {
    LeadCountPadded(a, y);
    assert (a + y)[|a| + LeadCount(y)..] == y[LeadCount(y)..];
  }

  lemma RStripPrefixed(a: string, t: string)
    requires TrailCount(t) < |t|
    ensures RStrip(a + t) == a + RStrip(t)
  {
    var n := TrailCount(t);
    TrailCountPrefixed(a, t);
    RStripBy(a + t, n);
    RStripBy(t, n);
    TakePrefixed(a, t, |t| - n);
  }

  lemma RStripBy(s: string, n: nat)
    requires n == TrailCount(s)
    ensures RStrip(s) == s[..|s| - n]
  {
  }

  lemma TakePrefixed(a: string, t: string, k: nat)
    requires k <= |t|
    ensures (a + t)[..|a| + k] == a + t[..k]
  {
  }

  /** A string that neither starts nor ends with whitespace strips to itself. */
  lemma StripUnpadded(t: string)
    requires t != [] && !IsSpace(t[0]) && !IsSpace(t[|t| - 1])
    ensures Strip(t) == t
  {
    TrailCountIs(t, 0);
    assert RStrip(t) == t;
    LeadCountIs(t, 0);
  }

  /** ASCII case folding of one character. */
  function LowerChar(c: char): char {
    if 'A' <= c <= 'Z' then (c as int + 32) as char else c
  }

  /** `s.lower()` restricted to ASCII letters. */
  function Lower(s: string): (r: string)
    ensures |r| == |s|
    ensures forall i :: 0 <= i < |s| ==> r[i] == LowerChar(s[i])
  {
    seq(|s|, i requires 0 <= i < |s| => LowerChar(s[i]))
  }

  /** `sep.join(parts)`. */
  function Join(parts: seq<string>, sep: string): string
    decreases |parts|
  {
    if parts == [] then ""
    else if |parts| == 1 then parts[0]
    else parts[0] + sep + Join(parts[1..], sep)
  }
}
