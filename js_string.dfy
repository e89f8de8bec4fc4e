/**
 * The JavaScript string primitives the application relies on, over `string`
 * (each `char` is a Unicode scalar value, so lengths and positions count
 * scalar values where JavaScript counts UTF-16 code units):
 * the whitespace class shared by `String.prototype.trim` and the regular
 * expression escape `\s`, `trim`, `indexOf`, `startsWith`, `split` on a
 * one-character separator, and `slice(0, n)`.
 */
module JsString {
  import opened Wrappers

  /** ECMAScript WhiteSpace and LineTerminator code points: the set that
      `trim` strips and that `\s` matches. */
  predicate IsWs(c: char) {
    c == '\t' || c == '\n' || c == '\U{000B}' || c == '\U{000C}' || c == '\r' || c == ' '
    || c == '\U{00A0}' || c == '\U{1680}' || ('\U{2000}' <= c <= '\U{200A}')
    || c == '\U{2028}' || c == '\U{2029}' || c == '\U{202F}' || c == '\U{205F}'
    || c == '\U{3000}' || c == '\U{FEFF}'
  }

  predicate AllWs(s: string) {
    forall i :: 0 <= i < |s| ==> IsWs(s[i])
  }

  /** Neither end of `s` is whitespace. */
  predicate IsTrimmed(s: string) {
    s == [] || (!IsWs(s[0]) && !IsWs(s[|s| - 1]))
  }

  /** The end of the longest run of whitespace starting at `from`: the
      position a greedy `\s*` stops at. */
  function SkipWs(s: string, from: nat): (k: nat)
    requires from <= |s|
    ensures from <= k <= |s| && AllWs(s[from..k])
    ensures k == |s| || !IsWs(s[k])
    decreases |s| - from
  {
    if from < |s| && IsWs(s[from]) then
      var k := SkipWs(s, from + 1);
      AllWsCons(s, from, k);
      k
    else from
  }

  /** The end of a whitespace run from `from` that stops at a non-whitespace
      character or the end is the one `SkipWs` finds. */
  lemma {:induction false} SkipWsUnique(s: string, from: nat, k: nat)
    requires from <= k <= |s| && AllWs(s[from..k])
    requires k == |s| || !IsWs(s[k])
    ensures SkipWs(s, from) == k
    decreases k - from
  {
    if from < k {
      assert s[from..k][0] == s[from];
      assert s[from + 1..k] == s[from..k][1..];
      SkipWsUnique(s, from + 1, k);
    }
  }

  /** The start of the longest run of whitespace ending at `hi` that does
      not reach below `lo`. */
  function SkipWsBack(s: string, lo: nat, hi: nat): (j: nat)
    requires lo <= hi <= |s|
    ensures lo <= j <= hi && AllWs(s[j..hi])
    ensures j == lo || !IsWs(s[j - 1])
    decreases hi - lo
  {
    if lo < hi && IsWs(s[hi - 1]) then
      var j := SkipWsBack(s, lo, hi - 1);
      AllWsSnoc(s, j, hi);
      j
    else hi
  }

  /** The start of a whitespace run ending at `hi` that stops at a
      non-whitespace character or at `lo` is the one `SkipWsBack` finds. */
  lemma {:induction false} SkipWsBackUnique(s: string, lo: nat, hi: nat, j: nat)
    requires lo <= j <= hi <= |s| && AllWs(s[j..hi])
    requires j == lo || !IsWs(s[j - 1])
    ensures SkipWsBack(s, lo, hi) == j
    decreases hi - j
  {
    if j < hi {
      assert s[j..hi][hi - 1 - j] == s[hi - 1];
      assert s[j..hi - 1] == s[j..hi][..hi - 1 - j];
      SkipWsBackUnique(s, lo, hi - 1, j);
    }
  }

  lemma AllWsCons(s: string, from: nat, k: nat)
    requires from < |s| && from + 1 <= k <= |s| && IsWs(s[from]) && AllWs(s[from + 1..k])
    ensures AllWs(s[from..k])
  {
    forall i | 0 <= i < k - from
      ensures IsWs(s[from..k][i])
    {
      if i > 0 {
        assert s[from..k][i] == s[from + 1..k][i - 1];
      }
    }
  }

  lemma AllWsSnoc(s: string, j: nat, hi: nat)
    requires j < hi <= |s| && IsWs(s[hi - 1]) && AllWs(s[j..hi - 1])
    ensures AllWs(s[j..hi])
  {
    forall i | 0 <= i < hi - j
      ensures IsWs(s[j..hi][i])
    {
      if i < hi - 1 - j {
        assert s[j..hi][i] == s[j..hi - 1][i];
      }
    }
  }

  /** `String.prototype.trim`. */
  function Trim(s: string): (r: string)
    ensures IsTrimmed(r)
    ensures SkipWs(s, 0) + |r| <= |s|
    ensures r == s[SkipWs(s, 0)..SkipWs(s, 0) + |r|]
    ensures AllWs(s[..SkipWs(s, 0)]) && AllWs(s[SkipWs(s, 0) + |r|..])
  {
    var i := SkipWs(s, 0);
    var j := SkipWsBack(s, i, |s|);
    assert s[..i] == s[0..i];
    assert s[j..] == s[j..|s|];
    assert i < j ==> !IsWs(s[i]);
    s[i..j]
  }

  /** Trimming removes exactly the whitespace around a trimmed core: this
      characterises `Trim` independently of how it scans. */
  lemma TrimOfPadded(a: string, m: string, b: string)
    requires AllWs(a) && AllWs(b) && IsTrimmed(m)
    ensures Trim(a + m + b) == m
  {
    var s := a + m + b;
    var e := |a| + |m|;
    assert s[0..|a|] == a && s[|a|..e] == m && s[e..|s|] == b;
    if m == [] {
      assert AllWs(s[0..|s|]) by { assert s[0..|s|] == a + b; }
      SkipWsUnique(s, 0, |s|);
    } else {
      assert s[|a|] == m[0] && s[e - 1] == m[|m| - 1];
      SkipWsUnique(s, 0, |a|);
      SkipWsBackUnique(s, |a|, |s|, e);
    }
  }

  /** Trim leaves a trimmed string alone. */
  lemma TrimTrimmed(s: string)
    requires IsTrimmed(s)
    ensures Trim(s) == s
  {
    TrimOfPadded([], s, []);
    assert [] + s + [] == s;
  }

  /** Whitespace around a string does not change its trimmed form. */
  lemma TrimIgnoresPadding(a: string, s: string, b: string)
    requires AllWs(a) && AllWs(b)
    ensures Trim(a + s + b) == Trim(s)
  {
    var i := SkipWs(s, 0);
    var r := Trim(s);
    var a', b' := s[..i], s[i + |r|..];
    TrimSplits(s);
    AllWsConcat(a, a');
    AllWsConcat(b', b);
    Regroup(a, a', r, b', b);
    TrimOfPadded(a + a', r, b' + b);
  }

  /** A string is its leading whitespace, its trimmed form and its trailing
      whitespace. */
  lemma TrimSplits(s: string)
    ensures s == s[..SkipWs(s, 0)] + Trim(s) + s[SkipWs(s, 0) + |Trim(s)|..]
  {
    var i := SkipWs(s, 0);
    var e := i + |Trim(s)|;
    assert s == s[..i] + s[i..e] + s[e..];
  }

  lemma Regroup(a: string, x: string, r: string, y: string, b: string)
    ensures a + (x + r + y) + b == (a + x) + r + (y + b)
  {
  }

  lemma AllWsConcat(x: string, y: string)
    requires AllWs(x) && AllWs(y)
    ensures AllWs(x + y)
  {
    forall i | 0 <= i < |x + y|
      ensures IsWs((x + y)[i])
    {
      if i < |x| {
        assert (x + y)[i] == x[i];
      } else {
        assert (x + y)[i] == y[i - |x|];
      }
    }
  }

  /** `pat` occurs in `s` at index `i`. */
  predicate OccursAt(s: string, pat: string, i: int) {
    0 <= i && i + |pat| <= |s| && s[i..i + |pat|] == pat
  }

  /** `i` is the first index at or after `from` where `pat` occurs. */
  ghost predicate FirstOccurrenceFrom(s: string, pat: string, from: nat, i: nat) {
    from <= i && OccursAt(s, pat, i) && forall j :: from <= j < i ==> !OccursAt(s, pat, j)
  }

  /** `pat` occurs nowhere at or after `from`. */
  ghost predicate NoOccurrenceFrom(s: string, pat: string, from: nat) {
    forall j :: from <= j <= |s| ==> !OccursAt(s, pat, j)
  }

  /** `String.prototype.indexOf(pat, from)`, with -1 as `None`. */
  function IndexOf(s: string, pat: string, from: nat): (r: Option<nat>)
    ensures r.Some? ==> FirstOccurrenceFrom(s, pat, from, r.value)
    ensures r.None? ==> NoOccurrenceFrom(s, pat, from)
    decreases |s| - from
  {
    if from + |pat| > |s| then None
    else if s[from..from + |pat|] == pat then Some(from)
    else IndexOf(s, pat, from + 1)
  }

  /** A pattern absent from `s` is absent from every slice of `s`. */
  lemma NoOccurrenceInSlice(s: string, pat: string, lo: nat, hi: nat)
    requires lo <= hi <= |s|
    requires forall j :: lo <= j && j + |pat| <= hi ==> !OccursAt(s, pat, j)
    ensures NoOccurrenceFrom(s[lo..hi], pat, 0)
  {
    var t := s[lo..hi];
    forall j | 0 <= j <= |t| && OccursAt(t, pat, j)
      ensures false
    {
      assert lo + j + |pat| <= hi;
      forall k | 0 <= k < |pat| ensures s[lo + j + k] == pat[k] {
        assert t[j..j + |pat|][k] == t[j + k] == s[lo + j + k];
      }
      assert s[lo + j..lo + j + |pat|] == pat;
      assert OccursAt(s, pat, lo + j);
    }
  }

  /** Within the bounds of a slice, occurrences in the slice and in the
      whole string coincide. */
  lemma OccurrenceInSlice(s: string, pat: string, lo: nat, hi: nat, j: nat)
    requires lo <= j && j + |pat| <= hi <= |s|
    ensures OccursAt(s, pat, j) <==> OccursAt(s[lo..hi], pat, j - lo)
  {
    var u := s[lo..hi][j - lo..j - lo + |pat|];
    var w := s[j..j + |pat|];
    forall i | 0 <= i < |pat| ensures u[i] == w[i] {
    }
    assert u == w;
  }

  /** Neither a prefix nor a suffix of a string gains an occurrence. */
  lemma NoOccurrenceInPart(s: string, pat: string, lo: nat, hi: nat)
    requires lo <= hi <= |s| && NoOccurrenceFrom(s, pat, 0)
    ensures NoOccurrenceFrom(s[lo..hi], pat, 0)
  {
    NoOccurrenceInSlice(s, pat, lo, hi);
  }

  /** `String.prototype.startsWith`. */
  predicate StartsWith(s: string, prefix: string) {
    |prefix| <= |s| && s[..|prefix|] == prefix
  }

  /** `s.slice(0, n)` for a non-negative `n`. */
  function SliceTo(s: string, n: nat): (r: string)
    ensures |r| == if |s| <= n then |s| else n
    ensures r == s[..|r|]
  {
    if |s| <= n then s else s[..n]
  }

  /** The parts joined with `sep` between consecutive ones:
      `Array.prototype.join`. */
  function Join(parts: seq<string>, sep: char): string
    requires |parts| >= 1
  {
    if |parts| == 1 then parts[0] else parts[0] + [sep] + Join(parts[1..], sep)
  }

  /** Joining two leading parts puts the separator after each. */
  lemma JoinTwo(a: string, b: string, rest: seq<string>, sep: char)
    requires |rest| >= 1
    ensures Join([a, b] + rest, sep) == a + [sep] + b + [sep] + Join(rest, sep)
  {
    var all := [a, b] + rest;
    assert all[1..] == [b] + rest;
    assert all[1..][1..] == rest;
  }

  /** The first index of `c`, known to occur in `s`. */
  function CharIndex(s: string, c: char): (i: nat)
    requires c in s
    ensures i < |s| && s[i] == c && c !in s[..i]
  {
    if s[0] == c then 0
    else
      var i := CharIndex(s[1..], c);
      assert s[1..][..i] == s[1..i + 1];
      assert s[..i + 1] == [s[0]] + s[1..i + 1];
      i + 1
  }

  /** `s.split(sep)` for a one-character separator: every part is free of
      `sep` and joining the parts back gives `s`. */
  function Split(s: string, sep: char): (parts: seq<string>)
    ensures |parts| >= 1
    ensures forall i :: 0 <= i < |parts| ==> sep !in parts[i]
    ensures Join(parts, sep) == s
    decreases |s|
  {
    if sep !in s then [s]
    else
      var i := CharIndex(s, sep);
      var rest := Split(s[i + 1..], sep);
      assert s == s[..i] + [sep] + s[i + 1..];
      [s[..i]] + rest
  }

  /** Splitting undoes joining separator-free parts: the converse of
      `Split`'s round trip. */
  lemma {:induction false} SplitJoin(parts: seq<string>, sep: char)
    requires |parts| >= 1
    requires forall i :: 0 <= i < |parts| ==> sep !in parts[i]
    ensures Split(Join(parts, sep), sep) == parts
    decreases |parts|
  {
    if |parts| > 1 {
      var tail := Join(parts[1..], sep);
      assert Join(parts, sep) == parts[0] + [sep] + tail;
      SplitAtFirst(parts[0], sep, tail);
      SplitJoin(parts[1..], sep);
      assert parts == [parts[0]] + parts[1..];
    }
  }

  /** The first separator in `a + [sep] + t`, for a separator-free `a`, is
      the one after `a`. */
  lemma SplitAtFirst(a: string, sep: char, t: string)
    requires sep !in a
    ensures Split(a + [sep] + t, sep) == [a] + Split(t, sep)
  {
    var s := a + [sep] + t;
    assert s[..|a|] == a && s[|a|] == sep;
    var i := CharIndex(s, sep);
    assert i == |a|;
    assert s[i + 1..] == t;
  }
}
