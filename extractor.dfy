/**
 * `extractHtml` of the builder page: the best current HTML document inside
 * a growing model response, found by two regular expressions tried in
 * order and a fallback.
 *
 *   1. ```` /```html\s*\n?([\s\S]*?)```/ ```` — a closed fence;
 *   2. ```` /```html\s*\n?([\s\S]*?)$/ ````  — a fence still open;
 *   3. the whole text.
 *
 * Each regular expression starts its match at the first occurrence of the
 * (case-sensitive) marker "```html"; the greedy `\s*` then swallows every
 * whitespace character after it, so the optional `\n` always matches
 * empty, and the lazy group runs to the first "```" after that point (1)
 * or to the end of the text (2). The result is trimmed in every case.
 */
module Extractor {
  import opened Wrappers
  import opened JsString

  const OpenMarker: string := "```html"
  const Fence: string := "```"

  /** `extractHtml(text)`. */
  function ExtractHtml(text: string): (r: string)
    ensures IsTrimmed(r)
  {
    match IndexOf(text, OpenMarker, 0)
    case None => Trim(text)
    case Some(p) =>
      var k := SkipWs(text, p + |OpenMarker|);
      match IndexOf(text, Fence, k)
      case Some(q) => Trim(text[k..q])
      case None => Trim(text[k..])
  }

  /** `k` is where the capture group of either regular expression starts
      when the marker sits at `p`: just past the whitespace after it. */
  ghost predicate GroupStart(text: string, p: nat, k: nat) {
    p + |OpenMarker| <= k <= |text| && AllWs(text[p + |OpenMarker|..k])
    && (k == |text| || !IsWs(text[k]))
  }

  lemma GroupStartUnique(text: string, p: nat, k1: nat, k2: nat)
    requires GroupStart(text, p, k1) && GroupStart(text, p, k2)
    ensures k1 == k2
  {
    SkipWsUnique(text, p + |OpenMarker|, k1);
    SkipWsUnique(text, p + |OpenMarker|, k2);
  }

  lemma FirstOccurrenceUnique(s: string, pat: string, from: nat, i1: nat, i2: nat)
    requires FirstOccurrenceFrom(s, pat, from, i1) && FirstOccurrenceFrom(s, pat, from, i2)
    ensures i1 == i2
  {
  }

  /** Rule 1: with the marker first at `p` and a later "```" first at `q`,
      the closed-fence expression matches there, the result is the trimmed
      text between the group start and `q`, and it holds no "```". */
  lemma ClosedFence(text: string, p: nat, k: nat, q: nat)
    requires FirstOccurrenceFrom(text, OpenMarker, 0, p)
    requires GroupStart(text, p, k)
    requires FirstOccurrenceFrom(text, Fence, k, q)
    ensures ClosedMatchAt(text, p, k, q)
    ensures ExtractHtml(text) == Trim(text[k..q])
    ensures NoOccurrenceFrom(ExtractHtml(text), Fence, 0)
  {
    var p' := IndexOf(text, OpenMarker, 0).value;
    FirstOccurrenceUnique(text, OpenMarker, 0, p, p');
    var k' := SkipWs(text, p + |OpenMarker|);
    GroupStartUnique(text, p, k, k');
    var q' := IndexOf(text, Fence, k).value;
    FirstOccurrenceUnique(text, Fence, k, q, q');
    NoOccurrenceInSlice(text, Fence, k, q);
    TrimStaysClean(text[k..q], Fence);
  }

  /** Rule 2: with the marker first at `p` and no "```" after the group
      start, the result is the trimmed rest of the text, free of "```". */
  lemma OpenFence(text: string, p: nat, k: nat)
    requires FirstOccurrenceFrom(text, OpenMarker, 0, p)
    requires GroupStart(text, p, k)
    requires NoOccurrenceFrom(text, Fence, k)
    ensures ExtractHtml(text) == Trim(text[k..])
    ensures NoOccurrenceFrom(ExtractHtml(text), Fence, 0)
  {
    var p' := IndexOf(text, OpenMarker, 0).value;
    FirstOccurrenceUnique(text, OpenMarker, 0, p, p');
    var k' := SkipWs(text, p + |OpenMarker|);
    GroupStartUnique(text, p, k, k');
    NoOccurrenceInSlice(text, Fence, k, |text|);
    assert text[k..|text|] == text[k..];
    TrimStaysClean(text[k..], Fence);
  }

  /** Rule 3: without the marker (so also for "```HTML" or a bare "```")
      the result is the trimmed text. */
  lemma NoFence(text: string)
    requires NoOccurrenceFrom(text, OpenMarker, 0)
    ensures ExtractHtml(text) == Trim(text)
  {
  }

  /** Regular expression 1 matches with its marker at `i`, `\s*\n?` spanning
      `text[i + |OpenMarker|..j]` (every way of splitting a whitespace run
      between the two) and its closing "```" at `q`. */
  ghost predicate ClosedMatchAt(text: string, i: nat, j: nat, q: nat) {
    OccursAt(text, OpenMarker, i) && i + |OpenMarker| <= j <= q && OccursAt(text, Fence, q)
    && AllWs(text[i + |OpenMarker|..j])
  }

  /** Rule 2 really is the fallback of rule 1: when the marker occurs but
      no "```" follows its group start, the closed-fence expression has no
      match at all, from any marker and with any split of the whitespace,
      and the open-fence expression decides. */
  lemma ClosedBeatsOpen(text: string, p: nat, k: nat)
    requires FirstOccurrenceFrom(text, OpenMarker, 0, p)
    requires GroupStart(text, p, k)
    requires NoOccurrenceFrom(text, Fence, k)
    ensures forall i: nat, j: nat, q: nat :: !ClosedMatchAt(text, i, j, q)
    ensures ExtractHtml(text) == Trim(text[k..])
  {
    forall i: nat, j: nat, q: nat
      ensures !ClosedMatchAt(text, i, j, q)
    {
      MatchFenceAfterGroup(text, p, k, i, j, q);
    }
    OpenFence(text, p, k);
  }

  /** Every closing fence of rule 1 lies at or after the group start of the
      first marker. */
  lemma MatchFenceAfterGroup(text: string, p: nat, k: nat, i: nat, j: nat, q: nat)
    requires FirstOccurrenceFrom(text, OpenMarker, 0, p)
    requires GroupStart(text, p, k)
    ensures ClosedMatchAt(text, i, j, q) ==> k <= q <= |text| && OccursAt(text, Fence, q)
  {
    if ClosedMatchAt(text, i, j, q) {
      assert p <= i;
      GroupIsWs(text, p, k, q);
      FenceIsNotWs(text, q);
    }
  }

  /** Everything between the marker and the group start is whitespace. */
  lemma GroupIsWs(text: string, p: nat, k: nat, q: nat)
    requires GroupStart(text, p, k) && p + |OpenMarker| <= q
    ensures q < k ==> IsWs(text[q])
  {
    if q < k {
      assert text[q] == text[p + |OpenMarker|..k][q - (p + |OpenMarker|)];
    }
  }

  lemma FenceIsNotWs(text: string, q: nat)
    requires OccursAt(text, Fence, q)
    ensures !IsWs(text[q])
  {
    assert text[q] == text[q..q + |Fence|][0];
  }

  /** Trimming cannot create an occurrence of a pattern. */
  lemma TrimStaysClean(s: string, pat: string)
    requires NoOccurrenceFrom(s, pat, 0)
    ensures NoOccurrenceFrom(Trim(s), pat, 0)
  {
    var i := SkipWs(s, 0);
    NoOccurrenceInPart(s, pat, i, i + |Trim(s)|);
  }

  /** A string free of "```" holds no marker either. */
  lemma NoFenceNoMarker(s: string)
    requires NoOccurrenceFrom(s, Fence, 0)
    ensures NoOccurrenceFrom(s, OpenMarker, 0)
  {
    forall j | 0 <= j <= |s| && OccursAt(s, OpenMarker, j)
      ensures false
    {
      assert s[j..j + 3] == s[j..j + 7][..3];
      assert OccursAt(s, Fence, j);
    }
  }

  /** Extracting twice is extracting once: a fenced result is free of
      "```", and an unfenced result is a trimmed slice of a text free of
      the marker. */
  lemma Idempotent(text: string)
    ensures ExtractHtml(ExtractHtml(text)) == ExtractHtml(text)
  {
    var r := ExtractHtml(text);
    match IndexOf(text, OpenMarker, 0)
    case None =>
      var i := SkipWs(text, 0);
      NoOccurrenceInPart(text, OpenMarker, i, i + |r|);
      NoFence(r);
      TrimTrimmed(r);
    case Some(p) =>
      var k := SkipWs(text, p + |OpenMarker|);
      match IndexOf(text, Fence, k)
      case Some(q) =>
        ClosedFence(text, p, k, q);
        NoFenceNoMarker(r);
        NoFence(r);
        TrimTrimmed(r);
      case None =>
        OpenFence(text, p, k);
        NoFenceNoMarker(r);
        NoFence(r);
        TrimTrimmed(r);
  }

  /** The marker right after a backtick-free lead-in is its first occurrence. */
  lemma MarkerAfterLeadIn(pre: string, rest: string)
    requires '`' !in pre
    requires StartsWith(rest, OpenMarker)
    ensures FirstOccurrenceFrom(pre + rest, OpenMarker, 0, |pre|)
  {
    var s := pre + rest;
    assert s[|pre|..|pre| + |OpenMarker|] == rest[..|OpenMarker|];
    forall j | 0 <= j < |pre|
      ensures !OccursAt(s, OpenMarker, j)
    {
      assert s[j] == pre[j];
    }
  }

  /** In `s`, the slice `s[b..q]` is free of "```" and does not end in a
      backtick, and a fence sits at `q`: so `q` is the first fence at or
      after any `k` between `b` and `q`. */
  lemma FenceAfterBody(s: string, b: nat, k: nat, q: nat)
    requires b <= k <= q && q + 3 <= |s| && s[q..q + 3] == Fence
    requires NoOccurrenceFrom(s[b..q], Fence, 0)
    requires b == q || s[q - 1] != '`'
    ensures FirstOccurrenceFrom(s, Fence, k, q)
  {
    forall j | k <= j < q
      ensures !OccursAt(s, Fence, j)
    {
      if j + 3 <= q {
        OccurrenceInSlice(s, Fence, b, q, j);
      }
    }
  }

  /** The whitespace run after the marker cannot pass a backtick. */
  lemma SkipStopsAtBacktick(s: string, b: nat, q: nat)
    requires b <= q < |s| && s[q] == '`'
    ensures SkipWs(s, b) <= q
  {
  }

  /** The slices of a text laid out as lead-in, marker, body, fence, rest. */
  lemma Layout(pre: string, mid: string, post: string)
    ensures var s := pre + OpenMarker + mid + Fence + post;
      var b := |pre| + |OpenMarker|;
      StartsWith(s[|pre|..], OpenMarker) && s == pre + s[|pre|..]
      && b + |mid| + 3 <= |s| && s[b..b + |mid|] == mid && s[b + |mid|..b + |mid| + 3] == Fence
  {
    var s := pre + OpenMarker + mid + Fence + post;
    var b := |pre| + |OpenMarker|;
    assert s[|pre|..] == OpenMarker + mid + Fence + post;
    assert s[b..] == mid + Fence + post;
    assert s[b..][..|mid|] == mid;
    assert s[b + |mid|..] == Fence + post;
    assert s[b + |mid|..][..3] == Fence;
  }

  /** With the marker first at `p` and a body `s[b..q]` right after it
      that is free of "```" and does not end in a backtick, followed by a
      fence at `q`, the result is the trimmed body. */
  lemma ExtractBody(s: string, p: nat, q: nat)
    requires FirstOccurrenceFrom(s, OpenMarker, 0, p)
    requires p + |OpenMarker| <= q && q + 3 <= |s| && s[q..q + 3] == Fence
    requires NoOccurrenceFrom(s[p + |OpenMarker|..q], Fence, 0)
    requires p + |OpenMarker| == q || s[q - 1] != '`'
    ensures ExtractHtml(s) == Trim(s[p + |OpenMarker|..q])
  {
    var b := p + |OpenMarker|;
    assert s[q] == '`' by { assert s[q..q + 3][0] == s[q]; }
    SkipStopsAtBacktick(s, b, q);
    var k := SkipWs(s, b);
    FenceAfterBody(s, b, k, q);
    assert GroupStart(s, p, k);
    ClosedFence(s, p, k, q);
    LeadingWsIgnored(s, b, k, q);
  }

  /** Whitespace at the start of a slice does not change its trimmed form. */
  lemma LeadingWsIgnored(s: string, b: nat, k: nat, q: nat)
    requires b <= k <= q <= |s| && AllWs(s[b..k])
    ensures Trim(s[b..q]) == Trim(s[k..q])
  {
    assert s[b..q] == s[b..k] + s[k..q] + [];
    TrimIgnoresPadding(s[b..k], s[k..q], []);
  }

  /** A text made of a backtick-free lead-in, the marker, a body free of
      "```" that does not end in a backtick, a fence and anything after it
      extracts to the trimmed body. */
  lemma ExtractFenced(pre: string, mid: string, post: string)
    requires '`' !in pre
    requires NoOccurrenceFrom(mid, Fence, 0)
    requires mid == [] || mid[|mid| - 1] != '`'
    ensures ExtractHtml(pre + OpenMarker + mid + Fence + post) == Trim(mid)
  {
    var s := pre + OpenMarker + mid + Fence + post;
    var p := |pre|;
    var q := p + |OpenMarker| + |mid|;
    Layout(pre, mid, post);
    MarkerAfterLeadIn(pre, s[p..]);
    assert mid != [] ==> s[q - 1] == mid[|mid| - 1];
    ExtractBody(s, p, q);
  }
}
