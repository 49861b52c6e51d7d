/**
 * The job-description parser of `test_job_parsing.js`: `parseHtmlList`, a
 * three-tier list extractor, and `parseJobDescription`, which splits a
 * description at its `<h5>` headings and files each section's items under
 * "responsibilities" or "ideal for".
 *
 * `decodeHtmlEntities` goes through the DOM; it is a parameter `decode`
 * here, returning `None` where the call throws (as it does wherever
 * `document` is undefined).
 */
module JobParsing {
  import opened Wrappers
  import opened Text

  /* ---------- the regular expressions, as scanners ---------- */

  /** Where a match sits: the captured text is `s[start..stop]`, and the match ends at `end`. */
  datatype Span = Span(start: nat, stop: nat, end: nat)

  /** The two list patterns: `<li…>\s*<p…>(…)</p>\s*</li>` and `<li…>(…)</li>`. */
  datatype Tier = LiWithP | LiOnly

  /** `</p>\s*</li>` matches at position `e`. */
  predicate ClosesLiP(s: string, e: nat) {
    StartsAt(s, e, "</p>") && StartsAt(s, SkipSpaces(s, e + 4), "</li>")
  }

  /** The first position `e` at or after `from` where `</p>\s*</li>` matches: the lazy group stops there. */
  function CloseLiP(s: string, from: nat): (e: nat)
    requires from <= |s|
    ensures from <= e <= |s|
    decreases |s| - from
  {
    if from == |s| || ClosesLiP(s, from) then from else CloseLiP(s, from + 1)
  }

  /** `CloseLiP` stops where the closing tags follow, and passes over no earlier such place. */
  lemma {:induction false} CloseLiPRun(s: string, from: nat)
    requires from <= |s|
    ensures CloseLiP(s, from) < |s| ==> ClosesLiP(s, CloseLiP(s, from))
    ensures forall k :: from <= k < CloseLiP(s, from) ==> !ClosesLiP(s, k)
    decreases |s| - from
  {
    if from < |s| && !ClosesLiP(s, from) {
      CloseLiPRun(s, from + 1);
    }
  }

  /** Where `CloseLiP` stops inside the text, the closing tags fit after it. */
  lemma {:induction false} CloseLiPEnd(s: string, from: nat)
    requires from <= |s|
    ensures CloseLiP(s, from) < |s| ==> CloseLiP(s, from) + 4 <= |s| && SkipSpaces(s, CloseLiP(s, from) + 4) + 5 <= |s|
  {
    CloseLiPRun(s, from);
  }

  /** The first position at or after `from` where `</li>` starts. */
  function CloseLi(s: string, from: nat): (e: nat)
    requires from <= |s|
    ensures from <= e <= |s|
    decreases |s| - from
  {
    if from == |s| then from
    else if StartsAt(s, from, "</li>") then from
    else CloseLi(s, from + 1)
  }

  /** `CloseLi` stops at a `</li>` and passes over no earlier one. */
  lemma {:induction false} CloseLiRun(s: string, from: nat)
    requires from <= |s|
    ensures CloseLi(s, from) < |s| ==> StartsAt(s, CloseLi(s, from), "</li>")
    ensures forall k :: from <= k < CloseLi(s, from) ==> !StartsAt(s, k, "</li>")
    decreases |s| - from
  {
    if from < |s| && !StartsAt(s, from, "</li>") {
      CloseLiRun(s, from + 1);
    }
  }

  /** Where `<li[^>]*>` matched at `i` ends: `[^>]*>` can only end right after the first '>'. */
  function OpenLi(s: string, i: nat): (r: Option<nat>)
    requires i <= |s|
    ensures r.Some? ==> i + 3 < r.value <= |s|
  {
    if !StartsAt(s, i, "<li") then None
    else
      var g := IndexOf(s, '>', i + 3);
      if g == |s| then None else Some(g + 1)
  }

  /**
   * The list pattern of `tier` matched at position `i`. `\s*` before a '<'
   * can only end where the white space does, so each part of the match is
   * determined; the lazy group ends at the first place where the rest of
   * the pattern matches.
   */
  function ListItemAt(s: string, i: nat, tier: Tier): (r: Option<Span>)
    requires i <= |s|
    ensures r.Some? ==> i < r.value.start <= r.value.stop <= r.value.end <= |s|
  {
    if tier == LiOnly then BareItemAt(s, i) else ParaItemAt(s, i)
  }

  /** `/<li[^>]*>([\s\S]*?)<\/li>/` matched at `i`. */
  function BareItemAt(s: string, i: nat): (r: Option<Span>)
    requires i <= |s|
    ensures r.Some? ==> i < r.value.start <= r.value.stop <= r.value.end <= |s|
  {
    match OpenLi(s, i)
    case None => None
    case Some(k) => LiContent(s, k)
  }

  /** `/<li[^>]*>\s*<p[^>]*>([\s\S]*?)<\/p>\s*<\/li>/` matched at `i`. */
  function ParaItemAt(s: string, i: nat): (r: Option<Span>)
    requires i <= |s|
    ensures r.Some? ==> i < r.value.start <= r.value.stop <= r.value.end <= |s|
  {
    match OpenLi(s, i)
    case None => None
    case Some(k) => LiPContent(s, k)
  }

  /** After `<li…>`: the capture up to the first `</li>`. */
  function LiContent(s: string, from: nat): (r: Option<Span>)
    requires from <= |s|
    ensures r.Some? ==> from <= r.value.start <= r.value.stop <= r.value.end <= |s|
  {
    var e := CloseLi(s, from);
    if e == |s| then None
    else
      CloseLiRun(s, from);
      Some(Span(from, e, e + 5))
  }

  /** After `<li…>`: white space, `<p…>`, and the capture up to the first `</p>\s*</li>`. */
  function LiPContent(s: string, from: nat): (r: Option<Span>)
    requires from <= |s|
    ensures r.Some? ==> from <= r.value.start <= r.value.stop <= r.value.end <= |s|
  {
    var a := SkipSpaces(s, from);
    if !StartsAt(s, a, "<p") then None
    else
      var g := IndexOf(s, '>', a + 2);
      if g == |s| then None
      else
        var e := CloseLiP(s, g + 1);
        if e == |s| then None
        else
          CloseLiPEnd(s, g + 1);
          Some(Span(g + 1, e, SkipSpaces(s, e + 4) + 5))
  }

  /** `regex.exec(s)` with `lastIndex` at `from`: the leftmost match at or after `from`. */
  function NextListItem(s: string, from: nat, tier: Tier): (r: Option<Span>)
    requires from <= |s|
    ensures r.Some? ==> from < r.value.start <= r.value.stop <= r.value.end <= |s|
    decreases |s| - from
  {
    var m := ListItemAt(s, from, tier);
    if m.Some? then m
    else if from == |s| then None
    else NextListItem(s, from + 1, tier)
  }

  /*
   * The same patterns read declaratively, piece by piece, to state what the
   * scanners find.
   */

  /** `[^>]*>` matches `s[from..k]`: `s[k - 1]` is a '>' and none comes before it. */
  predicate TagRest(s: string, from: nat, k: nat) {
    from < k <= |s| && s[k - 1] == '>' && forall j :: from <= j < k - 1 ==> s[j] != '>'
  }

  /** `[^>]*>` can only end right after the first '>'. */
  lemma {:induction false} TagRestFirst(s: string, from: nat, k: nat)
    requires from <= |s|
    ensures TagRest(s, from, k) <==> (IndexOf(s, '>', from) < |s| && k == IndexOf(s, '>', from) + 1)
  {
    var g := IndexOf(s, '>', from);
    IndexOfRun(s, '>', from);
    if TagRest(s, from, k) {
      assert s[k - 1] == '>';
      assert g <= k - 1;
    }
  }

  /** `<li[^>]*>` matches `s[i..k]`. */
  predicate OpenLiMatch(s: string, i: nat, k: nat) {
    StartsAt(s, i, "<li") && i + 3 < k <= |s| && TagRest(s, i + 3, k)
  }

  /** The opening tag is found exactly where it matches. */
  lemma {:induction false} OpenLiSpec(s: string, i: nat, k: nat)
    requires i <= |s|
    ensures OpenLi(s, i) == Some(k) <==> OpenLiMatch(s, i, k)
  {
    if StartsAt(s, i, "<li") {
      TagRestFirst(s, i + 3, k);
    }
  }

  /** What follows `<li…>` at `k` for a bare item: the capture up to the first `</li>`. */
  predicate LiMatch(s: string, k: nat, sp: Span) {
    && sp.start == k <= sp.stop
    && StartsAt(s, sp.stop, "</li>")
    && (forall j :: sp.start <= j < sp.stop ==> !StartsAt(s, j, "</li>"))
    && sp.end == sp.stop + 5
  }

  /**
   * What follows `<li…>` at `k` for an item with a paragraph: white space,
   * `<p` up to its first '>', then the capture up to the first place where
   * `</p>\s*</li>` follows.
   */
  predicate LiPMatch(s: string, k: nat, sp: Span) {
    && k <= |s| && StartsAt(s, SkipSpaces(s, k), "<p")
    && TagRest(s, SkipSpaces(s, k) + 2, sp.start)
    && sp.start <= sp.stop
    && ClosesLiP(s, sp.stop)
    && (forall j :: sp.start <= j < sp.stop ==> !ClosesLiP(s, j))
    && sp.end == SkipSpaces(s, sp.stop + 4) + 5
  }

  /** The bare-item pattern matches at `i`: `<li…>`, then the capture up to the first `</li>`. */
  predicate BareItemMatch(s: string, i: nat, sp: Span) {
    exists k :: i + 3 < k <= |s| && OpenLiMatch(s, i, k) && LiMatch(s, k, sp)
  }

  /** The paragraph-item pattern matches at `i`: `<li…>`, then the rest as `LiPMatch` reads it. */
  predicate ParaItemMatch(s: string, i: nat, sp: Span) {
    exists k :: i + 3 < k <= |s| && OpenLiMatch(s, i, k) && LiPMatch(s, k, sp)
  }

  /**
   * The list pattern of `tier` matches at `i`, capturing `s[sp.start..sp.stop]`
   * and ending at `sp.end`.
   */
  predicate ListItemMatch(s: string, i: nat, tier: Tier, sp: Span) {
    if tier == LiOnly then BareItemMatch(s, i, sp) else ParaItemMatch(s, i, sp)
  }

  /** `[\s\S]*?</li>` from `from` stops at the first `</li>`. */
  lemma {:induction false} CloseLiFirst(s: string, from: nat, e: nat)
    requires from <= |s|
    ensures (from <= e && StartsAt(s, e, "</li>") && forall k :: from <= k < e ==> !StartsAt(s, k, "</li>"))
      ==> (CloseLi(s, from) == e && e < |s|)
    ensures (from <= e && StartsAt(s, e, "</li>") && forall k :: from <= k < e ==> !StartsAt(s, k, "</li>"))
      <== (CloseLi(s, from) == e && e < |s|)
  {
    var c := CloseLi(s, from);
    CloseLiRun(s, from);
    if from <= e && StartsAt(s, e, "</li>") && forall k :: from <= k < e ==> !StartsAt(s, k, "</li>") {
      assert c <= e;
      assert c >= e;
    }
  }

  /** `[\s\S]*?</p>\s*</li>` from `from` stops at the first place where the closing tags follow. */
  lemma {:induction false} CloseLiPFirst(s: string, from: nat, e: nat)
    requires from <= |s|
    ensures (from <= e && ClosesLiP(s, e) && forall k :: from <= k < e ==> !ClosesLiP(s, k))
      ==> (CloseLiP(s, from) == e && e < |s|)
    ensures (from <= e && ClosesLiP(s, e) && forall k :: from <= k < e ==> !ClosesLiP(s, k))
      <== (CloseLiP(s, from) == e && e < |s|)
  {
    var c := CloseLiP(s, from);
    CloseLiPRun(s, from);
    if from <= e && ClosesLiP(s, e) && forall k :: from <= k < e ==> !ClosesLiP(s, k) {
      assert c <= e;
      assert c >= e;
    }
  }

  /** The rest of a bare item is found exactly when it matches. */
  lemma {:induction false} LiContentSpec(s: string, k: nat, sp: Span)
    requires k <= |s|
    ensures LiContent(s, k) == Some(sp) <==> LiMatch(s, k, sp)
  {
    CloseLiFirst(s, k, sp.stop);
  }

  /** The rest of an item with a paragraph that the scanner finds matches. */
  lemma {:induction false} LiPScannedMatch(s: string, k: nat, sp: Span)
    requires k <= |s| && LiPContent(s, k) == Some(sp)
    ensures LiPMatch(s, k, sp)
  {
    var a := SkipSpaces(s, k);
    var g := IndexOf(s, '>', a + 2);
    var e := CloseLiP(s, g + 1);
    assert StartsAt(s, a, "<p");
    assert g < |s|;
    assert e < |s| && sp == Span(g + 1, e, SkipSpaces(s, e + 4) + 5);
    TagRestFirst(s, a + 2, g + 1);
    CloseLiPFirst(s, g + 1, e);
  }

  /** A match of the rest of an item with a paragraph is what the scanner finds. */
  lemma {:induction false} LiPMatchScanned(s: string, k: nat, sp: Span)
    requires k <= |s| && LiPMatch(s, k, sp)
    ensures LiPContent(s, k) == Some(sp)
  {
    var a := SkipSpaces(s, k);
    TagRestFirst(s, a + 2, sp.start);
    CloseLiPFirst(s, sp.start, sp.stop);
  }

  /** The rest of an item with a paragraph is found exactly when it matches. */
  lemma {:induction false} LiPContentSpec(s: string, k: nat, sp: Span)
    requires k <= |s|
    ensures LiPContent(s, k) == Some(sp) <==> LiPMatch(s, k, sp)
  {
    if LiPContent(s, k) == Some(sp) {
      LiPScannedMatch(s, k, sp);
    }
    if LiPMatch(s, k, sp) {
      LiPMatchScanned(s, k, sp);
    }
  }

  /** The bare-item scanner returns `sp` exactly when the pattern matches at `i` with that span. */
  lemma {:induction false} BareItemAtSpec(s: string, i: nat, sp: Span)
    requires i <= |s|
    ensures BareItemAt(s, i) == Some(sp) <==> BareItemMatch(s, i, sp)
  {
    if BareItemMatch(s, i, sp) {
      var k :| i + 3 < k <= |s| && OpenLiMatch(s, i, k) && LiMatch(s, k, sp);
      OpenLiSpec(s, i, k);
      LiContentSpec(s, k, sp);
    }
    if BareItemAt(s, i) == Some(sp) {
      var k := OpenLi(s, i).value;
      OpenLiSpec(s, i, k);
      LiContentSpec(s, k, sp);
    }
  }

  /** The paragraph-item scanner returns `sp` exactly when the pattern matches at `i` with that span. */
  lemma {:induction false} ParaItemAtSpec(s: string, i: nat, sp: Span)
    requires i <= |s|
    ensures ParaItemAt(s, i) == Some(sp) <==> ParaItemMatch(s, i, sp)
  {
    if ParaItemMatch(s, i, sp) {
      var k :| i + 3 < k <= |s| && OpenLiMatch(s, i, k) && LiPMatch(s, k, sp);
      OpenLiSpec(s, i, k);
      LiPContentSpec(s, k, sp);
    }
    if ParaItemAt(s, i) == Some(sp) {
      var k := OpenLi(s, i).value;
      OpenLiSpec(s, i, k);
      LiPContentSpec(s, k, sp);
    }
  }

  /** The scanner of `tier` returns the match of the pattern at `i`, and `None` exactly when it does not match there. */
  lemma {:induction false} ListItemAtSpec(s: string, i: nat, tier: Tier, sp: Span)
    requires i <= |s|
    ensures ListItemAt(s, i, tier) == Some(sp) <==> ListItemMatch(s, i, tier, sp)
  {
    if tier == LiOnly {
      BareItemAtSpec(s, i, sp);
    } else {
      ParaItemAtSpec(s, i, sp);
    }
  }

  /** `exec` from `from` returns the match at the leftmost position `p` where the pattern matches. */
  lemma {:induction false} NextListItemLeftmost(s: string, from: nat, tier: Tier, p: nat)
    requires from <= p <= |s|
    requires ListItemAt(s, p, tier).Some?
    requires forall q :: from <= q < p ==> ListItemAt(s, q, tier).None?
    ensures NextListItem(s, from, tier) == ListItemAt(s, p, tier)
  {
    NextListItemSkipRun(s, from, tier, p);
    NextListItemHit(s, p, tier);
  }

  /** `exec` passes over every position where the pattern does not match. */
  lemma {:induction false} NextListItemSkipRun(s: string, from: nat, tier: Tier, p: nat)
    requires from <= p <= |s|
    requires forall q :: from <= q < p ==> ListItemAt(s, q, tier).None?
    ensures NextListItem(s, from, tier) == NextListItem(s, p, tier)
  {
    NoItemInAll(s, from, tier, p);
    NoItemInSkip(s, from, tier, p);
  }

  /** No list item of `tier` starts in `[from, p)`, stated position by position. */
  predicate NoItemIn(s: string, from: nat, tier: Tier, p: nat)
    requires p <= |s|
    decreases p - from
  {
    from >= p || (ListItemAt(s, from, tier).None? && NoItemIn(s, from + 1, tier, p))
  }

  lemma {:induction false} NoItemInAll(s: string, from: nat, tier: Tier, p: nat)
    requires from <= p <= |s|
    requires forall q :: from <= q < p ==> ListItemAt(s, q, tier).None?
    ensures NoItemIn(s, from, tier, p)
    decreases p - from
  {
    if from < p {
      NoItemInAll(s, from + 1, tier, p);
    }
  }

  lemma {:induction false} NoItemInSkip(s: string, from: nat, tier: Tier, p: nat)
    requires from <= p <= |s| && NoItemIn(s, from, tier, p)
    ensures NextListItem(s, from, tier) == NextListItem(s, p, tier)
    decreases p - from
  {
    if from < p {
      NextListItemSkip(s, from, tier);
      NoItemInSkip(s, from + 1, tier, p);
    }
  }

  /** Where the pattern matches, `exec` returns that match. */
  lemma {:induction false} NextListItemHit(s: string, from: nat, tier: Tier)
    requires from <= |s| && ListItemAt(s, from, tier).Some?
    ensures NextListItem(s, from, tier) == ListItemAt(s, from, tier)
  {
  }

  /** Where the pattern does not match, `exec` moves on to the next position. */
  lemma {:induction false} NextListItemSkip(s: string, from: nat, tier: Tier)
    requires from < |s| && ListItemAt(s, from, tier).None?
    ensures NextListItem(s, from, tier) == NextListItem(s, from + 1, tier)
  {
  }

  /** `exec` from `from` returns null when the pattern matches nowhere at or after `from`. */
  lemma {:induction false} NextListItemNone(s: string, from: nat, tier: Tier)
    requires from <= |s|
    requires forall q :: from <= q <= |s| ==> ListItemAt(s, q, tier).None?
    ensures NextListItem(s, from, tier).None?
    decreases |s| - from
  {
    if from < |s| {
      NextListItemSkip(s, from, tier);
      NextListItemNone(s, from + 1, tier);
    }
  }

  /** `x.replace(/<[^>]*>/g, '').trim()`: trimmed text with no tag left in it. */
  function CleanText(x: string): (r: string)
    ensures Trimmed(r) && TagFree(r, false)
    ensures |r| <= |x|
  {
    StripThenTrimStable(x, false);
    Trim(StripTags(x, false))
  }

  /**
   * Cleaning deletes tags, even empty ones, and keeps the text around them:
   * text without '<', then a tag, then the rest, comes out as that text
   * followed by the cleaned rest, all trimmed.
   */
  lemma {:induction false} CleanTextDeletesTag(x: string, t: string, y: string)
    requires '<' !in x && '>' !in t
    ensures CleanText(x + "<" + t + ">" + y) == Trim(x + StripTags(y, false))
  {
    assert x + "<" + t + ">" + y == x + ("<" + t + ">" + y);
    StripTagsKeepsText(x, "<" + t + ">" + y, false);
    StripTagsDropsTag(t, y, false);
  }

  /** An item's text before decoding: non-empty, trimmed, with no tag left in it. */
  predicate IsItemText(t: string) {
    t != "" && Trimmed(t) && TagFree(t, false)
  }

  /** What cleaning a captured item keeps: nothing when it is blank or only tags. */
  function KeptText(content: string): (r: seq<string>)
    ensures |r| <= 1
    ensures forall t :: t in r ==> IsItemText(t)
  {
    var c := Trim(content);
    var t := CleanText(c);
    if c != "" && t != "" then [t] else []
  }

  /** The texts the `exec` loop of `tier` collects from position `from` on, in document order. */
  function TierTexts(s: string, from: nat, tier: Tier): seq<string>
    requires from <= |s|
    decreases |s| - from
  {
    match NextListItem(s, from, tier)
    case None => []
    case Some(sp) => KeptText(s[sp.start..sp.stop]) + TierTexts(s, sp.end, tier)
  }

  /** Every text an `exec` loop keeps is a non-empty, trimmed, tag-free item text. */
  lemma {:induction false} TierTextsShape(s: string, from: nat, tier: Tier)
    requires from <= |s|
    ensures forall t :: t in TierTexts(s, from, tier) ==> IsItemText(t)
    decreases |s| - from
  {
    var m := NextListItem(s, from, tier);
    if m.Some? {
      var kept := KeptText(s[m.value.start..m.value.stop]);
      var rest := TierTexts(s, m.value.end, tier);
      TierTextsShape(s, m.value.end, tier);
      assert TierTexts(s, from, tier) == kept + rest;
      forall t | t in kept + rest ensures IsItemText(t) {
        assert t in kept || t in rest;
      }
    }
  }

  /** A line break character of `/[\n\r]+/`. */
  predicate IsLineBreak(c: char) {
    c == '\n' || c == '\r'
  }

  /** The first line break at or after `from`, or `|s|`. */
  function LineBreakFrom(s: string, from: nat): (k: nat)
    requires from <= |s|
    ensures from <= k <= |s|
    ensures k < |s| ==> IsLineBreak(s[k])
    ensures forall i :: from <= i < k ==> !IsLineBreak(s[i])
    decreases |s| - from
  {
    if from == |s| || IsLineBreak(s[from]) then from else LineBreakFrom(s, from + 1)
  }

  /** The end of the run of line breaks starting at `from`. */
  function LineBreakRunEnd(s: string, from: nat): (k: nat)
    requires from <= |s|
    ensures from <= k <= |s|
    ensures k < |s| ==> !IsLineBreak(s[k])
    decreases |s| - from
  {
    if from == |s| || !IsLineBreak(s[from]) then from else LineBreakRunEnd(s, from + 1)
  }

  /** `s.split(/[\n\r]+/)`: the text between maximal runs of line breaks. */
  function SplitLines(s: string): (r: seq<string>)
    ensures |r| >= 1
    decreases |s|
  {
    var k := LineBreakFrom(s, 0);
    if k == |s| then [s]
    else [s[..k]] + SplitLines(s[LineBreakRunEnd(s, k + 1)..])
  }

  /** A text with no line break in it. */
  predicate BreakFree(t: string) {
    forall i :: 0 <= i < |t| ==> !IsLineBreak(t[i])
  }

  /** A text without line breaks is one line. */
  lemma {:induction false} SplitLinesNoBreak(s: string)
    requires BreakFree(s)
    ensures SplitLines(s) == [s]
  {
    assert LineBreakFrom(s, 0) == |s|;
  }

  /** `LineBreakRunEnd` stops at the first character that is not a line break. */
  lemma {:induction false} LineBreakRunStops(s: string, from: nat, stop: nat)
    requires from <= stop <= |s|
    requires forall i :: from <= i < stop ==> IsLineBreak(s[i])
    requires stop < |s| ==> !IsLineBreak(s[stop])
    ensures LineBreakRunEnd(s, from) == stop
    decreases stop - from
  {
    if from < stop {
      LineBreakRunStops(s, from + 1, stop);
    }
  }

  /**
   * A line `a`, then a run `b` of line breaks, then text `c` that does not
   * start with one: `a` is the first piece and the rest is the split of `c`.
   */
  lemma {:induction false} SplitLinesStep(a: string, b: string, c: string)
    requires BreakFree(a)
    requires b != [] && forall i :: 0 <= i < |b| ==> IsLineBreak(b[i])
    requires c == [] || !IsLineBreak(c[0])
    ensures SplitLines(a + b + c) == [a] + SplitLines(c)
  {
    var s := a + b + c;
    FirstBreakAfterLine(a, b + c);
    assert s == a + (b + c);
    BreakRunBeforeRest(a, b, c);
    assert s[..|a|] == a;
    assert s[|a| + |b|..] == c;
  }

  /** The first line break of `a + t`, for a line `a` and `t` starting with a break, is at `|a|`. */
  lemma {:induction false} FirstBreakAfterLine(a: string, t: string)
    requires BreakFree(a)
    requires t != [] && IsLineBreak(t[0])
    ensures LineBreakFrom(a + t, 0) == |a|
  {
    var s := a + t;
    assert forall i :: 0 <= i < |a| ==> s[i] == a[i];
    assert s[|a|] == t[0];
  }

  /** The run of line breaks that starts just after the line `a` ends where `c` starts. */
  lemma {:induction false} BreakRunBeforeRest(a: string, b: string, c: string)
    requires b != [] && forall i :: 0 <= i < |b| ==> IsLineBreak(b[i])
    requires c == [] || !IsLineBreak(c[0])
    ensures LineBreakRunEnd(a + b + c, |a| + 1) == |a| + |b|
  {
    var s := a + b + c;
    assert forall i :: |a| <= i < |a| + |b| ==> s[i] == b[i - |a|];
    assert |a| + |b| < |s| ==> s[|a| + |b|] == c[0];
    LineBreakRunStops(s, |a| + 1, |a| + |b|);
  }

  /** No piece of the split holds a line break. */
  lemma {:induction false} SplitLinesPieces(s: string)
    ensures forall k :: 0 <= k < |SplitLines(s)| ==> BreakFree(SplitLines(s)[k])
    decreases |s|
  {
    var k := LineBreakFrom(s, 0);
    if k < |s| {
      var rest := s[LineBreakRunEnd(s, k + 1)..];
      SplitLinesPieces(rest);
      var r := SplitLines(s);
      assert r == [s[..k]] + SplitLines(rest);
      assert BreakFree(r[0]);
      assert forall j :: 1 <= j < |r| ==> r[j] == SplitLines(rest)[j - 1];
    }
  }

  /** What the line loop keeps of one line: its cleaned text when that is longer than ten characters. */
  function KeptLine(line: string): (r: seq<string>)
    ensures |r| <= 1
    ensures forall t :: t in r ==> IsItemText(t) && |t| > 10
  {
    var t := CleanText(line);
    if t != "" && |t| > 10 then [t] else []
  }

  /** The plain-text fallback: the kept lines from line `from` on, in line order. */
  function LineTexts(lines: seq<string>, from: nat): seq<string>
    requires from <= |lines|
    decreases |lines| - from
  {
    if from == |lines| then [] else KeptLine(lines[from]) + LineTexts(lines, from + 1)
  }

  /** Every line kept is an item text of more than ten characters, and there are at most as many as lines. */
  lemma {:induction false} LineTextsShape(lines: seq<string>, from: nat)
    requires from <= |lines|
    ensures |LineTexts(lines, from)| <= |lines| - from
    ensures forall t :: t in LineTexts(lines, from) ==> IsItemText(t) && |t| > 10
    decreases |lines| - from
  {
    if from < |lines| {
      var kept := KeptLine(lines[from]);
      var rest := LineTexts(lines, from + 1);
      LineTextsShape(lines, from + 1);
      assert LineTexts(lines, from) == kept + rest;
      forall t | t in kept + rest ensures IsItemText(t) && |t| > 10 {
        assert t in kept || t in rest;
      }
    }
  }

  /**
   * The texts `parseHtmlList` keeps, before decoding: those of the first
   * strategy that finds any — `<li><p>` items, then bare `<li>` items, then
   * substantial lines.
   */
  function ItemTexts(s: string): seq<string> {
    var t1 := TierTexts(s, 0, LiWithP);
    if t1 != [] then t1
    else
      var t2 := TierTexts(s, 0, LiOnly);
      if t2 != [] then t2 else LineTexts(SplitLines(s), 0)
  }

  /**
   * The item texts are non-empty, trimmed and tag-free; a later strategy
   * contributes only when the earlier ones found nothing, and the line
   * fallback keeps only texts longer than ten characters.
   */
  lemma {:induction false} ItemTextsShape(s: string)
    ensures forall t :: t in ItemTexts(s) ==> IsItemText(t)
    ensures TierTexts(s, 0, LiWithP) != [] ==> ItemTexts(s) == TierTexts(s, 0, LiWithP)
    ensures TierTexts(s, 0, LiWithP) == [] && TierTexts(s, 0, LiOnly) != [] ==> ItemTexts(s) == TierTexts(s, 0, LiOnly)
    ensures TierTexts(s, 0, LiWithP) == [] && TierTexts(s, 0, LiOnly) == [] ==>
      ItemTexts(s) == LineTexts(SplitLines(s), 0) && forall t :: t in ItemTexts(s) ==> |t| > 10
  {
    TierTextsShape(s, 0, LiWithP);
    TierTextsShape(s, 0, LiOnly);
    LineTextsShape(SplitLines(s), 0);
  }

  /* ---------- decoding ---------- */

  /** `xs` followed by the outcome `o`, or a failure when `o` is one. */
  function Prepend(xs: seq<string>, o: Option<seq<string>>): Option<seq<string>> {
    if o.Some? then Some(xs + o.value) else None
  }

  /** Decoding the texts in order; the first failure aborts (the call throws). */
  function DecodeAll(xs: seq<string>, decode: string -> Option<string>): Option<seq<string>> {
    if xs == [] then Some([])
    else match decode(xs[0])
      case None => None
      case Some(y) => Prepend([y], DecodeAll(xs[1..], decode))
  }

  /** Decoding succeeds exactly when every text decodes, and then maps each text to its decoding. */
  lemma {:induction false} DecodeAllSpec(xs: seq<string>, decode: string -> Option<string>)
    ensures DecodeAll(xs, decode).Some? <==> forall k :: 0 <= k < |xs| ==> decode(xs[k]).Some?
    ensures DecodeAll(xs, decode).Some? ==>
      |DecodeAll(xs, decode).value| == |xs|
      && forall k :: 0 <= k < |xs| ==> DecodeAll(xs, decode).value[k] == decode(xs[k]).value
  {
    if xs != [] {
      DecodeAllSpec(xs[1..], decode);
      assert forall k :: 1 <= k < |xs| ==> xs[k] == xs[1..][k - 1];
    }
  }

  /** The empty prefix and the empty outcome change nothing. */
  lemma {:induction false} PrependUnits(xs: seq<string>, o: Option<seq<string>>)
    ensures Prepend([], o) == o
    ensures Prepend(xs, Some([])) == Some(xs)
  {
    if o.Some? {
      assert [] + o.value == o.value;
    }
    assert xs + [] == xs;
  }

  /** One step of a collecting loop: at most one kept text, decoded and pushed, or the call throws. */
  lemma {:induction false} DecodeStep(items: seq<string>, kept: seq<string>, rest: seq<string>, decode: string -> Option<string>)
    requires |kept| <= 1
    ensures kept == [] ==> Prepend(items, DecodeAll(kept + rest, decode)) == Prepend(items, DecodeAll(rest, decode))
    ensures kept != [] && decode(kept[0]).None? ==> DecodeAll(kept + rest, decode) == None
    ensures kept != [] && decode(kept[0]).Some? ==>
      Prepend(items, DecodeAll(kept + rest, decode)) == Prepend(items + [decode(kept[0]).value], DecodeAll(rest, decode))
  {
    if kept == [] {
      assert kept + rest == rest;
    } else {
      assert (kept + rest)[0] == kept[0];
      assert (kept + rest)[1..] == rest;
      var o := DecodeAll(rest, decode);
      if decode(kept[0]).Some? && o.Some? {
        assert items + ([decode(kept[0]).value] + o.value) == (items + [decode(kept[0]).value]) + o.value;
      }
    }
  }

  /** What `parseHtmlList` returns, `None` when it throws: nothing for a missing or empty input. */
  function ParseList(html: Option<string>, decode: string -> Option<string>): (r: Option<seq<string>>)
    ensures html.None? || html.value == "" ==> r == Some([])
  {
    if html.None? || html.value == "" then Some([]) else DecodeAll(ItemTexts(html.value), decode)
  }

  /* ---------- parseHtmlList ---------- */

  /** One `while ((m = regex.exec(html)) !== null)` loop: push each kept, decoded item. */
  method CollectListItems(s: string, tier: Tier, decode: string -> Option<string>) returns (r: Option<seq<string>>)
    ensures r == DecodeAll(TierTexts(s, 0, tier), decode)
  {
    var items: seq<string> := [];
    var pos := 0;
    PrependUnits(items, DecodeAll(TierTexts(s, 0, tier), decode));
    var m := NextListItem(s, pos, tier);
    while m.Some?
      invariant pos <= |s|
      invariant m == NextListItem(s, pos, tier)
      invariant DecodeAll(TierTexts(s, 0, tier), decode) == Prepend(items, DecodeAll(TierTexts(s, pos, tier), decode))
      decreases |s| - pos
    {
      var sp := m.value;
      var kept := KeptText(s[sp.start..sp.stop]);
      DecodeStep(items, kept, TierTexts(s, sp.end, tier), decode);
      if kept != [] {
        var d := decode(kept[0]);
        if d.None? {
          return None;
        }
        items := items + [d.value];
      }
      pos := sp.end;
      m := NextListItem(s, pos, tier);
    }
    PrependUnits(items, DecodeAll(TierTexts(s, pos, tier), decode));
    r := Some(items);
  }

  /** The plain-text fallback: split the text into lines and collect the long ones. */
  method CollectLines(s: string, decode: string -> Option<string>) returns (r: Option<seq<string>>)
    ensures r == DecodeAll(LineTexts(SplitLines(s), 0), decode)
  {
    var lines := SplitLines(s);
    r := CollectLongLines(lines, decode);
  }

  /** The `for (const line of lines)` loop: push each kept, decoded line. */
  method CollectLongLines(lines: seq<string>, decode: string -> Option<string>) returns (r: Option<seq<string>>)
    ensures r == DecodeAll(LineTexts(lines, 0), decode)
  {
    var items: seq<string> := [];
    PrependUnits(items, DecodeAll(LineTexts(lines, 0), decode));
    for i := 0 to |lines|
      invariant DecodeAll(LineTexts(lines, 0), decode) == Prepend(items, DecodeAll(LineTexts(lines, i), decode))
    {
      var kept := KeptLine(lines[i]);
      assert LineTexts(lines, i) == kept + LineTexts(lines, i + 1);
      DecodeStep(items, kept, LineTexts(lines, i + 1), decode);
      if kept != [] {
        var d := decode(kept[0]);
        if d.None? {
          return None;
        }
        items := items + [d.value];
      }
    }
    PrependUnits(items, DecodeAll(LineTexts(lines, |lines|), decode));
    r := Some(items);
  }

  /**
   * `parseHtmlList`: `None` when decoding throws, otherwise the decoded texts
   * of the first strategy that finds any.
   */
  method ParseHtmlList(html: Option<string>, decode: string -> Option<string>) returns (r: Option<seq<string>>)
    ensures r == ParseList(html, decode)
  {
    if html.None? || html.value == "" {
      return Some([]);
    }
    var s := html.value;
    r := CollectListItems(s, LiWithP, decode);
    DecodeAllSpec(TierTexts(s, 0, LiWithP), decode);
    if r == Some([]) {
      r := CollectListItems(s, LiOnly, decode);
      DecodeAllSpec(TierTexts(s, 0, LiOnly), decode);
      if r == Some([]) {
        r := CollectLines(s, decode);
      }
    }
  }

  /** The items `parseHtmlList` returns are the decodings of its item texts, one for one. */
  lemma {:induction false} ParseListItems(html: string, decode: string -> Option<string>)
    requires html != ""
    ensures ParseList(Some(html), decode).Some? <==> (forall k :: 0 <= k < |ItemTexts(html)| ==> decode(ItemTexts(html)[k]).Some?)
    ensures ParseList(Some(html), decode).Some? ==>
      var items := ParseList(Some(html), decode).value;
      |items| == |ItemTexts(html)| && forall k :: 0 <= k < |items| ==> items[k] == decode(ItemTexts(html)[k]).value
  {
    DecodeAllSpec(ItemTexts(html), decode);
  }

  /* ---------- parseJobDescription ---------- */

  /** `<h5[^>]*>([^<]+)</h5>`, ignoring case, matched at `q`; the span is the captured title. */
  function HeadingAt(s: string, q: nat): (r: Option<Span>)
    requires q <= |s|
    ensures r.Some? ==> q < r.value.start < r.value.stop < r.value.end <= |s|
    ensures r.Some? ==> forall k :: r.value.start <= k < r.value.stop ==> s[k] != '<'
  {
    if !StartsAtIgnoringCase(s, q, "<h5") then None
    else
      var g := IndexOf(s, '>', q + 3);
      if g == |s| then None
      else
        var k := IndexOf(s, '<', g + 1);
        if k == g + 1 || !StartsAtIgnoringCase(s, k, "</h5>") then None
        else
          IndexOfRun(s, '<', g + 1);
          Some(Span(g + 1, k, k + 5))
  }

  /**
   * `<h5[^>]*>([^<]+)</h5>` matches at `q`, ignoring case, with the capture
   * `s[sp.start..sp.stop]` and the match ending at `sp.end`.
   */
  predicate HeadingMatch(s: string, q: nat, sp: Span) {
    StartsAtIgnoringCase(s, q, "<h5") && TagRest(s, q + 3, sp.start)
    && sp.start < sp.stop && StartsAtIgnoringCase(s, sp.stop, "</h5>")
    && (forall j :: sp.start <= j < sp.stop ==> s[j] != '<') && sp.end == sp.stop + 5
  }

  /** A tag that matches up to case and starts with '<' starts with '<' in the text too. */
  lemma {:induction false} AngleIgnoringCase(s: string, i: nat, p: string)
    requires StartsAtIgnoringCase(s, i, p) && p != [] && p[0] == '<'
    ensures s[i] == '<'
  {
    assert ToLower(s[i..i + |p|])[0] == LowerChar(s[i]);
  }

  /** The heading is found at `q` exactly when the pattern matches there, with that capture. */
  lemma {:induction false} HeadingAtSpec(s: string, q: nat, sp: Span)
    requires q <= |s|
    ensures HeadingAt(s, q) == Some(sp) ==> HeadingMatch(s, q, sp)
    ensures HeadingMatch(s, q, sp) ==> HeadingAt(s, q) == Some(sp)
  {
    if HeadingAt(s, q) == Some(sp) {
      HeadingFound(s, q);
    }
    if HeadingMatch(s, q, sp) {
      HeadingMatched(s, q, sp);
    }
  }

  lemma {:induction false} HeadingFound(s: string, q: nat)
    requires q <= |s| && HeadingAt(s, q).Some?
    ensures HeadingMatch(s, q, HeadingAt(s, q).value)
  {
    var g := IndexOf(s, '>', q + 3);
    TagRestFirst(s, q + 3, g + 1);
    IndexOfRun(s, '<', g + 1);
  }

  lemma {:induction false} HeadingMatched(s: string, q: nat, sp: Span)
    requires q <= |s| && HeadingMatch(s, q, sp)
    ensures HeadingAt(s, q) == Some(sp)
  {
    TagRestFirst(s, q + 3, sp.start);
    var g := IndexOf(s, '>', q + 3);
    assert g == sp.start - 1;
    AngleIgnoringCase(s, sp.stop, "</h5>");
    var k := IndexOf(s, '<', g + 1);
    IndexOfRun(s, '<', g + 1);
    assert k == sp.stop;
  }

  /**
   * `s.split(regex)` with the regex's capture kept, scanning from `q` with the
   * current piece starting at `last`: text, title, text, title, …, text.
   */
  function SplitHeadingsFrom(s: string, last: nat, q: nat): (r: seq<string>)
    requires last <= q <= |s|
    ensures |r| % 2 == 1
    ensures forall k :: 0 <= k < |r| && k % 2 == 1 ==> r[k] != "" && '<' !in r[k]
    decreases |s| - q
  {
    if q == |s| then [s[last..]]
    else match HeadingAt(s, q)
      case None => SplitHeadingsFrom(s, last, q + 1)
      case Some(sp) =>
        var rest := SplitHeadingsFrom(s, sp.end, sp.end);
        var r := [s[last..q], s[sp.start..sp.stop]] + rest;
        assert forall k :: 2 <= k < |r| ==> r[k] == rest[k - 2];
        r
  }

  /** The sections of a description: the text before the first heading, then title and content pairs. */
  function SplitHeadings(s: string): (r: seq<string>)
    ensures |r| % 2 == 1
    ensures forall k :: 0 <= k < |r| && k % 2 == 1 ==> r[k] != "" && '<' !in r[k]
  {
    SplitHeadingsFrom(s, 0, 0)
  }

  /** No heading matches at any position of `[q, p)`, stated position by position. */
  predicate NoHeadingIn(s: string, q: nat, p: nat)
    requires p <= |s|
    decreases p - q
  {
    q >= p || (HeadingAt(s, q).None? && NoHeadingIn(s, q + 1, p))
  }

  lemma {:induction false} NoHeadingInAll(s: string, q: nat, p: nat)
    requires q <= p <= |s|
    requires forall r, t :: q <= r < p ==> !HeadingMatch(s, r, t)
    ensures NoHeadingIn(s, q, p)
    decreases p - q
  {
    if q < p {
      if HeadingAt(s, q).Some? {
        HeadingFound(s, q);
      }
      NoHeadingInAll(s, q + 1, p);
    }
  }

  lemma {:induction false} NoHeadingInSkip(s: string, last: nat, q: nat, p: nat)
    requires last <= q <= p <= |s| && NoHeadingIn(s, q, p)
    ensures SplitHeadingsFrom(s, last, q) == SplitHeadingsFrom(s, last, p)
    decreases p - q
  {
    if q < p {
      NoHeadingInSkip(s, last, q + 1, p);
    }
  }

  /** Where no heading matches at or after `q`, the rest of the text from `last` is the last piece. */
  lemma {:induction false} SplitHeadingsNone(s: string, last: nat, q: nat)
    requires last <= q <= |s|
    requires forall r, t :: q <= r < |s| ==> !HeadingMatch(s, r, t)
    ensures SplitHeadingsFrom(s, last, q) == [s[last..]]
  {
    NoHeadingInAll(s, q, |s|);
    NoHeadingInSkip(s, last, q, |s|);
  }

  /**
   * At the leftmost heading match at or after `q`, the split yields the text
   * from `last` up to the match, then the captured title, then the split of
   * what follows the match.
   */
  lemma {:induction false} SplitHeadingsLeftmost(s: string, last: nat, q: nat, p: nat, sp: Span)
    requires last <= q <= p < |s|
    requires forall r, t :: q <= r < p ==> !HeadingMatch(s, r, t)
    requires HeadingMatch(s, p, sp)
    ensures sp.end <= |s|
    ensures SplitHeadingsFrom(s, last, q) ==
      [s[last..p], s[sp.start..sp.stop]] + SplitHeadingsFrom(s, sp.end, sp.end)
  {
    NoHeadingInAll(s, q, p);
    NoHeadingInSkip(s, last, q, p);
    HeadingMatched(s, p, sp);
  }

  /** The two lists a description yields. */
  datatype Lists = Lists(responsibilities: seq<string>, idealFor: seq<string>)

  /** Where a section's items go, by its title. */
  datatype Heading = Responsibilities | IdealFor | Other

  /** A title mentioning "responsibilities" or "responsibility" wins over one mentioning "ideal". */
  function Classify(title: string): (h: Heading)
    ensures h == Responsibilities <==>
      (Contains(ToLower(title), "responsibilities") || Contains(ToLower(title), "responsibility"))
    ensures h == IdealFor <==>
      (!Contains(ToLower(title), "responsibilities") && !Contains(ToLower(title), "responsibility")
       && Contains(ToLower(title), "ideal"))
    ensures h == Other <==>
      (!Contains(ToLower(title), "responsibilities") && !Contains(ToLower(title), "responsibility")
       && !Contains(ToLower(title), "ideal"))
  {
    var t := ToLower(title);
    if Contains(t, "responsibilities") || Contains(t, "responsibility") then Responsibilities
    else if Contains(t, "ideal") then IdealFor
    else Other
  }

  /** A title naming both lists goes to the responsibilities; "ideal" alone selects the other list. */
  lemma {:induction false} ClassifyExamples()
    ensures Classify("ideal responsibilities") == Responsibilities
    ensures Classify("ideal for") == IdealFor
    ensures Classify("pay") == Other
  {
    var t := "ideal responsibilities";
    ToLowerFixed(t);
    assert t[6..] == "responsibilities";
    ContainsAt(t, "responsibilities", 6);
    ToLowerFixed("ideal for");
    assert "ideal" <= "ideal for";
    ToLowerFixed("pay");
  }

  /** Appending a section's items to the list its heading selects. */
  function File(acc: Lists, h: Heading, items: seq<string>): (r: Lists)
    ensures r.responsibilities == acc.responsibilities + (if h == Responsibilities then items else [])
    ensures r.idealFor == acc.idealFor + (if h == IdealFor then items else [])
  {
    match h
    case Responsibilities => Lists(acc.responsibilities + items, acc.idealFor)
    case IdealFor => Lists(acc.responsibilities, acc.idealFor + items)
    case Other => assert acc.responsibilities + [] == acc.responsibilities && acc.idealFor + [] == acc.idealFor; acc
  }

  /** The lists built so far, and whether a call threw before the loop finished. */
  datatype Attempt = Attempt(lists: Lists, threw: bool)

  /** The section loop from index `i` (a title) on, starting from the lists `acc`. */
  function SectionsFrom(sections: seq<string>, i: nat, decode: string -> Option<string>, acc: Lists): Attempt
    decreases |sections| - i
  {
    if i >= |sections| then Attempt(acc, false)
    else
      var content := SectionContent(sections, i);
      match ParseList(Some(content), decode)
      case None => Attempt(acc, true)
      case Some(items) => SectionsFrom(sections, i + 2, decode, File(acc, Classify(Trim(sections[i])), items))
  }

  /** Sections only ever append: the lists built so far are prefixes of the final ones. */
  lemma {:induction false} SectionsFromExtends(sections: seq<string>, i: nat, decode: string -> Option<string>, acc: Lists)
    ensures acc.responsibilities <= SectionsFrom(sections, i, decode, acc).lists.responsibilities
    ensures acc.idealFor <= SectionsFrom(sections, i, decode, acc).lists.idealFor
    decreases |sections| - i
  {
    if i < |sections| {
      var content := if i + 1 < |sections| then sections[i + 1] else "";
      var o := ParseList(Some(content), decode);
      if o.Some? {
        var next := File(acc, Classify(Trim(sections[i])), o.value);
        SectionsFromExtends(sections, i + 2, decode, next);
      }
    }
  }

  const ResponsibilityKeywords: seq<string> :=
    ["responsible", "responsibility", "task", "duty", "handle", "manage", "coordinate"]
  const IdealKeywords: seq<string> :=
    ["ideal", "candidate", "qualification", "requirement", "skill", "experience"]

  /** Some item, lower-cased, contains some keyword. */
  predicate MentionsAny(items: seq<string>, keywords: seq<string>) {
    exists i, j :: 0 <= i < |items| && 0 <= j < |keywords| && Contains(ToLower(items[i]), keywords[j])
  }

  /**
   * Filing the items of a description without headings: all of them go to one
   * list, and to "ideal for" exactly when they mention an ideal-for keyword
   * and no responsibility keyword (the test on the number of items never
   * changes the outcome).
   */
  function SingleSection(items: seq<string>): (r: Lists)
    ensures r == if MentionsAny(items, IdealKeywords) && !MentionsAny(items, ResponsibilityKeywords)
      then Lists([], items) else Lists(items, [])
  {
    if |items| == 0 then Lists([], [])
    else
      var hasResponsibility := MentionsAny(items, ResponsibilityKeywords);
      var hasIdeal := MentionsAny(items, IdealKeywords);
      if hasResponsibility || (!hasIdeal && |items| > 2) then Lists(items, [])
      else if hasIdeal then Lists([], items)
      else Lists(items, [])
  }

  /** The body of the `try` block. */
  function FirstAttempt(s: string, decode: string -> Option<string>): Attempt {
    if Contains(s, "<h5") then SectionsFrom(SplitHeadings(s), 1, decode, Lists([], []))
    else match ParseList(Some(s), decode)
      case None => Attempt(Lists([], []), true)
      case Some(items) => Attempt(SingleSection(items), false)
  }

  /**
   * What `parseJobDescription` returns. When the `try` block throws, the lists
   * keep what it had filed, and the fallback appends the list items of the
   * whole description to the responsibilities, unless it throws as well.
   */
  function JobDescription(input: Option<string>, decode: string -> Option<string>): (r: Lists)
    ensures input.None? || input.value == "" ==> r == Lists([], [])
  {
    if input.None? || input.value == "" then Lists([], [])
    else
      var s := input.value;
      var a := FirstAttempt(s, decode);
      if !a.threw then a.lists
      else match ParseList(Some(s), decode)
        case None => a.lists
        case Some(items) =>
          if |items| > 0 then Lists(a.lists.responsibilities + items, a.lists.idealFor) else a.lists
  }

  /** `parseJobDescription`: `input` is `None` for a missing or non-string description. */
  method ParseJobDescription(input: Option<string>, decode: string -> Option<string>)
    returns (responsibilities: seq<string>, idealFor: seq<string>)
    ensures Lists(responsibilities, idealFor) == JobDescription(input, decode)
  {
    responsibilities, idealFor := [], [];
    if input.None? || input.value == "" {
      return;
    }
    var s := input.value;
    var threw := false;
    if Contains(s, "<h5") {
      var sections := SplitHeadings(s);
      var i := 1;
      while i < |sections|
        invariant SectionsFrom(sections, 1, decode, Lists([], [])) == SectionsFrom(sections, i, decode, Lists(responsibilities, idealFor))
        decreases |sections| - i
      {
        var title := if sections[i] != "" then Trim(sections[i]) else "";
        var content := if i + 1 < |sections| && sections[i + 1] != "" then sections[i + 1] else "";
        var items := ParseHtmlList(Some(content), decode);
        if items.None? {
          threw := true;
          break;
        }
        var h := Classify(title);
        if h == Responsibilities {
          responsibilities := responsibilities + items.value;
        } else if h == IdealFor {
          idealFor := idealFor + items.value;
        }
        i := i + 2;
      }
      assert FirstAttempt(s, decode) == Attempt(Lists(responsibilities, idealFor), threw);
    } else {
      var items := ParseHtmlList(Some(s), decode);
      if items.None? {
        threw := true;
      } else if |items.value| > 0 {
        var hasResponsibility := MentionsAny(items.value, ResponsibilityKeywords);
        var hasIdeal := MentionsAny(items.value, IdealKeywords);
        if hasResponsibility || (!hasIdeal && |items.value| > 2) {
          responsibilities := responsibilities + items.value;
        } else if hasIdeal {
          idealFor := idealFor + items.value;
        } else {
          responsibilities := responsibilities + items.value;
        }
      }
    }
    if threw {
      var fallback := ParseHtmlList(Some(s), decode);
      if fallback.Some? && |fallback.value| > 0 {
        responsibilities := responsibilities + fallback.value;
      }
    }
  }

  /* ---------- what the description parser computes ---------- */

  /**
   * The items of the sections from index `i` on whose heading is `h`, in
   * document order: a reference definition of one list, built without the
   * other.
   */
  function Filed(sections: seq<string>, i: nat, decode: string -> Option<string>, h: Heading): seq<string>
    decreases |sections| - i
  {
    if i >= |sections| then []
    else
      var content := SectionContent(sections, i);
      (if Classify(Trim(sections[i])) == h then ParseList(Some(content), decode).GetOr([]) else [])
        + Filed(sections, i + 2, decode, h)
  }

  /** With a decoder that never throws, parsing a list never throws. */
  lemma {:induction false} ParseListTotal(html: string, decode: string -> Option<string>)
    requires forall x :: decode(x).Some?
    ensures ParseList(Some(html), decode).Some?
  {
    if html != "" {
      DecodeAllSpec(ItemTexts(html), decode);
    }
  }

  lemma {:induction false} AppendAssoc(a: seq<string>, b: seq<string>, c: seq<string>)
    ensures a + b + c == a + (b + c)
  {
  }

  /** The content of the section whose title is at index `i`. */
  function SectionContent(sections: seq<string>, i: nat): string {
    if i + 1 < |sections| then sections[i + 1] else ""
  }

  /** One step of each side: a section that parses is filed, and counted in the list its heading selects. */
  lemma {:induction false} SectionStep(sections: seq<string>, i: nat, decode: string -> Option<string>, acc: Lists, h: Heading)
    requires i < |sections|
    requires ParseList(Some(SectionContent(sections, i)), decode).Some?
    ensures SectionsFrom(sections, i, decode, acc) ==
      SectionsFrom(sections, i + 2, decode,
        File(acc, Classify(Trim(sections[i])), ParseList(Some(SectionContent(sections, i)), decode).value))
    ensures Filed(sections, i, decode, h) ==
      (if Classify(Trim(sections[i])) == h then ParseList(Some(SectionContent(sections, i)), decode).value else [])
        + Filed(sections, i + 2, decode, h)
  {
  }

  /**
   * With a decoder that never throws, the section loop runs to the end, and
   * each list is extended by exactly the items of the sections its heading
   * selects, in document order.
   */
  lemma {:induction false} SectionsFromTotal(sections: seq<string>, i: nat, decode: string -> Option<string>, acc: Lists)
    requires forall x :: decode(x).Some?
    ensures !SectionsFrom(sections, i, decode, acc).threw
    ensures SectionsFrom(sections, i, decode, acc).lists ==
      Lists(acc.responsibilities + Filed(sections, i, decode, Responsibilities),
            acc.idealFor + Filed(sections, i, decode, IdealFor))
    decreases |sections| - i
  {
    if i >= |sections| {
      assert acc.responsibilities + [] == acc.responsibilities;
      assert acc.idealFor + [] == acc.idealFor;
    } else {
      var content := SectionContent(sections, i);
      ParseListTotal(content, decode);
      var items := ParseList(Some(content), decode).value;
      var h := Classify(Trim(sections[i]));
      SectionStep(sections, i, decode, acc, Responsibilities);
      SectionStep(sections, i, decode, acc, IdealFor);
      var next := File(acc, h, items);
      SectionsFromTotal(sections, i + 2, decode, next);
      var fr := if h == Responsibilities then items else [];
      var fi := if h == IdealFor then items else [];
      AppendAssoc(acc.responsibilities, fr, Filed(sections, i + 2, decode, Responsibilities));
      AppendAssoc(acc.idealFor, fi, Filed(sections, i + 2, decode, IdealFor));
    }
  }

  /**
   * With a decoder that never throws, the fallback never runs: a description
   * with headings yields, per list, the items of the sections headed for it;
   * one without yields its items in a single list.
   */
  lemma {:induction false} JobDescriptionTotal(s: string, decode: string -> Option<string>)
    requires s != ""
    requires forall x :: decode(x).Some?
    ensures Contains(s, "<h5") ==>
      (JobDescription(Some(s), decode) ==
       Lists(Filed(SplitHeadings(s), 1, decode, Responsibilities), Filed(SplitHeadings(s), 1, decode, IdealFor)))
    ensures !Contains(s, "<h5") ==>
      (ParseList(Some(s), decode).Some? &&
       JobDescription(Some(s), decode) == SingleSection(ParseList(Some(s), decode).value))
  {
    ParseListTotal(s, decode);
    if Contains(s, "<h5") {
      SectionsFromTotal(SplitHeadings(s), 1, decode, Lists([], []));
      assert [] + Filed(SplitHeadings(s), 1, decode, Responsibilities) == Filed(SplitHeadings(s), 1, decode, Responsibilities);
      assert [] + Filed(SplitHeadings(s), 1, decode, IdealFor) == Filed(SplitHeadings(s), 1, decode, IdealFor);
    }
  }

  /** With a decoder that always throws, a list parses to nothing or throws. */
  lemma {:induction false} ParseListFailing(html: string, decode: string -> Option<string>)
    requires forall x :: decode(x).None?
    ensures ParseList(Some(html), decode) == Some([]) || ParseList(Some(html), decode).None?
  {
  }

  /** With a decoder that always throws, the section loop files nothing. */
  lemma {:induction false} SectionsFromFailing(sections: seq<string>, i: nat, decode: string -> Option<string>)
    requires forall x :: decode(x).None?
    ensures SectionsFrom(sections, i, decode, Lists([], [])).lists == Lists([], [])
    decreases |sections| - i
  {
    if i < |sections| {
      var content := if i + 1 < |sections| then sections[i + 1] else "";
      ParseListFailing(content, decode);
      if ParseList(Some(content), decode).Some? {
        var next := File(Lists([], []), Classify(Trim(sections[i])), []);
        assert next == Lists([], []);
        SectionsFromFailing(sections, i + 2, decode);
      }
    }
  }

  /**
   * With a decoder that always throws — as `decodeHtmlEntities` does where
   * `document` is undefined — every description yields two empty lists:
   * whatever the `try` block files before throwing is empty, and the fallback
   * either throws too or finds nothing.
   */
  lemma {:induction false} JobDescriptionFailing(input: Option<string>, decode: string -> Option<string>)
    requires forall x :: decode(x).None?
    ensures JobDescription(input, decode) == Lists([], [])
  {
    if input.Some? && input.value != "" {
      var s := input.value;
      ParseListFailing(s, decode);
      if Contains(s, "<h5") {
        SectionsFromFailing(SplitHeadings(s), 1, decode);
      }
    }
  }
}
