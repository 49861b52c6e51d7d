/**
 * The two pure helpers of `src/lib/api.ts` that every page mapping uses:
 * `ensureUrl`, which turns an image path from the CMS into an absolute URL,
 * and `stripHtml`, which turns an HTML fragment into plain text.
 */
module Api {
  import opened Wrappers
  import opened Text

  /** `IMAGE_BASE`: where the CMS serves builder images. */
  const ImageBase := "https://vgc.psofttechnologies.in/storage/builder/"

  /** `/^https?:\/\//.test(path)`: the path is already an absolute HTTP(S) URL (case matters). */
  predicate IsHttpUrl(p: string) {
    "http://" <= p || "https://" <= p
  }

  /** The relative part `ensureUrl` appends to the base: leading '/' run dropped, then one "builder/" prefix. */
  function RelativeImagePath(p: string): string {
    DropPrefix(DropLeading(p, '/'), "builder/")
  }

  /**
   * `ensureUrl`: a missing or empty path gives ""; an absolute HTTP(S) URL is
   * kept; anything else is resolved against the image base.
   */
  function EnsureUrl(path: Option<string>): (r: string)
    ensures r == "" <==> path.None? || path.value == ""
    ensures r != "" ==> IsHttpUrl(r)
    ensures path.Some? && IsHttpUrl(path.value) ==> r == path.value
    ensures path.Some? && path.value != "" && !IsHttpUrl(path.value) ==> r == ImageBase + RelativeImagePath(path.value)
  {
    match path
    case None => ""
    case Some(p) =>
      if p == "" then ""
      else if IsHttpUrl(p) then p
      else
        var r := ImageBase + RelativeImagePath(p);
        assert "https://" <= r by { assert r[..8] == ImageBase[..8]; }
        r
  }

  /**
   * The relative part is what is left of the path once its leading run of '/'
   * and then at most one "builder/" are gone.
   */
  lemma {:induction false} RelativeImagePathShape(p: string)
    ensures exists n :: 0 <= n <= |p| && RelativeSplit(p, n, RelativeImagePath(p))
  {
    var d := DropLeading(p, '/');
    var n := |p| - |d|;
    DropLeadingRun(p, '/');
    DropLeadingSuffix(p, '/');
    if "builder/" <= d {
      assert DropPrefix(d, "builder/") == p[n + 8..];
    }
    assert RelativeSplit(p, n, RelativeImagePath(p));
  }

  /** `p` is a run of `n` slashes, then optionally "builder/", then `t`; the run is maximal and "builder/" is dropped whenever present. */
  predicate RelativeSplit(p: string, n: nat, t: string)
    requires n <= |p|
  {
    && (forall i :: 0 <= i < n ==> p[i] == '/')
    && (n == |p| || p[n] != '/')
    && ((!("builder/" <= p[n..]) && t == p[n..]) || ("builder/" <= p[n..] && t == p[n + 8..]))
  }

  /** `s.replace(/^c+/, "")` removes exactly a run of `c`. */
  lemma {:induction false} DropLeadingRun(s: string, c: char)
    ensures forall i :: 0 <= i < |s| - |DropLeading(s, c)| ==> s[i] == c
  {
    if s != [] && s[0] == c {
      DropLeadingRun(s[1..], c);
      forall i | 1 <= i < |s| - |DropLeading(s, c)| ensures s[i] == c {
        assert s[1..][i - 1] == s[i];
      }
    }
  }

  /** `ensureUrl` is idempotent: a URL it produced comes back unchanged. */
  lemma {:induction false} EnsureUrlIdempotent(path: Option<string>)
    ensures EnsureUrl(Some(EnsureUrl(path))) == EnsureUrl(path)
  {
  }

  /**
   * `stripHtml`: delete every `<…>` tag with at least one character inside,
   * then trim. The result has no white space at either end, contains no tag,
   * and is no longer than the input.
   */
  function StripHtml(html: string): (r: string)
    ensures Trimmed(r)
    ensures TagFree(r, true)
    ensures |r| <= |html|
  {
    StripThenTrimStable(html, true);
    Trim(StripTags(html, true))
  }

  /** Text without '<' is only trimmed. */
  lemma {:induction false} StripHtmlPlainText(html: string)
    requires '<' !in html
    ensures StripHtml(html) == Trim(html)
  {
    StripTagsNoAngle(html, true);
  }

  /**
   * `stripHtml` deletes tags and keeps the text around them: text without '<',
   * then a tag with something inside it, then the rest, comes out as that text
   * followed by the stripped rest, all trimmed.
   */
  lemma {:induction false} StripHtmlDeletesTag(x: string, t: string, y: string)
    requires '<' !in x && '>' !in t && t != []
    ensures StripHtml(x + "<" + t + ">" + y) == Trim(x + StripTags(y, true))
  {
    assert x + "<" + t + ">" + y == x + ("<" + t + ">" + y);
    StripTagsKeepsText(x, "<" + t + ">" + y, true);
    StripTagsDropsTag(t, y, true);
  }

  /** `stripHtml` is idempotent. */
  lemma {:induction false} StripHtmlIdempotent(html: string)
    ensures StripHtml(StripHtml(html)) == StripHtml(html)
  {
    var r := StripHtml(html);
    StripThenTrimStable(html, true);
    TrimmedFixed(r);
  }
}
