/**
 * The navigation rewriter of `src/lib/routing.ts`: slug and label
 * normalisers, the page index, the ordered rules that resolve a menu entry to
 * a CMS page, and the rewrite of menu URLs into the site's own routes.
 *
 * A missing `title`, `slug` or `url` is written as the empty string: the code
 * only tests these for truthiness or compares them with non-empty constants,
 * so `undefined` and `""` behave alike everywhere here.
 */
module Routing {
  import opened Wrappers
  import opened Text
  import opened Lists

  datatype PageLite = PageLite(title: string, slug: string, pageType: string)

  /** A menu entry; `caption` is the source's `label` (a reserved word in Dafny). */
  datatype NavItem = NavItem(caption: string, url: string, isExternal: bool, order: int)

  /* ---------- trimSlashes, toPath, normalizeInternal ---------- */

  /** The first two steps of `trimSlashes`: delete every backslash, then trim. */
  function TrimmedNoBackslash(s: string): (r: string)
    ensures '\\' !in r
    ensures |r| <= |s|
  {
    var a := RemoveChar(s, '\\');
    var t := Trim(a);
    TrimSlice(a);
    NotInSlice(a, TrimOffset(a), TrimOffset(a) + |t|, '\\');
    t
  }

  /** `replace(/^\/+|\/+$/g, "")`: drop the leading and the trailing run of '/'. */
  function DropSlashRuns(t: string): (r: string)
    ensures |r| <= |t|
    ensures '\\' !in t ==> '\\' !in r
    ensures r == [] || (r[0] != '/' && r[|r| - 1] != '/')
  {
    var u := DropLeading(t, '/');
    var r := DropTrailing(u, '/');
    DropLeadingSuffix(t, '/');
    DropTrailingPrefix(u, '/');
    assert r != [] ==> r[0] == u[0];
    if '\\' !in t then
      NotInSlice(t, |t| - |u|, |t|, '\\');
      NotInSlice(u, 0, |r|, '\\');
      r
    else r
  }

  /**
   * `trimSlashes`: delete every backslash, trim, then drop the leading and the
   * trailing run of '/'.
   */
  function TrimSlashes(s: string): (r: string)
    ensures '\\' !in r
    ensures r == [] || (r[0] != '/' && r[|r| - 1] != '/')
    ensures |r| <= |s|
  {
    DropSlashRuns(TrimmedNoBackslash(s))
  }

  /**
   * The value of `trimSlashes`. Once the backslashes are deleted, every input
   * reads as white space, a run of '/', the kept text, a run of '/' and white
   * space; what comes out is the kept text.
   */
  lemma {:induction false} TrimSlashesExact(s: string, pre: string, n1: string, x: string, n2: string, post: string)
    requires RemoveChar(s, '\\') == pre + n1 + x + n2 + post
    requires forall i :: 0 <= i < |pre| ==> IsSpace(pre[i])
    requires forall i :: 0 <= i < |post| ==> IsSpace(post[i])
    requires forall i :: 0 <= i < |n1| ==> n1[i] == '/'
    requires forall i :: 0 <= i < |n2| ==> n2[i] == '/'
    requires Trimmed(n1 + x + n2)
    requires x == [] || (x[0] != '/' && x[|x| - 1] != '/')
    ensures TrimSlashes(s) == x
  {
    var a := RemoveChar(s, '\\');
    var t := n1 + x + n2;
    if t == [] {
      assert a == pre + post;
      assert forall i :: 0 <= i < |a| ==> IsSpace(a[i]);
      TrimAllSpace(a);
      assert TrimmedNoBackslash(s) == [];
    } else {
      assert a == pre + t + post;
      TrimAround(pre, t, post);
      assert TrimmedNoBackslash(s) == t;
      if x == [] {
        assert forall i :: 0 <= i < |t| ==> t[i] == '/';
        assert t + [] == t;
        DropLeadingExact(t, '/', []);
      } else {
        assert t == n1 + (x + n2);
        DropLeadingExact(n1, '/', x + n2);
        DropTrailingExact(x, '/', n2);
      }
    }
  }

  /** A route of the site: '/' alone, or '/' followed by a path that neither starts nor ends with '/' and has no backslash. */
  predicate IsRoute(r: string) {
    && |r| > 0 && r[0] == '/'
    && (|r| == 1 || (r[1] != '/' && r[|r| - 1] != '/'))
    && '\\' !in r
  }

  /** `"/" + trimSlashes(s)` is a route. */
  lemma {:induction false} SlashTrimmedIsRoute(s: string)
    ensures IsRoute("/" + TrimSlashes(s))
  {
    var u := TrimSlashes(s);
    var r := "/" + u;
    assert u != [] ==> r[1] == u[0] && r[|r| - 1] == u[|u| - 1];
  }

  /** `toPath`: the route of a page with the given slug. */
  function ToPath(slug: string): (r: string)
    ensures IsRoute(r)
    ensures r == "/" <==> slug == "" || slug == "homepage" || TrimSlashes(slug) == ""
    ensures r != "/" ==> r == "/" + TrimSlashes(slug)
  {
    SlashTrimmedIsRoute(slug);
    if slug == "" || slug == "homepage" then "/" else "/" + TrimSlashes(slug)
  }

  /** `normalizeInternal`: the route for a menu URL that matched no page. */
  function NormalizeInternal(raw: string): (r: string)
    ensures IsRoute(r)
    ensures r == "/" <==> raw == "" || TrimSlashes(raw) == "" || ToLower(TrimSlashes(raw)) == "home"
    ensures r != "/" ==> r == "/" + TrimSlashes(raw)
  {
    SlashTrimmedIsRoute(raw);
    if raw == "" then "/"
    else
      var u := TrimSlashes(raw);
      if u == "" then "/"
      else if ToLower(u) == "home" then "/"
      else "/" + u
  }

  /* ---------- norm ---------- */

  predicate IsWordChar(c: char) {
    ('a' <= c <= 'z') || ('0' <= c <= '9')
  }

  /** What `replace(/&/g, "and")` puts in place of one character. */
  function ExpandAmpersand(c: char): string {
    if c == '&' then "and" else [c]
  }

  /** `replace(/&/g, "and")`. */
  function ReplaceAmpersand(s: string): string {
    if s == [] then [] else ExpandAmpersand(s[0]) + ReplaceAmpersand(s[1..])
  }

  /** Text without '&' is left as it is. */
  lemma {:induction false} ReplaceAmpersandNoAmp(s: string)
    requires '&' !in s
    ensures ReplaceAmpersand(s) == s
  {
    if s != [] {
      assert s[0] != '&';
      assert '&' !in s[1..];
      ReplaceAmpersandNoAmp(s[1..]);
      assert s == [s[0]] + s[1..];
    }
  }

  /** The replacement works character by character, so it distributes over concatenation. */
  lemma {:induction false} ReplaceAmpersandAppend(a: string, b: string)
    ensures ReplaceAmpersand(a + b) == ReplaceAmpersand(a) + ReplaceAmpersand(b)
  {
    if a == [] {
      assert a + b == b;
    } else {
      assert (a + b)[0] == a[0];
      assert (a + b)[1..] == a[1..] + b;
      ReplaceAmpersandAppend(a[1..], b);
    }
  }

  /** `s` without its leading run of characters outside `[a-z0-9]`. */
  function SkipNonWord(s: string): (r: string)
    ensures |r| <= |s|
    ensures r == [] || IsWordChar(r[0])
  {
    if s != [] && !IsWordChar(s[0]) then SkipNonWord(s[1..]) else s
  }

  /** `replace(/[^a-z0-9]+/g, " ")`: every maximal run outside `[a-z0-9]` becomes one space. */
  function CollapseNonWord(s: string): (r: string)
    ensures r == [] <==> s == []
    ensures r != [] ==> (IsWordChar(r[0]) <==> IsWordChar(s[0]))
    decreases |s|
  {
    if s == [] then []
    else if IsWordChar(s[0]) then [s[0]] + CollapseNonWord(s[1..])
    else [' '] + CollapseNonWord(SkipNonWord(s))
  }

  /** Word characters are kept as they are, and collapsing goes on after them. */
  lemma {:induction false} CollapseKeepsWords(w: string, s: string)
    requires forall i :: 0 <= i < |w| ==> IsWordChar(w[i])
    ensures CollapseNonWord(w + s) == w + CollapseNonWord(s)
    decreases |w|
  {
    if w == [] {
      assert w + s == s;
    } else {
      assert (w + s)[0] == w[0];
      assert (w + s)[1..] == w[1..] + s;
      assert forall i :: 0 <= i < |w[1..]| ==> w[1..][i] == w[i + 1];
      CollapseKeepsWords(w[1..], s);
    }
  }

  /** Skipping a run of non-word characters lands on what follows the run. */
  lemma {:induction false} SkipNonWordRun(n: string, s: string)
    requires forall i :: 0 <= i < |n| ==> !IsWordChar(n[i])
    requires s == [] || IsWordChar(s[0])
    ensures SkipNonWord(n + s) == s
    decreases |n|
  {
    if n == [] {
      assert n + s == s;
    } else {
      assert (n + s)[0] == n[0];
      assert (n + s)[1..] == n[1..] + s;
      assert forall i :: 0 <= i < |n[1..]| ==> n[1..][i] == n[i + 1];
      SkipNonWordRun(n[1..], s);
    }
  }

  /** A maximal run of characters outside `[a-z0-9]` becomes exactly one space. */
  lemma {:induction false} CollapseRun(n: string, s: string)
    requires n != [] && forall i :: 0 <= i < |n| ==> !IsWordChar(n[i])
    requires s == [] || IsWordChar(s[0])
    ensures CollapseNonWord(n + s) == " " + CollapseNonWord(s)
  {
    assert (n + s)[0] == n[0];
    SkipNonWordRun(n, s);
  }

  /** What the collapsing step leaves is `[a-z0-9]` words and single spaces. */
  lemma {:induction false} CollapseShape(s: string)
    ensures forall i :: 0 <= i < |CollapseNonWord(s)| ==> IsWordChar(CollapseNonWord(s)[i]) || CollapseNonWord(s)[i] == ' '
    ensures forall i :: 0 <= i < |CollapseNonWord(s)| - 1 ==> CollapseNonWord(s)[i] == ' ' ==> CollapseNonWord(s)[i + 1] != ' '
    decreases |s|
  {
    if s != [] {
      var rest := if IsWordChar(s[0]) then s[1..] else SkipNonWord(s);
      CollapseShape(rest);
      var r, tail := CollapseNonWord(s), CollapseNonWord(rest);
      var head := if IsWordChar(s[0]) then s[0] else ' ';
      assert r == [head] + tail;
      assert forall i :: 1 <= i < |r| ==> r[i] == tail[i - 1];
      assert head == ' ' && tail != [] ==> IsWordChar(tail[0]);
    }
  }

  /** The shape of a normalised label: words of `[a-z0-9]` separated by single spaces. */
  predicate IsNormalLabel(t: string) {
    && (forall i :: 0 <= i < |t| ==> IsWordChar(t[i]) || t[i] == ' ')
    && (forall i :: 0 <= i < |t| - 1 ==> t[i] == ' ' ==> t[i + 1] != ' ')
    && (t == [] || (t[0] != ' ' && t[|t| - 1] != ' '))
  }

  /** Trimming a string of `[a-z0-9]` words and single spaces leaves a normalised label. */
  lemma {:induction false} TrimKeepsLabel(c: string)
    requires forall i :: 0 <= i < |c| ==> IsWordChar(c[i]) || c[i] == ' '
    requires forall i :: 0 <= i < |c| - 1 ==> c[i] == ' ' ==> c[i + 1] != ' '
    ensures IsNormalLabel(Trim(c))
  {
    var r := Trim(c);
    var off := TrimOffset(c);
    TrimSlice(c);
    assert forall i :: 0 <= i < |r| ==> r[i] == c[off + i];
  }

  /** `norm`: lower-case, read '&' as "and", collapse everything else outside `[a-z0-9]` into single spaces, trim. */
  function Norm(s: string): (r: string)
    ensures IsNormalLabel(r)
  {
    var c := CollapseNonWord(ReplaceAmpersand(ToLower(s)));
    CollapseShape(ReplaceAmpersand(ToLower(s)));
    TrimKeepsLabel(c);
    Trim(c)
  }

  /** A string of `[a-z0-9]` words and single spaces is left as it is by the collapsing step. */
  lemma {:induction false} CollapseFixed(t: string)
    requires forall i :: 0 <= i < |t| ==> IsWordChar(t[i]) || t[i] == ' '
    requires forall i :: 0 <= i < |t| - 1 ==> t[i] == ' ' ==> t[i + 1] != ' '
    ensures CollapseNonWord(t) == t
    decreases |t|
  {
    if t != [] {
      assert forall i :: 0 <= i < |t[1..]| ==> t[1..][i] == t[i + 1];
      if !IsWordChar(t[0]) {
        assert SkipNonWord(t) == t[1..];
      }
      CollapseFixed(t[1..]);
    }
  }

  /**
   * A label whose lower-case form is already a normalised label normalises to
   * that form: `norm("About Us")` is "about us", not "about".
   */
  lemma {:induction false} NormLowerNormal(s: string)
    requires IsNormalLabel(ToLower(s))
    ensures Norm(s) == ToLower(s)
  {
    LabelSteps(ToLower(s));
  }

  /** The three steps after lower-casing leave a normalised label unchanged. */
  lemma {:induction false} LabelSteps(t: string)
    requires IsNormalLabel(t)
    ensures Trim(CollapseNonWord(ReplaceAmpersand(t))) == t
  {
    assert '&' !in t;
    ReplaceAmpersandNoAmp(t);
    CollapseFixed(t);
    TrimmedFixed(t);
  }

  /** A normalised label is its own normalisation. */
  lemma {:induction false} NormOfNormal(t: string)
    requires IsNormalLabel(t)
    ensures Norm(t) == t
  {
    ToLowerFixed(t);
    NormLowerNormal(t);
  }

  /** `norm` is idempotent. */
  lemma {:induction false} NormIdempotent(s: string)
    ensures Norm(Norm(s)) == Norm(s)
  {
    NormOfNormal(Norm(s));
  }

  /** `norm` reads '&' exactly as the word "and". */
  lemma {:induction false} NormAmpersand(a: string, b: string)
    ensures Norm(a + "&" + b) == Norm(a + "and" + b)
  {
    ToLowerAppend(a + "&", b);
    ToLowerAppend(a, "&");
    ToLowerAppend(a + "and", b);
    ToLowerAppend(a, "and");
    var la, lb := ToLower(a), ToLower(b);
    assert ToLower("&") == "&";
    assert ToLower("and") == "and";
    ReplaceAmpersandAppend(la + "&", lb);
    ReplaceAmpersandAppend(la, "&");
    ReplaceAmpersandAppend(la + "and", lb);
    ReplaceAmpersandAppend(la, "and");
    assert ReplaceAmpersand("&") == "and";
    assert ReplaceAmpersand("and") == "and";
  }

  /* ---------- buildPageIndex ---------- */

  /** The key a page is filed under in the slug map: its lower-cased slug with slashes trimmed. */
  function SlugKey(p: PageLite): Option<string> {
    if p.slug == "" then None else Some(TrimSlashes(ToLower(p.slug)))
  }

  /** The key a page is filed under in the title map: its normalised title. */
  function TitleKey(p: PageLite): Option<string> {
    if p.title == "" then None else Some(Norm(p.title))
  }

  /** The map that `Map.set` builds, one page after another: a later page overwrites an earlier one with the same key. */
  function KeyIndex(pages: seq<PageLite>, key: PageLite -> Option<string>): map<string, PageLite>
  {
    if pages == [] then map[]
    else
      var m := KeyIndex(pages[..|pages| - 1], key);
      var p := pages[|pages| - 1];
      if key(p).Some? then m[key(p).value := p] else m
  }

  /** Some page has key `k`. */
  predicate HasKey(pages: seq<PageLite>, key: PageLite -> Option<string>, k: string) {
    exists i :: 0 <= i < |pages| && key(pages[i]) == Some(k)
  }

  /** The position of the LAST page with key `k`. */
  function LastKeyed(pages: seq<PageLite>, key: PageLite -> Option<string>, k: string): (r: nat)
    requires HasKey(pages, key, k)
    ensures r < |pages| && key(pages[r]) == Some(k)
    ensures forall j :: r < j < |pages| ==> key(pages[j]) != Some(k)
  {
    var n := |pages| - 1;
    if key(pages[n]) == Some(k) then n
    else
      assert HasKey(pages[..n], key, k) by {
        var i :| 0 <= i < |pages| && key(pages[i]) == Some(k);
        assert pages[..n][i] == pages[i];
      }
      var r := LastKeyed(pages[..n], key, k);
      assert pages[..n][r] == pages[r];
      r
  }

  /**
   * The page index holds exactly the keys of the pages that have one, and
   * under each key the last page with that key.
   */
  lemma {:induction false} KeyIndexSpec(pages: seq<PageLite>, key: PageLite -> Option<string>)
    ensures forall k :: k in KeyIndex(pages, key) <==> HasKey(pages, key, k)
    ensures forall k :: k in KeyIndex(pages, key) ==> KeyIndex(pages, key)[k] == pages[LastKeyed(pages, key, k)]
  {
    forall k
      ensures k in KeyIndex(pages, key) <==> HasKey(pages, key, k)
      ensures k in KeyIndex(pages, key) ==> KeyIndex(pages, key)[k] == pages[LastKeyed(pages, key, k)]
    {
      KeyIndexLookup(pages, key, k);
    }
  }

  /** The index lookup for one key `k`: present exactly when some page has that key, and then the last such page. */
  lemma {:induction false} KeyIndexLookup(pages: seq<PageLite>, key: PageLite -> Option<string>, k: string)
    ensures k in KeyIndex(pages, key) <==> HasKey(pages, key, k)
    ensures k in KeyIndex(pages, key) ==> KeyIndex(pages, key)[k] == pages[LastKeyed(pages, key, k)]
    decreases |pages|
  {
    if pages != [] {
      var n := |pages| - 1;
      var init := pages[..n];
      KeyIndexLookup(init, key, k);
      if key(pages[n]) != Some(k) {
        if HasKey(pages, key, k) {
          var i :| 0 <= i < |pages| && key(pages[i]) == Some(k);
          assert init[i] == pages[i];
        }
        if HasKey(init, key, k) {
          var i :| 0 <= i < |init| && key(init[i]) == Some(k);
          assert init[i] == pages[i];
          assert init[LastKeyed(init, key, k)] == pages[LastKeyed(init, key, k)];
        }
      }
    }
  }

  /** One more page extends the index by that page's key, if it has one. */
  lemma {:induction false} KeyIndexSnoc(pages: seq<PageLite>, i: nat, key: PageLite -> Option<string>)
    requires i < |pages|
    ensures KeyIndex(pages[..i + 1], key) ==
      if key(pages[i]).Some? then KeyIndex(pages[..i], key)[key(pages[i]).value := pages[i]]
      else KeyIndex(pages[..i], key)
  {
    assert pages[..i + 1][..i] == pages[..i];
  }

  /**
   * `buildPageIndex`: one pass over the pages fills both maps; a page without a
   * slug (title) is left out of the slug (title) map.
   */
  method BuildPageIndex(pages: seq<PageLite>) returns (bySlug: map<string, PageLite>, byTitle: map<string, PageLite>)
    ensures bySlug == KeyIndex(pages, SlugKey)
    ensures byTitle == KeyIndex(pages, TitleKey)
  {
    bySlug := map[];
    byTitle := map[];
    for i := 0 to |pages|
      invariant bySlug == KeyIndex(pages[..i], SlugKey)
      invariant byTitle == KeyIndex(pages[..i], TitleKey)
    {
      var p := pages[i];
      KeyIndexSnoc(pages, i, SlugKey);
      KeyIndexSnoc(pages, i, TitleKey);
      if p.slug != "" {
        bySlug := bySlug[TrimSlashes(ToLower(p.slug)) := p];
      }
      if p.title != "" {
        byTitle := byTitle[Norm(p.title) := p];
      }
    }
    assert pages[..|pages|] == pages;
  }

  /* ---------- matchPageForNav ---------- */

  /** The common pairs `matchPageForNav` falls back on. */
  const Heuristics: map<string, string> := map[
    "about-us" := "about",
    "our-services" := "service",
    "contact-us" := "contact",
    "blogs" := "blog",
    "home" := "homepage"
  ]

  /** The lower-cased, slash-trimmed path of a menu entry. */
  function NavPath(item: NavItem): string {
    ToLower(TrimSlashes(item.url))
  }

  predicate IsHomepage(p: PageLite) {
    p.slug == "homepage"
  }

  /** `heuristics[path] || heuristics[labelKey]`. */
  function Heuristic(path: string, labelKey: string): Option<string> {
    if path in Heuristics then Some(Heuristics[path])
    else if labelKey in Heuristics then Some(Heuristics[labelKey])
    else None
  }

  /**
   * The decision of `matchPageForNav` once the entry's `path` (its URL,
   * slash-trimmed and lower-cased) and `labelKey` (its normalised label) are
   * known: alias, slug, home, title, heuristics; the first rule that finds a
   * page decides.
   */
  function Resolve(path: string, labelKey: string, pages: seq<PageLite>, aliases: map<string, string>): Option<PageLite>
  {
    var bySlug := KeyIndex(pages, SlugKey);
    var byTitle := KeyIndex(pages, TitleKey);
    var home := Find(pages, IsHomepage);
    if path in aliases && aliases[path] != "" && aliases[path] in bySlug then Some(bySlug[aliases[path]])
    else if path in bySlug then Some(bySlug[path])
    else if (path == "home" || path == "") && home.Some? then home
    else if labelKey in byTitle then Some(byTitle[labelKey])
    else match Heuristic(path, labelKey)
      case Some(h) => if h in bySlug then Some(bySlug[h]) else None
      case None => None
  }

  /** `matchPageForNav`. */
  function MatchPageForNav(item: NavItem, pages: seq<PageLite>, aliases: map<string, string>): Option<PageLite>
  {
    Resolve(NavPath(item), Norm(item.caption), pages, aliases)
  }

  /* The five rules, stated over the page list itself rather than the index. */

  predicate AliasRule(path: string, pages: seq<PageLite>, aliases: map<string, string>) {
    path in aliases && aliases[path] != "" && HasKey(pages, SlugKey, aliases[path])
  }

  predicate SlugRule(path: string, pages: seq<PageLite>) {
    HasKey(pages, SlugKey, path)
  }

  predicate HomeRule(path: string, pages: seq<PageLite>) {
    (path == "home" || path == "") && exists i :: 0 <= i < |pages| && pages[i].slug == "homepage"
  }

  predicate TitleRule(labelKey: string, pages: seq<PageLite>) {
    HasKey(pages, TitleKey, labelKey)
  }

  predicate HeuristicRule(path: string, labelKey: string, pages: seq<PageLite>) {
    var h := Heuristic(path, labelKey);
    h.Some? && HasKey(pages, SlugKey, h.value)
  }

  /** The position of the first page whose slug is "homepage". */
  function FirstHomepage(pages: seq<PageLite>): (r: nat)
    requires exists i :: 0 <= i < |pages| && pages[i].slug == "homepage"
    ensures r < |pages| && pages[r].slug == "homepage"
    ensures forall j :: 0 <= j < r ==> pages[j].slug != "homepage"
  {
    if pages[0].slug == "homepage" then 0
    else
      assert exists i :: 0 <= i < |pages[1..]| && pages[1..][i].slug == "homepage" by {
        var i :| 0 <= i < |pages| && pages[i].slug == "homepage";
        assert pages[1..][i - 1] == pages[i];
      }
      1 + FirstHomepage(pages[1..])
  }

  /**
   * The resolution order of `matchPageForNav`, stated over the pages
   * themselves: the first rule that applies decides; a slug, title or
   * heuristic hit yields the LAST page with that key, the home rule the
   * FIRST page whose slug is "homepage"; when no rule applies, null.
   */
  function MatchSpec(path: string, labelKey: string, pages: seq<PageLite>, aliases: map<string, string>): Option<PageLite> {
    if AliasRule(path, pages, aliases) then Some(pages[LastKeyed(pages, SlugKey, aliases[path])])
    else if SlugRule(path, pages) then Some(pages[LastKeyed(pages, SlugKey, path)])
    else if HomeRule(path, pages) then Some(pages[FirstHomepage(pages)])
    else if TitleRule(labelKey, pages) then Some(pages[LastKeyed(pages, TitleKey, labelKey)])
    else if HeuristicRule(path, labelKey, pages) then Some(pages[LastKeyed(pages, SlugKey, Heuristic(path, labelKey).value)])
    else None
  }

  /** `pages.find(p => p.slug === "homepage")` finds the first such page. */
  lemma {:induction false} FindHomepage(pages: seq<PageLite>)
    ensures Find(pages, IsHomepage).Some? <==> exists i :: 0 <= i < |pages| && pages[i].slug == "homepage"
    ensures Find(pages, IsHomepage).Some? ==> Find(pages, IsHomepage) == Some(pages[FirstHomepage(pages)])
  {
    if exists i :: 0 <= i < |pages| && pages[i].slug == "homepage" {
      var i :| 0 <= i < |pages| && pages[i].slug == "homepage";
      assert IsHomepage(pages[i]);
      var f, h := FindIndex(pages, IsHomepage), FirstHomepage(pages);
      assert IsHomepage(pages[h]);
      assert !(f < h) && !(h < f);
    }
  }

  /** The index-based decision agrees with the resolution order. */
  lemma {:induction false} ResolveFollowsRules(path: string, labelKey: string, pages: seq<PageLite>, aliases: map<string, string>)
    ensures Resolve(path, labelKey, pages, aliases) == MatchSpec(path, labelKey, pages, aliases)
  {
    if path in aliases {
      KeyIndexLookup(pages, SlugKey, aliases[path]);
    }
    KeyIndexLookup(pages, SlugKey, path);
    FindHomepage(pages);
    KeyIndexLookup(pages, TitleKey, labelKey);
    var h := Heuristic(path, labelKey);
    if h.Some? {
      KeyIndexLookup(pages, SlugKey, h.value);
    }
  }

  /** `matchPageForNav` follows its resolution order exactly. */
  lemma {:induction false} MatchFollowsRules(item: NavItem, pages: seq<PageLite>, aliases: map<string, string>)
    ensures MatchPageForNav(item, pages, aliases) == MatchSpec(NavPath(item), Norm(item.caption), pages, aliases)
  {
    ResolveFollowsRules(NavPath(item), Norm(item.caption), pages, aliases);
  }

  /** Whatever `matchPageForNav` returns is one of the pages it was given, and null means no rule applied. */
  lemma {:induction false} MatchIsFromPages(item: NavItem, pages: seq<PageLite>, aliases: map<string, string>)
    ensures var r := MatchPageForNav(item, pages, aliases); r.Some? ==> r.value in pages
    ensures var path, labelKey := NavPath(item), Norm(item.caption);
      MatchPageForNav(item, pages, aliases).None? <==>
        !AliasRule(path, pages, aliases) && !SlugRule(path, pages) && !HomeRule(path, pages)
        && !TitleRule(labelKey, pages) && !HeuristicRule(path, labelKey, pages)
  {
    MatchFollowsRules(item, pages, aliases);
  }

  /* ---------- rewriteNavWithPages ---------- */

  /** `/^https?:\/\//i.test(url)`. */
  predicate IsAbsoluteUrl(url: string) {
    StartsAtIgnoringCase(url, 0, "http://") || StartsAtIgnoringCase(url, 0, "https://")
  }

  predicate IsExternal(n: NavItem) {
    n.isExternal || IsAbsoluteUrl(n.url)
  }

  /** The callback of `nav.map` in `rewriteNavWithPages`. */
  function RewriteItem(n: NavItem, pages: seq<PageLite>, aliases: map<string, string>): NavItem {
    if IsExternal(n) then n
    else match MatchPageForNav(n, pages, aliases)
      case None => n.(url := NormalizeInternal(n.url))
      case Some(p) => n.(url := ToPath(p.slug))
  }

  /**
   * `rewriteNavWithPages`: same entries in the same order; external entries
   * untouched; an internal entry keeps its label, flag and order and gets the
   * route of its matched page, or its own URL normalised when none matched —
   * in both cases a route of the site.
   */
  function RewriteNavWithPages(nav: seq<NavItem>, pages: seq<PageLite>, aliases: map<string, string>): (r: seq<NavItem>)
    ensures |r| == |nav|
    ensures forall i :: 0 <= i < |nav| ==>
      r[i].caption == nav[i].caption && r[i].isExternal == nav[i].isExternal && r[i].order == nav[i].order
    ensures forall i :: 0 <= i < |nav| && IsExternal(nav[i]) ==> r[i] == nav[i]
    ensures forall i :: 0 <= i < |nav| && !IsExternal(nav[i]) ==> IsRoute(r[i].url)
    ensures forall i :: 0 <= i < |nav| && !IsExternal(nav[i]) ==>
      r[i].url == match MatchPageForNav(nav[i], pages, aliases)
                    case None => NormalizeInternal(nav[i].url)
                    case Some(p) => ToPath(p.slug)
  {
    seq(|nav|, i requires 0 <= i < |nav| => RewriteItem(nav[i], pages, aliases))
  }

}
