/**
 * The data half of `src/app/about-us/page.tsx`: the image-path resolver
 * `mkImage`, the paragraph splitter `splitParagraphs`, and the mapping of the
 * pages API response onto the About page's seven sections.
 */
module AboutPage {
  import opened Wrappers
  import opened Text
  import opened Cms
  import opened Api

  /** `STORAGE_BASE`. */
  const StorageBase := "https://vgc.psofttechnologies.in/storage/"

  /* ---------- mkImage ---------- */

  /**
   * `mkImage`: a missing or empty path gives null; an absolute HTTP(S) URL is
   * kept; anything else loses its leading '/' run, gains a "builder/" prefix
   * unless it has one, and is resolved against the storage base.
   */
  function MkImage(path: Option<string>): (r: Option<string>)
    ensures r.None? <==> path.None? || path.value == ""
    ensures path.Some? && IsHttpUrl(path.value) ==> r == path
    ensures path.Some? && path.value != "" && !IsHttpUrl(path.value) ==> StorageBase + "builder/" <= r.value
  {
    match path
    case None => None
    case Some(p) =>
      if p == "" then None
      else if IsHttpUrl(p) then Some(p)
      else
        var clean := DropLeading(p, '/');
        var withBuilder := if "builder/" <= clean then clean else "builder/" + clean;
        assert (StorageBase + withBuilder)[..|StorageBase| + 8] == StorageBase + "builder/";
        Some(StorageBase + withBuilder)
  }

  /** The shared image base is the storage base's "builder/" folder. */
  lemma {:induction false} ImageBaseIsStorageBuilder()
    ensures ImageBase == StorageBase + "builder/"
  {
  }

  /** Adding "builder/" unless present, then resolving against `base`, is resolving what follows "builder/" against `base + "builder/"`. */
  lemma {:induction false} BuilderFolder(base: string, clean: string)
    ensures (if "builder/" <= clean then base + clean else base + ("builder/" + clean))
      == base + "builder/" + DropPrefix(clean, "builder/")
  {
    if "builder/" <= clean {
      assert clean == "builder/" + clean[8..];
    }
  }

  /**
   * The About page's resolver and the shared `ensureUrl` agree on every
   * non-empty path: both keep absolute URLs and send everything else to
   * `<storage>/builder/<path without leading '/' and without "builder/">`.
   */
  lemma {:induction false} MkImageAgreesWithEnsureUrl(p: string)
    requires p != ""
    ensures MkImage(Some(p)) == Some(EnsureUrl(Some(p)))
  {
    if !IsHttpUrl(p) {
      ImageBaseIsStorageBuilder();
      BuilderFolder(StorageBase, DropLeading(p, '/'));
    }
  }

  /* ---------- splitParagraphs ---------- */

  /** No blank line: no two consecutive newlines. */
  predicate NoBlankLine(s: string) {
    forall i :: 0 <= i < |s| - 1 ==> !(s[i] == '\n' && s[i + 1] == '\n')
  }

  /** A paragraph as `splitParagraphs` returns it: non-empty, trimmed, with no blank line inside. */
  predicate IsParagraph(p: string) {
    p != "" && Trimmed(p) && NoBlankLine(p)
  }

  /** The first position at or after `from` where two newlines start, or `|s|`. */
  function BlankLineFrom(s: string, from: nat): (k: nat)
    requires from <= |s|
    ensures from <= k <= |s|
    ensures k < |s| ==> k + 1 < |s| && s[k] == '\n' && s[k + 1] == '\n'
    ensures forall i :: from <= i < k && i + 1 < |s| ==> !(s[i] == '\n' && s[i + 1] == '\n')
    decreases |s| - from
  {
    if from == |s| then from
    else if from + 1 < |s| && s[from] == '\n' && s[from + 1] == '\n' then from
    else BlankLineFrom(s, from + 1)
  }

  /**
   * `s.split(/\n{2,}/)`: the regular expression matches a whole run of two or
   * more newlines at the first place one starts, and the text between
   * matches forms the pieces.
   */
  function SplitOnBlankLines(s: string): (r: seq<string>)
    ensures |r| >= 1
    ensures forall i :: 0 <= i < |r| ==> NoBlankLine(r[i])
    decreases |s|
  {
    var k := BlankLineFrom(s, 0);
    if k == |s| then [s]
    else
      var rest := DropLeading(s[k + 2..], '\n');
      [s[..k]] + SplitOnBlankLines(rest)
  }

  /** Text with no blank line is one piece. */
  lemma {:induction false} SplitOnBlankLinesNone(s: string)
    requires NoBlankLine(s)
    ensures SplitOnBlankLines(s) == [s]
  {
    assert BlankLineFrom(s, 0) == |s|;
  }

  /** In `a + t`, with `a` free of blank lines, not ending in a newline, and `t` starting with two, the first blank line is at `|a|`. */
  lemma {:induction false} FirstBlankLineAfter(a: string, t: string, from: nat)
    requires NoBlankLine(a) && (a == [] || a[|a| - 1] != '\n')
    requires |t| >= 2 && t[0] == '\n' && t[1] == '\n'
    requires from <= |a|
    ensures BlankLineFrom(a + t, from) == |a|
    decreases |a| - from
  {
    var s := a + t;
    if from < |a| {
      assert s[from] == a[from];
      if from + 1 < |a| {
        assert s[from + 1] == a[from + 1];
      }
      FirstBlankLineAfter(a, t, from + 1);
    } else {
      assert s[from] == t[0] && s[from + 1] == t[1];
    }
  }

  /**
   * `split(/\n{2,}/)` on a piece `a`, a run `n` of two or more newlines and
   * the rest `c`: the whole run is the separator, `a` is the first piece and
   * the rest is the split of `c`.
   */
  lemma {:induction false} SplitOnBlankLinesStep(a: string, n: string, c: string)
    requires NoBlankLine(a) && (a == [] || a[|a| - 1] != '\n')
    requires |n| >= 2 && forall i :: 0 <= i < |n| ==> n[i] == '\n'
    requires c == [] || c[0] != '\n'
    ensures SplitOnBlankLines(a + n + c) == [a] + SplitOnBlankLines(c)
  {
    var s := a + n + c;
    assert s == a + (n + c);
    FirstBlankLineAfter(a, n + c, 0);
    RunParts(a, n, c);
    DropLeadingExact(n[2..], '\n', c);
    SplitOnBlankLinesUnfold(s);
  }

  /** Where a blank line starts, the split takes the text before it and goes on after the newline run. */
  lemma {:induction false} SplitOnBlankLinesUnfold(s: string)
    requires BlankLineFrom(s, 0) < |s|
    ensures SplitOnBlankLines(s) ==
      [s[..BlankLineFrom(s, 0)]] + SplitOnBlankLines(DropLeading(s[BlankLineFrom(s, 0) + 2..], '\n'))
  {
  }

  /** The parts of `a + n + c` around the first two newlines of `n`. */
  lemma {:induction false} RunParts(a: string, n: string, c: string)
    requires |n| >= 2 && forall i :: 0 <= i < |n| ==> n[i] == '\n'
    ensures (a + n + c)[..|a|] == a
    ensures (a + n + c)[|a| + 2..] == n[2..] + c
    ensures forall i :: 0 <= i < |n[2..]| ==> n[2..][i] == '\n'
  {
    assert (a + n + c)[|a| + 2..] == n[2..] + c;
  }

  /** A slice of text with no blank line has none either. */
  lemma {:induction false} NoBlankLineSlice(s: string, a: nat, b: nat)
    requires a <= b <= |s| && NoBlankLine(s)
    ensures NoBlankLine(s[a..b])
  {
    var t := s[a..b];
    forall i | 0 <= i < |t| - 1 ensures !(t[i] == '\n' && t[i + 1] == '\n') {
      assert t[i] == s[a + i] && t[i + 1] == s[a + i + 1];
    }
  }

  /** `.map(p => p.trim()).filter(Boolean)`. */
  function TrimAndDropEmpty(pieces: seq<string>): (r: seq<string>)
    requires forall i :: 0 <= i < |pieces| ==> NoBlankLine(pieces[i])
    ensures |r| <= |pieces|
    ensures forall i :: 0 <= i < |r| ==> IsParagraph(r[i])
  {
    if pieces == [] then []
    else
      var p := pieces[0];
      var t := Trim(p);
      TrimSlice(p);
      NoBlankLineSlice(p, TrimOffset(p), TrimOffset(p) + |t|);
      var rest := TrimAndDropEmpty(pieces[1..]);
      if t == "" then rest else [t] + rest
  }

  /** The kept pieces are exactly the non-empty trimmed input pieces. */
  lemma {:induction false} TrimAndDropEmptyMembers(pieces: seq<string>)
    requires forall i :: 0 <= i < |pieces| ==> NoBlankLine(pieces[i])
    ensures forall p :: p in TrimAndDropEmpty(pieces) <==>
      exists i :: 0 <= i < |pieces| && p == Trim(pieces[i]) && p != ""
    decreases |pieces|
  {
    if pieces != [] {
      var tail := pieces[1..];
      TrimAndDropEmptyMembers(tail);
      forall p ensures p in TrimAndDropEmpty(pieces) <==>
        exists i :: 0 <= i < |pieces| && p == Trim(pieces[i]) && p != ""
      {
        if exists i :: 0 <= i < |pieces| && p == Trim(pieces[i]) && p != "" {
          var i :| 0 <= i < |pieces| && p == Trim(pieces[i]) && p != "";
          if i > 0 {
            assert tail[i - 1] == pieces[i];
          }
        }
        if p in TrimAndDropEmpty(tail) {
          var j :| 0 <= j < |tail| && p == Trim(tail[j]) && p != "";
          assert pieces[j + 1] == tail[j];
        }
      }
    }
  }

  /** Trimming and dropping works piece by piece: it distributes over concatenation, so the kept pieces stay in order. */
  lemma {:induction false} TrimAndDropEmptyAppend(a: seq<string>, b: seq<string>)
    requires forall i :: 0 <= i < |a| ==> NoBlankLine(a[i])
    requires forall i :: 0 <= i < |b| ==> NoBlankLine(b[i])
    ensures forall i :: 0 <= i < |a + b| ==> NoBlankLine((a + b)[i])
    ensures TrimAndDropEmpty(a + b) == TrimAndDropEmpty(a) + TrimAndDropEmpty(b)
    decreases |a|
  {
    if a == [] {
      assert a + b == b;
    } else {
      assert (a + b)[0] == a[0];
      assert (a + b)[1..] == a[1..] + b;
      TrimAndDropEmptyAppend(a[1..], b);
    }
  }

  /**
   * `splitParagraphs`: no paragraphs for a missing or empty text; otherwise
   * the pieces between blank lines, trimmed, empty ones dropped.
   */
  function SplitParagraphs(text: Option<string>): (r: seq<string>)
    ensures text.None? || text.value == "" ==> r == []
    ensures forall i :: 0 <= i < |r| ==> IsParagraph(r[i])
  {
    if text.None? || text.value == "" then []
    else TrimAndDropEmpty(SplitOnBlankLines(text.value))
  }

  /** Paragraphs written one after another with a blank line between them. */
  function JoinParagraphs(ps: seq<string>): string {
    if ps == [] then ""
    else if |ps| == 1 then ps[0]
    else ps[0] + "\n\n" + JoinParagraphs(ps[1..])
  }

  /** Joined paragraphs start where the first paragraph starts. */
  lemma {:induction false} JoinParagraphsHead(ps: seq<string>)
    requires |ps| >= 1 && ps[0] != ""
    ensures JoinParagraphs(ps) != "" && JoinParagraphs(ps)[0] == ps[0][0]
  {
  }

  /** Splitting joined paragraphs gives the paragraphs back. */
  lemma {:induction false} SplitJoinedPieces(ps: seq<string>)
    requires |ps| >= 1
    requires forall i :: 0 <= i < |ps| ==> IsParagraph(ps[i])
    ensures SplitOnBlankLines(JoinParagraphs(ps)) == ps
  {
    var a := ps[0];
    if |ps| == 1 {
      assert BlankLineFrom(a, 0) == |a|;
    } else {
      var rest := JoinParagraphs(ps[1..]);
      var s := a + "\n\n" + rest;
      JoinParagraphsHead(ps[1..]);
      assert !IsSpace(ps[1][0]);
      assert !IsSpace(a[|a| - 1]);
      assert s == a + ("\n\n" + rest);
      FirstBlankLineAfter(a, "\n\n" + rest, 0);
      assert s[..|a|] == a;
      assert s[|a| + 2..] == rest;
      assert DropLeading(rest, '\n') == rest;
      SplitJoinedPieces(ps[1..]);
    }
  }

  /** Every element is a paragraph. */
  predicate AllParagraphs(ps: seq<string>) {
    forall i :: 0 <= i < |ps| ==> IsParagraph(ps[i])
  }

  /** A leading paragraph passes trimming and the empty-filter unchanged. */
  lemma {:induction false} TrimAndDropEmptyCons(ps: seq<string>)
    requires ps != [] && AllParagraphs(ps)
    ensures AllParagraphs(ps[1..])
    ensures TrimAndDropEmpty(ps) == [ps[0]] + TrimAndDropEmpty(ps[1..])
  {
    TrimmedFixed(ps[0]);
  }

  /** Well-formed paragraphs survive trimming and the empty-filter unchanged. */
  lemma {:induction false} TrimAndDropEmptyFixed(ps: seq<string>)
    requires AllParagraphs(ps)
    ensures forall i :: 0 <= i < |ps| ==> NoBlankLine(ps[i])
    ensures TrimAndDropEmpty(ps) == ps
  {
    if ps != [] {
      TrimAndDropEmptyCons(ps);
      TrimAndDropEmptyFixed(ps[1..]);
      assert ps == [ps[0]] + ps[1..];
    }
  }

  /** `splitParagraphs` undoes joining well-formed paragraphs with blank lines. */
  lemma {:induction false} SplitParagraphsRoundTrip(ps: seq<string>)
    requires AllParagraphs(ps)
    ensures SplitParagraphs(Some(JoinParagraphs(ps))) == ps
  {
    if ps != [] {
      JoinParagraphsHead(ps);
      SplitJoinedPieces(ps);
      TrimAndDropEmptyFixed(ps);
    }
  }

  /* ---------- the About page mapping ---------- */

  datatype Banner = Banner(title: string, subtitle: string, ctaText: Option<string>, ctaLink: Option<string>, image: Option<string>)
  datatype About = About(title: string, paragraphs: seq<string>, image: Option<string>)
  datatype Feature = Feature(icon: Option<string>, title: Option<string>, description: Option<string>)
  datatype WhyChoose = WhyChoose(title: string, subtitle: string, features: seq<Feature>)
  datatype Beliefs = Beliefs(title: string, paragraphs: seq<string>, image: Option<string>, ctaText: Option<string>, ctaLink: Option<string>)
  datatype Member = Member(name: Option<string>, image: Option<string>, bio: string)
  datatype Team = Team(title: string, members: seq<Member>)
  datatype GlobalPresence = GlobalPresence(title: string, paragraphs: seq<string>, image: Option<string>)
  datatype Cta = Cta(title: string, subtitle: string, description: string, phone: string, ctaText: string)

  /** The object `fetchAboutPage` returns. */
  datatype AboutView = AboutView(
    banner: Banner, about: About, whyChoose: WhyChoose, beliefs: Beliefs,
    team: Team, globalPresence: GlobalPresence, cta: Cta)

  /** `(bannerBlock?.banners && bannerBlock.banners[0]) || null`: the first banner, if the block has any. */
  function FirstBanner(d: Option<Data>): (r: Option<Entry>)
    ensures r.Some? <==> DataList(d, "banners").Some? && |DataList(d, "banners").value| > 0
    ensures r.Some? ==> r.value == DataList(d, "banners").value[0]
  {
    match DataList(d, "banners")
    case Some(bs) => if |bs| > 0 then Some(bs[0]) else None
    case None => None
  }

  /**
   * The banner: the first banner's title (default "About Us") and subtitle
   * (default ""), its call to action when present, and its image, else the
   * block's image, through `mkImage`.
   */
  function MapBanner(d: Option<Data>): (r: Banner)
    ensures var b := FirstBanner(d);
      && (b.Some? && "title" in b.value ==> r.title == b.value["title"])
      && (!(b.Some? && "title" in b.value) ==> r.title == "About Us")
      && (b.Some? && "subtitle" in b.value ==> r.subtitle == b.value["subtitle"])
      && (!(b.Some? && "subtitle" in b.value) ==> r.subtitle == "")
      && (b.Some? && "cta_text" in b.value ==> r.ctaText == Some(b.value["cta_text"]))
      && (!(b.Some? && "cta_text" in b.value) ==> r.ctaText.None?)
      && (b.Some? && "cta_link" in b.value ==> r.ctaLink == Some(b.value["cta_link"]))
      && (!(b.Some? && "cta_link" in b.value) ==> r.ctaLink.None?)
      && (b.Some? && "image" in b.value ==> r.image == MkImage(Some(b.value["image"])))
      && (!(b.Some? && "image" in b.value) ==> r.image == MkImage(DataProp(d, "image")))
  {
    var banner := FirstBanner(d);
    Banner(
      Prop(banner, "title").GetOr("About Us"),
      Prop(banner, "subtitle").GetOr(""),
      Prop(banner, "cta_text"),
      Prop(banner, "cta_link"),
      MkImage(Coalesce(Prop(banner, "image"), DataProp(d, "image"))))
  }

  /**
   * The about section: `left_heading`, else `heading`, else "About Us"; the
   * paragraphs of `left_description`, else `description`; the right image.
   * The source reads `right_image` on both sides of its `??`, which is the
   * same as reading it once.
   */
  function MapAbout(d: Option<Data>): (r: About)
    ensures DataProp(d, "left_heading").Some? ==> r.title == DataProp(d, "left_heading").value
    ensures DataProp(d, "left_heading").None? && DataProp(d, "heading").Some? ==> r.title == DataProp(d, "heading").value
    ensures DataProp(d, "left_heading").None? && DataProp(d, "heading").None? ==> r.title == "About Us"
    ensures DataProp(d, "left_description").Some? ==> r.paragraphs == SplitParagraphs(DataProp(d, "left_description"))
    ensures DataProp(d, "left_description").None? ==> r.paragraphs == SplitParagraphs(DataProp(d, "description"))
    ensures forall i :: 0 <= i < |r.paragraphs| ==> IsParagraph(r.paragraphs[i])
    ensures r.image.None? <==> DataProp(d, "right_image").None? || DataProp(d, "right_image").value == ""
    ensures r.image == MkImage(DataProp(d, "right_image"))
  {
    About(
      Coalesce(DataProp(d, "left_heading"), DataProp(d, "heading")).GetOr("About Us"),
      SplitParagraphs(Coalesce(DataProp(d, "left_description"), DataProp(d, "description"))),
      MkImage(DataProp(d, "right_image")))
  }

  /** One "why choose" feature: its icon through `mkImage`, its title and description as given (undefined when absent). */
  function MapFeature(it: Entry): (r: Feature)
    ensures r.icon == MkImage(if "icon" in it then Some(it["icon"]) else None)
    ensures "title" in it ==> r.title == Some(it["title"])
    ensures "title" !in it ==> r.title.None?
    ensures "description" in it ==> r.description == Some(it["description"])
    ensures "description" !in it ==> r.description.None?
  {
    Feature(MkImage(Prop(Some(it), "icon")), Prop(Some(it), "title"), Prop(Some(it), "description"))
  }

  /**
   * The "why choose" section: `heading` (default "Why Choose"), `subtext`
   * (default "VGC Advisors"), and one feature per item when `items` is an
   * array, none otherwise.
   */
  function MapWhyChoose(d: Option<Data>): (r: WhyChoose)
    ensures DataProp(d, "heading").Some? ==> r.title == DataProp(d, "heading").value
    ensures DataProp(d, "heading").None? ==> r.title == "Why Choose"
    ensures DataProp(d, "subtext").Some? ==> r.subtitle == DataProp(d, "subtext").value
    ensures DataProp(d, "subtext").None? ==> r.subtitle == "VGC Advisors"
    ensures DataList(d, "items").None? ==> r.features == []
    ensures DataList(d, "items").Some? ==> |r.features| == |DataList(d, "items").value|
    ensures forall i :: 0 <= i < |r.features| ==> r.features[i] == MapFeature(DataList(d, "items").value[i])
  {
    var features := match DataList(d, "items")
      case Some(items) => seq(|items|, i requires 0 <= i < |items| => MapFeature(items[i]))
      case None => [];
    WhyChoose(DataProp(d, "heading").GetOr("Why Choose"), DataProp(d, "subtext").GetOr("VGC Advisors"), features)
  }

  /**
   * The beliefs section: `right_title` (default "What We Believe In"), the
   * paragraphs of `right_description`, the left image else the right one,
   * and the call to action when present.
   */
  function MapBeliefs(d: Option<Data>): (r: Beliefs)
    ensures DataProp(d, "right_title").Some? ==> r.title == DataProp(d, "right_title").value
    ensures DataProp(d, "right_title").None? ==> r.title == "What We Believe In"
    ensures r.paragraphs == SplitParagraphs(DataProp(d, "right_description"))
    ensures DataProp(d, "right_description").None? ==> r.paragraphs == []
    ensures DataProp(d, "left_image").Some? ==> r.image == MkImage(DataProp(d, "left_image"))
    ensures DataProp(d, "left_image").None? ==> r.image == MkImage(DataProp(d, "right_image"))
    ensures r.ctaText == DataProp(d, "right_cta_text") && r.ctaLink == DataProp(d, "right_cta_link")
  {
    Beliefs(
      DataProp(d, "right_title").GetOr("What We Believe In"),
      SplitParagraphs(DataProp(d, "right_description")),
      MkImage(Coalesce(DataProp(d, "left_image"), DataProp(d, "right_image"))),
      DataProp(d, "right_cta_text"),
      DataProp(d, "right_cta_link"))
  }

  /**
   * One team member: the name as given, `photo` else `image` through
   * `mkImage`, and `description`, else `bio`, else "" (an empty string
   * present in the data is kept, since `??` only skips null and undefined).
   */
  function MapMember(m: Entry): (r: Member)
    ensures "name" in m ==> r.name == Some(m["name"])
    ensures "name" !in m ==> r.name.None?
    ensures "photo" in m ==> r.image == MkImage(Some(m["photo"]))
    ensures "photo" !in m && "image" in m ==> r.image == MkImage(Some(m["image"]))
    ensures "photo" !in m && "image" !in m ==> r.image.None?
    ensures "description" in m ==> r.bio == m["description"]
    ensures "description" !in m && "bio" in m ==> r.bio == m["bio"]
    ensures "description" !in m && "bio" !in m ==> r.bio == ""
  {
    var e := Some(m);
    Member(
      Prop(e, "name"),
      MkImage(Coalesce(Prop(e, "photo"), Prop(e, "image"))),
      Coalesce(Prop(e, "description"), Prop(e, "bio")).GetOr(""))
  }

  /** The team section: titled "Our Team", one member per entry when `members` is an array, none otherwise. */
  function MapTeam(d: Option<Data>): (r: Team)
    ensures r.title == "Our Team"
    ensures DataList(d, "members").None? ==> r.members == []
    ensures DataList(d, "members").Some? ==> |r.members| == |DataList(d, "members").value|
    ensures forall i :: 0 <= i < |r.members| ==> r.members[i] == MapMember(DataList(d, "members").value[i])
  {
    var members := match DataList(d, "members")
      case Some(ms) => seq(|ms|, i requires 0 <= i < |ms| => MapMember(ms[i]))
      case None => [];
    Team("Our Team", members)
  }

  /** The global presence section: `left_title` (default "Global Presence"), the paragraphs of `left_description`, the right image. */
  function MapGlobalPresence(d: Option<Data>): (r: GlobalPresence)
    ensures DataProp(d, "left_title").Some? ==> r.title == DataProp(d, "left_title").value
    ensures DataProp(d, "left_title").None? ==> r.title == "Global Presence"
    ensures r.paragraphs == SplitParagraphs(DataProp(d, "left_description"))
    ensures DataProp(d, "left_description").None? ==> r.paragraphs == []
    ensures r.image == MkImage(DataProp(d, "right_image"))
    ensures r.image.None? <==> DataProp(d, "right_image").None? || DataProp(d, "right_image").value == ""
  {
    GlobalPresence(
      DataProp(d, "left_title").GetOr("Global Presence"),
      SplitParagraphs(DataProp(d, "left_description")),
      MkImage(DataProp(d, "right_image")))
  }

  /** The call-to-action section: each field as given, else its written default. */
  function MapCta(d: Option<Data>): (r: Cta)
    ensures DataProp(d, "top_heading").Some? ==> r.title == DataProp(d, "top_heading").value
    ensures DataProp(d, "top_heading").None? ==> r.title == "Get Started Today!"
    ensures DataProp(d, "main_heading").Some? ==> r.subtitle == DataProp(d, "main_heading").value
    ensures DataProp(d, "main_heading").None? ==> r.subtitle == "Let's Build Your Business Success Story \U{2014} Together"
    ensures DataProp(d, "subtext").Some? ==> r.description == DataProp(d, "subtext").value
    ensures DataProp(d, "subtext").None? ==> r.description == ""
    ensures DataProp(d, "cta_link").Some? ==> r.phone == DataProp(d, "cta_link").value
    ensures DataProp(d, "cta_link").None? ==> r.phone == "tel:+1234567891"
    ensures DataProp(d, "cta_text").Some? ==> r.ctaText == DataProp(d, "cta_text").value
    ensures DataProp(d, "cta_text").None? ==> r.ctaText == "Contact Us Today"
  {
    Cta(
      DataProp(d, "top_heading").GetOr("Get Started Today!"),
      DataProp(d, "main_heading").GetOr("Let's Build Your Business Success Story \U{2014} Together"),
      DataProp(d, "subtext").GetOr(""),
      DataProp(d, "cta_link").GetOr("tel:+1234567891"),
      DataProp(d, "cta_text").GetOr("Contact Us Today"))
  }

  /** The sections of the About page built from its blocks, each from the first block of its type. */
  function MapAboutBlocks(blocks: seq<Block>): AboutView {
    AboutView(
      MapBanner(BlockData(blocks, "banner_slider_section")),
      MapAbout(BlockData(blocks, "about_section")),
      MapWhyChoose(BlockData(blocks, "why_choose_us_section")),
      MapBeliefs(BlockData(blocks, "what_we_believe_section")),
      MapTeam(BlockData(blocks, "team_section")),
      MapGlobalPresence(BlockData(blocks, "global_presence_section")),
      MapCta(BlockData(blocks, "cta_section")))
  }

  /**
   * Only the first block of each type is read: a block added after the others
   * changes nothing when its type is not one the page reads or is already
   * present.
   */
  lemma {:induction false} AboutLaterBlockIgnored(blocks: seq<Block>, b: Block)
    requires !IsAboutSectionKind(b.kind) || exists i :: 0 <= i < |blocks| && blocks[i].kind == b.kind
    ensures MapAboutBlocks(blocks + [b]) == MapAboutBlocks(blocks)
  {
    BlockDataAppend(blocks, b, "banner_slider_section");
    BlockDataAppend(blocks, b, "about_section");
    BlockDataAppend(blocks, b, "why_choose_us_section");
    BlockDataAppend(blocks, b, "what_we_believe_section");
    BlockDataAppend(blocks, b, "team_section");
    BlockDataAppend(blocks, b, "global_presence_section");
    BlockDataAppend(blocks, b, "cta_section");
  }

  /** `page.type === "about" || page.slug === "about"`. */
  predicate IsAboutPage(p: Page) {
    p.kind == "about" || p.slug == "about"
  }

  /** `payload.data.find(p => p.type === "about" || p.slug === "about")`. */
  function FindAboutPage(pages: seq<Page>): (r: Option<Page>)
    ensures r.None? <==> forall i :: 0 <= i < |pages| ==> !IsAboutPage(pages[i])
  {
    if pages == [] then None
    else if IsAboutPage(pages[0]) then Some(pages[0])
    else
      assert forall i :: 1 <= i < |pages| ==> pages[i] == pages[1..][i - 1];
      FindAboutPage(pages[1..])
  }

  /** The page found is the FIRST whose type or slug is "about". */
  lemma {:induction false} FindAboutPageFirst(pages: seq<Page>, i: nat)
    requires i < |pages| && IsAboutPage(pages[i])
    requires forall j :: 0 <= j < i ==> !IsAboutPage(pages[j])
    ensures FindAboutPage(pages) == Some(pages[i])
  {
    if i > 0 {
      assert !IsAboutPage(pages[0]);
      assert pages[1..][i - 1] == pages[i];
      assert forall j :: 0 <= j < i - 1 ==> pages[1..][j] == pages[j + 1];
      FindAboutPageFirst(pages[1..], i - 1);
    }
  }

  /**
   * The mapping half of `fetchAboutPage`, from the parsed payload's `data`
   * (`None` when it is not an array). Reading `.find` of a non-array, or the
   * `blocks` of the chosen page when they are not an array, throws a
   * `TypeError`; no About page gives null.
   */
  function MapAboutPage(data: Option<seq<Page>>): (r: Result<Option<AboutView>>)
    ensures data.None? ==> r.Err?
    ensures data.Some? ==> (r == Ok(None) <==> forall i :: 0 <= i < |data.value| ==> !IsAboutPage(data.value[i]))
    ensures data.Some? && FindAboutPage(data.value).Some? ==>
      (r.Err? <==> FindAboutPage(data.value).value.blocks.None?)
    ensures r.Ok? && r.value.Some? ==>
      data.Some? && FindAboutPage(data.value).Some? && FindAboutPage(data.value).value.blocks.Some? &&
      var blocks := FindAboutPage(data.value).value.blocks.value;
      var v := r.value.value;
      && v.banner == MapBanner(BlockData(blocks, "banner_slider_section"))
      && v.about == MapAbout(BlockData(blocks, "about_section"))
      && v.whyChoose == MapWhyChoose(BlockData(blocks, "why_choose_us_section"))
      && v.beliefs == MapBeliefs(BlockData(blocks, "what_we_believe_section"))
      && v.team == MapTeam(BlockData(blocks, "team_section"))
      && v.globalPresence == MapGlobalPresence(BlockData(blocks, "global_presence_section"))
      && v.cta == MapCta(BlockData(blocks, "cta_section"))
  {
    match data
    case None => Err("TypeError")
    case Some(pages) =>
      match FindAboutPage(pages)
      case None => Ok(None)
      case Some(page) =>
        match page.blocks
        case None => Err("TypeError")
        case Some(blocks) => Ok(Some(MapAboutBlocks(blocks)))
  }

  /** The About view when none of its seven blocks is present. */
  const DefaultAboutView := AboutView(
    Banner("About Us", "", None, None, None),
    About("About Us", [], None),
    WhyChoose("Why Choose", "VGC Advisors", []),
    Beliefs("What We Believe In", [], None, None, None),
    Team("Our Team", []),
    GlobalPresence("Global Presence", [], None),
    Cta("Get Started Today!", "Let's Build Your Business Success Story \U{2014} Together", "", "tel:+1234567891", "Contact Us Today"))

  /** The seven block types the About page reads. */
  predicate IsAboutSectionKind(kind: string) {
    kind in {"banner_slider_section", "about_section", "why_choose_us_section", "what_we_believe_section",
             "team_section", "global_presence_section", "cta_section"}
  }

  /** Absent blocks give fixed defaults: with none of the seven block types, every section falls back. */
  lemma {:induction false} AboutDefaults(blocks: seq<Block>)
    requires forall i :: 0 <= i < |blocks| ==> !IsAboutSectionKind(blocks[i].kind)
    ensures MapAboutBlocks(blocks) == DefaultAboutView
  {
    assert forall i :: 0 <= i < |blocks| ==> (
      && blocks[i].kind != "banner_slider_section" && blocks[i].kind != "about_section"
      && blocks[i].kind != "why_choose_us_section" && blocks[i].kind != "what_we_believe_section"
      && blocks[i].kind != "team_section" && blocks[i].kind != "global_presence_section"
      && blocks[i].kind != "cta_section");
  }
}
