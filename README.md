# VGC site core, modelled in Dafny

This project models the data-shaping core of a Next.js company site that is backed by a headless CMS:

- **`Routing`** (`src/lib/routing.ts`) rewrites the CMS navigation onto the app's routes.
  - It normalises slugs and labels.
  - It indexes the pages by slug and by title.
  - It resolves each navigation item to a page by a fixed rule priority: alias, slug, home, title, heuristic.
- **`Api`** (`src/lib/api.ts`) covers `ensureUrl` and `stripHtml`:
  - `ensureUrl` turns the CMS's relative image paths into absolute URLs.
  - `stripHtml` is the tag stripper.
- **`Cache`** (`src/lib/cache.ts`) holds the three fetch-cache presets and `getCacheOptions`.
- **`AboutPage`** (`src/app/about-us/page.tsx`) covers:
  - `mkImage`;
  - the blank-line paragraph splitter;
  - the mapping of the CMS "about" page onto the about view, with the default for every missing field.
- **`HomePage`** (`src/app/page.tsx`) covers `mapApiToHomeDataStrict`. It picks the `homepage` page and maps its hero, services, blog, clients and testimonials sections.
- **`Footer`** (`src/app/components/Footer.tsx`) covers the phone-link normaliser, the fallbacks for each footer field, the social-icon picker and the blank-link fallback.
- **`JobParsing`** (`test_job_parsing.js`) covers `parseHtmlList` and `parseJobDescription`:
  - `parseHtmlList` is a three-strategy list extractor: `<li><p>` items, then bare `<li>` items, then long lines.
  - `parseJobDescription` files list items under "responsibilities" or "ideal for". It uses the `<h5>` headings when there are any, and a keyword heuristic otherwise.

The model has three shared modules:

- **`Text`** holds the JavaScript string primitives the code relies on. These are `trim` with JavaScript's full white-space set, `toLowerCase`, `includes`, `indexOf`, and the two tag-removing `replace` calls.
- **`Cms`** holds the JSON shapes the CMS returns. An object is a `map<string, string>`, where a missing key is `undefined`. `??` and `||` are `Coalesce` and `Or`.
- **`Wrappers`** holds `Option` and `Result`.

Every regular expression the core uses is written out as a scanner. The scanners have the same leftmost, greedy and lazy choices as the JavaScript engine.

Where the source changes state step by step, the model is imperative and proved against a specification function:

- `buildPageIndex`'s loop;
- the `exec` loops and the line loop of `parseHtmlList`;
- the section loop of `parseJobDescription`.

The source's pure functions are Dafny functions with lemmas. Three results the proofs bring out:

- **`norm` and its doc comment disagree.** The comment at `routing.ts:9` says `norm` maps "About Us" to "about". The code maps it to "about us". `Routing.NormLowerNormal` states the code's behaviour, and the model follows the code.
- **Dead test in the no-heading classification.** In `parseJobDescription`, the `items.length > 2` test never changes where the items go. Without headings, all items go to "ideal for" exactly when they mention an ideal-for keyword and no responsibility keyword (`JobParsing.SingleSection`).
- **`decodeHtmlEntities` failing empties the result.** `decodeHtmlEntities` reaches for `document`. Where it always throws, as it does outside a browser, `parseJobDescription` returns two empty lists for every input (`JobParsing.JobDescriptionFailing`).

## Model

| member | source | states |
|---|---|---|
| Text.Trim | src/lib/api.ts:35 | `trim` leaves no white space at either end and never lengthens the text; that it removes only white space is `TrimSlice` |
| Text.TrimSlice | src/lib/api.ts:35 | what `trim` keeps is one contiguous piece of the input; everything before it and everything after it is white space, so only white space is removed |
| Text.TrimAllSpace | src/lib/api.ts:35 | text made only of white space trims to the empty string |
| Text.TrimIdempotent | src/lib/api.ts:35 | trimming twice is trimming once |
| Text.TrimAround | src/lib/api.ts:35 | white space before and after a non-empty trimmed text is exactly what `trim` removes |
| Text.ToLower | src/lib/routing.ts:11 | same length; each character is lower-cased on its own |
| Text.StripTags | src/lib/api.ts:35 | the tag-removing `replace` never lengthens the text and only keeps characters of the input |
| Text.StripTagsKeepsText | src/lib/api.ts:35 | text before the first '<' is kept as it is, and the scan goes on after it |
| Text.StripTagsDropsTag | src/lib/api.ts:35 | a complete tag `<t>` (non-empty for the `+` pattern) is deleted, and the scan resumes right after its '>' |
| Text.StripTagsEmptyTag | src/lib/api.ts:35 | an empty tag `<>` is deleted by `/<[^>]*>/g` but kept by `/<[^>]+>/g` |
| Text.StripTagsTagFree | src/lib/api.ts:35 | after the `replace`, no position of the text starts a tag the pattern matches |
| Text.StripThenTrimStable | test_job_parsing.js:20 | stripped-then-trimmed text has no tag left, so stripping it again changes nothing |
| Text.RemoveSpaces | src/app/components/Footer.tsx:22 | no white space is left; text without white space is returned unchanged; that every other character is kept in order is `RemoveSpacesAppend` with `RemoveSpacesChar` |
| Text.RemoveSpacesAppend | src/app/components/Footer.tsx:22 | deleting white space distributes over concatenation |
| Text.RemoveSpacesChar | src/app/components/Footer.tsx:22 | on one character: white space is deleted, anything else is kept, so every other character survives in order |
| Text.RemoveSpacesTrim | src/app/components/Footer.tsx:20-22 | trimming before deleting white space changes nothing |
| Text.ContainsAt | test_job_parsing.js:78 | `includes` finds a word that occurs at any position |
| Text.ContainsFound | test_job_parsing.js:78 | what `includes` finds occurs at some position |
| Lists.Find | src/lib/routing.ts:45 | `find` returns an element exactly when one satisfies the predicate, and then the first one |
| Cms.FirstBlock | src/app/about-us/page.tsx:55 | the first block of the given type, and `None` exactly when the page has no such block |
| Routing.TrimSlashes | src/lib/routing.ts:6 | no backslash is left, the result neither starts nor ends with '/', and it is never longer than the input; its value is `TrimSlashesExact` |
| Routing.TrimSlashesExact | src/lib/routing.ts:6 | the value of `trimSlashes` on every input: after the backslashes go, white space, a run of '/', the kept text, a run of '/' and white space leave exactly the kept text |
| Text.RemoveCharAppend | src/lib/routing.ts:6 | `replace(/\\/g, "")` works piece by piece: it distributes over concatenation |
| Text.RemoveCharChar | src/lib/routing.ts:6 | on one character, the deleted character goes and any other is kept |
| Routing.SlashTrimmedIsRoute | src/lib/routing.ts:7 | '/' followed by a slash-trimmed slug is always a well-formed app route |
| Routing.ToPath | src/lib/routing.ts:7 | always a route; "/" exactly for a missing slug, `homepage`, or a slug of slashes only; otherwise '/' + the trimmed slug |
| Routing.CollapseNonWord | src/lib/routing.ts:11 | empty exactly when the input is; starts with a character of [a-z0-9] exactly when the input does |
| Routing.CollapseKeepsWords | src/lib/routing.ts:11 | characters of [a-z0-9] are kept as they are |
| Routing.CollapseRun | src/lib/routing.ts:11 | a maximal run of characters outside [a-z0-9] becomes exactly one space |
| Routing.CollapseShape | src/lib/routing.ts:11 | after collapsing, only [a-z0-9] and single spaces remain: no two spaces are adjacent |
| Routing.CollapseFixed | src/lib/routing.ts:11 | text of [a-z0-9] words and single spaces is left unchanged by the collapsing step |
| Routing.Norm | src/lib/routing.ts:10-11 | the label key is normal: only [a-z0-9] and single inner spaces, with none at either end |
| Routing.NormLowerNormal | src/lib/routing.ts:9-11 | a label whose lower-case form is already normal maps to that form (so "About Us" gives "about us", not the "about" of the comment) |
| Routing.NormIdempotent | src/lib/routing.ts:10-11 | normalising a label key again changes nothing |
| Routing.NormAmpersand | src/lib/routing.ts:11 | '&' and "and" give the same label key |
| Routing.ReplaceAmpersandAppend | src/lib/routing.ts:11 | the '&' rewrite works character by character: it distributes over concatenation |
| Routing.KeyIndexSpec | src/lib/routing.ts:14-23 | a key is in the index exactly when some page has it, and it maps to the LAST such page (`Map.set` overwrites) |
| Routing.KeyIndexLookup | src/lib/routing.ts:14-23 | for one key: the lookup succeeds exactly when some page has that key, and yields the last such page |
| Routing.KeyIndexSnoc | src/lib/routing.ts:18-21 | one loop step sets the current page's key, if it has one, and leaves the rest of the index as it was |
| Routing.BuildPageIndex | src/lib/routing.ts:14-23 | the loop builds exactly the slug index (slash-trimmed lower-case slug) and the title index (normalised title) |
| Routing.FindHomepage | src/lib/routing.ts:44-47 | the home lookup succeeds exactly when a page has slug `homepage`, and returns the first one |
| Routing.ResolveFollowsRules | src/lib/routing.ts:31-65 | resolution equals the rule-priority reference: alias, then slug, then home, then title, then heuristic, then null |
| Routing.MatchFollowsRules | src/lib/routing.ts:26-66 | `matchPageForNav` applies that priority to the slash-trimmed lower-case URL and the normalised label |
| Routing.MatchIsFromPages | src/lib/routing.ts:26-66 | a match is one of the given pages, and null comes back exactly when no rule applies |
| Routing.RewriteNavWithPages | src/lib/routing.ts:69-84 | one item per item, label, `is_external` and order kept; external items unchanged; the others get the matched page's path or the normalised URL, always a route |
| Routing.NormalizeInternal | src/lib/routing.ts:86-92 | always a route; "/" exactly for an empty or slash-only URL or "home" in any case; otherwise '/' + the trimmed URL |
| Api.EnsureUrl | src/lib/api.ts:23-29 | empty exactly for a missing or empty path; otherwise an http(s) URL; absolute URLs are kept; relative paths are appended to the image base |
| Api.RelativeImagePathShape | src/lib/api.ts:27 | the relative part is the path without its leading slashes and then without one optional "builder/" |
| Api.EnsureUrlIdempotent | src/lib/api.ts:23-29 | applying `ensureUrl` to its own result changes nothing |
| Api.StripHtml | src/lib/api.ts:34-36 | trimmed, with no non-empty tag left, never longer than the input |
| Api.StripHtmlDeletesTag | src/lib/api.ts:34-36 | text without '<', then a non-empty tag, then the rest: the tag is deleted, the text kept, the rest stripped, and all of it trimmed |
| Api.StripHtmlPlainText | src/lib/api.ts:34-36 | text without '<' is only trimmed |
| Api.StripHtmlIdempotent | src/lib/api.ts:34-36 | stripping twice is stripping once |
| Cache.GetCacheOptions | src/lib/cache.ts:6-47 | no-store exactly for "never", a one-year revalidation exactly for "static", five minutes otherwise (including the default), and revalidation 0 exactly when not cached |
| AboutPage.MkImage | src/app/about-us/page.tsx:25-35 | null exactly for a missing or empty path; absolute URLs kept; relative paths land under the storage base's `builder/` folder |
| AboutPage.ImageBaseIsStorageBuilder | src/app/about-us/page.tsx:23 | the image base of `api.ts` is the storage base followed by "builder/" |
| AboutPage.MkImageAgreesWithEnsureUrl | src/app/about-us/page.tsx:25-35 | for every non-empty path, `mkImage` and `ensureUrl` produce the same URL |
| AboutPage.SplitOnBlankLines | src/app/about-us/page.tsx:40 | at least one piece, and no piece contains a blank line |
| AboutPage.SplitOnBlankLinesNone | src/app/about-us/page.tsx:40 | text without a blank line is one piece |
| AboutPage.SplitOnBlankLinesStep | src/app/about-us/page.tsx:40 | a piece not ending in a newline, a run of two or more newlines, then text not starting with one: the whole run is the separator, the piece comes first and the rest is the split of that text |
| AboutPage.TrimAndDropEmpty | src/app/about-us/page.tsx:41-42 | every kept piece is a paragraph: non-empty, trimmed, free of blank lines |
| AboutPage.TrimAndDropEmptyMembers | src/app/about-us/page.tsx:41-42 | the kept pieces are exactly the input pieces, trimmed, that are not empty |
| AboutPage.TrimAndDropEmptyAppend | src/app/about-us/page.tsx:41-42 | the map and filter work piece by piece: they distribute over concatenation, so the order is kept |
| AboutPage.SplitParagraphs | src/app/about-us/page.tsx:37-43 | no paragraphs for missing or empty text; every result is a paragraph |
| AboutPage.SplitJoinedPieces | src/app/about-us/page.tsx:40 | splitting paragraphs joined by blank lines gives back the pieces |
| AboutPage.SplitParagraphsRoundTrip | src/app/about-us/page.tsx:37-43 | joining paragraphs with blank lines and splitting them gives back the same paragraphs |
| AboutPage.FirstBanner | src/app/about-us/page.tsx:58 | the first banner exactly when the block has a non-empty `banners` array |
| AboutPage.MapBanner | src/app/about-us/page.tsx:57-65 | title (default "About Us") and subtitle (default "") of the first banner; its call to action or null; its image, else the block's image, through `mkImage` |
| AboutPage.MapAbout | src/app/about-us/page.tsx:67-72 | `left_heading`, else `heading`, else "About Us"; the paragraphs of `left_description`, else `description`; the right image through `mkImage`, null exactly when missing or empty |
| AboutPage.MapFeature | src/app/about-us/page.tsx:80-84 | icon through `mkImage`; title and description as given, undefined when absent |
| AboutPage.MapWhyChoose | src/app/about-us/page.tsx:74-85 | `heading` (default "Why Choose") and `subtext` (default "VGC Advisors"); no features unless `items` is an array; otherwise feature i is `MapFeature` of item i |
| AboutPage.MapBeliefs | src/app/about-us/page.tsx:87-94 | `right_title` (default "What We Believe In"); the paragraphs of `right_description`; the left image, else the right one; the call to action as given |
| AboutPage.MapMember | src/app/about-us/page.tsx:101-105 | the name as given; `photo`, else `image`, through `mkImage`; bio = `description`, else `bio`, else "" |
| AboutPage.MapTeam | src/app/about-us/page.tsx:96-106 | title "Our Team"; no members unless `members` is an array; otherwise member i is `MapMember` of entry i |
| AboutPage.MapGlobalPresence | src/app/about-us/page.tsx:108-113 | `left_title` (default "Global Presence"); the paragraphs of `left_description`; the right image through `mkImage` |
| AboutPage.MapCta | src/app/about-us/page.tsx:115-122 | top heading, main heading, subtext, `cta_link` and `cta_text`, each as given or else its written default |
| AboutPage.FindAboutPage | src/app/about-us/page.tsx:52-53 | no page exactly when no page has type or slug "about" |
| AboutPage.FindAboutPageFirst | src/app/about-us/page.tsx:52 | the chosen page is the first whose type or slug is "about" |
| AboutPage.MapAboutPage | src/app/about-us/page.tsx:52-122 | a throw when `data` is not an array, null exactly when no about page exists, and a throw exactly when the chosen page has no `blocks` array; otherwise each of the seven sections is its mapper applied to the first block of its type |
| AboutPage.AboutLaterBlockIgnored | src/app/about-us/page.tsx:55 | only the first block of each type is read: a later block of a type already present, or of a type the page does not read, changes nothing |
| Cms.BlockDataAppend | src/app/about-us/page.tsx:55 | `blocks.find(…)?.data` is unchanged by appending a block of another type, or of a type already present |
| AboutPage.AboutDefaults | src/app/about-us/page.tsx:57-122 | a page with none of the section blocks maps to all the written defaults |
| Footer.NormalizePhoneToHref | src/app/components/Footer.tsx:18-24 | always a trimmed "tel:" link; the default number for missing or empty input; a "tel:" input is only trimmed; otherwise "tel:" + the trimmed number with white space removed |
| Footer.PhoneDigits | src/app/components/Footer.tsx:20-22 | a number not starting with "tel:" becomes "tel:" followed by every character of the number that is not white space, in order |
| Footer.NormalizePhoneIdempotent | src/app/components/Footer.tsx:18-24 | normalising a phone link again changes nothing |
| Footer.TelKept | src/app/components/Footer.tsx:20-21 | a trimmed number that already starts with "tel:" is its own link |
| Footer.SocialList | src/app/components/Footer.tsx:31 | the given links when they form a non-empty array, else five "#" placeholders; never empty |
| Footer.PickIconIsDefault | src/app/components/Footer.tsx:34-35 | every icon is one of the five defaults, and past the fifth it is "link.svg" |
| Footer.SocialHref | src/app/components/Footer.tsx:97 | "#" for a blank link, the link itself otherwise; never blank |
| Footer.RenderFooter | src/app/components/Footer.tsx:26-35 | shown phone, e-mail and copyright = given or default (`??`, so an empty string is kept); the phone link = the normalised shown phone; one social entry per link with its fallback href and picked icon |
| Footer.PlaceholderLinks | src/app/components/Footer.tsx:31 | with no non-empty social array, the footer shows exactly five "#" links |
| HomePage.FindHomepage | src/app/page.tsx:19-22 | no page exactly when none has slug "homepage" |
| HomePage.FindHomepageFirst | src/app/page.tsx:19 | the chosen page is the first with slug "homepage" |
| HomePage.MapApiToHomeDataStrict | src/app/page.tsx:17-94 | throws, with its message, exactly when no page has slug "homepage" (a non-array `data` counts as no pages); otherwise the footer is empty, the counters are [], and each section is its mapper applied to the first home page's block of that type |
| HomePage.MapHero | src/app/page.tsx:26-38 | title = the first banner's title, else ""; phone = its `cta_link` without a leading "tel:" (`HeroPhone`); counters []; banner i is raw banner i's image through `ensureUrl`; paragraphs are `splitParagraphs` of the first banner's subtitle |
| HomePage.HeroPhone | src/app/page.tsx:35 | "" for a missing link; a leading "tel:" removed; any other link kept |
| HomePage.MapService | src/app/page.tsx:42-46 | title or ""; link to `/service/<slug>`, else the link, else `/service`; description = stripped short, else long description |
| HomePage.MapServices | src/app/page.tsx:41-46 | card i is `MapService` of raw service i, one per service |
| HomePage.MapBlogItem | src/app/page.tsx:50-58 | title or ""; link to `/blog/<slug>` else `/blog`; image = featured, else cover image through `ensureUrl`; the formatted date, or none without `created_at`; the stripped short description or "" |
| HomePage.MapBlog | src/app/page.tsx:49-58 | entry i is `MapBlogItem` of raw blog i, one per blog |
| HomePage.MapClient | src/app/page.tsx:62-66 | title or ""; icon = the logo through `ensureUrl` |
| HomePage.MapClients | src/app/page.tsx:61-67 | entry i is `MapClient` of raw logo i, one per logo |
| HomePage.MapTestimonial | src/app/page.tsx:71-75 | author = author, else item_author, else ""; text = quote or ""; avatar through `ensureUrl` |
| HomePage.MapTestimonials | src/app/page.tsx:70-75 | entry i is `MapTestimonial` of raw item i, one per item |
| HomePage.HomeFooterRendering | src/app/page.tsx:77-82 | the home page's empty footer renders with the default phone link and five "#" social links |
| JobParsing.ListItemAt | test_job_parsing.js:14 | a list-item match at a position lies inside the text, its capture before its end |
| JobParsing.OpenLiSpec | test_job_parsing.js:14 | `<li[^>]*>` is found at a position exactly when it matches there, ending right after the first '>' |
| JobParsing.CloseLiFirst | test_job_parsing.js:29 | the lazy capture of the bare pattern stops at the first `</li>` |
| JobParsing.CloseLiPFirst | test_job_parsing.js:14 | the lazy capture of the paragraph pattern stops at the first place where `</p>`, white space and `</li>` follow |
| JobParsing.LiContentSpec | test_job_parsing.js:29 | after `<li…>`, the bare item's capture is found exactly when it matches: it runs up to the first `</li>` |
| JobParsing.LiPContentSpec | test_job_parsing.js:14 | after `<li…>`, the paragraph item is found exactly when white space, `<p…>`, the lazy capture, `</p>`, white space and `</li>` match |
| JobParsing.BareItemAtSpec | test_job_parsing.js:29 | the bare-item scanner returns a span exactly when `<li[^>]*>([\s\S]*?)<\/li>` matches at the position with that span |
| JobParsing.ParaItemAtSpec | test_job_parsing.js:14 | the paragraph-item scanner returns a span exactly when its pattern matches at the position with that span |
| JobParsing.ListItemAtSpec | test_job_parsing.js:14 | the scanner of either pattern returns exactly the match of that pattern at the position, and nothing where it does not match |
| JobParsing.NextListItem | test_job_parsing.js:16 | `exec` from `lastIndex` finds a match that starts after it and ends within the text |
| JobParsing.NextListItemLeftmost | test_job_parsing.js:16 | `exec` returns the match at the leftmost position at or after `lastIndex` where the pattern matches |
| JobParsing.NextListItemNone | test_job_parsing.js:16 | `exec` returns null when the pattern matches nowhere at or after `lastIndex` |
| JobParsing.CleanText | test_job_parsing.js:20 | cleaned text is trimmed, has no tag left and is never longer |
| JobParsing.CleanTextDeletesTag | test_job_parsing.js:20 | text without '<', then a tag, then the rest: the tag is deleted, the text kept, the rest stripped, and all of it trimmed |
| JobParsing.TierTextsShape | test_job_parsing.js:14-41 | every text an `exec` loop keeps is non-empty, trimmed and tag-free |
| JobParsing.SplitLines | test_job_parsing.js:46 | splitting at line-break runs yields at least one line |
| JobParsing.SplitLinesNoBreak | test_job_parsing.js:46 | text without a line break is one line |
| JobParsing.SplitLinesStep | test_job_parsing.js:46 | a line, a run of line breaks, then text not starting with one: the line is the first piece and the rest is the split of that text |
| JobParsing.SplitLinesPieces | test_job_parsing.js:46 | no piece contains '\n' or '\r' |
| JobParsing.LineTextsShape | test_job_parsing.js:44-53 | every line kept is a non-empty, trimmed, tag-free text of more than ten characters, and no more texts than lines |
| JobParsing.ItemTextsShape | test_job_parsing.js:8-53 | every text is non-empty, trimmed and tag-free; the texts come from `<li><p>` items if any; else from bare `<li>` items if any; else from lines longer than ten characters |
| JobParsing.DecodeAllSpec | test_job_parsing.js:22 | decoding succeeds exactly when every text decodes, and then gives each text's decoding in order |
| JobParsing.CollectListItems | test_job_parsing.js:14-41 | an `exec` loop returns the decoded texts of its pattern, or throws when a decode does |
| JobParsing.CollectLines | test_job_parsing.js:44-53 | the line loop returns the decoded long lines, or throws when a decode does |
| JobParsing.CollectLongLines | test_job_parsing.js:47-52 | the loop over the split lines returns the decodings of the kept lines in order, or throws when a decode does |
| JobParsing.ParseList | test_job_parsing.js:8-11 | a missing or empty input gives no items |
| JobParsing.ParseHtmlList | test_job_parsing.js:8-56 | the method returns exactly the specified items, or throws exactly when the specification does |
| JobParsing.ParseListItems | test_job_parsing.js:8-56 | the items are the decodings of the item texts, one for one |
| JobParsing.HeadingAt | test_job_parsing.js:70 | a heading match captures a non-empty title without '<' that ends before the match does |
| JobParsing.HeadingAtSpec | test_job_parsing.js:70 | the heading scanner returns a span exactly when `<h5[^>]*>([^<]+)<\/h5>`, ignoring case, matches at the position with that capture and end |
| JobParsing.SplitHeadings | test_job_parsing.js:70 | the split has an odd number of parts, and every title part is non-empty and free of '<' |
| JobParsing.SplitHeadingsNone | test_job_parsing.js:70 | where no heading matches from a position on, the rest of the text is the last part |
| JobParsing.SplitHeadingsLeftmost | test_job_parsing.js:70 | at the leftmost heading match the parts are the text before it, the captured title, then the split of the text after the match |
| JobParsing.Classify | test_job_parsing.js:78-82 | a title goes to the responsibilities exactly when its lower-case form mentions "responsibilities" or "responsibility"; to "ideal for" exactly when it mentions neither but mentions "ideal"; it is ignored exactly when it mentions none of the three |
| JobParsing.ClassifyExamples | test_job_parsing.js:78-82 | "ideal responsibilities" goes to the responsibilities, "ideal for" to "ideal for", "pay" nowhere |
| JobParsing.File | test_job_parsing.js:78-82 | a section's items are appended to the list its heading selects, and the other list is unchanged |
| JobParsing.SectionsFromExtends | test_job_parsing.js:72-83 | the section loop only appends: the lists so far are prefixes of the final ones |
| JobParsing.SectionsFromTotal | test_job_parsing.js:72-83 | when decoding never throws, each list is exactly the items of the sections its heading selects, in document order |
| JobParsing.SingleSection | test_job_parsing.js:86-109 | all items go to one list, and to "ideal for" exactly when they mention an ideal keyword and no responsibility keyword |
| JobParsing.JobDescription | test_job_parsing.js:58-64 | a missing, non-string or empty description gives two empty lists |
| JobParsing.ParseJobDescription | test_job_parsing.js:58-125 | the method returns exactly the specified lists, including the partial lists and the fallback after a throw |
| JobParsing.ParseListTotal | test_job_parsing.js:8-56 | when decoding never throws, neither does `parseHtmlList` |
| JobParsing.JobDescriptionTotal | test_job_parsing.js:66-110 | when decoding never throws: with headings, each list collects its sections' items; without, all items are filed as one section |
| JobParsing.SectionsFromFailing | test_job_parsing.js:72-83 | when decoding always throws, the section loop files nothing |
| JobParsing.JobDescriptionFailing | test_job_parsing.js:111-122 | when decoding always throws, every description gives two empty lists |

## Left out

- Network and I/O are not modelled:
  - `fetchWithTimeout` (`src/lib/api.ts:8-17`);
  - `fetchAboutPage`'s request and `res.ok` test (`src/app/about-us/page.tsx:45-50`);
  - the home page's fetch and its JSX.
  - The model starts from the decoded JSON.
- The React rendering is not modelled, apart from the footer values the markup uses: the social href fallback and the picked icons. This covers the newsletter handler and the markup.
- `console.log` and `console.error` are not modelled.
- `decodeHtmlEntities` (`test_job_parsing.js:2-6`) uses the DOM. It is the parameter `decode`, and `None` stands for a throw.
- The blog's `toLocaleDateString` formatting is the parameter `formatDate`.
- `toLowerCase` is modelled for ASCII letters only. Unicode case mapping is not modelled.
- Lengths count Unicode scalar values, but JavaScript counts UTF-16 code units. This matters for `cleanLine.length > 10` only on text outside the Basic Multilingual Plane.
- CMS values are taken to have the types the code uses: strings where string methods are called, arrays where `.map` is called. Non-string JSON values are not modelled. Nor are `String(…)` conversions or the `typeof` test of `parseJobDescription`: any non-string description is `None`.
- Object keys inherited from `Object.prototype` are not modelled. In the model a path or label key such as "constructor" finds nothing in the alias or heuristic tables.
  - For aliases (`src/lib/routing.ts:38-39`) the outcome is the same. The inherited function is truthy, but `bySlug.get` finds no page for it, so the next rule applies.
  - For heuristics (`src/lib/routing.ts:62`) it is not. `heuristics["constructor"]` is a truthy function, so it shadows the `|| heuristics[labelKey]` fallback and the entry resolves to null. The model skips to the label key instead. For example, url "/constructor" with label "Blogs" gives the "blog" page in the model and null in the code. This shadowing is left out.
- JobParsing.ParseJobDescription is not evaluated on the sample call at `test_job_parsing.js:127-145`. Unfolding the scanners over that literal is beyond what the verifier handles here. `JobDescriptionTotal` and `JobDescriptionFailing` state what any description yields.
- AboutPage.MapAbout: `src/app/about-us/page.tsx:71` reads `right_image ?? right_image`. That is the same property twice, so the model reads it once.
- The `as HomeData` cast at `src/app/page.tsx:93` is not checked against the declared `HomeData` type. The model keeps the shapes the mapping builds.
