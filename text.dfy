/**
 * The JavaScript string primitives the site's code relies on, written as
 * explicit scanners over `seq<char>`: `trim`, `toLowerCase`, `startsWith`,
 * `includes`, `indexOf`, and the tag-removing `replace(/<[^>]*>/g, "")` /
 * `replace(/<[^>]+>/g, "")` that several functions share.
 */
module Text {

  /** JavaScript's white space and line terminators: the characters `\s` matches and `trim` removes. */
  predicate IsSpace(c: char) {
    || c == '\t' || c == '\n' || c == '\U{B}' || c == '\U{C}' || c == '\r' || c == ' '
    || c == '\U{A0}' || c == '\U{1680}' || ('\U{2000}' <= c <= '\U{200A}')
    || c == '\U{2028}' || c == '\U{2029}' || c == '\U{202F}' || c == '\U{205F}'
    || c == '\U{3000}' || c == '\U{FEFF}'
  }

  /** A string with no white space at either end. */
  predicate Trimmed(s: string) {
    s == [] || (!IsSpace(s[0]) && !IsSpace(s[|s| - 1]))
  }

  /** `s.trimStart()`: the longest suffix of `s` that does not start with white space. */
  function TrimStart(s: string): (r: string)
    ensures |r| <= |s|
    ensures r == [] || !IsSpace(r[0])
  {
    if s != [] && IsSpace(s[0]) then TrimStart(s[1..]) else s
  }

  /** What `trimStart` keeps is a suffix of its input. */
  lemma {:induction false} TrimStartSuffix(s: string)
    ensures TrimStart(s) == s[|s| - |TrimStart(s)|..]
    decreases |s|
  {
    if s != [] && IsSpace(s[0]) {
      TrimStartSuffix(s[1..]);
    }
  }

  /** `s.trimEnd()`: the longest prefix of `s` that does not end with white space. */
  function TrimEnd(s: string): (r: string)
    ensures |r| <= |s|
    ensures r == [] || !IsSpace(r[|r| - 1])
  {
    if s != [] && IsSpace(s[|s| - 1]) then TrimEnd(s[..|s| - 1]) else s
  }

  /** What `trimEnd` keeps is a prefix of its input. */
  lemma {:induction false} TrimEndPrefix(s: string)
    ensures TrimEnd(s) == s[..|TrimEnd(s)|]
    decreases |s|
  {
    if s != [] && IsSpace(s[|s| - 1]) {
      TrimEndPrefix(s[..|s| - 1]);
    }
  }

  /** How many white-space characters `trim` removes from the front of `s`. */
  function TrimOffset(s: string): nat {
    |s| - |TrimStart(s)|
  }

  /** `s.trim()`: `s` without its leading and trailing white space. */
  function Trim(s: string): (r: string)
    ensures Trimmed(r)
    ensures |r| <= |s|
  {
    var t := TrimStart(s);
    var r := TrimEnd(t);
    assert r == [] || !IsSpace(r[0]) by {
      if r != [] {
        TrimEndPrefix(t);
        assert r[0] == t[0];
      }
    }
    r
  }

  /** `trimStart` removes only white space. */
  lemma {:induction false} TrimStartDropsSpace(s: string)
    ensures forall i :: 0 <= i < |s| - |TrimStart(s)| ==> IsSpace(s[i])
    decreases |s|
  {
    if s != [] && IsSpace(s[0]) {
      TrimStartDropsSpace(s[1..]);
      assert forall i :: 1 <= i < |s| ==> s[i] == s[1..][i - 1];
    }
  }

  /** `trimEnd` removes only white space. */
  lemma {:induction false} TrimEndDropsSpace(s: string)
    ensures forall i :: |TrimEnd(s)| <= i < |s| ==> IsSpace(s[i])
    decreases |s|
  {
    if s != [] && IsSpace(s[|s| - 1]) {
      TrimEndDropsSpace(s[..|s| - 1]);
      assert forall i :: 0 <= i < |s| - 1 ==> s[i] == s[..|s| - 1][i];
    }
  }

  /**
   * `trim` keeps a contiguous piece of its input and removes only white space:
   * everything before the piece and everything after it is white space.
   * With `Trimmed(Trim(s))` this pins the piece down: it runs from the first
   * character that is not white space to the last one.
   */
  lemma {:induction false} TrimSlice(s: string)
    ensures TrimOffset(s) + |Trim(s)| <= |s|
    ensures Trim(s) == s[TrimOffset(s)..TrimOffset(s) + |Trim(s)|]
    ensures forall i :: 0 <= i < TrimOffset(s) ==> IsSpace(s[i])
    ensures forall i :: TrimOffset(s) + |Trim(s)| <= i < |s| ==> IsSpace(s[i])
  {
    var t := TrimStart(s);
    var off := TrimOffset(s);
    TrimStartSuffix(s);
    TrimEndPrefix(t);
    TrimStartDropsSpace(s);
    forall i | off + |Trim(s)| <= i < |s|
      ensures IsSpace(s[i])
    {
      TrimEndDropsSpace(t);
      assert s[i] == t[i - off];
    }
  }

  /** Trimming a string that has no white space at either end changes nothing. */
  lemma {:induction false} TrimmedFixed(s: string)
    requires Trimmed(s)
    ensures Trim(s) == s
  {
  }

  /** A string whose characters are all white space trims to the empty string. */
  lemma {:induction false} TrimAllSpace(s: string)
    requires forall i :: 0 <= i < |s| ==> IsSpace(s[i])
    ensures Trim(s) == []
  {
    TrimStartAllSpace(s);
  }

  /** `trimStart` removes every character of an all-white-space string. */
  lemma {:induction false} TrimStartAllSpace(s: string)
    requires forall i :: 0 <= i < |s| ==> IsSpace(s[i])
    ensures TrimStart(s) == []
    decreases |s|
  {
    if s != [] {
      assert forall i :: 0 <= i < |s[1..]| ==> s[1..][i] == s[i + 1];
      TrimStartAllSpace(s[1..]);
    }
  }

  /** `trimStart` removes a leading white-space run and stops at what follows it. */
  lemma {:induction false} TrimStartRun(pre: string, x: string)
    requires forall i :: 0 <= i < |pre| ==> IsSpace(pre[i])
    requires x == [] || !IsSpace(x[0])
    ensures TrimStart(pre + x) == x
    decreases |pre|
  {
    if pre == [] {
      assert pre + x == x;
    } else {
      assert (pre + x)[1..] == pre[1..] + x;
      TrimStartRun(pre[1..], x);
    }
  }

  /** `trimEnd` removes a trailing white-space run and stops at what precedes it. */
  lemma {:induction false} TrimEndRun(x: string, post: string)
    requires forall i :: 0 <= i < |post| ==> IsSpace(post[i])
    requires x == [] || !IsSpace(x[|x| - 1])
    ensures TrimEnd(x + post) == x
    decreases |post|
  {
    if post == [] {
      assert x + post == x;
    } else {
      var p := post[..|post| - 1];
      assert (x + post)[..|x + post| - 1] == x + p;
      TrimEndRun(x, p);
    }
  }

  /** `trim` removes exactly the white space around a trimmed text. */
  lemma {:induction false} TrimAround(pre: string, t: string, post: string)
    requires forall i :: 0 <= i < |pre| ==> IsSpace(pre[i])
    requires forall i :: 0 <= i < |post| ==> IsSpace(post[i])
    requires t != [] && Trimmed(t)
    ensures Trim(pre + t + post) == t
  {
    assert pre + t + post == pre + (t + post);
    TrimStartRun(pre, t + post);
    TrimEndRun(t, post);
  }

  /** `trim` is idempotent. */
  lemma {:induction false} TrimIdempotent(s: string)
    ensures Trim(Trim(s)) == Trim(s)
  {
    TrimmedFixed(Trim(s));
  }

  /** ASCII lower-casing of one character. */
  function LowerChar(c: char): (r: char)
    ensures 'A' <= c <= 'Z' ==> 'a' <= r <= 'z'
    ensures !('A' <= c <= 'Z') ==> r == c
  {
    if 'A' <= c <= 'Z' then (c as int - 'A' as int + 'a' as int) as char else c
  }

  /** `s.toLowerCase()` on the ASCII letters. */
  function ToLower(s: string): (r: string)
    ensures |r| == |s|
    ensures forall i :: 0 <= i < |s| ==> r[i] == LowerChar(s[i])
  {
    seq(|s|, i requires 0 <= i < |s| => LowerChar(s[i]))
  }

  lemma {:induction false} ToLowerAppend(a: string, b: string)
    ensures ToLower(a + b) == ToLower(a) + ToLower(b)
  {
  }

  /** A string without ASCII capitals is its own lower-case form. */
  lemma {:induction false} ToLowerFixed(s: string)
    requires forall i :: 0 <= i < |s| ==> !('A' <= s[i] <= 'Z')
    ensures ToLower(s) == s
  {
  }

  /** `s.startsWith(p, i)`: `p` occurs in `s` at position `i`. */
  predicate StartsAt(s: string, i: nat, p: string)
    decreases |p|
  {
    i + |p| <= |s| && (p == [] || (s[i] == p[0] && StartsAt(s, i + 1, p[1..])))
  }

  /** `p` occurs at position `i` of `s` up to ASCII case (the `i` flag); `p` is lower case. */
  predicate StartsAtIgnoringCase(s: string, i: nat, p: string) {
    i + |p| <= |s| && ToLower(s[i..i + |p|]) == p
  }

  /** `s.includes(t)`. */
  function Contains(s: string, t: string): (b: bool)
    ensures b ==> |t| <= |s|
    ensures t <= s ==> b
  {
    if t <= s then true
    else if s == [] then false
    else Contains(s[1..], t)
  }

  /** `t` occurring at position `i` of `s` is found. */
  lemma {:induction false} ContainsAt(s: string, t: string, i: nat)
    requires i <= |s| && t <= s[i..]
    ensures Contains(s, t)
    decreases i
  {
    if i > 0 && !(t <= s) {
      assert s[1..][i - 1..] == s[i..];
      ContainsAt(s[1..], t, i - 1);
    }
  }

  /** What is found occurs at some position of `s`. */
  lemma {:induction false} ContainsFound(s: string, t: string)
    requires Contains(s, t)
    ensures exists i :: 0 <= i <= |s| && t <= s[i..]
    decreases |s|
  {
    if t <= s {
      assert s[0..] == s;
    } else {
      ContainsFound(s[1..], t);
      var i :| 0 <= i <= |s[1..]| && t <= s[1..][i..];
      assert s[1..][i..] == s[i + 1..];
    }
  }

  /** `s.indexOf(c, from)`, with `|s|` for "not found". */
  function IndexOf(s: string, c: char, from: nat): (r: nat)
    requires from <= |s|
    ensures from <= r <= |s|
    ensures r < |s| ==> s[r] == c
    decreases |s| - from
  {
    if from == |s| || s[from] == c then from else IndexOf(s, c, from + 1)
  }

  /** `IndexOf` passes over no earlier `c`: it finds the FIRST one. */
  lemma {:induction false} IndexOfRun(s: string, c: char, from: nat)
    requires from <= |s|
    ensures forall k :: from <= k < IndexOf(s, c, from) ==> s[k] != c
    decreases |s| - from
  {
    if from < |s| && s[from] != c {
      IndexOfRun(s, c, from + 1);
    }
  }

  /** The first position at or after `from` that holds no white space (`\s*` matched greedily). */
  function SkipSpaces(s: string, from: nat): (r: nat)
    requires from <= |s|
    ensures from <= r <= |s|
    decreases |s| - from
  {
    if from == |s| || !IsSpace(s[from]) then from else SkipSpaces(s, from + 1)
  }

  /** `SkipSpaces` passes over white space only and stops at the FIRST character that is not. */
  lemma {:induction false} SkipSpacesRun(s: string, from: nat)
    requires from <= |s|
    ensures forall k :: from <= k < SkipSpaces(s, from) ==> IsSpace(s[k])
    ensures SkipSpaces(s, from) < |s| ==> !IsSpace(s[SkipSpaces(s, from)])
    decreases |s| - from
  {
    if from < |s| && IsSpace(s[from]) {
      SkipSpacesRun(s, from + 1);
    }
  }

  /** `s.replace(/^c+/, "")`: `s` without its leading run of `c`. */
  function DropLeading(s: string, c: char): (r: string)
    ensures |r| <= |s|
    ensures r == [] || r[0] != c
  {
    if s != [] && s[0] == c then DropLeading(s[1..], c) else s
  }

  /** What `DropLeading` keeps is a suffix of its input. */
  lemma {:induction false} DropLeadingSuffix(s: string, c: char)
    ensures DropLeading(s, c) == s[|s| - |DropLeading(s, c)|..]
    decreases |s|
  {
    if s != [] && s[0] == c {
      DropLeadingSuffix(s[1..], c);
    }
  }

  /** A run of `c` followed by text that does not start with `c` loses exactly the run. */
  lemma {:induction false} DropLeadingExact(n: string, c: char, x: string)
    requires forall i :: 0 <= i < |n| ==> n[i] == c
    requires x == [] || x[0] != c
    ensures DropLeading(n + x, c) == x
    decreases |n|
  {
    if n == [] {
      assert n + x == x;
    } else {
      assert (n + x)[1..] == n[1..] + x;
      DropLeadingExact(n[1..], c, x);
    }
  }

  /** `s.replace(/c+$/, "")`: `s` without its trailing run of `c`. */
  function DropTrailing(s: string, c: char): (r: string)
    ensures |r| <= |s|
    ensures r == [] || r[|r| - 1] != c
  {
    if s != [] && s[|s| - 1] == c then DropTrailing(s[..|s| - 1], c) else s
  }

  /** What `DropTrailing` keeps is a prefix of its input. */
  lemma {:induction false} DropTrailingPrefix(s: string, c: char)
    ensures DropTrailing(s, c) == s[..|DropTrailing(s, c)|]
    decreases |s|
  {
    if s != [] && s[|s| - 1] == c {
      DropTrailingPrefix(s[..|s| - 1], c);
    }
  }

  /** Text that does not end with `c`, followed by a run of `c`, loses exactly the run. */
  lemma {:induction false} DropTrailingExact(x: string, c: char, n: string)
    requires forall i :: 0 <= i < |n| ==> n[i] == c
    requires x == [] || x[|x| - 1] != c
    ensures DropTrailing(x + n, c) == x
    decreases |n|
  {
    if n == [] {
      assert x + n == x;
    } else {
      assert (x + n)[..|x + n| - 1] == x + n[..|n| - 1];
      DropTrailingExact(x, c, n[..|n| - 1]);
    }
  }

  /** `s.replace(/^p/, "")`: `s` without one leading occurrence of `p`. */
  function DropPrefix(s: string, p: string): (r: string)
    ensures p <= s ==> p + r == s
    ensures !(p <= s) ==> r == s
  {
    if p <= s then s[|p|..] else s
  }

  /** `s.replace(/c/g, "")`: `s` with every `c` deleted. */
  function RemoveChar(s: string, c: char): (r: string)
    ensures |r| <= |s|
    ensures c !in r
    ensures c !in s ==> r == s
  {
    if s == [] then []
    else if s[0] == c then RemoveChar(s[1..], c)
    else [s[0]] + RemoveChar(s[1..], c)
  }

  /** `replace(/c/g, "")` works character by character: it distributes over concatenation. */
  lemma {:induction false} RemoveCharAppend(a: string, b: string, c: char)
    ensures RemoveChar(a + b, c) == RemoveChar(a, c) + RemoveChar(b, c)
    decreases |a|
  {
    if a == [] {
      assert a + b == b;
    } else {
      assert (a + b)[0] == a[0];
      assert (a + b)[1..] == a[1..] + b;
      RemoveCharAppend(a[1..], b, c);
    }
  }

  /** One character: `c` itself is deleted, any other character is kept. */
  lemma {:induction false} RemoveCharChar(x: char, c: char)
    ensures RemoveChar([x], c) == if x == c then [] else [x]
  {
    assert [x][1..] == [];
  }

  /** A character missing from `s` is missing from every slice of it. */
  lemma {:induction false} NotInSlice(s: string, a: nat, b: nat, c: char)
    requires a <= b <= |s| && c !in s
    ensures c !in s[a..b]
  {
  }

  /** `s.replace(/\s+/g, "")`: `s` with all white space deleted. */
  function RemoveSpaces(s: string): (r: string)
    ensures |r| <= |s|
    ensures forall i :: 0 <= i < |r| ==> !IsSpace(r[i])
    ensures (forall i :: 0 <= i < |s| ==> !IsSpace(s[i])) ==> r == s
  {
    if s == [] then []
    else if IsSpace(s[0]) then RemoveSpaces(s[1..])
    else [s[0]] + RemoveSpaces(s[1..])
  }

  /** `replace(/\s+/g, "")` works character by character: it distributes over concatenation. */
  lemma {:induction false} RemoveSpacesAppend(a: string, b: string)
    ensures RemoveSpaces(a + b) == RemoveSpaces(a) + RemoveSpaces(b)
    decreases |a|
  {
    if a == [] {
      assert a + b == b;
    } else {
      assert (a + b)[0] == a[0];
      assert (a + b)[1..] == a[1..] + b;
      RemoveSpacesAppend(a[1..], b);
    }
  }

  /** One character: white space is deleted, any other character is kept. */
  lemma {:induction false} RemoveSpacesChar(c: char)
    ensures RemoveSpaces([c]) == if IsSpace(c) then [] else [c]
  {
    assert [c][1..] == [];
  }

  /** Text made only of white space disappears entirely. */
  lemma {:induction false} RemoveSpacesAllSpace(s: string)
    requires forall i :: 0 <= i < |s| ==> IsSpace(s[i])
    ensures RemoveSpaces(s) == []
    decreases |s|
  {
    if s != [] {
      assert forall i :: 0 <= i < |s[1..]| ==> s[1..][i] == s[i + 1];
      RemoveSpacesAllSpace(s[1..]);
    }
  }

  /** Trimming before deleting white space changes nothing: `trim` removes only white space. */
  lemma {:induction false} RemoveSpacesTrim(s: string)
    ensures RemoveSpaces(Trim(s)) == RemoveSpaces(s)
  {
    TrimSlice(s);
    var off, n := TrimOffset(s), |Trim(s)|;
    var pre, post := s[..off], s[off + n..];
    assert s == pre + Trim(s) + post;
    assert forall i :: 0 <= i < |pre| ==> pre[i] == s[i];
    assert forall i :: 0 <= i < |post| ==> post[i] == s[off + n + i];
    RemoveSpacesAllSpace(pre);
    RemoveSpacesAllSpace(post);
    RemoveSpacesAppend(pre + Trim(s), post);
    RemoveSpacesAppend(pre, Trim(s));
  }

  /*
   * Tag removal. `/<[^>]*>/g` (and `/<[^>]+>/g` when `nonEmpty` holds)
   * matches at position i exactly when s[i] is '<' and a '>' follows it;
   * the match ends at the FIRST such '>' because `[^>]` cannot cross one,
   * and with `+` that '>' must not come immediately after the '<'.
   */

  /** The regular expression matches at position `i` of `s`. */
  predicate TagAt(s: string, i: nat, nonEmpty: bool)
    requires i < |s|
  {
    s[i] == '<' && IndexOf(s, '>', i + 1) < |s| && (!nonEmpty || IndexOf(s, '>', i + 1) > i + 1)
  }

  /** No position of `s` starts a tag. */
  predicate TagFree(s: string, nonEmpty: bool) {
    forall i :: 0 <= i < |s| ==> !TagAt(s, i, nonEmpty)
  }

  /**
   * `s.replace(tagRegex, "")`: scanning left to right, every match is deleted
   * and the scan resumes after it; elsewhere the scan keeps one character and
   * moves on.
   */
  function StripTags(s: string, nonEmpty: bool): (r: string)
    ensures |r| <= |s|
    ensures forall i :: 0 <= i < |r| ==> r[i] in s
    decreases |s|
  {
    if s == [] then []
    else if TagAt(s, 0, nonEmpty) then StripTags(s[IndexOf(s, '>', 1) + 1..], nonEmpty)
    else [s[0]] + StripTags(s[1..], nonEmpty)
  }

  /** Text with no '<' comes back from `StripTags` unchanged. */
  lemma {:induction false} StripTagsNoAngle(s: string, nonEmpty: bool)
    requires '<' !in s
    ensures StripTags(s, nonEmpty) == s
  {
    if s != [] {
      assert s[0] != '<';
      assert '<' !in s[1..] by {
        forall i | 0 <= i < |s[1..]| ensures s[1..][i] != '<' { assert s[1..][i] == s[i + 1]; }
      }
      StripTagsNoAngle(s[1..], nonEmpty);
    }
  }

  /** Text before the first '<' is kept as it is, and the scan goes on after it. */
  lemma {:induction false} StripTagsKeepsText(x: string, y: string, nonEmpty: bool)
    requires '<' !in x
    ensures StripTags(x + y, nonEmpty) == x + StripTags(y, nonEmpty)
    decreases |x|
  {
    if x == [] {
      assert x + y == y;
    } else {
      var s := x + y;
      assert s[0] == x[0];
      assert s[1..] == x[1..] + y;
      assert '<' !in x[1..] by {
        forall i | 0 <= i < |x[1..]| ensures x[1..][i] != '<' { assert x[1..][i] == x[i + 1]; }
      }
      StripTagsKeepsText(x[1..], y, nonEmpty);
    }
  }

  /** A complete tag `<t>` (non-empty for the `+` pattern) is deleted, and the scan resumes right after it. */
  lemma {:induction false} StripTagsDropsTag(t: string, y: string, nonEmpty: bool)
    requires '>' !in t
    requires nonEmpty ==> t != []
    ensures StripTags("<" + t + ">" + y, nonEmpty) == StripTags(y, nonEmpty)
  {
    var s := "<" + t + ">" + y;
    assert s[|t| + 1] == '>';
    assert forall k :: 1 <= k < |t| + 1 ==> s[k] == t[k - 1];
    IndexOfRun(s, '>', 1);
    assert IndexOf(s, '>', 1) == |t| + 1;
    assert s[|t| + 2..] == y;
  }

  /** `<>` is a tag for `/<[^>]*>/` but not for `/<[^>]+>/`, which keeps both characters. */
  lemma {:induction false} StripTagsEmptyTag(y: string)
    ensures StripTags("<>" + y, false) == StripTags(y, false)
    ensures StripTags("<>" + y, true) == "<>" + StripTags(y, true)
  {
    assert "<" + [] + ">" + y == "<>" + y;
    StripTagsDropsTag([], y, false);
    StripTagsEmptyTagKept(y);
  }

  /** With `/<[^>]+>/`, `<>` is not a match: the scan keeps '<', then '>'. */
  lemma {:induction false} StripTagsEmptyTagKept(y: string)
    ensures StripTags("<>" + y, true) == "<>" + StripTags(y, true)
  {
    var s := "<>" + y;
    assert s[1] == '>';
    assert IndexOf(s, '>', 1) == 1;
    assert s[1..] == ">" + y;
    assert StripTags(s, true) == [s[0]] + StripTags(">" + y, true);
    StripTagsKeepsText(">", y, true);
  }

  /** Searching a character in `[c] + t` from position k + 1 is searching it in `t` from k. */
  lemma {:induction false} IndexOfCons(c: char, t: string, x: char, k: nat)
    requires k <= |t|
    ensures IndexOf([c] + t, x, k + 1) == IndexOf(t, x, k) + 1
    decreases |t| - k
  {
    var s := [c] + t;
    assert s[k + 1..] == t[k..];
    if k < |t| && t[k] != x {
      assert s[k + 1] == t[k];
      IndexOfCons(c, t, x, k + 1);
    } else if k < |t| {
      assert s[k + 1] == t[k];
    }
  }

  /** A search that succeeds inside a slice `s[a..b]` finds the same character in `s`. */
  lemma {:induction false} IndexOfSlice(s: string, a: nat, b: nat, x: char, k: nat)
    requires a <= b <= |s|
    requires k <= b - a
    requires IndexOf(s[a..b], x, k) < b - a
    ensures IndexOf(s, x, a + k) == a + IndexOf(s[a..b], x, k)
    decreases b - a - k
  {
    var u := s[a..b];
    assert u[k] == s[a + k];
    if u[k] != x {
      IndexOfSlice(s, a, b, x, k + 1);
    }
  }

  /** Every slice of tag-free text is tag-free. */
  lemma {:induction false} TagFreeSlice(s: string, a: nat, b: nat, nonEmpty: bool)
    requires a <= b <= |s|
    requires TagFree(s, nonEmpty)
    ensures TagFree(s[a..b], nonEmpty)
  {
    var u := s[a..b];
    forall i | 0 <= i < |u| ensures !TagAt(u, i, nonEmpty) {
      if TagAt(u, i, nonEmpty) {
        IndexOfSlice(s, a, b, '>', i + 1);
        assert s[a + i] == u[i];
        assert TagAt(s, a + i, nonEmpty);
        assert false;
      }
    }
  }

  /** Prepending a character other than '<' to tag-free text keeps it tag-free. */
  lemma {:induction false} ConsTagFree(c: char, t: string, nonEmpty: bool)
    requires TagFree(t, nonEmpty)
    requires c == '<' ==> IndexOf(t, '>', 0) == |t| || (nonEmpty && IndexOf(t, '>', 0) == 0)
    ensures TagFree([c] + t, nonEmpty)
  {
    var s := [c] + t;
    forall i | 0 <= i < |s| ensures !TagAt(s, i, nonEmpty) {
      IndexOfCons(c, t, '>', i);
      if i > 0 {
        assert s[i] == t[i - 1];
        if TagAt(s, i, nonEmpty) {
          assert TagAt(t, i - 1, nonEmpty);
          assert false;
        }
      }
    }
  }

  /** A string without '>' is searched for '>' in vain. */
  lemma {:induction false} NoCloseFound(t: string)
    requires forall i :: 0 <= i < |t| ==> t[i] != '>'
    ensures IndexOf(t, '>', 0) == |t|
  {
  }

  /** Removing tags leaves no tag behind: no match of the pattern survives in the output. */
  lemma {:induction false} StripTagsTagFree(s: string, nonEmpty: bool)
    ensures TagFree(StripTags(s, nonEmpty), nonEmpty)
    decreases |s|
  {
    if s == [] {
    } else if TagAt(s, 0, nonEmpty) {
      StripTagsTagFree(s[IndexOf(s, '>', 1) + 1..], nonEmpty);
    } else {
      var t := StripTags(s[1..], nonEmpty);
      StripTagsTagFree(s[1..], nonEmpty);
      if s[0] == '<' {
        var g := IndexOf(s, '>', 1);
        if g == |s| {
          IndexOfRun(s, '>', 1);
          forall i | 0 <= i < |t| ensures t[i] != '>' {
            var j :| 0 <= j < |s[1..]| && s[1..][j] == t[i];
            assert s[j + 1] == t[i];
          }
          NoCloseFound(t);
        } else {
          assert nonEmpty && g == 1;
          assert s[1] == '>';
          assert !TagAt(s[1..], 0, nonEmpty);
          assert t[0] == '>';
        }
      }
      ConsTagFree(s[0], t, nonEmpty);
    }
  }

  /** Removing tags from tag-free text changes nothing. */
  lemma {:induction false} StripTagsOfTagFree(s: string, nonEmpty: bool)
    requires TagFree(s, nonEmpty)
    ensures StripTags(s, nonEmpty) == s
    decreases |s|
  {
    if s != [] {
      assert !TagAt(s, 0, nonEmpty);
      TagFreeSlice(s, 1, |s|, nonEmpty);
      assert s[1..|s|] == s[1..];
      StripTagsOfTagFree(s[1..], nonEmpty);
    }
  }

  /** Trimmed, tag-stripped text: stripping and trimming again changes nothing. */
  lemma {:induction false} StripThenTrimStable(s: string, nonEmpty: bool)
    ensures TagFree(Trim(StripTags(s, nonEmpty)), nonEmpty)
    ensures StripTags(Trim(StripTags(s, nonEmpty)), nonEmpty) == Trim(StripTags(s, nonEmpty))
  {
    var t := StripTags(s, nonEmpty);
    var r := Trim(t);
    var off := TrimOffset(t);
    TrimSlice(t);
    StripTagsTagFree(s, nonEmpty);
    TagFreeSlice(t, off, off + |r|, nonEmpty);
    assert r == t[off..off + |r|];
    StripTagsOfTagFree(r, nonEmpty);
  }
}
