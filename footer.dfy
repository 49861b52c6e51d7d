/**
 * The data side of `src/app/components/Footer.tsx`: the `tel:` link builder,
 * the fallbacks for missing footer data, the social list and its icons.
 */
module Footer {
  import opened Wrappers
  import opened Text

  /** The link used when no phone number is given. */
  const DefaultPhoneHref := "tel:+123456789100"

  /** The number shown when the footer data has none. */
  const DefaultDisplayPhone := "+123 456 789 100"

  const DefaultEmail := "hi@vgc@gmail.com"

  const DefaultCopyright := "Copyright \U{A9} 2025. All rights reserved."

  /**
   * `normalizePhoneToHref`: a missing or empty number gives the default link;
   * a number that already starts with "tel:" once trimmed is kept trimmed;
   * any other number becomes "tel:" followed by its characters other than
   * white space.
   */
  function NormalizePhoneToHref(raw: Option<string>): (r: string)
    ensures "tel:" <= r && Trimmed(r)
    ensures raw.None? || raw.value == "" ==> r == DefaultPhoneHref
    ensures raw.Some? && raw.value != "" && "tel:" <= Trim(raw.value) ==> r == Trim(raw.value)
    ensures raw.Some? && raw.value != "" && !("tel:" <= Trim(raw.value)) ==>
      r[4..] == RemoveSpaces(Trim(raw.value)) && forall i :: 4 <= i < |r| ==> !IsSpace(r[i])
  {
    if raw.None? || raw.value == "" then
      assert DefaultPhoneHref[..4] == "tel:";
      DefaultPhoneHref
    else TelHref(Trim(raw.value))
  }

  /** The link for a trimmed number: kept when it starts with "tel:", else "tel:" and its non-space characters. */
  function TelHref(trimmed: string): (r: string)
    requires Trimmed(trimmed)
    ensures "tel:" <= r && Trimmed(r)
    ensures "tel:" <= trimmed ==> r == trimmed
    ensures !("tel:" <= trimmed) ==> r[4..] == RemoveSpaces(trimmed) && forall i :: 4 <= i < |r| ==> !IsSpace(r[i])
  {
    if "tel:" <= trimmed then trimmed
    else
      TelLink(RemoveSpaces(trimmed));
      "tel:" + RemoveSpaces(trimmed)
  }

  /** "tel:" followed by characters that are not white space is a trimmed link with those characters after the prefix. */
  lemma {:induction false} TelLink(digits: string)
    requires forall i :: 0 <= i < |digits| ==> !IsSpace(digits[i])
    ensures var r := "tel:" + digits;
      "tel:" <= r && Trimmed(r) && r[4..] == digits && forall i :: 4 <= i < |r| ==> !IsSpace(r[i])
  {
    var r := "tel:" + digits;
    assert r[4..] == digits;
    assert forall i :: 4 <= i < |r| ==> r[i] == digits[i - 4];
  }

  /**
   * A number that does not start with "tel:" once trimmed becomes "tel:"
   * followed by every character of the number that is not white space, in
   * order: trimming first loses nothing, since `trim` removes only white space.
   */
  lemma {:induction false} PhoneDigits(s: string)
    requires s != "" && !("tel:" <= Trim(s))
    ensures NormalizePhoneToHref(Some(s)) == "tel:" + RemoveSpaces(s)
  {
    RemoveSpacesTrim(s);
    var r := NormalizePhoneToHref(Some(s));
    assert r == r[..4] + r[4..];
  }

  /** A link built by `normalizePhoneToHref` comes back unchanged: the function is idempotent. */
  lemma {:induction false} NormalizePhoneIdempotent(raw: Option<string>)
    ensures NormalizePhoneToHref(Some(NormalizePhoneToHref(raw))) == NormalizePhoneToHref(raw)
  {
    TelKept(NormalizePhoneToHref(raw));
  }

  /** A trimmed number that already starts with "tel:" is its own link. */
  lemma {:induction false} TelKept(s: string)
    requires "tel:" <= s && Trimmed(s)
    ensures NormalizePhoneToHref(Some(s)) == s
  {
    TrimmedFixed(s);
  }

  /** The footer props; `social` is `None` when it is not an array. */
  datatype FooterData = FooterData(phone: Option<string>, email: Option<string>, social: Option<seq<string>>, copyright: Option<string>)

  /** The social links shown when none are configured. */
  function DefaultSocial(): seq<string> { seq(5, _ => "#") }

  /** The social URLs: the configured list when it is a non-empty array, five "#" placeholders otherwise. */
  function SocialList(footer: Option<FooterData>): (r: seq<string>)
    ensures |r| > 0
    ensures footer.Some? && footer.value.social.Some? && |footer.value.social.value| > 0 ==> r == footer.value.social.value
    ensures !(footer.Some? && footer.value.social.Some? && |footer.value.social.value| > 0) ==> r == DefaultSocial()
  {
    if footer.Some? && footer.value.social.Some? && |footer.value.social.value| > 0 then footer.value.social.value
    else DefaultSocial()
  }

  const DefaultIcons: seq<string> := ["fb.svg", "pint.svg", "link.svg", "ins.svg", "tw.svg"]

  /** `pickIcon(i)`: the i-th default icon, or the LinkedIn one past the fifth. */
  function PickIcon(i: nat): string {
    "/images/" + (if i < |DefaultIcons| then DefaultIcons[i] else "link.svg")
  }

  /** Every social entry gets one of the five default icons; entries past the fifth reuse the third. */
  lemma {:induction false} PickIconIsDefault(i: nat)
    ensures exists j :: 0 <= j < |DefaultIcons| && PickIcon(i) == "/images/" + DefaultIcons[j]
    ensures i >= |DefaultIcons| ==> PickIcon(i) == PickIcon(2)
  {
    if i < |DefaultIcons| {
      assert PickIcon(i) == "/images/" + DefaultIcons[i];
    } else {
      assert PickIcon(i) == "/images/" + DefaultIcons[2];
    }
  }

  /** `sUrl && sUrl.trim() !== "" ? sUrl : "#"`: a blank URL becomes "#", any other is kept. */
  function SocialHref(url: string): (r: string)
    ensures Trim(url) == "" ==> r == "#"
    ensures Trim(url) != "" ==> r == url
    ensures Trim(r) != ""
  {
    TrimHash();
    if url != "" && Trim(url) != "" then url else "#"
  }

  /** The placeholder link is not blank. */
  lemma {:induction false} TrimHash()
    ensures Trim("#") == "#"
  {
    assert Trimmed("#");
    TrimmedFixed("#");
  }

  /** A placeholder link is rendered as itself. */
  lemma {:induction false} HashLink()
    ensures SocialHref("#") == "#"
  {
    TrimHash();
  }

  /** With no social list configured, the footer shows five "#" links. */
  lemma {:induction false} PlaceholderLinks(footer: Option<FooterData>)
    requires !(footer.Some? && footer.value.social.Some? && |footer.value.social.value| > 0)
    ensures var v := RenderFooter(footer); |v.social| == 5 && forall i :: 0 <= i < 5 ==> v.social[i].href == "#"
  {
    var v := RenderFooter(footer);
    HashLink();
    forall i | 0 <= i < 5 ensures v.social[i].href == "#" {
      assert SocialList(footer)[i] == "#";
    }
  }

  datatype SocialLink = SocialLink(href: string, icon: string)

  /** What the footer renders from its props. */
  datatype FooterView = FooterView(displayPhone: string, phoneHref: string, email: string, social: seq<SocialLink>, copyright: string)

  /**
   * The footer's values: each field falls back to its default only when
   * missing (`??`); the phone link is built from the number shown; every
   * social entry has a non-blank link and a default icon.
   */
  function RenderFooter(footer: Option<FooterData>): (r: FooterView)
    ensures footer.Some? && footer.value.phone.Some? ==> r.displayPhone == footer.value.phone.value
    ensures !(footer.Some? && footer.value.phone.Some?) ==> r.displayPhone == DefaultDisplayPhone
    ensures r.phoneHref == NormalizePhoneToHref(Some(r.displayPhone))
    ensures footer.Some? && footer.value.email.Some? ==> r.email == footer.value.email.value
    ensures !(footer.Some? && footer.value.email.Some?) ==> r.email == DefaultEmail
    ensures footer.Some? && footer.value.copyright.Some? ==> r.copyright == footer.value.copyright.value
    ensures !(footer.Some? && footer.value.copyright.Some?) ==> r.copyright == DefaultCopyright
    ensures |r.social| == |SocialList(footer)|
    ensures forall i :: 0 <= i < |r.social| ==>
      r.social[i].href == SocialHref(SocialList(footer)[i]) && r.social[i].icon == PickIcon(i)
  {
    var phone := if footer.Some? then footer.value.phone else None;
    var displayPhone := phone.GetOr(DefaultDisplayPhone);
    var phoneHref := NormalizePhoneToHref(if phone.Some? then phone else Some(displayPhone));
    var email := (if footer.Some? then footer.value.email else None).GetOr(DefaultEmail);
    var copyright := (if footer.Some? then footer.value.copyright else None).GetOr(DefaultCopyright);
    var urls := SocialList(footer);
    var social := seq(|urls|, i requires 0 <= i < |urls| => SocialLink(SocialHref(urls[i]), PickIcon(i)));
    FooterView(displayPhone, phoneHref, email, social, copyright)
  }
}
