/**
 * `mapApiToHomeDataStrict` of `src/app/page.tsx`: the home page's view model
 * built from the pages API response, with `||` fallbacks throughout and an
 * error when there is no home page.
 */
module HomePage {
  import opened Wrappers
  import opened Text
  import opened Cms
  import opened Api
  import AboutPage
  import Footer

  datatype Counter = Counter(caption: string, value: string)
  datatype Hero = Hero(title: string, paragraphs: seq<string>, phone: string, counters: seq<Counter>, banners: seq<string>)
  datatype Service = Service(title: string, desc: string, link: string)
  datatype BlogItem = BlogItem(date: string, title: string, excerpt: string, image: string, link: string)
  datatype ClientItem = ClientItem(title: string, icon: string)
  datatype Testimonial = Testimonial(text: string, author: string, avatar: string)

  datatype HomeData = HomeData(
    hero: Hero, services: seq<Service>, blog: seq<BlogItem>, clients: seq<ClientItem>,
    clientsTitle: string, clientsSubtitle: string, testimonials: seq<Testimonial>,
    footer: Footer.FooterData)

  const NoHomepageError := "API shape unexpected: no page with slug 'homepage' found"

  /** `x || ""` for a string that may be missing. */
  function OrEmpty(v: Option<string>): string {
    Or(v, None).GetOr("")
  }

  /** `(data?.key || [])` for an array-valued property. */
  function ListOrEmpty(d: Option<Data>, key: string): seq<Entry> {
    DataList(d, key).GetOr([])
  }

  /** `(cta_link || "").replace(/^tel:/, "")`: the number without one leading "tel:". */
  function HeroPhone(ctaLink: Option<string>): (r: string)
    ensures !Truthy(ctaLink) ==> r == ""
    ensures Truthy(ctaLink) && "tel:" <= ctaLink.value ==> "tel:" + r == ctaLink.value
    ensures Truthy(ctaLink) && !("tel:" <= ctaLink.value) ==> r == ctaLink.value
  {
    DropPrefix(OrEmpty(ctaLink), "tel:")
  }

  /** The hero: the first banner's title, subtitle paragraphs and phone, and one image URL per banner. */
  function MapHero(d: Option<Data>): (r: Hero)
    ensures r.title == Prop(FirstEntry(ListOrEmpty(d, "banners")), "title").GetOr("")
    ensures r.phone == HeroPhone(Prop(FirstEntry(ListOrEmpty(d, "banners")), "cta_link"))
    ensures r.counters == []
    ensures |r.banners| == |ListOrEmpty(d, "banners")|
    ensures forall i :: 0 <= i < |r.banners| ==> r.banners[i] == EnsureUrl(Prop(Some(ListOrEmpty(d, "banners")[i]), "image"))
    ensures r.paragraphs == AboutPage.SplitParagraphs(Prop(FirstEntry(ListOrEmpty(d, "banners")), "subtitle"))
    ensures forall i :: 0 <= i < |r.paragraphs| ==> AboutPage.IsParagraph(r.paragraphs[i])
  {
    var raw := ListOrEmpty(d, "banners");
    var first := FirstEntry(raw);
    var subtitle := Prop(first, "subtitle");
    Hero(
      Prop(first, "title").GetOr(""),
      if Truthy(subtitle) then AboutPage.SplitParagraphs(subtitle) else [],
      HeroPhone(Prop(first, "cta_link")),
      [],
      seq(|raw|, i requires 0 <= i < |raw| => EnsureUrl(Prop(Some(raw[i]), "image"))))
  }

  /** `bannersRaw[0] || {}`. */
  function FirstEntry(entries: seq<Entry>): Option<Entry> {
    Some(if |entries| > 0 then entries[0] else map[])
  }

  /** A service card: link to the service's own page, else its link, else the services index. */
  function MapService(s: Entry): (r: Service)
    ensures Truthy(Prop(Some(s), "slug")) ==> r.link == "/service/" + s["slug"]
    ensures !Truthy(Prop(Some(s), "slug")) && Truthy(Prop(Some(s), "link")) ==> r.link == s["link"]
    ensures !Truthy(Prop(Some(s), "slug")) && !Truthy(Prop(Some(s), "link")) ==> r.link == "/service"
    ensures r.desc == StripHtml(Or(Or(Prop(Some(s), "short_description"), Prop(Some(s), "long_description")), None).GetOr(""))
    ensures Truthy(Prop(Some(s), "title")) ==> r.title == s["title"]
    ensures !Truthy(Prop(Some(s), "title")) ==> r.title == ""
  {
    var e := Some(s);
    Service(
      OrEmpty(Prop(e, "title")),
      StripHtml(OrEmpty(Or(Prop(e, "short_description"), Prop(e, "long_description")))),
      if Truthy(Prop(e, "slug")) then "/service/" + s["slug"]
      else if Truthy(Prop(e, "link")) then s["link"]
      else "/service")
  }

  /** A blog card; `formatDate` stands for the locale date formatting of `created_at`. */
  function MapBlogItem(b: Entry, formatDate: string -> string): (r: BlogItem)
    ensures Truthy(Prop(Some(b), "slug")) ==> r.link == "/blog/" + b["slug"]
    ensures !Truthy(Prop(Some(b), "slug")) ==> r.link == "/blog"
    ensures r.image == EnsureUrl(Or(Prop(Some(b), "featured_image"), Prop(Some(b), "cover_image")))
    ensures Truthy(Prop(Some(b), "created_at")) ==> r.date == formatDate(b["created_at"])
    ensures !Truthy(Prop(Some(b), "created_at")) ==> r.date == ""
    ensures Truthy(Prop(Some(b), "title")) ==> r.title == b["title"]
    ensures !Truthy(Prop(Some(b), "title")) ==> r.title == ""
    ensures Truthy(Prop(Some(b), "short_description")) ==> r.excerpt == StripHtml(b["short_description"])
    ensures !Truthy(Prop(Some(b), "short_description")) ==> r.excerpt == ""
  {
    var e := Some(b);
    var created := Prop(e, "created_at");
    BlogItem(
      if Truthy(created) then formatDate(created.value) else "",
      OrEmpty(Prop(e, "title")),
      StripHtml(OrEmpty(Prop(e, "short_description"))),
      EnsureUrl(Or(Prop(e, "featured_image"), Prop(e, "cover_image"))),
      if Truthy(Prop(e, "slug")) then "/blog/" + b["slug"] else "/blog")
  }

  /** A client logo: its title, "" when falsy, and its logo through `ensureUrl`. */
  function MapClient(c: Entry): (r: ClientItem)
    ensures Truthy(Prop(Some(c), "title")) ==> r.title == c["title"]
    ensures !Truthy(Prop(Some(c), "title")) ==> r.title == ""
    ensures r.icon == EnsureUrl(Prop(Some(c), "logo"))
  {
    ClientItem(OrEmpty(Prop(Some(c), "title")), EnsureUrl(Prop(Some(c), "logo")))
  }

  /** A testimonial; the author falls back from `author` to `item_author` to "" (empty strings fall through). */
  function MapTestimonial(t: Entry): (r: Testimonial)
    ensures Truthy(Prop(Some(t), "author")) ==> r.author == t["author"]
    ensures !Truthy(Prop(Some(t), "author")) && Truthy(Prop(Some(t), "item_author")) ==> r.author == t["item_author"]
    ensures !Truthy(Prop(Some(t), "author")) && !Truthy(Prop(Some(t), "item_author")) ==> r.author == ""
    ensures Truthy(Prop(Some(t), "quote")) ==> r.text == t["quote"]
    ensures !Truthy(Prop(Some(t), "quote")) ==> r.text == ""
    ensures r.avatar == EnsureUrl(Prop(Some(t), "avatar"))
  {
    var e := Some(t);
    Testimonial(
      OrEmpty(Prop(e, "quote")),
      OrEmpty(Or(Prop(e, "author"), Prop(e, "item_author"))),
      EnsureUrl(Prop(e, "avatar")))
  }

  /** The footer data the home page hands on: always all empty. */
  const EmptyFooter := Footer.FooterData(Some(""), Some(""), Some([]), Some(""))

  /** One service card per entry of the first services block's `services` array. */
  function MapServices(d: Option<Data>): (r: seq<Service>)
    ensures |r| == |ListOrEmpty(d, "services")|
    ensures forall i :: 0 <= i < |r| ==> r[i] == MapService(ListOrEmpty(d, "services")[i])
  {
    var services := ListOrEmpty(d, "services");
    seq(|services|, i requires 0 <= i < |services| => MapService(services[i]))
  }

  /** One blog card per entry of the first blog block's `blogs` array. */
  function MapBlog(d: Option<Data>, formatDate: string -> string): (r: seq<BlogItem>)
    ensures |r| == |ListOrEmpty(d, "blogs")|
    ensures forall i :: 0 <= i < |r| ==> r[i] == MapBlogItem(ListOrEmpty(d, "blogs")[i], formatDate)
  {
    var blogs := ListOrEmpty(d, "blogs");
    seq(|blogs|, i requires 0 <= i < |blogs| => MapBlogItem(blogs[i], formatDate))
  }

  /** One client logo per entry of the first clients block's `logos` array. */
  function MapClients(d: Option<Data>): (r: seq<ClientItem>)
    ensures |r| == |ListOrEmpty(d, "logos")|
    ensures forall i :: 0 <= i < |r| ==> r[i] == MapClient(ListOrEmpty(d, "logos")[i])
  {
    var logos := ListOrEmpty(d, "logos");
    seq(|logos|, i requires 0 <= i < |logos| => MapClient(logos[i]))
  }

  /** One testimonial per entry of the first testimonials block's `items` array. */
  function MapTestimonials(d: Option<Data>): (r: seq<Testimonial>)
    ensures |r| == |ListOrEmpty(d, "items")|
    ensures forall i :: 0 <= i < |r| ==> r[i] == MapTestimonial(ListOrEmpty(d, "items")[i])
  {
    var items := ListOrEmpty(d, "items");
    seq(|items|, i requires 0 <= i < |items| => MapTestimonial(items[i]))
  }

  /** The home page built from its blocks, each section from the first block of its type. */
  function MapHomeBlocks(blocks: seq<Block>, formatDate: string -> string): HomeData {
    var clients := BlockData(blocks, "clients_logo_section");
    HomeData(
      MapHero(BlockData(blocks, "banner_slider_section")),
      MapServices(BlockData(blocks, "services_section")),
      MapBlog(BlockData(blocks, "blog_section"), formatDate),
      MapClients(clients),
      OrEmpty(DataProp(clients, "title")),
      OrEmpty(DataProp(clients, "subtitle")),
      MapTestimonials(BlockData(blocks, "testimonials_section")),
      EmptyFooter)
  }

  predicate IsHomepage(p: Page) {
    p.slug == "homepage"
  }

  /** `pages.find(p => p.slug === "homepage")`. */
  function FindHomepage(pages: seq<Page>): (r: Option<Page>)
    ensures r.None? <==> forall i :: 0 <= i < |pages| ==> !IsHomepage(pages[i])
    ensures r.Some? ==> IsHomepage(r.value)
  {
    if pages == [] then None
    else if IsHomepage(pages[0]) then Some(pages[0])
    else
      assert forall i :: 1 <= i < |pages| ==> pages[i] == pages[1..][i - 1];
      FindHomepage(pages[1..])
  }

  /** The page found is the FIRST whose slug is "homepage". */
  lemma {:induction false} FindHomepageFirst(pages: seq<Page>, i: nat)
    requires i < |pages| && IsHomepage(pages[i])
    requires forall j :: 0 <= j < i ==> !IsHomepage(pages[j])
    ensures FindHomepage(pages) == Some(pages[i])
  {
    if i > 0 {
      assert !IsHomepage(pages[0]);
      assert pages[1..][i - 1] == pages[i];
      assert forall j :: 0 <= j < i - 1 ==> pages[1..][j] == pages[j + 1];
      FindHomepageFirst(pages[1..], i - 1);
    }
  }

  /**
   * `mapApiToHomeDataStrict`, from the response's `data` (`None` when it is not
   * an array, which counts as no pages). It throws exactly when no page has
   * the slug "homepage"; a home page whose `blocks` is not an array has no blocks.
   */
  function MapApiToHomeDataStrict(apiData: Option<seq<Page>>, formatDate: string -> string): (r: Result<HomeData>)
    ensures r.Err? <==> forall i :: 0 <= i < |apiData.GetOr([])| ==> !IsHomepage(apiData.GetOr([])[i])
    ensures r.Err? ==> r.message == NoHomepageError
    ensures r.Ok? ==> r.value.footer == EmptyFooter && r.value.hero.counters == []
    ensures r.Ok? ==> FindHomepage(apiData.GetOr([])).Some?
    ensures r.Ok? ==>
      var blocks := FindHomepage(apiData.GetOr([])).value.blocks.GetOr([]);
      var clients := BlockData(blocks, "clients_logo_section");
      && r.value.hero == MapHero(BlockData(blocks, "banner_slider_section"))
      && r.value.services == MapServices(BlockData(blocks, "services_section"))
      && r.value.blog == MapBlog(BlockData(blocks, "blog_section"), formatDate)
      && r.value.clients == MapClients(clients)
      && r.value.clientsTitle == OrEmpty(DataProp(clients, "title"))
      && r.value.clientsSubtitle == OrEmpty(DataProp(clients, "subtitle"))
      && r.value.testimonials == MapTestimonials(BlockData(blocks, "testimonials_section"))
  {
    var pages := apiData.GetOr([]);
    match FindHomepage(pages)
    case None => Err(NoHomepageError)
    case Some(home) => Ok(MapHomeBlocks(home.blocks.GetOr([]), formatDate))
  }

  /**
   * What the footer shows for the home page's footer data (`EmptyFooter`, or
   * any data like it): an empty number with the default phone link, an empty
   * e-mail and copyright, and five "#" social links (each with its default icon, by
   * `Footer.RenderFooter`).
   */
  lemma {:induction false} HomeFooterRendering(footer: Footer.FooterData)
    requires footer.phone == Some("") && footer.email == Some("")
    requires footer.social == Some([]) && footer.copyright == Some("")
    ensures var v := Footer.RenderFooter(Some(footer));
      && v.displayPhone == "" && v.phoneHref == Footer.DefaultPhoneHref
      && v.email == "" && v.copyright == ""
      && |v.social| == 5
      && forall i :: 0 <= i < 5 ==> v.social[i].href == "#"
  {
    Footer.PlaceholderLinks(Some(footer));
  }
}
