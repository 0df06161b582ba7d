/** The CMS records as the content API returns them, the media-URL helper,
    and the transform functions that flatten records into the domain
    records of `Types`. */
module Strapi {
  import opened Options
  import opened JsText
  import opened JsValues
  import opened Types

  /** `{ id, attributes }`: every CMS record. */
  datatype Record<A> = Record(id: int, attributes: A)

  /** A media file; only its `url` is read (the size variants are not). */
  datatype MediaAttributes = MediaAttributes(url: string, alternativeText: string, width: int, height: int)

  /** A relation `{ data: record | null }` is `None` when the relation
      property is missing or its `data` is `null`: the transforms treat both
      alike. The bookkeeping timestamps are not read and are not modelled. */
  datatype AuthorAttributes = AuthorAttributes(
    name: string,
    title: string,
    bio: string,
    photo: Option<Record<MediaAttributes>>,
    linkedin: Option<string>,
    twitter: Option<string>,
    email: Option<string>)

  datatype TagAttributes = TagAttributes(name: string, slug: string)

  datatype PillarAttributes = PillarAttributes(name: string, slug: string, description: Option<string>)

  /** An article record. `tags` is `None` when the relation property is
      missing; a present to-many relation always carries a list. */
  datatype ArticleAttributes = ArticleAttributes(
    title: string,
    subtitle: Option<string>,
    slug: string,
    content: JsValue,
    excerpt: string,
    pillar: Option<Record<PillarAttributes>>,
    tags: Option<seq<Record<TagAttributes>>>,
    author: Option<Record<AuthorAttributes>>,
    featuredImage: Option<Record<MediaAttributes>>,
    publishDate: string,
    readTime: int,
    isFeatured: bool)

  type AuthorRecord = Record<AuthorAttributes>
  type TagRecord = Record<TagAttributes>
  type PillarRecord = Record<PillarAttributes>
  type ArticleRecord = Record<ArticleAttributes>

  const DefaultStrapiUrl: string := "http://localhost:4002"
  const PlaceholderHost: string := "https://placehold.co/"
  const AuthorPlaceholder: string := PlaceholderHost + "400x400/49648C/FFFFFF?text=Author"
  const ArticlePlaceholder: string := PlaceholderHost + "1200x600/0B1F3B/FFFFFF?text=Article"
  const DefaultPillarName: string := "Industry Insights"

  /** The CMS base URL: the configured setting when it is a non-empty
      string, the local default otherwise (`setting || default`). */
  function StrapiUrl(setting: Option<string>): (base: string)
    ensures setting.Some? && setting.value != "" ==> base == setting.value
    ensures setting.None? || setting.value == "" ==> base == DefaultStrapiUrl
    ensures base != ""
  {
    if setting.Some? && setting.value != "" then setting.value else DefaultStrapiUrl
  }

  /** `getStrapiMediaUrl`: an absent or empty url gives the empty string;
      a url starting with "http" is already absolute; anything else is
      prefixed with the CMS base. */
  function MediaUrl(base: string, url: Option<string>): (r: string)
    ensures r == "" <==> url.None? || url.value == ""
    ensures url.Some? && url.value != "" && StartsWith(url.value, "http") ==> r == url.value
    ensures url.Some? && url.value != "" && !StartsWith(url.value, "http") ==> r == base + url.value
    ensures url.Some? ==> |url.value| <= |r| && r[|r| - |url.value|..] == url.value
    ensures StartsWith(base, "http") && r != "" ==> StartsWith(r, "http")
  {
    if url.None? || url.value == "" then ""
    else if StartsWith(url.value, "http") then url.value
    else base + url.value
  }

  /** The "http" test is a plain prefix test: a relative path that happens
      to begin with those four letters is passed through unchanged. */
  lemma MediaUrlPrefixIsNotScheme(base: string)
    ensures MediaUrl(base, Some("http-x/a.png")) == "http-x/a.png"
  {
    assert StartsWith("http-x/a.png", "http");
  }

  /** With an absolute base, resolving a resolved url changes nothing. */
  lemma MediaUrlIdempotent(base: string, url: Option<string>)
    requires StartsWith(base, "http")
    ensures MediaUrl(base, Some(MediaUrl(base, url))) == MediaUrl(base, url)
  {
    var r := MediaUrl(base, url);
    if r != "" && !StartsWith(url.value, "http") {
      assert r[..4] == base[..4];
    }
  }

  /** Everything a transform needs from its surroundings: the resolved CMS
      base URL and the runtime's `JSON.stringify`. */
  datatype Context = Context(baseUrl: string, stringify: JsValue -> string)

  /** `transformAuthor`. */
  function TransformAuthor(base: string, rec: AuthorRecord): (a: Author)
    ensures ParseInt(a.id) == Some(rec.id)
    ensures a.name == rec.attributes.name && a.title == rec.attributes.title && a.bio == rec.attributes.bio
    ensures a.photo == match rec.attributes.photo
                       case None => AuthorPlaceholder
                       case Some(m) => MediaUrl(base, Some(m.attributes.url))
    ensures a.linkedin == rec.attributes.linkedin && a.twitter == rec.attributes.twitter
    ensures a.email == rec.attributes.email
  {
    ParseIntToString(rec.id);
    var attrs := rec.attributes;
    Author(
      IntToString(rec.id),
      attrs.name,
      attrs.title,
      attrs.bio,
      match attrs.photo
      case Some(m) => MediaUrl(base, Some(m.attributes.url))
      case None => AuthorPlaceholder,
      attrs.linkedin,
      attrs.twitter,
      attrs.email)
  }

  /** `transformTag`. */
  function TransformTag(rec: TagRecord): (t: Tag)
    ensures ParseInt(t.id) == Some(rec.id)
    ensures t.name == rec.attributes.name && t.slug == rec.attributes.slug
  {
    ParseIntToString(rec.id);
    Tag(IntToString(rec.id), rec.attributes.name, rec.attributes.slug)
  }

  /** `transformPillar`: the CMS name, taken as a pillar without any check. */
  function TransformPillar(rec: PillarRecord): (name: string)
    ensures name == rec.attributes.name
    ensures IsPillarName(name) <==> IsPillarName(rec.attributes.name)
  {
    rec.attributes.name
  }

  /** The author an article without an author relation is given. */
  const UnknownAuthor: Author :=
    Author("0", "Unknown Author", "", "", AuthorPlaceholder, None, None, None)

  function TransformTags(tags: Option<seq<TagRecord>>): (ts: seq<Tag>)
    ensures tags.None? ==> ts == []
    ensures tags.Some? ==> |ts| == |tags.value|
    ensures tags.Some? ==> forall i :: 0 <= i < |ts| ==> ts[i] == TransformTag(tags.value[i])
  {
    match tags
    case None => []
    case Some(rs) => seq(|rs|, i requires 0 <= i < |rs| => TransformTag(rs[i]))
  }

  /** `transformArticle`: every missing relation gets its default — the
      unknown author, no tags, the "Industry Insights" pillar, the article
      placeholder image — and everything else is carried over. */
  function TransformArticle(ctx: Context, rec: ArticleRecord): (a: Article)
    ensures ParseInt(a.id) == Some(rec.id)
    ensures a.author == match rec.attributes.author
                        case None => UnknownAuthor
                        case Some(r) => TransformAuthor(ctx.baseUrl, r)
    ensures a.tags == TransformTags(rec.attributes.tags)
    ensures a.pillar == match rec.attributes.pillar
                        case None => DefaultPillarName
                        case Some(p) => TransformPillar(p)
    ensures a.featuredImage == match rec.attributes.featuredImage
                               case None => ArticlePlaceholder
                               case Some(m) => MediaUrl(ctx.baseUrl, Some(m.attributes.url))
    ensures rec.attributes.content.Str? ==> a.content == rec.attributes.content.s
    ensures !rec.attributes.content.Str? ==> a.content == ctx.stringify(rec.attributes.content)
    ensures a.title == rec.attributes.title && a.subtitle == rec.attributes.subtitle
    ensures a.slug == rec.attributes.slug && a.excerpt == rec.attributes.excerpt
    ensures a.publishDate == rec.attributes.publishDate && a.readTime == rec.attributes.readTime
    ensures a.isFeatured == Some(rec.attributes.isFeatured)
  {
    ParseIntToString(rec.id);
    var attrs := rec.attributes;
    var author := match attrs.author
      case Some(r) => TransformAuthor(ctx.baseUrl, r)
      case None => UnknownAuthor;
    var pillar := match attrs.pillar
      case Some(p) => p.attributes.name
      case None => DefaultPillarName;
    Article(
      IntToString(rec.id),
      attrs.title,
      attrs.subtitle,
      attrs.slug,
      if attrs.content.Str? then attrs.content.s else ctx.stringify(attrs.content),
      attrs.excerpt,
      pillar,
      TransformTags(attrs.tags),
      author,
      match attrs.featuredImage
      case Some(m) => MediaUrl(ctx.baseUrl, Some(m.attributes.url))
      case None => ArticlePlaceholder,
      attrs.publishDate,
      attrs.readTime,
      Some(attrs.isFeatured))
  }

  /** The sentinel author is what `transformAuthor` makes of an author
      record with id 0 named "Unknown Author" with no title, bio, photo or
      links: both defaults use the same placeholder photo. */
  lemma UnknownAuthorIsTransformedSentinel(base: string)
    ensures UnknownAuthor ==
      TransformAuthor(base, Record(0, AuthorAttributes("Unknown Author", "", "", None, None, None, None)))
  {
    assert IntToString(0) == "0";
  }

  /** A transformed article carries one of the five pillars exactly when
      the CMS record has no pillar or names one of them: an unknown CMS
      pillar name is passed through. */
  lemma TransformArticlePillarWellTyped(ctx: Context, rec: ArticleRecord)
    ensures IsPillarName(TransformArticle(ctx, rec).pillar) <==>
      rec.attributes.pillar.None? || IsPillarName(rec.attributes.pillar.value.attributes.name)
  {
  }

  /** A CMS pillar outside the five survives the transform as it is. */
  lemma UnknownPillarPassesThrough(ctx: Context, rec: ArticleRecord)
    requires rec.attributes.pillar == Some(Record(7, PillarAttributes("Crypto", "crypto", None)))
    ensures TransformArticle(ctx, rec).pillar == "Crypto"
    ensures !IsPillarName(TransformArticle(ctx, rec).pillar)
  {
  }

  /** The images of a transformed article are absolute or empty, given an
      absolute base: the placeholders are absolute and a resolved CMS url
      starts with "http" unless the CMS url is empty. */
  lemma TransformArticleImagesAbsolute(ctx: Context, rec: ArticleRecord)
    requires StartsWith(ctx.baseUrl, "http")
    ensures var a := TransformArticle(ctx, rec);
      (a.featuredImage == "" || StartsWith(a.featuredImage, "http")) &&
      (a.author.photo == "" || StartsWith(a.author.photo, "http"))
  {
    assert ArticlePlaceholder[..4] == "http";
    assert AuthorPlaceholder[..4] == "http";
  }
}
