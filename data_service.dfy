/** The single entry point of the presentation layer: each operation asks
    the CMS when a CMS URL is configured, transforms what it gets, and falls
    back to the mock data when the CMS is not configured, when its call
    fails, or (for the single-article operations) when it finds nothing. */
module DataService {
  import opened Options
  import opened JsText
  import opened JsValues
  import opened JsArray
  import opened Types
  import opened Strapi
  import opened StrapiQuery
  import opened StrapiClient

  /** The process environment: the CMS URL setting, and the runtime's
      `JSON.stringify`. */
  datatype Env = Env(strapiUrl: Option<string>, stringify: JsValue -> string)

  /** The CMS is used exactly when the URL setting is defined, even when
      it is the empty string. */
  predicate UseStrapi(env: Env) {
    env.strapiUrl.Some?
  }

  function TransformContext(env: Env): Context {
    Context(StrapiUrl(env.strapiUrl), env.stringify)
  }

  /** The accessors of the mock data module, whose definitions are not
      part of this model. */
  datatype MockData = MockData(
    articles: seq<Article>,
    authors: seq<Author>,
    tags: seq<Tag>,
    featured: Option<Article>,
    recent: int -> seq<Article>,
    byPillar: Pillar -> seq<Article>,
    industryInsights: int -> seq<Article>)

  /** The fallback rule every operation follows: the CMS path's result when
      the CMS is configured and the call resolved with a usable result
      (`Some`), the mock result otherwise. A rejected call is caught here,
      so no operation rejects. */
  function Resolve<T>(useStrapi: bool, attempt: Outcome<Option<T>>, mock: T): (r: T)
    ensures r == mock || (useStrapi && attempt.Ok? && attempt.value == Some(r))
    ensures !useStrapi || attempt.Err? || attempt.value.None? ==> r == mock
    ensures useStrapi && attempt.Ok? && attempt.value.Some? ==> r == attempt.value.value
  {
    if useStrapi && attempt.Ok? && attempt.value.Some? then attempt.value.value else mock
  }

  /** A list result of the CMS path is always usable, even when empty. */
  function Always<T>(o: Outcome<T>): (r: Outcome<Option<T>>)
    ensures r.Err? <==> o.Err?
    ensures o.Ok? ==> r.value == Some(o.value)
  {
    match o
    case Ok(v) => Ok(Some(v))
    case Err => Err
  }

  function TransformArticles(ctx: Context, rs: seq<ArticleRecord>): (r: seq<Article>)
    ensures |r| == |rs| && forall i :: 0 <= i < |rs| ==> r[i] == TransformArticle(ctx, rs[i])
  {
    seq(|rs|, i requires 0 <= i < |rs| => TransformArticle(ctx, rs[i]))
  }

  function MapArticles(ctx: Context, o: Outcome<seq<ArticleRecord>>): Outcome<Option<seq<Article>>> {
    match o
    case Ok(rs) => Ok(Some(TransformArticles(ctx, rs)))
    case Err => Err
  }

  /** `getFeaturedArticle`: a `null` CMS result falls through to the mock
      featured article. */
  function GetFeaturedArticle(env: Env, cms: Cms, mock: MockData): (r: Option<Article>)
    ensures !UseStrapi(env) || FeaturedArticle(cms) == Err || FeaturedArticle(cms) == Ok(None) ==> r == mock.featured
    ensures UseStrapi(env) && FeaturedArticle(cms).Ok? && FeaturedArticle(cms).value.Some? ==>
      r == Some(TransformArticle(TransformContext(env), FeaturedArticle(cms).value.value))
  {
    var attempt := match FeaturedArticle(cms)
      case Ok(Some(rec)) => Ok(Some(Some(TransformArticle(TransformContext(env), rec))))
      case Ok(None) => Ok(None)
      case Err => Err;
    Resolve(UseStrapi(env), attempt, mock.featured)
  }

  const DefaultRecentLimit: int := 9
  const DefaultInsightsLimit: int := 3
  const AllArticlesLimit: int := 100

  /** `getRecentArticles(limit = 9)`. */
  function GetRecentArticles(env: Env, cms: Cms, mock: MockData, limit: Option<int>): (r: seq<Article>)
    ensures var n := limit.GetOr(DefaultRecentLimit);
      !UseStrapi(env) || RecentArticles(cms, n).Err? ==> r == mock.recent(n)
    ensures var n := limit.GetOr(DefaultRecentLimit);
      UseStrapi(env) && RecentArticles(cms, n).Ok? ==> r == TransformArticles(TransformContext(env), RecentArticles(cms, n).value)
  {
    var n := limit.GetOr(DefaultRecentLimit);
    Resolve(UseStrapi(env), MapArticles(TransformContext(env), RecentArticles(cms, n)), mock.recent(n))
  }

  /** Characters the pillar-slug pattern `[&\s]+` matches. */
  predicate IsSlugSeparator(c: char) {
    c == '&' || IsSpace(c)
  }

  /** What is left after the leading run of characters of the class `sep`. */
  function DropSeparators(s: string, sep: char -> bool): (r: string)
    ensures |r| <= |s|
    ensures |r| > 0 ==> !sep(r[0])
  {
    if |s| > 0 && sep(s[0]) then DropSeparators(s[1..], sep) else s
  }

  /** Only separators are dropped, and what is left is a suffix. */
  lemma {:induction false} DropSeparatorsSuffix(s: string, sep: char -> bool)
    ensures var r := DropSeparators(s, sep);
      r == s[|s| - |r|..] && forall i :: 0 <= i < |s| - |r| ==> sep(s[i])
    decreases |s|
  {
    if |s| > 0 && sep(s[0]) {
      DropSeparatorsSuffix(s[1..], sep);
      var r := DropSeparators(s, sep);
      assert s[1..][|s| - 1 - |r|..] == s[|s| - |r|..];
      forall i | 0 <= i < |s| - |r| ensures sep(s[i]) {
        if i > 0 { assert s[i] == s[1..][i - 1]; }
      }
    }
  }

  /** `s.replace(/[...]+/g, '-')` for a character class `sep`: each maximal
      run of characters of the class becomes one hyphen. */
  function ReplaceSeparatorRuns(s: string, sep: char -> bool): (r: string)
    ensures |r| <= |s|
    decreases |s|
  {
    if |s| == 0 then ""
    else if sep(s[0]) then "-" + ReplaceSeparatorRuns(DropSeparators(s, sep), sep)
    else [s[0]] + ReplaceSeparatorRuns(s[1..], sep)
  }

  /** No separator survives the replacement (when the hyphen is not one). */
  lemma {:induction false} NoSeparatorsRemain(s: string, sep: char -> bool)
    requires !sep('-')
    ensures forall i :: 0 <= i < |ReplaceSeparatorRuns(s, sep)| ==> !sep(ReplaceSeparatorRuns(s, sep)[i])
    decreases |s|
  {
    if |s| == 0 {
    } else if sep(s[0]) {
      NoSeparatorsRemain(DropSeparators(s, sep), sep);
    } else {
      NoSeparatorsRemain(s[1..], sep);
    }
  }

  /** The slug the CMS query uses for a pillar. */
  function PillarSlug(p: Pillar): (r: string)
    ensures |r| <= |PillarName(p)|
    ensures forall i :: 0 <= i < |r| ==> !IsSlugSeparator(r[i])
  {
    NoSeparatorsRemain(ToLowerCase(PillarName(p)), IsSlugSeparator);
    ReplaceSeparatorRuns(ToLowerCase(PillarName(p)), IsSlugSeparator)
  }

  /** `getArticlesByPillar(pillar)`. */
  function GetArticlesByPillar(env: Env, cms: Cms, mock: MockData, p: Pillar): (r: seq<Article>)
    ensures !UseStrapi(env) || ArticlesByPillar(cms, PillarSlug(p)).Err? ==> r == mock.byPillar(p)
    ensures UseStrapi(env) && ArticlesByPillar(cms, PillarSlug(p)).Ok? ==>
      r == TransformArticles(TransformContext(env), ArticlesByPillar(cms, PillarSlug(p)).value)
  {
    Resolve(UseStrapi(env), MapArticles(TransformContext(env), ArticlesByPillar(cms, PillarSlug(p))), mock.byPillar(p))
  }

  /** The mock lookup of `getArticleBySlug`: the first article with that slug. */
  function FindBySlug(articles: seq<Article>, slug: string): Option<Article> {
    Find(articles, (a: Article) => a.slug == slug)
  }

  /** `getArticleBySlug(slug)`: an empty CMS result falls through to the
      mock lookup. */
  function GetArticleBySlug(env: Env, cms: Cms, mock: MockData, slug: string): (r: Option<Article>)
    ensures !UseStrapi(env) || ArticleBySlug(cms, slug).Err? || ArticleBySlug(cms, slug) == Ok([]) ==>
      r == FindBySlug(mock.articles, slug)
    ensures UseStrapi(env) && ArticleBySlug(cms, slug).Ok? && |ArticleBySlug(cms, slug).value| > 0 ==>
      r == Some(TransformArticle(TransformContext(env), ArticleBySlug(cms, slug).value[0]))
  {
    var attempt := match ArticleBySlug(cms, slug)
      case Ok(d) => if |d| > 0 then Ok(Some(Some(TransformArticle(TransformContext(env), d[0])))) else Ok(None)
      case Err => Err;
    Resolve(UseStrapi(env), attempt, FindBySlug(mock.articles, slug))
  }

  const IndustryInsightsSlug: string := "industry-insights"

  /** `getIndustryInsightsArticles(limit = 3)`: the CMS list is cut with
      `slice(0, limit)` before it is transformed. */
  function GetIndustryInsightsArticles(env: Env, cms: Cms, mock: MockData, limit: Option<int>): (r: seq<Article>)
    ensures var n := limit.GetOr(DefaultInsightsLimit);
      !UseStrapi(env) || ArticlesByPillar(cms, IndustryInsightsSlug).Err? ==> r == mock.industryInsights(n)
    ensures var n := limit.GetOr(DefaultInsightsLimit);
      UseStrapi(env) && ArticlesByPillar(cms, IndustryInsightsSlug).Ok? && n >= 0 ==>
      var d := ArticlesByPillar(cms, IndustryInsightsSlug).value;
      |r| == (if n < |d| then n else |d|) &&
      forall i :: 0 <= i < |r| ==> r[i] == TransformArticle(TransformContext(env), d[i])
  {
    var n := limit.GetOr(DefaultInsightsLimit);
    var attempt := match ArticlesByPillar(cms, IndustryInsightsSlug)
      case Ok(d) => Ok(Some(TransformArticles(TransformContext(env), Slice(d, 0, n))))
      case Err => Err;
    Resolve(UseStrapi(env), attempt, mock.industryInsights(n))
  }

  function TransformAuthors(base: string, rs: seq<AuthorRecord>): (r: seq<Author>)
    ensures |r| == |rs| && forall i :: 0 <= i < |rs| ==> r[i] == TransformAuthor(base, rs[i])
  {
    seq(|rs|, i requires 0 <= i < |rs| => TransformAuthor(base, rs[i]))
  }

  function TransformTagList(rs: seq<TagRecord>): (r: seq<Tag>)
    ensures |r| == |rs| && forall i :: 0 <= i < |rs| ==> r[i] == TransformTag(rs[i])
  {
    seq(|rs|, i requires 0 <= i < |rs| => TransformTag(rs[i]))
  }

  /** `getAuthors`. */
  function GetAuthors(env: Env, cms: Cms, mock: MockData): (r: seq<Author>)
    ensures !UseStrapi(env) || cms.authors.Err? ==> r == mock.authors
    ensures UseStrapi(env) && cms.authors.Ok? ==>
      |r| == |cms.authors.value| &&
      forall i :: 0 <= i < |r| ==> r[i] == TransformAuthor(StrapiUrl(env.strapiUrl), cms.authors.value[i])
  {
    var attempt := match cms.authors
      case Ok(d) => Ok(Some(TransformAuthors(StrapiUrl(env.strapiUrl), d)))
      case Err => Err;
    Resolve(UseStrapi(env), attempt, mock.authors)
  }

  /** `getTags`. */
  function GetTags(env: Env, cms: Cms, mock: MockData): (r: seq<Tag>)
    ensures !UseStrapi(env) || cms.tags.Err? ==> r == mock.tags
    ensures UseStrapi(env) && cms.tags.Ok? ==>
      |r| == |cms.tags.value| && forall i :: 0 <= i < |r| ==> r[i] == TransformTag(cms.tags.value[i])
  {
    var attempt := match cms.tags
      case Ok(d) => Ok(Some(TransformTagList(d)))
      case Err => Err;
    Resolve(UseStrapi(env), attempt, mock.tags)
  }

  /** The pillar list used when the CMS gives none. */
  function DefaultPillars(): seq<string> {
    ["Compliance & Regulation", "Technology & Operations", "Practice Management",
     "Client Strategy", "Industry Insights"]
  }

  /** `getPillars`: the CMS names, cast without a check. */
  function GetPillars(env: Env, cms: Cms): (r: seq<string>)
    ensures !UseStrapi(env) || cms.pillars.Err? ==> r == DefaultPillars()
    ensures UseStrapi(env) && cms.pillars.Ok? ==>
      |r| == |cms.pillars.value| && forall i :: 0 <= i < |r| ==> r[i] == cms.pillars.value[i].attributes.name
  {
    var attempt := match cms.pillars
      case Ok(d) => Ok(Some(seq(|d|, i requires 0 <= i < |d| => TransformPillar(d[i]))))
      case Err => Err;
    Resolve(UseStrapi(env), attempt, DefaultPillars())
  }

  /** `getAllArticles`: the 100 most recent CMS articles, or every mock
      article. */
  function GetAllArticles(env: Env, cms: Cms, mock: MockData): (r: seq<Article>)
    ensures !UseStrapi(env) || RecentArticles(cms, AllArticlesLimit).Err? ==> r == mock.articles
    ensures UseStrapi(env) && RecentArticles(cms, AllArticlesLimit).Ok? ==>
      r == TransformArticles(TransformContext(env), RecentArticles(cms, AllArticlesLimit).value)
  {
    Resolve(UseStrapi(env), MapArticles(TransformContext(env), RecentArticles(cms, AllArticlesLimit)), mock.articles)
  }

  // ---------------------------------------------------------------------
  // The fallback rule
  // ---------------------------------------------------------------------

  /** The same environment with the CMS URL setting removed. */
  function Unconfigured(env: Env): (e: Env)
    ensures !UseStrapi(e)
  {
    Env(None, env.stringify)
  }

  /** A CMS that rejects every request. */
  ghost predicate Down(cms: Cms) {
    (forall q :: cms.articles(q).Err?) && cms.authors.Err? && cms.tags.Err? && cms.pillars.Err?
  }

  /** Without a CMS URL every operation returns its mock result, whatever
      the CMS would answer. */
  lemma MockModeIgnoresCms(env: Env, cms: Cms, mock: MockData, limit: Option<int>, p: Pillar, slug: string)
    requires !UseStrapi(env)
    ensures GetFeaturedArticle(env, cms, mock) == mock.featured
    ensures GetRecentArticles(env, cms, mock, limit) == mock.recent(limit.GetOr(DefaultRecentLimit))
    ensures GetArticlesByPillar(env, cms, mock, p) == mock.byPillar(p)
    ensures GetArticleBySlug(env, cms, mock, slug) == FindBySlug(mock.articles, slug)
    ensures GetIndustryInsightsArticles(env, cms, mock, limit) == mock.industryInsights(limit.GetOr(DefaultInsightsLimit))
    ensures GetAuthors(env, cms, mock) == mock.authors
    ensures GetTags(env, cms, mock) == mock.tags
    ensures GetPillars(env, cms) == DefaultPillars()
    ensures GetAllArticles(env, cms, mock) == mock.articles
  {
  }

  /** When the CMS is configured but rejects every request, every article
      operation returns exactly what it returns with no CMS configured:
      failures are caught, never passed on. */
  lemma FailureFallsBackToMock(env: Env, cms: Cms, mock: MockData, limit: Option<int>, p: Pillar, slug: string)
    requires Down(cms)
    ensures GetFeaturedArticle(env, cms, mock) == GetFeaturedArticle(Unconfigured(env), cms, mock)
    ensures GetRecentArticles(env, cms, mock, limit) == GetRecentArticles(Unconfigured(env), cms, mock, limit)
    ensures GetArticlesByPillar(env, cms, mock, p) == GetArticlesByPillar(Unconfigured(env), cms, mock, p)
    ensures GetArticleBySlug(env, cms, mock, slug) == GetArticleBySlug(Unconfigured(env), cms, mock, slug)
    ensures GetIndustryInsightsArticles(env, cms, mock, limit) == GetIndustryInsightsArticles(Unconfigured(env), cms, mock, limit)
    ensures GetAllArticles(env, cms, mock) == GetAllArticles(Unconfigured(env), cms, mock)
  {
    assert FeaturedArticle(cms).Err? by {
      assert cms.articles(ArticlesQuery(FeaturedParams)).Err?;
    }
    assert RecentArticles(cms, limit.GetOr(DefaultRecentLimit)).Err?;
    assert ArticlesByPillar(cms, PillarSlug(p)).Err?;
    assert ArticleBySlug(cms, slug).Err?;
    assert ArticlesByPillar(cms, IndustryInsightsSlug).Err?;
    assert RecentArticles(cms, AllArticlesLimit).Err?;
  }

  /** The same for authors, tags and pillars. */
  lemma RecordFailureFallsBackToMock(env: Env, cms: Cms, mock: MockData)
    requires Down(cms)
    ensures GetAuthors(env, cms, mock) == GetAuthors(Unconfigured(env), cms, mock)
    ensures GetTags(env, cms, mock) == GetTags(Unconfigured(env), cms, mock)
    ensures GetPillars(env, cms) == GetPillars(Unconfigured(env), cms)
  {
  }

  /** The single-article operations treat "nothing found" like a failure
      and fall through to the mock data. */
  lemma EmptySingleResultsFallThrough(env: Env, cms: Cms, mock: MockData, slug: string)
    requires cms.articles(ArticlesQuery(FeaturedParams)) == Ok([])
    requires ArticleBySlug(cms, slug) == Ok([])
    ensures GetFeaturedArticle(env, cms, mock) == mock.featured
    ensures GetArticleBySlug(env, cms, mock, slug) == FindBySlug(mock.articles, slug)
  {
  }

  /** The list operations return an empty CMS list as it is: an empty
      list does not fall through to the mock data. */
  lemma EmptyListsAreReturned(env: Env, cms: Cms, mock: MockData, limit: Option<int>, p: Pillar)
    requires UseStrapi(env)
    requires RecentArticles(cms, limit.GetOr(DefaultRecentLimit)) == Ok([])
    requires ArticlesByPillar(cms, PillarSlug(p)) == Ok([])
    requires cms.authors == Ok([]) && cms.tags == Ok([]) && cms.pillars == Ok([])
    ensures GetRecentArticles(env, cms, mock, limit) == []
    ensures GetArticlesByPillar(env, cms, mock, p) == []
    ensures GetAuthors(env, cms, mock) == []
    ensures GetTags(env, cms, mock) == []
    ensures GetPillars(env, cms) == []
  {
  }

  /** On success the CMS path transforms the first record of the featured
      query, and the request asks for one featured article. */
  lemma FeaturedFromCms(env: Env, cms: Cms, mock: MockData, rec: ArticleRecord, rest: seq<ArticleRecord>)
    requires UseStrapi(env)
    requires cms.articles(ArticlesQuery(FeaturedParams)) == Ok([rec] + rest)
    ensures GetFeaturedArticle(env, cms, mock) == Some(TransformArticle(TransformContext(env), rec))
    ensures var q := ArticlesQuery(FeaturedParams);
      Get(q, OperatorName("isFeatured", "$eq")) == Some("true") && Get(q, PageSizeName) == Some("1")
  {
    FeaturedQuery();
  }

  /** On success the recent list is the CMS list, transformed one to one
      and in order; the request asks for `limit` articles (9 by default),
      newest first. */
  lemma RecentFromCms(env: Env, cms: Cms, mock: MockData, limit: Option<int>, d: seq<ArticleRecord>)
    requires UseStrapi(env)
    requires RecentArticles(cms, limit.GetOr(DefaultRecentLimit)) == Ok(d)
    ensures var r := GetRecentArticles(env, cms, mock, limit);
      |r| == |d| && forall i :: 0 <= i < |d| ==> r[i] == TransformArticle(TransformContext(env), d[i])
    ensures var q := ArticlesQuery(RecentParams(limit.GetOr(DefaultRecentLimit)));
      Get(q, "sort") == Some(NewestFirst) &&
      (limit.None? ==> Get(q, PageSizeName) == Some("9"))
  {
    RecentQuery(limit.GetOr(DefaultRecentLimit));
    assert NatToString(9) == "9";
  }

  /** `getAllArticles` takes the same CMS path as the recent list with a
      limit of 100, and falls back to every mock article instead. */
  lemma AllArticlesAreRecentHundred(env: Env, cms: Cms, mock: MockData)
    requires UseStrapi(env) && RecentArticles(cms, AllArticlesLimit).Ok?
    ensures GetAllArticles(env, cms, mock) == GetRecentArticles(env, cms, mock, Some(100))
    ensures Get(ArticlesQuery(RecentParams(AllArticlesLimit)), PageSizeName) == Some("100")
  {
    AllArticlesQuery();
  }

  /** The mock lookup by slug finds the first article with that slug, and
      finds nothing only when no article has it. */
  lemma MockSlugLookup(articles: seq<Article>, slug: string)
    ensures var r := FindBySlug(articles, slug);
      (r.None? <==> forall i :: 0 <= i < |articles| ==> articles[i].slug != slug) &&
      (r.Some? ==> exists k :: 0 <= k < |articles| && articles[k] == r.value && r.value.slug == slug &&
                     forall i :: 0 <= i < k ==> articles[i].slug != slug)
  {
  }

  /** On success the slug lookup transforms the first CMS record, and the
      request filters on that exact slug. */
  lemma SlugFromCms(env: Env, cms: Cms, mock: MockData, slug: string, rec: ArticleRecord, rest: seq<ArticleRecord>)
    requires UseStrapi(env) && ArticleBySlug(cms, slug) == Ok([rec] + rest)
    ensures GetArticleBySlug(env, cms, mock, slug) == Some(TransformArticle(TransformContext(env), rec))
    ensures Get(SlugQuery(slug), OperatorName("slug", "$eq")) == Some(slug)
  {
    SlugQueryPairs(slug);
  }

  /** The fallback pillar list names every pillar once, in declaration
      order. */
  lemma DefaultPillarsAreAllPillars()
    ensures |DefaultPillars()| == |AllPillars|
    ensures forall i :: 0 <= i < |AllPillars| ==> DefaultPillars()[i] == PillarName(AllPillars[i])
  {
  }

  /** The CMS pillar names are passed on unchecked: a name outside the five
      pillars stays one. */
  lemma PillarsFromCms(env: Env, cms: Cms, d: seq<PillarRecord>)
    requires UseStrapi(env) && cms.pillars == Ok(d)
    ensures var r := GetPillars(env, cms);
      |r| == |d| && forall i :: 0 <= i < |d| ==>
        r[i] == d[i].attributes.name && (IsPillarName(r[i]) <==> IsPillarName(d[i].attributes.name))
  {
  }

  // ---------------------------------------------------------------------
  // Pillar slugs
  // ---------------------------------------------------------------------

  /** The slugs the site's navigation links use for each pillar. */
  function NavigationSlug(p: Pillar): string {
    match p
    case ComplianceRegulation => "compliance-regulation"
    case TechnologyOperations => "technology-operations"
    case PracticeManagement => "practice-management"
    case ClientStrategy => "client-strategy"
    case IndustryInsights => "industry-insights"
  }

  lemma {:induction false} DropRun(run: string, rest: string, sep: char -> bool)
    requires forall i :: 0 <= i < |run| ==> sep(run[i])
    requires |rest| == 0 || !sep(rest[0])
    ensures DropSeparators(run + rest, sep) == rest
    decreases |run|
  {
    if |run| == 0 {
      assert run + rest == rest;
    } else {
      assert (run + rest)[1..] == run[1..] + rest;
      DropRun(run[1..], rest, sep);
    }
  }

  /** A prefix without separators is kept as it is; with an empty rest,
      a string without separators is its own slug. */
  lemma {:induction false} PlainPrefix(word: string, rest: string, sep: char -> bool)
    requires forall i :: 0 <= i < |word| ==> !sep(word[i])
    ensures ReplaceSeparatorRuns(word + rest, sep) == word + ReplaceSeparatorRuns(rest, sep)
    decreases |word|
  {
    if |word| == 0 {
      assert word + rest == rest;
    } else {
      var s := word + rest;
      var tail := word[1..];
      assert s[0] == word[0] && s[1..] == tail + rest;
      forall i | 0 <= i < |tail| ensures !sep(tail[i]) {
        assert tail[i] == word[i + 1];
      }
      PlainPrefix(tail, rest, sep);
      KeptHead(s, sep);
      assert word == [word[0]] + tail;
    }
  }

  /** A first character outside the class is kept. */
  lemma KeptHead(s: string, sep: char -> bool)
    requires |s| > 0 && !sep(s[0])
    ensures ReplaceSeparatorRuns(s, sep) == [s[0]] + ReplaceSeparatorRuns(s[1..], sep)
  {
  }

  /** Two words around one run of separators become the words joined by a
      single hyphen. */
  lemma TwoWordSlug(w1: string, run: string, w2: string, sep: char -> bool)
    requires forall i :: 0 <= i < |w1| ==> !sep(w1[i])
    requires forall i :: 0 <= i < |w2| ==> !sep(w2[i])
    requires |run| > 0 && forall i :: 0 <= i < |run| ==> sep(run[i])
    ensures ReplaceSeparatorRuns(w1 + run + w2, sep) == w1 + "-" + w2
  {
    assert w1 + run + w2 == w1 + (run + w2);
    PlainPrefix(w1, run + w2, sep);
    RunToHyphen(run, w2, sep);
    PlainWord(w2, sep);
  }

  /** A string without separators is its own replacement. */
  lemma PlainWord(w: string, sep: char -> bool)
    requires forall i :: 0 <= i < |w| ==> !sep(w[i])
    ensures ReplaceSeparatorRuns(w, sep) == w
  {
    PlainPrefix(w, "", sep);
    assert w + "" == w;
  }

  /** A leading run of separators becomes one hyphen. */
  lemma RunToHyphen(run: string, rest: string, sep: char -> bool)
    requires |run| > 0 && forall i :: 0 <= i < |run| ==> sep(run[i])
    requires |rest| == 0 || !sep(rest[0])
    ensures ReplaceSeparatorRuns(run + rest, sep) == "-" + ReplaceSeparatorRuns(rest, sep)
  {
    var s := run + rest;
    assert s[0] == run[0];
    DropRun(run, rest, sep);
  }

  /** The slug computed from a pillar's name is the one the navigation
      links use, so filtering by a pillar and following its link agree;
      the industry-insights slug written out in `getIndustryInsightsArticles`
      is the computed one. */
  lemma PillarSlugsMatchNavigation(p: Pillar)
    ensures PillarSlug(p) == NavigationSlug(p)
    ensures IndustryInsightsSlug == PillarSlug(IndustryInsights)
  {
    PillarSlugMatchesNavigation(p);
    PillarSlugMatchesNavigation(IndustryInsights);
  }

  lemma PillarSlugMatchesNavigation(p: Pillar)
    ensures PillarSlug(p) == NavigationSlug(p)
  {
    match p
    case ComplianceRegulation => SlugOfComplianceRegulation();
    case TechnologyOperations => SlugOfTechnologyOperations();
    case PracticeManagement => SlugOfPracticeManagement();
    case ClientStrategy => SlugOfClientStrategy();
    case IndustryInsights => SlugOfIndustryInsights();
  }

  lemma SlugOfComplianceRegulation()
    ensures PillarSlug(ComplianceRegulation) == NavigationSlug(ComplianceRegulation)
  {
    ComputedSlugOfComplianceRegulation();
    NavigationSlugWords();
  }

  lemma ComputedSlugOfComplianceRegulation()
    ensures PillarSlug(ComplianceRegulation) == "compliance" + "-" + "regulation"
  {
    assert ToLowerCase(PillarName(ComplianceRegulation)) == "compliance" + " & " + "regulation";
    NameSlug(ComplianceRegulation, "compliance", " & ", "regulation");
  }

  lemma SlugOfTechnologyOperations()
    ensures PillarSlug(TechnologyOperations) == NavigationSlug(TechnologyOperations)
  {
    ComputedSlugOfTechnologyOperations();
    NavigationSlugWords();
  }

  lemma ComputedSlugOfTechnologyOperations()
    ensures PillarSlug(TechnologyOperations) == "technology" + "-" + "operations"
  {
    assert ToLowerCase(PillarName(TechnologyOperations)) == "technology" + " & " + "operations";
    NameSlug(TechnologyOperations, "technology", " & ", "operations");
  }

  lemma SlugOfPracticeManagement()
    ensures PillarSlug(PracticeManagement) == NavigationSlug(PracticeManagement)
  {
    ComputedSlugOfPracticeManagement();
    NavigationSlugWords();
  }

  lemma ComputedSlugOfPracticeManagement()
    ensures PillarSlug(PracticeManagement) == "practice" + "-" + "management"
  {
    assert ToLowerCase(PillarName(PracticeManagement)) == "practice" + " " + "management";
    NameSlug(PracticeManagement, "practice", " ", "management");
  }

  lemma SlugOfClientStrategy()
    ensures PillarSlug(ClientStrategy) == NavigationSlug(ClientStrategy)
  {
    ComputedSlugOfClientStrategy();
    NavigationSlugWords();
  }

  lemma ComputedSlugOfClientStrategy()
    ensures PillarSlug(ClientStrategy) == "client" + "-" + "strategy"
  {
    assert ToLowerCase(PillarName(ClientStrategy)) == "client" + " " + "strategy";
    NameSlug(ClientStrategy, "client", " ", "strategy");
  }

  lemma SlugOfIndustryInsights()
    ensures PillarSlug(IndustryInsights) == NavigationSlug(IndustryInsights)
  {
    ComputedSlugOfIndustryInsights();
    NavigationSlugWords();
  }

  lemma ComputedSlugOfIndustryInsights()
    ensures PillarSlug(IndustryInsights) == "industry" + "-" + "insights"
  {
    assert ToLowerCase(PillarName(IndustryInsights)) == "industry" + " " + "insights";
    NameSlug(IndustryInsights, "industry", " ", "insights");
  }

  /** The navigation slugs, each as two words joined by a hyphen. */
  lemma NavigationSlugWords()
    ensures NavigationSlug(ComplianceRegulation) == "compliance" + "-" + "regulation"
    ensures NavigationSlug(TechnologyOperations) == "technology" + "-" + "operations"
    ensures NavigationSlug(PracticeManagement) == "practice" + "-" + "management"
    ensures NavigationSlug(ClientStrategy) == "client" + "-" + "strategy"
    ensures NavigationSlug(IndustryInsights) == "industry" + "-" + "insights"
  {
  }

  /** One pillar's slug, from its lower-cased name split into two words. */
  lemma NameSlug(p: Pillar, w1: string, run: string, w2: string)
    requires ToLowerCase(PillarName(p)) == w1 + run + w2
    requires forall i :: 0 <= i < |w1| ==> 'a' <= w1[i] <= 'z'
    requires forall i :: 0 <= i < |w2| ==> 'a' <= w2[i] <= 'z'
    requires run == " " || run == " & "
    ensures PillarSlug(p) == w1 + "-" + w2
  {
    LowerTwoWordSlug(PillarName(p), w1, run, w2);
  }

  lemma LowerTwoWordSlug(name: string, w1: string, run: string, w2: string)
    requires ToLowerCase(name) == w1 + run + w2
    requires forall i :: 0 <= i < |w1| ==> 'a' <= w1[i] <= 'z'
    requires forall i :: 0 <= i < |w2| ==> 'a' <= w2[i] <= 'z'
    requires run == " " || run == " & "
    ensures ReplaceSeparatorRuns(ToLowerCase(name), IsSlugSeparator) == w1 + "-" + w2
  {
    forall i | 0 <= i < |run| ensures IsSlugSeparator(run[i]) {
      assert run[i] == ' ' || run[i] == '&';
    }
    TwoWordSlug(w1, run, w2, IsSlugSeparator);
  }

  /** Distinct pillars query distinct slugs. */
  lemma PillarSlugInjective(p: Pillar, q: Pillar)
    requires p != q
    ensures PillarSlug(p) != PillarSlug(q)
  {
    PillarSlugsMatchNavigation(p);
    PillarSlugsMatchNavigation(q);
    assert NavigationSlug(p) != NavigationSlug(q);
  }

  // ---------------------------------------------------------------------
  // Industry insights
  // ---------------------------------------------------------------------

  /** On success the industry-insights list is the first `limit` articles
      (3 by default) of the CMS list for that pillar, which is what
      `getArticlesByPillar` returns for it, so it is a prefix of that
      list. */
  lemma InsightsArePillarPrefix(env: Env, cms: Cms, mock: MockData, limit: Option<int>, d: seq<ArticleRecord>)
    requires UseStrapi(env)
    requires ArticlesByPillar(cms, IndustryInsightsSlug) == Ok(d)
    requires limit.GetOr(DefaultInsightsLimit) >= 0
    ensures var all := GetArticlesByPillar(env, cms, mock, IndustryInsights);
      var n := limit.GetOr(DefaultInsightsLimit);
      var r := GetIndustryInsightsArticles(env, cms, mock, limit);
      |r| == (if n < |all| then n else |all|) && r == all[..|r|]
  {
    PillarSlugsMatchNavigation(IndustryInsights);
    var ctx := TransformContext(env);
    var n := limit.GetOr(DefaultInsightsLimit);
    SliceHead(d, n);
    var all := TransformArticles(ctx, d);
    assert GetArticlesByPillar(env, cms, mock, IndustryInsights) == all;
    var r := TransformArticles(ctx, Slice(d, 0, n));
    assert GetIndustryInsightsArticles(env, cms, mock, limit) == r;
    assert r == all[..|r|];
  }
}
