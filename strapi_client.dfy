/** The calls of the CMS client, with the network left out: a request either
    resolves with the `data` of the response envelope or fails (transport
    failure, a non-success status, or a payload of the wrong shape). */
module StrapiClient {
  import opened Options
  import opened Strapi
  import opened StrapiQuery

  /** How a client call ends: resolved with a value, or rejected. */
  datatype Outcome<+T> = Ok(value: T) | Err

  /** What the content API answers, per request. */
  datatype Cms = Cms(
    articles: Query -> Outcome<seq<ArticleRecord>>,
    authors: Outcome<seq<AuthorRecord>>,
    tags: Outcome<seq<TagRecord>>,
    pillars: Outcome<seq<PillarRecord>>)

  /** `getFeaturedArticle`: the first record of the featured query, or
      `null` when the list is empty. */
  function FeaturedArticle(cms: Cms): (r: Outcome<Option<ArticleRecord>>)
    ensures r.Err? <==> cms.articles(ArticlesQuery(FeaturedParams)).Err?
    ensures r.Ok? ==> var d := cms.articles(ArticlesQuery(FeaturedParams)).value;
      r.value == if |d| > 0 then Some(d[0]) else None
  {
    match cms.articles(ArticlesQuery(FeaturedParams))
    case Ok(d) => Ok(if |d| > 0 then Some(d[0]) else None)
    case Err => Err
  }

  /** `getRecentArticles(limit)`. */
  function RecentArticles(cms: Cms, limit: int): Outcome<seq<ArticleRecord>> {
    cms.articles(ArticlesQuery(RecentParams(limit)))
  }

  /** `getArticlesByPillar(slug)` as written: the query goes through
      `getArticles`, whose flattening stops at two levels, so the slug is
      sent under `filters[pillar][slug]` with an object value
      (`StrapiQuery.PillarFilterFlattenedTwoLevels`). */
  function ArticlesByPillar(cms: Cms, slug: string): Outcome<seq<ArticleRecord>> {
    cms.articles(ArticlesQuery(PillarParams(slug)))
  }

  /** `getArticlesByPillar(slug)` with its three-level filter flattened the
      way it is evidently meant to be, so that the CMS sees
      `filters[pillar][slug][$eq]` (`StrapiQuery.DeepPillarFilter`). */
  function ArticlesByPillarCorrected(cms: Cms, slug: string): Outcome<seq<ArticleRecord>> {
    cms.articles(DeepArticlesQuery(PillarParams(slug)))
  }

  /** The pillar request as written and the corrected one are different
      requests: only the corrected one carries the slug under the `$eq`
      operator. */
  lemma CorrectedPillarRequestDiffers(slug: string)
    ensures ArticlesQuery(PillarParams(slug)) != DeepArticlesQuery(PillarParams(slug))
  {
    PillarFilterFlattenedTwoLevels(slug);
    DeepPillarFilter(slug);
  }

  /** `getArticleBySlug(slug)`. */
  function ArticleBySlug(cms: Cms, slug: string): Outcome<seq<ArticleRecord>> {
    cms.articles(SlugQuery(slug))
  }
}
