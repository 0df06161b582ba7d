# Acumen blogs: content access layer and home-page interaction, in Dafny

This project models the part of the Acumen blogs site that does more than lay
out markup:

- **The CMS client** (`lib/strapi.ts`):
  - the base URL and `getStrapiMediaUrl`;
  - the query that `getArticles` builds with `URLSearchParams`, and the
    queries its callers ask for (featured, recent, by pillar, by slug);
  - the transforms that flatten CMS records into the domain records.
- **The unified data service** (`lib/data-service.ts`):
  - the eight content operations and `getFeaturedArticle`;
  - their common rule: ask the CMS when a CMS URL is configured, and fall
    back to the mock data when it is not configured, when the call fails,
    or, for a single article, when nothing is found;
  - the pillar slug, the industry-insights slice and the mock slug lookup.
- **The domain records** (`types/index.ts`).
- **Three home-page components:**
  - the hero carousel: slides, pills, arrows, autoplay and counter;
  - the recent-articles section: tabs, filter, first page, count line and
    loading flag;
  - the newsletter form: the email check and its status machine.

Modules follow the source files:

| module | models |
|---|---|
| `Types` | `types/index.ts` |
| `Strapi` | the records and transforms of `lib/strapi.ts` |
| `StrapiQuery` | `getArticles`' query construction and `URLSearchParams.set` |
| `StrapiClient` | the request functions of `lib/strapi.ts` |
| `DataService` | `lib/data-service.ts` |
| `HeroSection` | `components/home/HeroSection.tsx` |
| `RecentArticles` | `components/home/RecentArticlesSection.tsx` |
| `NewsletterForm` | `components/forms/NewsletterForm.tsx` |

`Options`, `JsText`, `JsValues` and `JsArray` hold the JavaScript built-ins
the code relies on:

- the truncating `%`;
- `String()` and `toString()` on integers and on objects;
- `padStart`;
- the `\s` class;
- `find`, `filter` and `slice`.

Pure code is modelled as functions and lemmas. Component state that the
handlers change is modelled as a class whose methods update its fields.
The `URLSearchParams` object that `getArticles` fills step by step is a
class too. Its `forEach` loops are methods proved equal to the functional
query.

Modelling choices:

- **The CMS.** It is a value of type `Cms` that answers each request with
  `Ok(data)` or `Err`. `Err` covers a transport failure, a non-success
  status and a malformed payload, which the code treats alike. The articles
  request is a function of the query pairs, so the lemmas can state which
  query each operation sends.
- **The environment and the mock data.** `NEXT_PUBLIC_STRAPI_URL`,
  `JSON.stringify` and the mock-data accessors are parameters.
- **Article pillars.** `Article.pillar` is a string.
  - Both `transformArticle` and `transformPillar` cast the CMS pillar name
    to `Pillar` without a check. A name outside the five therefore reaches
    the presentation layer unchanged (`Strapi.UnknownPillarPassesThrough`).
  - "Industry Insights" is used only when the pillar relation is missing.
- **Pillar filters.** `getArticlesByPillar` builds a `$eq` filter on the
  pillar slug (`lib/strapi.ts:205`), but `getArticles` does not send it
  (see Findings).
  - `StrapiClient.ArticlesByPillar` sends the query as written, and the
    data service uses it.
  - `StrapiClient.ArticlesByPillarCorrected` sends the corrected query.
  - `StrapiClient.CorrectedPillarRequestDiffers` shows that the two are
    different requests.

## Model

| member | source | states |
|---|---|---|
| Types.PillarsClosed | types/index.ts:1-6 | `Pillar` is exactly five names, listed once each, pairwise distinct; a string is a pillar name iff it is the name of some pillar |
| Strapi.StrapiUrl | lib/strapi.ts:6 | the CMS base is the configured setting when it is a non-empty string; an unset or empty setting gives the local default; the base is never empty |
| Strapi.MediaUrl | lib/strapi.ts:119-123 | an absent or empty url gives ""; a url starting with "http" is returned unchanged; any other url is appended to the base; with an absolute base every non-empty result starts with "http" |
| Strapi.MediaUrlPrefixIsNotScheme | lib/strapi.ts:121 | the "http" test is a bare prefix test: the relative path "http-x/a.png" is returned without the base |
| Strapi.MediaUrlIdempotent | lib/strapi.ts:119-123 | with an absolute base, resolving an already resolved url changes nothing |
| Strapi.TransformAuthor | lib/strapi.ts:227-241 | the id reads back as the record id; name, title, bio and the links are carried over; the photo is the resolved CMS url, or the author placeholder when there is no photo |
| Strapi.TransformTag | lib/strapi.ts:243-250 | the id reads back as the record id; name and slug are carried over |
| Strapi.TransformPillar | lib/strapi.ts:252-254 | the result is the CMS name itself: the cast adds no check, so it is a pillar name exactly when the CMS name is |
| Strapi.TransformTags | lib/strapi.ts:269-271 | a missing tag relation gives no tags; otherwise one transformed tag per record, in order |
| Strapi.TransformArticle | lib/strapi.ts:256-294 | each field is either the matching record field or its default: the unknown author, no tags, "Industry Insights" when there is no pillar, the article placeholder; string content is kept and other content is stringified |
| Strapi.UnknownAuthorIsTransformedSentinel | lib/strapi.ts:259-267 | the sentinel author is exactly what `transformAuthor` makes of an id-0 "Unknown Author" record without photo or links |
| Strapi.TransformArticlePillarWellTyped | lib/strapi.ts:273-275 | a transformed article has one of the five pillars iff the record has no pillar or names one of the five |
| Strapi.UnknownPillarPassesThrough | lib/strapi.ts:273-275 | a CMS pillar named "Crypto" reaches the article unchanged, and it is not a pillar name |
| Strapi.TransformArticleImagesAbsolute | lib/strapi.ts:287-289 | with an absolute base, the featured image and the author photo are empty or start with "http" |
| JsText.ParseIntToString | lib/strapi.ts:230 | `toString()` of an integer id reads back as the same integer |
| JsText.IntToStringInjective | lib/strapi.ts:246 | distinct record ids give distinct string ids |
| JsText.JsRemainder | components/home/HeroSection.tsx:35 | `%` truncates: a non-negative dividend gives a remainder in [0, \|b\|), a negative one a remainder in (-\|b\|, 0]; the dividend minus the remainder is a multiple of the divisor |
| JsText.JsRemainderSign | components/home/HeroSection.tsx:47 | negating the dividend negates the remainder |
| JsValues.ToJsString | lib/strapi.ts:159 | `String(v)` returns a string value unchanged and turns every plain object into "[object Object]" |
| JsValues.ObjectEntries | lib/strapi.ts:156-158 | `Object.entries` lists an object's properties in order, and an array's elements under their decimal indexes |
| JsArray.FindIndex | lib/data-service.ts:98 | -1 iff no element qualifies; otherwise the position of the first element that qualifies |
| JsArray.Find | lib/data-service.ts:98 | `undefined` iff no element qualifies; otherwise the first element that qualifies |
| JsArray.Filter | components/home/RecentArticlesSection.tsx:33 | keeps exactly the elements that satisfy the predicate |
| JsArray.FilterAppend | components/home/RecentArticlesSection.tsx:33 | filtering distributes over concatenation, so relative order is kept |
| JsArray.SliceHead | components/home/RecentArticlesSection.tsx:36 | `slice(0, k)` is the first min(k, n) elements |
| StrapiQuery.SetParamGet | lib/strapi.ts:135 | after `set(name, v)`, `get(name)` is v and every other name keeps its value |
| StrapiQuery.SetParamNames | lib/strapi.ts:135 | `set` adds the name once and never stores a name twice |
| StrapiQuery.SetAllGet | lib/strapi.ts:142-165 | after a series of `set` calls, the last value set for a name wins, and names never set keep their value |
| StrapiQuery.SetAllUnique | lib/strapi.ts:142-165 | a series of `set` calls keeps names unique |
| StrapiQuery.ArticlesQuery | lib/strapi.ts:126-169 | the query `getArticles` sends names each parameter once |
| StrapiQuery.QueryPageSize | lib/strapi.ts:134-136 | `pagination[pageSize]` is sent iff the limit is truthy (present and not 0), as the limit's numeral |
| StrapiQuery.QuerySortDefaultPopulate | lib/strapi.ts:138-140 | a non-empty sort is sent unchanged, whatever is populated or filtered |
| StrapiQuery.PopulateNamed | lib/strapi.ts:142-153 | every population pair is named `populate` or `populate[i]`, so it never overrides another parameter |
| StrapiQuery.SetParam | lib/strapi.ts:135 | `URLSearchParams.set`; no contract of its own: SetParamGet and SetParamNames state what it does |
| StrapiQuery.QueryDefaultPopulate | lib/strapi.ts:150-153 | with no populate option, or an empty one, `populate=*` is sent |
| StrapiQuery.QueryPopulateList | lib/strapi.ts:143-146 | a list of relations is sent as `populate[i]` in order, and bare `populate` is then not sent |
| StrapiQuery.QueryScalarFilter | lib/strapi.ts:161-163 | a filter value that is not an object is sent under `filters[key]`, converted with `String` |
| StrapiQuery.QueryOperatorFilter | lib/strapi.ts:157-160 | an object filter value with distinct operators sends each operator under `filters[key][op]` with its `String` value |
| StrapiQuery.RecentQuery | lib/strapi.ts:190-199 | the recent query sorts newest first, populates everything, and sends a page size only for a non-zero limit |
| StrapiQuery.AllArticlesQuery | lib/data-service.ts:174 | all articles are requested as the 100 most recent |
| StrapiQuery.FeaturedQuery | lib/strapi.ts:181-188 | the featured query asks for one article with `filters[isFeatured][$eq]=true`, every relation populated |
| StrapiQuery.PillarFilterFlattenedTwoLevels | lib/strapi.ts:155-165 | as written, the pillar query sends "[object Object]" under `filters[pillar][slug]` and no `$eq` filter, whatever the slug |
| StrapiQuery.PillarAssignments | lib/strapi.ts:204-207 | the pillar query makes exactly three `set` calls: sort, populate, and the "[object Object]" filter |
| StrapiQuery.DeepArticlesQuery | lib/strapi.ts:126-169 | the query with filters flattened to any depth also names each parameter once |
| StrapiQuery.FlattenAgreesOnTwoLevels | lib/strapi.ts:155-165 | for filters at most two levels deep, flattening to any depth sets exactly the pairs the code sets |
| StrapiQuery.FeaturedQueryUnchanged | lib/strapi.ts:181-188 | the corrected flattening leaves the featured query unchanged |
| StrapiQuery.DeepPillarFilter | lib/strapi.ts:201-210 | corrected, the pillar query sends the slug under `filters[pillar][slug][$eq]` and nothing under `filters[pillar][slug]` |
| StrapiQuery.DeepPillarAssignments | lib/strapi.ts:204-207 | the corrected pillar query sets sort, populate and the `$eq` slug filter, in that order |
| StrapiQuery.SlugQueryPairs | lib/strapi.ts:171-179 | the slug query filters with `$eq` on the slug and populates every relation |
| StrapiQuery.SearchParams.constructor | lib/strapi.ts:132 | a new `URLSearchParams` holds no pairs |
| StrapiQuery.SearchParams.Set | lib/strapi.ts:135 | `set` updates the pairs as `SetParam` describes |
| StrapiQuery.SetPopulate | lib/strapi.ts:142-153 | the populate branch makes the populate assignments in order |
| StrapiQuery.SetOperators | lib/strapi.ts:158-160 | the inner loop makes one assignment per operator, in order |
| StrapiQuery.SetFilters | lib/strapi.ts:155-165 | the outer loop makes the filter assignments of every property, in order |
| StrapiQuery.BuildArticlesQuery | lib/strapi.ts:132-165 | the step-by-step construction yields exactly `ArticlesQuery(p)` |
| StrapiClient.FeaturedArticle | lib/strapi.ts:181-188 | rejects iff the featured request fails; otherwise the first record, or `null` for an empty list |
| StrapiClient.RecentArticles | lib/strapi.ts:190-199 | no contract of its own: sends the recent query, whose pairs StrapiQuery.RecentQuery states |
| StrapiClient.ArticlesByPillar | lib/strapi.ts:201-210 | no contract of its own: sends the pillar query as written, whose pairs StrapiQuery.PillarFilterFlattenedTwoLevels states |
| StrapiClient.ArticlesByPillarCorrected | lib/strapi.ts:201-210 | no contract of its own: sends the corrected pillar query, whose pairs StrapiQuery.DeepPillarFilter states |
| StrapiClient.CorrectedPillarRequestDiffers | lib/strapi.ts:201-210 | the pillar request as written and the corrected one are different queries |
| StrapiClient.ArticleBySlug | lib/strapi.ts:171-179 | no contract of its own: sends the slug query, whose pairs StrapiQuery.SlugQueryPairs states |
| DataService.Resolve | lib/data-service.ts:39-49 | the result is the mock result unless the CMS is configured and its call resolved with a usable value; then it is that value |
| DataService.TransformArticles | lib/data-service.ts:59 | `map(transformArticle)`: one transformed article per record, in order |
| DataService.TransformAuthors | lib/data-service.ts:124 | `map(transformAuthor)`: one transformed author per record, in order |
| DataService.TransformTagList | lib/data-service.ts:139 | `map(transformTag)`: one transformed tag per record, in order |
| DataService.GetFeaturedArticle | lib/data-service.ts:38-50 | the mock featured article without a CMS, on a failed call or on an empty CMS answer; otherwise the transformed first CMS record |
| DataService.GetRecentArticles | lib/data-service.ts:55-65 | the mock recent list without a CMS or on a failed call; otherwise the CMS list transformed one to one |
| DataService.GetArticlesByPillar | lib/data-service.ts:70-82 | the mock list of the pillar without a CMS or on a failed call; otherwise the CMS list for the pillar's slug, transformed one to one |
| DataService.GetArticleBySlug | lib/data-service.ts:87-99 | the mock lookup without a CMS, on a failed call or on an empty CMS answer; otherwise the transformed first CMS record |
| DataService.GetIndustryInsightsArticles | lib/data-service.ts:104-115 | the mock list without a CMS or on a failed call; otherwise the first min(limit, n) CMS records of the pillar, transformed in order |
| DataService.GetAuthors | lib/data-service.ts:120-130 | the mock authors without a CMS or on a failed call; otherwise one transformed author per CMS record, in order |
| DataService.GetTags | lib/data-service.ts:135-145 | the mock tags without a CMS or on a failed call; otherwise one transformed tag per CMS record, in order |
| DataService.GetPillars | lib/data-service.ts:150-166 | the five default names without a CMS or on a failed call; otherwise the CMS names, one per record, in order |
| DataService.GetAllArticles | lib/data-service.ts:171-181 | every mock article without a CMS or on a failed call; otherwise the 100-article recent CMS list, transformed one to one |
| DataService.MockModeIgnoresCms | lib/data-service.ts:33-181 | without a CMS URL, every operation returns its mock result, whatever the CMS would answer |
| DataService.FailureFallsBackToMock | lib/data-service.ts:38-181 | when every CMS request fails, each article operation returns what it returns with no CMS configured |
| DataService.RecordFailureFallsBackToMock | lib/data-service.ts:120-166 | the same holds for authors, tags and pillars |
| DataService.EmptySingleResultsFallThrough | lib/data-service.ts:38-99 | an empty CMS answer makes the featured and by-slug lookups fall through to the mock data |
| DataService.EmptyListsAreReturned | lib/data-service.ts:55-166 | an empty CMS list is returned as it is; the list operations do not fall back on it |
| DataService.FeaturedFromCms | lib/data-service.ts:38-50 | on success the featured article is the transformed first record, and the request asks for one featured article |
| DataService.RecentFromCms | lib/data-service.ts:55-65 | on success the recent list is the CMS list transformed one to one, in order; the request sorts newest first with a default page size of 9 |
| DataService.AllArticlesAreRecentHundred | lib/data-service.ts:171-181 | on success `getAllArticles` equals `getRecentArticles(100)` |
| DataService.MockSlugLookup | lib/data-service.ts:98 | the mock lookup finds the first article with the slug, and finds nothing iff no article has it |
| DataService.SlugFromCms | lib/data-service.ts:87-99 | on success the article is the transformed first record, and the request filters on that exact slug |
| DataService.DefaultPillarsAreAllPillars | lib/data-service.ts:159-165 | the fallback pillar list names every pillar once, in declaration order |
| DataService.PillarsFromCms | lib/data-service.ts:150-154 | the i-th pillar is the i-th CMS record's name, unchecked: a name outside the five stays one |
| DataService.DropSeparators | lib/data-service.ts:74 | after dropping a leading run, the text is shorter or equal and does not start with a separator |
| DataService.DropSeparatorsSuffix | lib/data-service.ts:74 | only separators are dropped, and what is left is a suffix |
| DataService.ReplaceSeparatorRuns | lib/data-service.ts:74 | replacing separator runs never lengthens the text |
| DataService.NoSeparatorsRemain | lib/data-service.ts:74 | no `&` or whitespace survives the slug replacement |
| DataService.PillarSlug | lib/data-service.ts:74 | a pillar's slug is no longer than its name and holds no `&` or whitespace |
| DataService.TwoWordSlug | lib/data-service.ts:74 | two words around one run of separators become the words joined by a single hyphen |
| DataService.PillarSlugsMatchNavigation | lib/data-service.ts:74 | each pillar's computed slug is the slug of its navigation link, and the literal "industry-insights" of line 107 is the computed one |
| DataService.PillarSlugInjective | lib/data-service.ts:74 | distinct pillars query distinct slugs |
| DataService.InsightsArePillarPrefix | lib/data-service.ts:104-115 | on success the industry-insights list is the first `limit` (default 3) articles of that pillar's list |
| HeroSection.PillarNamesSpec | components/home/HeroSection.tsx:15-21 | the carousel's list is the five pillar names, once each, in declaration order |
| HeroSection.FirstOfPillarIsFirst | components/home/HeroSection.tsx:28 | a found article has the pillar and is the first loaded article with it |
| HeroSection.FeaturedFromPillars | components/home/HeroSection.tsx:27-29 | at most as many slides as listed pillars; each slide's pillar is listed, and the slide is the first article of that pillar |
| HeroSection.FeaturedComplete | components/home/HeroSection.tsx:27-29 | every listed pillar that has an article has a slide |
| HeroSection.FeaturedDistinct | components/home/HeroSection.tsx:27-29 | distinct pillar names give slides with distinct pillars |
| HeroSection.FeaturedArticlesSpec | components/home/HeroSection.tsx:27-29 | at most five slides, each of one of the five pillars, on distinct pillars, each the first article of its pillar |
| HeroSection.FeaturedArticlesComplete | components/home/HeroSection.tsx:27-29 | every pillar that has a loaded article has its slide |
| HeroSection.FeaturedArticles | components/home/HeroSection.tsx:27-29 | no contract of its own: the slides over the fixed pillar list, stated by FeaturedArticlesSpec, FeaturedArticlesComplete and FeaturedArticlesInPillarOrder |
| HeroSection.PositionIn | components/home/HeroSection.tsx:15-21 | the position of a name in the pillar list: below the list's length iff the name is listed, and then the first place holding it |
| HeroSection.FeaturedInOrder | components/home/HeroSection.tsx:27-29 | with distinct pillar names, the slides' pillars come in the order of the names |
| HeroSection.FeaturedArticlesInPillarOrder | components/home/HeroSection.tsx:15-29 | the slides follow the fixed pillar order, whatever the order of the loaded articles |
| HeroSection.SlidesFromArticles | components/home/HeroSection.tsx:27-29 | every slide is a loaded article |
| HeroSection.NoArticlesNoSlides | components/home/HeroSection.tsx:56-58 | before anything loads there is no slide, so the section renders nothing |
| HeroSection.FirstWord | components/home/HeroSection.tsx:166 | `split(' ')[0]` is the prefix before the first space, with no space in it |
| HeroSection.PillOf | components/home/HeroSection.tsx:166 | each pillar's pill reads its first word |
| HeroSection.PillLabelsDistinct | components/home/HeroSection.tsx:166 | the five pillars get five different pill labels |
| HeroSection.SlidePillsDistinct | components/home/HeroSection.tsx:156-168 | no two pills under the carousel share a label |
| HeroSection.NextIndex | components/home/HeroSection.tsx:52 | from a slide, the next index is a slide |
| HeroSection.PreviousIndex | components/home/HeroSection.tsx:47 | from a slide, the previous index is a slide |
| HeroSection.Wrapping | components/home/HeroSection.tsx:46-54 | next moves one slide on and wraps from the last to the first; previous moves one back and wraps from the first to the last |
| HeroSection.NextPreviousInverse | components/home/HeroSection.tsx:46-54 | both arrows stay on a slide and undo each other |
| HeroSection.AdvanceWithinRound | components/home/HeroSection.tsx:35 | within one round, m ticks land m slides on, wrapping once |
| HeroSection.FullCycle | components/home/HeroSection.tsx:31-39 | autoplay visits every slide once in n ticks and is then back where it started |
| HeroSection.CounterReadsBack | components/home/HeroSection.tsx:185 | for up to 99 slides the counter is "dd / dd", and its numbers read back as the one-based position and the slide count |
| HeroSection.SlideCounterReadsBack | components/home/HeroSection.tsx:185 | the counter of every slide of the carousel reads back |
| HeroSection.Counter | components/home/HeroSection.tsx:185 | no contract of its own: the counter text, stated by CounterReadsBack |
| HeroSection.PaddedReadsBack | components/home/HeroSection.tsx:185 | `padStart(2, '0')` of a number below 100 is two digits that read back as the number |
| HeroSection.Remainder | components/home/HeroSection.tsx:35 | `%` gives NaN iff the dividend is NaN or the divisor is 0; otherwise it gives the truncating remainder |
| HeroSection.TickAsWritten | components/home/HeroSection.tsx:35 | no contract of its own: `(prev + 1) % length` on numbers that may be NaN, stated by SlowLoadStrandsCarousel and TickAgreesOnceLoaded |
| HeroSection.SlideAt | components/home/HeroSection.tsx:60 | indexing the slides gives an article iff the index is a slide position |
| HeroSection.SlowLoadStrandsCarousel | components/home/HeroSection.tsx:31-39 | as written, a tick before the load makes the index NaN, it stays NaN, and the current slide is `undefined` for good |
| HeroSection.Tick | components/home/HeroSection.tsx:35 | corrected tick: unchanged with no slides, otherwise the next slide |
| HeroSection.TickAgreesOnceLoaded | components/home/HeroSection.tsx:35 | the written tick and the corrected one agree whenever slides exist; they differ only with none |
| HeroSection.SlowLoadWithTick | components/home/HeroSection.tsx:31-39 | with the corrected tick a slow load leaves the carousel on a slide |
| HeroSection.AdvanceInRange | components/home/HeroSection.tsx:35 | any number of ticks from a slide lands on a slide |
| HeroSection.HeroCarousel.constructor | components/home/HeroSection.tsx:11-13 | starts on index 0, autoplaying, with nothing loaded |
| HeroSection.HeroCarousel.Load | components/home/HeroSection.tsx:23-25 | the fetched articles are stored; the index stays valid |
| HeroSection.HeroCarousel.GoToSlide | components/home/HeroSection.tsx:41-44 | a pill click shows that slide and stops autoplay |
| HeroSection.HeroCarousel.GoToPrevious | components/home/HeroSection.tsx:46-49 | the left arrow moves to the previous index and stops autoplay |
| HeroSection.HeroCarousel.GoToNext | components/home/HeroSection.tsx:51-54 | the right arrow moves to the next index and stops autoplay |
| HeroSection.HeroCarousel.AutoAdvance | components/home/HeroSection.tsx:31-39 | an interval tick while autoplaying moves the index by the corrected tick and keeps it valid |
| HeroSection.HeroCarousel.CurrentArticle | components/home/HeroSection.tsx:56-60 | nothing iff there is no slide; otherwise the slide at the index, which is a loaded article |
| HeroSection.HeroCarousel.CounterText | components/home/HeroSection.tsx:184-186 | the counter is 7 characters whose numbers read back as the one-based position and the slide count |
| RecentArticles.TabsAreExhaustive | components/home/RecentArticlesSection.tsx:21-28 | "All" and then the five pillars in order; every selection has a tab, and the labels are distinct, so exactly one tab is highlighted |
| RecentArticles.FilteredSpec | components/home/RecentArticlesSection.tsx:31-33 | "All" keeps the list unchanged; a pillar keeps exactly the articles of that pillar |
| RecentArticles.FilteredKeepsOrder | components/home/RecentArticlesSection.tsx:31-33 | the selection distributes over concatenation and decides each article on its own, so order is kept |
| RecentArticles.Filtered | components/home/RecentArticlesSection.tsx:31-33 | the selection is never longer than the list, and "All" keeps the list as it is |
| RecentArticles.Displayed | components/home/RecentArticlesSection.tsx:36 | at most nine articles, and never more than are selected |
| RecentArticles.CountText | components/home/RecentArticlesSection.tsx:88-89 | no contract of its own: the count line, stated by CountTextReadsBack and SuffixOnlyWhenFiltered |
| RecentArticles.DisplayedIsFirstPage | components/home/RecentArticlesSection.tsx:36 | the grid shows the first min(9, \|filtered\|) selected articles |
| RecentArticles.EmptyMessageIffNoneSelected | components/home/RecentArticlesSection.tsx:73-83 | the empty-state message shows iff no loaded article is selected; for "All", iff nothing is loaded |
| RecentArticles.CountTextReadsBack | components/home/RecentArticlesSection.tsx:88 | the count line's two numbers read back as min(9, f) and f |
| RecentArticles.SuffixOnlyWhenFiltered | components/home/RecentArticlesSection.tsx:88-89 | the line ends in " in <pillar>" for a pillar tab, and in " articles" iff "All" is selected |
| RecentArticles.RecentArticlesSection.constructor | components/home/RecentArticlesSection.tsx:10-12 | starts on "All", with nothing loaded and loading |
| RecentArticles.RecentArticlesSection.SelectTab | components/home/RecentArticlesSection.tsx:59 | a tab click selects that tab |
| RecentArticles.RecentArticlesSection.FetchResolved | components/home/RecentArticlesSection.tsx:15-17 | a resolved fetch stores the data and ends loading |
| RecentArticles.RecentArticlesSection.FetchRejected | components/home/RecentArticlesSection.tsx:18 | a rejected fetch ends loading and leaves the list as it was, which is empty while the fetch is pending |
| RecentArticles.RecentArticlesSection.DisplayedArticles | components/home/RecentArticlesSection.tsx:36 | the grid is `Displayed` of the section's state: at most nine articles, each loaded and selected |
| RecentArticles.RecentArticlesSection.PendingShowsEmptyMessage | components/home/RecentArticlesSection.tsx:12 | the loading flag is never read: while the fetch is pending the empty-state message shows |
| NewsletterForm.StepKeepsInvariant | components/forms/NewsletterForm.tsx:21 | one more character of the scan keeps every flag's meaning with respect to the pattern |
| NewsletterForm.DomainStep | components/forms/NewsletterForm.tsx:21 | a non-space run after an `@` reaches one character further exactly when it is extended by a non-space |
| NewsletterForm.MatchStep | components/forms/NewsletterForm.tsx:21 | a match ends one character further exactly when a `.` after such a run is followed by a non-space |
| NewsletterForm.TestEmailPattern | components/forms/NewsletterForm.tsx:21 | the one-pass test is true iff some substring matches `\S+@\S+\.\S+` |
| NewsletterForm.PatternNeedsFiveCharacters | components/forms/NewsletterForm.tsx:21 | a match needs at least five characters |
| NewsletterForm.PatternUnanchored | components/forms/NewsletterForm.tsx:21 | the test is unanchored: text around a match keeps it a match |
| NewsletterForm.PatternExamples | components/forms/NewsletterForm.tsx:21 | " a@b.c " passes; "a@b" and "a @b.c" fail |
| NewsletterForm.Form.constructor | components/forms/NewsletterForm.tsx:13-15 | starts idle with an empty address and no message |
| NewsletterForm.Form.Type | components/forms/NewsletterForm.tsx:56 | typing replaces the address |
| NewsletterForm.Form.Submit | components/forms/NewsletterForm.tsx:17-27 | an address that is empty or fails the pattern shows the error; any other starts loading and keeps the message |
| NewsletterForm.Form.SubscribeCompleted | components/forms/NewsletterForm.tsx:30-33 | after a second: success, the thanks message, and a cleared field |
| NewsletterForm.Form.ResetAfterSuccess | components/forms/NewsletterForm.tsx:36-39 | three seconds later: idle with no message |
| NewsletterForm.Form.ButtonLabel | components/forms/NewsletterForm.tsx:66-68 | "Subscribing..." iff the controls are disabled, "Subscribe" otherwise |
| NewsletterForm.Form.ShownMessage | components/forms/NewsletterForm.tsx:70-76 | a paragraph appears iff there is a message, with that text; it is green iff the status is success, and then it is the thanks message; the error is red |
| NewsletterForm.StaleErrorWhileLoading | components/forms/NewsletterForm.tsx:27 | a valid submit right after an error keeps the red error text on screen while loading |

## Left out

- HTTP and the response envelope (`lib/strapi.ts:93-116`):
  - `fetchStrapi`'s transport, headers and bearer token are not modelled;
  - parsing the envelope is not modelled either;
  - each request resolves with its `data` or fails.
- Query string encoding: `URLSearchParams.toString` and percent-encoding are not modelled. A query is the list of its name/value pairs.
- The authors, tags and pillars requests use fixed paths. The model answers them without a query.
- Console logging in the fallback handlers is left out: it has no effect on results.
- `process.env` is read once at module load. Here it is the `Env` parameter.
- `JSON.stringify` is a function parameter of the transform context.
- `lib/mock-data.ts` is not part of this model. Its accessors are fields of `MockData`.
- CMS record timestamps, media size variants and pagination metadata are not modelled. Records of the wrong shape are folded into a failed request.
- Numbers are integers, except for the NaN the autoplay tick produces.
  - A non-integral `limit` or `readTime` is not modelled.
- JsText.ToLowerCase: lowers only ASCII letters, because the pillar names and slugs are ASCII; full Unicode case mapping is not modelled.
- Timers are events:
  - the autoplay interval is the `AutoAdvance` method;
  - the newsletter's timeouts are `SubscribeCompleted` and `ResetAfterSuccess`;
  - delays, clearing the interval, and re-creating it when the slide count changes are not modelled.
- HeroSection.HeroCarousel.GoToPrevious, GoToNext, GoToSlide: require at least one slide (and a slide index), because the section renders no controls without slides.
- NewsletterForm.Form.Type and Submit: require the controls to be enabled, because the input and the button are disabled while loading.
- The catch on `HeroSection.tsx:24` never runs, because `getAllArticles` does not reject. A failed fetch leaves the carousel empty, as before `Load`.
- Markup, styling, links and images are not modelled, nor are the other components and pages (`IndustryInsightsSection`, `ArticleCard`, `PillarBadge`, `SocialShareButtons`, the layout and the blog page). They only render data-service results.

## Findings

| source | as written | input that shows it | evidently intended | confidence | as-written member | corrected member |
|---|---|---|---|---|---|---|
| components/home/HeroSection.tsx:31-39 | the interval starts before the articles load and computes `(prev + 1) % 0`, which is NaN; once the articles arrive, `featuredArticles[NaN]` is `undefined` and reading its pillar throws | the fetch takes longer than one six-second tick | no autoplay step while there are no slides | not executed | HeroSection.SlowLoadStrandsCarousel | HeroSection.Tick (used by HeroSection.HeroCarousel.AutoAdvance) |
| lib/strapi.ts:155-165 | filters are flattened two levels only; the three-level pillar filter of `getArticlesByPillar` (line 205) sends `filters[pillar][slug]=[object Object]` and no `$eq` condition | `getArticlesByPillar("client-strategy")` | `filters[pillar][slug][$eq]=client-strategy` | not executed | StrapiQuery.PillarFilterFlattenedTwoLevels | StrapiQuery.DeepPillarFilter (sent by StrapiClient.ArticlesByPillarCorrected) |
