# Faceted article filtering (Prismic article list and related articles)

A Dafny model of the filtering logic of a small Next.js/Prismic site. Articles
link to a platform ("web", "android", "ios") and to an article type
("first-steps", "tutorials", "other") through Prismic content-relationship
fields, either of which may be empty. Two components filter them:

- `ArticleList` shows one tab per platform and remembers the active one
  (initially "web"). Below the tabs it shows one section per article type that
  has at least one article on the active platform. Each section lists those
  articles, in input order, as links to `/articles/<uid>`.
- `RelatedArticles` lists, for the article shown on a page, the other articles
  with the same platform and the same type. "Other" means a different `uid`.

Files:

- `documents.dfy` (module `Documents`): the documents. `Relationship =
  Unresolved | Resolved(uid)` stands for what `isFilled.contentRelationship`
  decides. `UidOf` is the value of `field.uid`, which is `None` (JavaScript
  `undefined`) for an empty field.
- `seqs.dfy` (module `Seqs`): `Filter`, the order-preserving selection behind
  `Array.prototype.filter`. It also stands for a `map` whose callback returns
  `null` for the dropped elements, since React renders `null` as nothing.
  `Selects` describes the selection without recursion: an increasing index map
  into the input that hits exactly the positions that pass the test.
- `article_list.dfy` (module `ArticleList`): the two tests of the component,
  the visible types, the articles of one section, the rendered sections and the
  link. The class `PlatformTabs` holds the `activePlatform` state.
- `related_articles.dfy` (module `RelatedArticles`): the related-article test
  and the list it produces.
- `scenario.dfy` (module `Scenario`): a worked example with four articles,
  computed through the model.

## Model

| member | source | states |
|---|---|---|
| `Seqs.Filter` | src/slices/Test/ArticleList.tsx:28-37 | the result is at most as long as the input, and holds a value iff the input holds it and the test accepts it |
| `Seqs.FilterSelects` | src/slices/Test/ArticleList.tsx:76-93 | the filtered list is the input with exactly the accepted positions kept, in input order, none dropped |
| `Documents.UidOf` | src/components/RelatedArticles.tsx:27-28 | reading `.uid` from a relationship gives undefined exactly for an empty field, and otherwise the linked uid |
| `ArticleList.GuardsAgree` | src/slices/Test/ArticleList.tsx:30-36 | the `some` test at lines 30-36 and the `null` guard at lines 77-82 are exact negations of each other |
| `ArticleList.FilteredArticleTypes` | src/slices/Test/ArticleList.tsx:28-37 | a type is visible iff it is among the types and some article links to the active platform and to that type's uid |
| `ArticleList.FilteredArticleTypesInOrder` | src/slices/Test/ArticleList.tsx:28-37 | the visible types are the types that pass the test, in the order of the types array, none skipped |
| `ArticleList.SectionArticles` | src/slices/Test/ArticleList.tsx:76-84 | a section lists an article iff it is among the articles and links to the active platform and to the section's type |
| `ArticleList.SectionArticlesInOrder` | src/slices/Test/ArticleList.tsx:76-93 | a section lists the qualifying articles in input order, every one of them |
| `ArticleList.Partition` | src/slices/Test/ArticleList.tsx:77-81 | an article is listed under (platform, type) iff its own links are filled with exactly those uids; an article with an empty link is listed nowhere |
| `ArticleList.VisibleSectionNonEmpty` | src/slices/Test/ArticleList.tsx:28-37 | a type that passes the visibility test has a non-empty article list |
| `ArticleList.Sections` | src/slices/Test/ArticleList.tsx:68-96 | one section per visible type, in order; every section non-empty; each section holds exactly its type's article list (input order, repeats kept); a section lists an article iff it is on the active platform and of that section's type |
| `ArticleList.AtMostOneSection` | src/slices/Test/ArticleList.tsx:68-84 | with distinct type uids, an article is listed in at most one section |
| `ArticleList.NoFallbackFromDefault` | src/slices/Test/ArticleList.tsx:26 | if no article is on "web", the first render shows no section; there is no fallback to another platform |
| `ArticleList.Href` | src/slices/Test/ArticleList.tsx:88 | the link is "/articles/" followed by the article's uid |
| `ArticleList.HrefInjective` | src/slices/Test/ArticleList.tsx:88 | two articles get the same link iff they have the same uid |
| `ArticleList.PlatformTabs.constructor` | src/slices/Test/ArticleList.tsx:26 | the active platform starts as "web" whatever the arrays hold |
| `ArticleList.PlatformTabs.View` | src/slices/Test/ArticleList.tsx:67-97 | every section shown for the current state has at least one article |
| `ArticleList.PlatformTabs.SelectPlatform` | src/slices/Test/ArticleList.tsx:52-57 | after a click, the active platform is the clicked platform's uid, so it is "web" or a known platform's uid; exactly the buttons with that uid are active (line 54); the view is the one for that platform |
| `RelatedArticles.FindRelated` | src/components/RelatedArticles.tsx:23-32 | an article is related iff both its links are filled, they equal the page's links, and its uid differs from the page's; the page itself is never listed |
| `RelatedArticles.FindRelatedInOrder` | src/components/RelatedArticles.tsx:23-32 | the related list keeps input order and truncates nothing |
| `RelatedArticles.UnclassifiedPageHasNone` | src/components/RelatedArticles.tsx:27-28 | a page with an empty platform or type link has no related articles |
| `RelatedArticles.FindRelatedIdempotent` | src/components/RelatedArticles.tsx:23-32 | filtering the related list again for the same page gives the same list |
| `RelatedArticles.RelatedSymmetric` | src/components/RelatedArticles.tsx:24-30 | if B is related to page A and A is among the articles, A is related to page B |
| `Scenario.SectionsOnWeb` | src/slices/Test/ArticleList.tsx:76-84 | in the example, the (web, first-steps) section lists A then B |
| `Scenario.SectionsOnAndroid` | src/slices/Test/ArticleList.tsx:76-84 | in the example, the (android, tutorials) section lists C alone |
| `Scenario.EmptyCell` | src/slices/Test/ArticleList.tsx:76-84 | in the example, the (web, tutorials) section lists nothing |
| `Scenario.TypesOnWeb` | src/slices/Test/ArticleList.tsx:28-37 | in the example, only "first-steps" is visible on "web" |
| `Scenario.RelatedOfA` | src/components/RelatedArticles.tsx:23-32 | in the example, the articles related to A are exactly [B] |

## Behaviour notes

- The active platform starts as "web" (`ArticleList.tsx:26`) and nothing
  replaces it when no article is on "web"; the first render then shows no
  section (`NoFallbackFromDefault`).
- `RelatedArticles` excludes the page by `uid` (`RelatedArticles.tsx:29`), not
  by `id`. Another article that shares the page's uid is dropped as well
  (`FindRelated`).
- `setActivePlatform` is called only from the buttons built from the
  `platforms` array (`ArticleList.tsx:52-56`), so `SelectPlatform` requires a
  platform from that array.
- No platform × type table is built. `SectionArticles(articles, platform,
  type)` computes one cell on demand, and an empty cell is `[]`.

## Left out

- JSX markup, CSS modules, titles (`asText`), icons and images
  (`PrismicNextImage`): presentation only. `PrismicNextLink` is reduced to its
  `href`.
- React keys (`key={article.id}`, `key={platform.id}`): rendering bookkeeping
  with no effect on what is listed.
- React's `useState` re-render mechanics: only the field and its setter are
  modelled, one click at a time. Props are constants of `PlatformTabs`. A
  re-render with new props while the state is kept is not modelled.
- Fetching documents with `createClient`, `getAllByType` and `getByUID`, the
  async server components, static params and metadata mapping: network I/O
  and field copies outside the filtering logic.
- The `platforms` and `articleTypes` props of `RelatedArticles`, which it never
  reads, and its `console.log` calls, which are I/O.
- The constant lists and the icon map in `src/slices/Test/index.tsx`, which no
  logic uses.
- Documents.Relationship: a filled Prismic link to a document that has no uid
  is not modelled; a `Resolved` link always carries a uid. A link to a document
  that no longer exists still counts as filled and is `Resolved`.
