/**
 * The `ArticleList` component: a row of platform tabs, one of which is
 * active, and under it one section per article type that has articles on
 * the active platform, listing those articles as links.
 *
 * The only state is `activePlatform` (class `PlatformTabs`); everything the
 * component renders is a pure function of that state and its three arrays.
 */
module ArticleList {
  import opened Documents
  import opened Seqs

  /** The platform selected when the component mounts. */
  const DefaultPlatform: string := "web"

  /** Path prefix of an article's page. */
  const ArticlesPath: string := "/articles/"

  /**
   * The test inside `articles.some(...)` deciding whether an article puts a
   * type on screen: both links filled, platform and type uids matching.
   */
  predicate Classified(a: Article, platform: string, typeUid: string) {
    && IsFilled(a.articleType)
    && IsFilled(a.platform)
    && a.platform.uid == platform
    && a.articleType.uid == typeUid
  }

  /** The guard under which the per-section map returns `null` for an article. */
  predicate Hidden(a: Article, platform: string, typeUid: string) {
    || !IsFilled(a.articleType)
    || !IsFilled(a.platform)
    || a.platform.uid != platform
    || a.articleType.uid != typeUid
  }

  /** The two tests are written separately in the component; they agree exactly. */
  lemma GuardsAgree(a: Article, platform: string, typeUid: string)
    ensures Hidden(a, platform, typeUid) <==> !Classified(a, platform, typeUid)
  {
  }

  /** `articles.some(...)` for one type. */
  predicate HasArticles(articles: seq<Article>, platform: string, typeUid: string) {
    exists i :: 0 <= i < |articles| && Classified(articles[i], platform, typeUid)
  }

  /** The `filter` callback over article types. */
  function TypeShown(articles: seq<Article>, platform: string): ArticleType -> bool {
    (t: ArticleType) => HasArticles(articles, platform, t.uid)
  }

  /** The `map` callback over articles, with `null` read as "not listed". */
  function ArticleShown(platform: string, typeUid: string): Article -> bool {
    (a: Article) => !Hidden(a, platform, typeUid)
  }

  /**
   * `filteredArticleTypes`: a type gets a section exactly when some article
   * links to the active platform and to that type.
   */
  function FilteredArticleTypes(articles: seq<Article>, articleTypes: seq<ArticleType>, platform: string): (r: seq<ArticleType>)
    ensures forall t :: t in r <==>
      t in articleTypes && exists a :: a in articles && a.platform == Resolved(platform) && a.articleType == Resolved(t.uid)
  {
    var r := Filter(articleTypes, TypeShown(articles, platform));
    assert forall t :: t in r ==> exists a :: a in articles && a.platform == Resolved(platform) && a.articleType == Resolved(t.uid) by {
      forall t | t in r
        ensures exists a :: a in articles && a.platform == Resolved(platform) && a.articleType == Resolved(t.uid)
      {
        var i :| 0 <= i < |articles| && Classified(articles[i], platform, t.uid);
        assert articles[i] in articles;
      }
    }
    assert forall t :: t in articleTypes && (exists a :: a in articles && a.platform == Resolved(platform) && a.articleType == Resolved(t.uid)) ==> t in r by {
      forall t | t in articleTypes && exists a :: a in articles && a.platform == Resolved(platform) && a.articleType == Resolved(t.uid)
        ensures t in r
      {
        var a :| a in articles && a.platform == Resolved(platform) && a.articleType == Resolved(t.uid);
        var i :| 0 <= i < |articles| && articles[i] == a;
        assert Classified(articles[i], platform, t.uid);
      }
    }
    r
  }

  /** The sections keep the order of `articleTypes`, and no qualifying type is skipped. */
  lemma FilteredArticleTypesInOrder(articles: seq<Article>, articleTypes: seq<ArticleType>, platform: string)
    ensures Selects(FilteredArticleTypes(articles, articleTypes, platform), articleTypes, TypeShown(articles, platform))
  {
    FilterSelects(articleTypes, TypeShown(articles, platform));
  }

  /**
   * The articles listed in the section of type `typeUid`: exactly those
   * linked to the active platform and to that type.
   */
  function SectionArticles(articles: seq<Article>, platform: string, typeUid: string): (r: seq<Article>)
    ensures forall a :: a in r <==> a in articles && a.platform == Resolved(platform) && a.articleType == Resolved(typeUid)
  {
    Filter(articles, ArticleShown(platform, typeUid))
  }

  /** A section lists its articles in input order, every qualifying one of them. */
  lemma SectionArticlesInOrder(articles: seq<Article>, platform: string, typeUid: string)
    ensures Selects(SectionArticles(articles, platform, typeUid), articles, ArticleShown(platform, typeUid))
  {
    FilterSelects(articles, ArticleShown(platform, typeUid));
  }

  /**
   * Partition: an article with both links filled is listed under its own
   * platform and type and nowhere else; one with an empty link is listed nowhere.
   */
  lemma Partition(articles: seq<Article>, a: Article, platform: string, typeUid: string)
    requires a in articles
    ensures a in SectionArticles(articles, platform, typeUid) <==>
      UidOf(a.platform) == Some(platform) && UidOf(a.articleType) == Some(typeUid)
    ensures !IsFilled(a.platform) || !IsFilled(a.articleType) ==> a !in SectionArticles(articles, platform, typeUid)
  {
  }

  /** The section of a type that passed `filteredArticleTypes` is never empty. */
  lemma VisibleSectionNonEmpty(articles: seq<Article>, articleTypes: seq<ArticleType>, platform: string, t: ArticleType)
    requires t in FilteredArticleTypes(articles, articleTypes, platform)
    ensures SectionArticles(articles, platform, t.uid) != []
  {
    var a :| a in articles && a.platform == Resolved(platform) && a.articleType == Resolved(t.uid);
    assert a in SectionArticles(articles, platform, t.uid);
  }

  /** One rendered section: its type and the articles listed under it. */
  datatype Section = Section(articleType: ArticleType, articles: seq<Article>)

  /** What the component renders below the tabs for a given active platform. */
  function Sections(articles: seq<Article>, articleTypes: seq<ArticleType>, platform: string): (r: seq<Section>)
    ensures |r| == |FilteredArticleTypes(articles, articleTypes, platform)| <= |articleTypes|
    ensures forall k :: 0 <= k < |r| ==> r[k].articleType == FilteredArticleTypes(articles, articleTypes, platform)[k]
    ensures forall k :: 0 <= k < |r| ==> r[k].articleType in articleTypes && r[k].articles != []
    ensures forall k :: 0 <= k < |r| ==> r[k].articles == SectionArticles(articles, platform, r[k].articleType.uid)
    ensures forall k, a :: 0 <= k < |r| && a in r[k].articles <==>
      0 <= k < |r| && a in articles && a.platform == Resolved(platform) && a.articleType == Resolved(r[k].articleType.uid)
  {
    var types := FilteredArticleTypes(articles, articleTypes, platform);
    assert forall t :: t in types ==> SectionArticles(articles, platform, t.uid) != [] by {
      forall t | t in types ensures SectionArticles(articles, platform, t.uid) != [] {
        VisibleSectionNonEmpty(articles, articleTypes, platform, t);
      }
    }
    seq(|types|, k requires 0 <= k < |types| => Section(types[k], SectionArticles(articles, platform, types[k].uid)))
  }

  /** No two article types share a uid. */
  predicate DistinctUids(articleTypes: seq<ArticleType>) {
    forall i, j :: 0 <= i < |articleTypes| && 0 <= j < |articleTypes| && articleTypes[i].uid == articleTypes[j].uid ==> i == j
  }

  /** With distinct type uids, an article is listed in at most one section. */
  lemma AtMostOneSection(articles: seq<Article>, articleTypes: seq<ArticleType>, platform: string, a: Article, j: nat, k: nat)
    requires DistinctUids(articleTypes)
    requires j < |Sections(articles, articleTypes, platform)| && k < |Sections(articles, articleTypes, platform)|
    requires a in Sections(articles, articleTypes, platform)[j].articles
    requires a in Sections(articles, articleTypes, platform)[k].articles
    ensures j == k
  {
    var types := FilteredArticleTypes(articles, articleTypes, platform);
    var uid := (t: ArticleType) => t.uid;
    FilterIsSubsequence(articleTypes, TypeShown(articles, platform));
    SubsequenceDistinct(types, articleTypes, uid);
    assert uid(types[j]) == uid(types[k]);
  }

  /**
   * The default platform has no fallback: when no article is on "web", the
   * first render shows no section at all, whatever other platforms hold.
   */
  lemma NoFallbackFromDefault(articles: seq<Article>, articleTypes: seq<ArticleType>)
    requires forall a :: a in articles ==> a.platform != Resolved(DefaultPlatform)
    ensures Sections(articles, articleTypes, DefaultPlatform) == []
  {
    FilterDropsAll(articleTypes, TypeShown(articles, DefaultPlatform));
  }

  /** The link of a listed article: `/articles/` followed by its uid. */
  function Href(a: Article): (r: string)
    ensures |r| == |ArticlesPath| + |a.uid|
    ensures r[..|ArticlesPath|] == ArticlesPath && r[|ArticlesPath|..] == a.uid
  {
    ArticlesPath + a.uid
  }

  /** Two listed articles share a link exactly when they share a uid. */
  lemma HrefInjective(a: Article, b: Article)
    ensures Href(a) == Href(b) <==> a.uid == b.uid
  {
    if Href(a) == Href(b) {
      assert a.uid == Href(a)[|ArticlesPath|..];
    }
  }

  /**
   * The component's state. The three arrays are its props and do not change;
   * `activePlatform` is the `useState` value, written only by a tab click.
   */
  class PlatformTabs {
    const articles: seq<Article>
    const platforms: seq<Platform>
    const articleTypes: seq<ArticleType>
    var activePlatform: string

    /** The active platform is the default or one of the tabs. */
    ghost predicate Valid()
      reads this
    {
      activePlatform == DefaultPlatform || exists p :: p in platforms && p.uid == activePlatform
    }

    /** Mounting: the state starts at "web", whatever the arrays hold. */
    constructor (articles: seq<Article>, platforms: seq<Platform>, articleTypes: seq<ArticleType>)
      ensures this.articles == articles && this.platforms == platforms && this.articleTypes == articleTypes
      ensures activePlatform == DefaultPlatform
      ensures Valid()
    {
      this.articles := articles;
      this.platforms := platforms;
      this.articleTypes := articleTypes;
      activePlatform := DefaultPlatform;
    }

    /** Whether the button of `p` carries the `active` class. */
    predicate IsActive(p: Platform)
      reads this
    {
      p.uid == activePlatform
    }

    /** The sections on screen for the current state. */
    function View(): (r: seq<Section>)
      reads this
      ensures forall k :: 0 <= k < |r| ==> r[k].articles != []
    {
      Sections(articles, articleTypes, activePlatform)
    }

    /** Clicking the button of platform `p`. */
    method SelectPlatform(p: Platform)
      requires p in platforms
      modifies this`activePlatform
      ensures Valid()
      ensures activePlatform == p.uid
      ensures forall q :: q in platforms ==> (IsActive(q) <==> q.uid == p.uid)
      ensures View() == Sections(articles, articleTypes, p.uid)
    {
      activePlatform := p.uid;
    }
  }
}
