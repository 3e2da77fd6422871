/**
 * The `RelatedArticles` panel on an article's page: the other articles
 * that share the page's platform and article type.
 */
module RelatedArticles {
  import opened Documents
  import opened Seqs

  /**
   * The negation of the guard under which the `map` returns `null`. The page's
   * links are read as `page.data.platform.uid` without a fill check, so an empty
   * link on the page gives `undefined`, which equals no article's uid.
   */
  predicate IsRelated(page: Article, article: Article) {
    !(|| !IsFilled(article.articleType)
      || !IsFilled(article.platform)
      || Some(article.platform.uid) != UidOf(page.platform)
      || Some(article.articleType.uid) != UidOf(page.articleType)
      || article.uid == page.uid)
  }

  /** The `map` callback, with `null` read as "not listed". */
  function RelatedTo(page: Article): Article -> bool {
    (a: Article) => IsRelated(page, a)
  }

  /**
   * The list the panel renders: the articles with both links filled, on the
   * page's platform, of the page's type, and with a uid other than the page's.
   */
  function FindRelated(page: Article, articles: seq<Article>): (r: seq<Article>)
    ensures forall a :: a in r <==>
      && a in articles
      && IsFilled(a.platform) && IsFilled(a.articleType)
      && a.platform == page.platform && a.articleType == page.articleType
      && a.uid != page.uid
    ensures page !in r
    ensures forall a :: a in r ==> a.uid != page.uid
  {
    Filter(articles, RelatedTo(page))
  }

  /** The panel keeps the order of `articles` and truncates nothing. */
  lemma FindRelatedInOrder(page: Article, articles: seq<Article>)
    ensures Selects(FindRelated(page, articles), articles, RelatedTo(page))
    ensures IsSubsequence(FindRelated(page, articles), articles)
  {
    FilterSelects(articles, RelatedTo(page));
  }

  /** A page whose own platform or type link is empty has no related articles. */
  lemma UnclassifiedPageHasNone(page: Article, articles: seq<Article>)
    requires !IsFilled(page.platform) || !IsFilled(page.articleType)
    ensures FindRelated(page, articles) == []
  {
    FilterDropsAll(articles, RelatedTo(page));
  }

  /** Filtering the panel's list again for the same page changes nothing. */
  lemma FindRelatedIdempotent(page: Article, articles: seq<Article>)
    ensures FindRelated(page, FindRelated(page, articles)) == FindRelated(page, articles)
  {
    FilterIdempotent(articles, RelatedTo(page));
  }

  /** If `b` is related to page `a` and `a` is among the articles, `a` is related to page `b`. */
  lemma RelatedSymmetric(a: Article, b: Article, articles: seq<Article>)
    requires a in articles
    requires b in FindRelated(a, articles)
    ensures a in FindRelated(b, articles)
  {
  }
}
