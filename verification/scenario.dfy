/**
 * A worked example: two platforms, two types, three classified articles and
 * one whose platform link is empty.
 */
module Scenario {
  import opened Documents
  import opened Seqs
  import opened ArticleList
  import opened RelatedArticles

  const FirstSteps := ArticleType("t1", "first-steps")
  const Tutorials := ArticleType("t2", "tutorials")
  const A := Article("a", "a", Resolved("web"), Resolved("first-steps"))
  const B := Article("b", "b", Resolved("web"), Resolved("first-steps"))
  const C := Article("c", "c", Resolved("android"), Resolved("tutorials"))
  const D := Article("d", "d", Unresolved, Resolved("first-steps"))

  /** `Filter` over a four-element sequence, one step at a time. */
  lemma FilterFour<T(!new)>(a: T, b: T, c: T, d: T, keep: T -> bool)
    ensures Filter([a] + ([b] + ([c] + [d])), keep) == Kept(a, keep) + (Kept(b, keep) + (Kept(c, keep) + Kept(d, keep)))
  {
    FilterCons(d, [], keep);
    assert Kept(d, keep) + [] == Kept(d, keep);
    FilterCons(c, [d], keep);
    FilterCons(b, [c] + [d], keep);
    FilterCons(a, [b] + ([c] + [d]), keep);
  }

  lemma FilterArticles(keep: Article -> bool)
    ensures Filter([A, B, C, D], keep) == Kept(A, keep) + (Kept(B, keep) + (Kept(C, keep) + Kept(D, keep)))
  {
    assert [A, B, C, D] == [A] + ([B] + ([C] + [D]));
    FilterFour(A, B, C, D, keep);
  }

  lemma SectionsOnWeb()
    ensures SectionArticles([A, B, C, D], "web", "first-steps") == [A, B]
  {
    FilterArticles(ArticleShown("web", "first-steps"));
  }

  lemma SectionsOnAndroid()
    ensures SectionArticles([A, B, C, D], "android", "tutorials") == [C]
  {
    FilterArticles(ArticleShown("android", "tutorials"));
  }

  lemma EmptyCell()
    ensures SectionArticles([A, B, C, D], "web", "tutorials") == []
  {
    FilterArticles(ArticleShown("web", "tutorials"));
  }

  lemma TypesOnWeb()
    ensures FilteredArticleTypes([A, B, C, D], [FirstSteps, Tutorials], DefaultPlatform) == [FirstSteps]
  {
    var arts := [A, B, C, D];
    var shown := TypeShown(arts, DefaultPlatform);
    assert shown(FirstSteps) by { assert Classified(arts[0], DefaultPlatform, FirstSteps.uid); }
    assert !shown(Tutorials);
    FilterCons(Tutorials, [], shown);
    FilterCons(FirstSteps, [Tutorials], shown);
  }

  lemma RelatedOfA()
    ensures FindRelated(A, [A, B, C, D]) == [B]
  {
    FilterArticles(RelatedTo(A));
  }
}
