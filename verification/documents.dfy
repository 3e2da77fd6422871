/**
 * The Prismic documents the two components read: articles, platforms and
 * article types, reduced to the fields the filtering logic looks at.
 * Titles, icons and rich text are only displayed, so they are left out.
 */
module Documents {

  datatype Option<T> = None | Some(value: T)

  /**
   * A content-relationship field. `Unresolved` is an empty link, the only
   * kind `isFilled.contentRelationship` rejects; `Resolved(uid)` links to the
   * document with that uid, kept exactly as stored.
   */
  datatype Relationship = Unresolved | Resolved(uid: string)

  /** `isFilled.contentRelationship(field)`. */
  predicate IsFilled(r: Relationship) {
    r.Resolved?
  }

  /**
   * The value of `field.uid` in the source: the linked uid for a filled field,
   * `undefined` (here `None`) for an empty one.
   */
  function UidOf(r: Relationship): (u: Option<string>)
    ensures u == None <==> !IsFilled(r)
    ensures forall x :: u == Some(x) <==> r == Resolved(x)
  {
    if r.Resolved? then Some(r.uid) else None
  }

  /** An `article` document: `id`, `uid`, and its `platform` and `article_type` links. */
  datatype Article = Article(id: string, uid: string, platform: Relationship, articleType: Relationship)

  /** A `platforms` document. */
  datatype Platform = Platform(id: string, uid: string)

  /** An `article_types` document. */
  datatype ArticleType = ArticleType(id: string, uid: string)
}
