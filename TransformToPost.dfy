/** `transformToPost`: one WordPress post becomes one staged `post` document. */
module TransformToPost {
  import opened Common
  import opened WordPress
  import opened Documents

  /** Fills a fresh `post` document property by property; each
      `if (x) doc.p = …` of the source is one conditional binding below. `decode` is the
      HTML-entity decoder and `uuid(k)` the key returned by the k-th call of
      `uuid()` during this transform. A record without a `title` object makes the
      transform throw. */
  method TransformToPost(wpDoc: WpPost, decode: string -> string, uuid: nat -> string) returns (r: Staged<PostDocument>)
    ensures r.TypeError? <==> wpDoc.title.None?
    ensures r.Staged? ==> r.doc.id == DocId("post", wpDoc.id)
    ensures r.Staged? ==> r.doc.title == Some(Trim(decode(wpDoc.title.value)))
    ensures r.Staged? ==> SlugWhenTruthy(r.doc.slug, wpDoc.slug)
    ensures r.Staged? ==> (r.doc.categories.Some? <==> wpDoc.categories.Some? && |wpDoc.categories.value| > 0)
    ensures r.Staged? && r.doc.categories.Some? ==>
      r.doc.categories.value == RefsTo("category", wpDoc.categories.value, uuid, 0)
    ensures r.Staged? ==> (r.doc.tags.Some? <==> wpDoc.tags.Some? && |wpDoc.tags.value| > 0)
    ensures r.Staged? && r.doc.tags.Some? ==>
      r.doc.tags.value == RefsTo("tag", wpDoc.tags.value, uuid, if r.doc.categories.Some? then |r.doc.categories.value| else 0)
    ensures r.Staged? ==> AuthorWhenTruthy(r.doc.author, wpDoc.author)
    ensures r.Staged? ==> CopiedWhenTruthy(r.doc.date, wpDoc.date)
    ensures r.Staged? ==> CopiedWhenTruthy(r.doc.modified, wpDoc.modified)
    ensures r.Staged? ==> CopiedWhenTruthy(r.doc.status, wpDoc.status)
    ensures r.Staged? ==> r.doc.sticky == Some(wpDoc.sticky == Some(true))
  {
    if wpDoc.title.None? {
      // `wpDoc.title.rendered` on a missing title object throws.
      return TypeError;
    }
    var id := DocId("post", wpDoc.id);
    var title := Some(Trim(decode(wpDoc.title.value)));
    var slug := if TruthyStr(wpDoc.slug) then Some(Slug(wpDoc.slug.value)) else None;
    var hasCategories := wpDoc.categories.Some? && |wpDoc.categories.value| > 0;
    var categories := if hasCategories then Some(RefsTo("category", wpDoc.categories.value, uuid, 0)) else None;
    // The tag keys are the `uuid()` calls after the category keys.
    var keysDrawn := if hasCategories then |wpDoc.categories.value| else 0;
    var tags := if wpDoc.tags.Some? && |wpDoc.tags.value| > 0
      then Some(RefsTo("tag", wpDoc.tags.value, uuid, keysDrawn)) else None;
    var author := if TruthyNat(wpDoc.author) then Some(Reference(DocId("author", wpDoc.author.value))) else None;
    var date := if TruthyStr(wpDoc.date) then wpDoc.date else None;
    var modified := if TruthyStr(wpDoc.modified) then wpDoc.modified else None;
    var status := if TruthyStr(wpDoc.status) then wpDoc.status else None;
    // `wpDoc.sticky == true`: only a literal `true` gives `true`.
    var sticky := Some(wpDoc.sticky == Some(true));
    r := Staged(PostDocument(id, title, slug, categories, tags, author, date, modified, status, sticky));
  }
}
