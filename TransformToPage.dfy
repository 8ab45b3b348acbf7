/** `transformToPage`: one WordPress page becomes one staged `page` document. */
module TransformToPage {
  import opened Common
  import opened WordPress
  import opened Documents

  /** Fills a fresh `page` document property by property. A page has no
      categories, tags or sticky flag. A record without a `title` object makes
      the transform throw. */
  method TransformToPage(wpDoc: WpPost, decode: string -> string) returns (r: Staged<PageDocument>)
    ensures r.TypeError? <==> wpDoc.title.None?
    ensures r.Staged? ==> r.doc.id == DocId("page", wpDoc.id)
    ensures r.Staged? ==> r.doc.title == Some(Trim(decode(wpDoc.title.value)))
    ensures r.Staged? ==> SlugWhenTruthy(r.doc.slug, wpDoc.slug)
    ensures r.Staged? ==> AuthorWhenTruthy(r.doc.author, wpDoc.author)
    ensures r.Staged? ==> CopiedWhenTruthy(r.doc.date, wpDoc.date)
    ensures r.Staged? ==> CopiedWhenTruthy(r.doc.modified, wpDoc.modified)
    ensures r.Staged? ==> CopiedWhenTruthy(r.doc.status, wpDoc.status)
  {
    if wpDoc.title.None? {
      // `wpDoc.title.rendered` on a missing title object throws.
      return TypeError;
    }
    var id := DocId("page", wpDoc.id);
    var title := Some(Trim(decode(wpDoc.title.value)));
    var slug := if TruthyStr(wpDoc.slug) then Some(Slug(wpDoc.slug.value)) else None;
    var author := if TruthyNat(wpDoc.author) then Some(Reference(DocId("author", wpDoc.author.value))) else None;
    var date := if TruthyStr(wpDoc.date) then wpDoc.date else None;
    var modified := if TruthyStr(wpDoc.modified) then wpDoc.modified else None;
    var status := if TruthyStr(wpDoc.status) then wpDoc.status else None;
    r := Staged(PageDocument(id, title, slug, author, date, modified, status));
  }
}
