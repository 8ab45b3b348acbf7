/** `transformToAuthor`: one WordPress user becomes one staged `author` document. */
module TransformToAuthor {
  import opened Common
  import opened WordPress
  import opened Documents

  /** Fills a fresh `author` document property by property. The url is copied
      as it is; name and description are entity-decoded and trimmed. */
  method TransformToAuthor(wpDoc: WpUser, decode: string -> string) returns (doc: AuthorDocument)
    ensures doc.id == DocId("author", wpDoc.id)
    ensures DecodedWhenTruthy(doc.name, wpDoc.name, decode)
    ensures SlugWhenTruthy(doc.slug, wpDoc.slug)
    ensures CopiedWhenTruthy(doc.url, wpDoc.url)
    ensures DecodedWhenTruthy(doc.description, wpDoc.description, decode)
  {
    var id := DocId("author", wpDoc.id);
    var name := if TruthyStr(wpDoc.name) then Some(Trim(decode(wpDoc.name.value))) else None;
    var slug := if TruthyStr(wpDoc.slug) then Some(Slug(wpDoc.slug.value)) else None;
    var url := if TruthyStr(wpDoc.url) then wpDoc.url else None;
    var description := if TruthyStr(wpDoc.description) then Some(Trim(decode(wpDoc.description.value))) else None;
    doc := AuthorDocument(id, name, slug, url, description);
  }
}
