/** `transformToTag`: one WordPress tag becomes one staged `tag` document. */
module TransformToTag {
  import opened Common
  import opened WordPress
  import opened Documents

  /** Fills a fresh `tag` document: `_id`, `_type`, and the name and slug
      when the source has them. */
  method TransformToTag(wpDoc: WpTerm, decode: string -> string) returns (doc: TermDocument)
    ensures doc.id == DocId("tag", wpDoc.id) && doc.typeName == "tag"
    ensures DecodedWhenTruthy(doc.name, wpDoc.name, decode)
    ensures SlugWhenTruthy(doc.slug, wpDoc.slug)
  {
    var id := DocId("tag", wpDoc.id);
    var name := if TruthyStr(wpDoc.name) then Some(Trim(decode(wpDoc.name.value))) else None;
    var slug := if TruthyStr(wpDoc.slug) then Some(Slug(wpDoc.slug.value)) else None;
    doc := TermDocument(id, "tag", name, slug);
  }
}
