/** `transformToCategory`: one WordPress category becomes one staged `category` document. */
module TransformToCategory {
  import opened Common
  import opened WordPress
  import opened Documents

  /** Fills a fresh `category` document: `_id`, `_type`, and the name and slug
      when the source has them. */
  method TransformToCategory(wpDoc: WpTerm, decode: string -> string) returns (doc: TermDocument)
    ensures doc.id == DocId("category", wpDoc.id) && doc.typeName == "category"
    ensures DecodedWhenTruthy(doc.name, wpDoc.name, decode)
    ensures SlugWhenTruthy(doc.slug, wpDoc.slug)
  {
    var id := DocId("category", wpDoc.id);
    var name := if TruthyStr(wpDoc.name) then Some(Trim(decode(wpDoc.name.value))) else None;
    var slug := if TruthyStr(wpDoc.slug) then Some(Slug(wpDoc.slug.value)) else None;
    doc := TermDocument(id, "category", name, slug);
  }
}
