/** Destination documents as the transformers stage them. Each collection has
    its own document shape; a property the code leaves unassigned is `None`, and
    the constructor is the document's `_type`. Server-owned properties
    (`_createdAt`, `_updatedAt`, `_rev`) have no place in these shapes. */
module Documents {
  import opened Common

  /** `{_type: 'slug', current}`. */
  datatype Slug = Slug(current: string)

  /** `{_type: 'reference', _ref}`. */
  datatype Reference = Reference(ref: string)

  /** An array entry `{_key, _type: 'reference', _ref}`. */
  datatype KeyedRef = KeyedRef(key: string, ref: string)

  /** A staged `post` (`_type: 'post'`). */
  datatype PostDocument = PostDocument(
    id: string, title: Option<string>, slug: Option<Slug>,
    categories: Option<seq<KeyedRef>>, tags: Option<seq<KeyedRef>>,
    author: Option<Reference>, date: Option<string>, modified: Option<string>,
    status: Option<string>, sticky: Option<bool>)

  /** A staged `page` (`_type: 'page'`): no categories, tags or sticky. */
  datatype PageDocument = PageDocument(
    id: string, title: Option<string>, slug: Option<Slug>, author: Option<Reference>,
    date: Option<string>, modified: Option<string>, status: Option<string>)

  /** A staged `author` (`_type: 'author'`). */
  datatype AuthorDocument = AuthorDocument(
    id: string, name: Option<string>, slug: Option<Slug>, url: Option<string>,
    description: Option<string>)

  /** A staged `category` or `tag`: only `_id`, `_type`, `name` and `slug`. */
  datatype TermDocument = TermDocument(id: string, typeName: string, name: Option<string>, slug: Option<Slug>)

  /** `if (src) doc.x = src`: the property is present exactly when the source
      string is truthy, and then holds it verbatim. */
  predicate CopiedWhenTruthy(x: Option<string>, src: Option<string>)
  {
    (x.Some? <==> TruthyStr(src)) && (x.Some? ==> x == src)
  }

  /** `if (src) doc.x = decode(src).trim()`: present exactly when the source is
      truthy, even when the trimmed text turns out empty. */
  predicate DecodedWhenTruthy(x: Option<string>, src: Option<string>, decode: string -> string)
  {
    (x.Some? <==> TruthyStr(src)) && (x.Some? ==> x.value == Trim(decode(src.value)))
  }

  /** `if (src) doc.slug = {_type: 'slug', current: src}`. */
  predicate SlugWhenTruthy(x: Option<Slug>, src: Option<string>)
  {
    (x.Some? <==> TruthyStr(src)) && (x.Some? ==> x.value == Slug(src.value))
  }

  /** `if (author) doc.author = {_type: 'reference', _ref: `author-${author}`}`. */
  predicate AuthorWhenTruthy(x: Option<Reference>, src: Option<nat>)
  {
    (x.Some? <==> TruthyNat(src)) && (x.Some? ==> x.value == Reference(DocId("author", src.value)))
  }

  /** What an async transformer settles to: the staged document, or the
      TypeError thrown when it reads a property of a missing object. */
  datatype Staged<D> = Staged(doc: D) | TypeError

  /** The document-id scheme shared by every collection: `<prefix>-<source id>`. */
  function DocId(prefix: string, id: nat): (s: string)
    ensures |s| > |prefix| && s[..|prefix|] == prefix && s[|prefix|] == '-'
    ensures s[|prefix| + 1..] == NatToString(id)
  {
    prefix + "-" + NatToString(id)
  }

  /** The prefixes of the five destination collections. */
  const CollectionPrefixes: set<string> := {"post", "page", "author", "category", "tag"}

  predicate NoDash(p: string)
  {
    forall i :: 0 <= i < |p| ==> p[i] != '-'
  }

  /** An id determines both its collection prefix and its source id, provided
      prefixes contain no dash: references built with the same scheme resolve to
      exactly one document. */
  lemma DocIdInjective(p: string, a: nat, q: string, b: nat)
    requires NoDash(p) && NoDash(q)
    requires DocId(p, a) == DocId(q, b)
    ensures p == q && a == b
  {
    var s := DocId(p, a);
    assert forall i :: 0 <= i < |q| ==> s[i] == q[i] && s[i] != '-';
    assert forall i :: 0 <= i < |p| ==> s[i] == p[i] && s[i] != '-';
    assert s[|p|] == '-' && s[|q|] == '-';
    assert |p| == |q|;
    assert p == s[..|p|] == q;
    NatToStringInjective(a, b);
  }

  /** Documents of two different collections never share an id. */
  lemma CollectionsNeverCollide(p: string, a: nat, q: string, b: nat)
    requires p in CollectionPrefixes && q in CollectionPrefixes && p != q
    ensures DocId(p, a) != DocId(q, b)
  {
    assert NoDash(p) && NoDash(q);
    if DocId(p, a) == DocId(q, b) {
      DocIdInjective(p, a, q, b);
    }
  }

  /** `ids.map((id) => ({_key: uuid(), _type: 'reference', _ref: `<prefix>-${id}`}))`,
      where the k-th call of `uuid()` made so far returns `uuid(k)` and `next`
      calls have already been made. */
  function RefsTo(prefix: string, ids: seq<nat>, uuid: nat -> string, next: nat): (r: seq<KeyedRef>)
    ensures |r| == |ids|
    ensures forall i :: 0 <= i < |ids| ==> r[i].ref == DocId(prefix, ids[i]) && r[i].key == uuid(next + i)
    decreases |ids|
  {
    if ids == [] then [] else [KeyedRef(uuid(next), DocId(prefix, ids[0]))] + RefsTo(prefix, ids[1..], uuid, next + 1)
  }

  /** The keys of a reference array are pairwise distinct when the key supply
      never repeats itself. */
  lemma RefKeysDistinct(prefix: string, ids: seq<nat>, uuid: nat -> string, next: nat)
    requires forall m, n :: m != n ==> uuid(m) != uuid(n)
    ensures var r := RefsTo(prefix, ids, uuid, next);
      forall i, j :: 0 <= i < j < |r| ==> r[i].key != r[j].key
  {
  }
}
