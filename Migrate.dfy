/** The `migrate` generator of the import migration: fetch the `posts`
    collection page by page and yield one batch of create-or-replace mutations
    per non-empty page. The pages the API returns are a parameter. */
module Migrate {
  import opened Common
  import opened WordPress
  import opened Documents
  import opened WpDataTypeFetch

  /** `createOrReplace(doc)`. */
  datatype Mutation = CreateOrReplace(doc: PostDocument)

  /** The outcome of fetching page `page` (pages count from 1). Past the end of
      `responses` the API returns an empty array. */
  function OutcomeFor(responses: seq<HttpOutcome<Payload>>, page: nat): HttpOutcome<Payload>
  {
    if 1 <= page <= |responses| then responses[page - 1] else Response(true, Records([]))
  }

  /** `Array.isArray(wpData) && wpData.length` on what `wpDataTypeFetch` returned. */
  predicate HasRecords(outcome: HttpOutcome<Payload>)
  {
    outcome.Response? && outcome.ok && outcome.body.Records? && |outcome.body.records| > 0
  }

  /** The number of non-empty pages before the first page that ends the loop. */
  function LeadingPages(responses: seq<HttpOutcome<Payload>>): (n: nat)
    ensures n <= |responses|
    ensures forall i :: 0 <= i < n ==> HasRecords(responses[i])
    ensures n < |responses| ==> !HasRecords(responses[n])
    decreases |responses|
  {
    if responses == [] || !HasRecords(responses[0]) then 0 else 1 + LeadingPages(responses[1..])
  }

  /** The document `migrate` builds inline for one post: only `_id`, `_type`
      and the rendered title trimmed (not entity-decoded); the title is
      `undefined` when the record has no title object. */
  function InlineDoc(wpDoc: WpPost): (doc: PostDocument)
    ensures doc.id == DocId("post", wpDoc.id)
    ensures doc.title.Some? <==> wpDoc.title.Some?
    ensures doc.title.Some? ==> doc.title.value == Trim(wpDoc.title.value)
    ensures doc.slug.None? && doc.categories.None? && doc.tags.None? && doc.author.None?
    ensures doc.date.None? && doc.modified.None? && doc.status.None? && doc.sticky.None?
  {
    PostDocument(DocId("post", wpDoc.id), if wpDoc.title.Some? then Some(Trim(wpDoc.title.value)) else None,
                 None, None, None, None, None, None, None, None)
  }

  /** The batch yielded for one page: one mutation per record, in record order. */
  function PageBatch(records: seq<WpPost>): (batch: seq<Mutation>)
    ensures |batch| == |records|
    ensures forall i :: 0 <= i < |records| ==> batch[i] == CreateOrReplace(InlineDoc(records[i]))
  {
    seq(|records|, i requires 0 <= i < |records| => CreateOrReplace(InlineDoc(records[i])))
  }

  /** Records with distinct WordPress ids become mutations of distinct
      documents, so no mutation of a batch overwrites another. */
  lemma PageBatchIdsDistinct(records: seq<WpPost>)
    requires forall i, j :: 0 <= i < j < |records| ==> records[i].id != records[j].id
    ensures var batch := PageBatch(records);
      forall i, j :: 0 <= i < j < |batch| ==> batch[i].doc.id != batch[j].doc.id
  {
    var batch := PageBatch(records);
    forall i, j | 0 <= i < j < |batch| ensures batch[i].doc.id != batch[j].doc.id {
      if batch[i].doc.id == batch[j].doc.id {
        DocIdInjective("post", records[i].id, "post", records[j].id);
      }
    }
  }

  /** The `for (const wpDoc of wpData)` loop: one inline document per record,
      pushed in record order. */
  method BuildDocs(wpData: seq<WpPost>) returns (docs: seq<PostDocument>)
    ensures |docs| == |wpData|
    ensures forall k :: 0 <= k < |wpData| ==> docs[k] == InlineDoc(wpData[k])
  {
    docs := [];
    for j := 0 to |wpData|
      invariant |docs| == j
      invariant forall k :: 0 <= k < j ==> docs[k] == InlineDoc(wpData[k])
    {
      docs := docs + [InlineDoc(wpData[j])];
    }
  }

  /** The request `wpDataTypeFetch('posts', page)` sends: the posts path, the
      page number and the page size, and no author filter. */
  predicate IsPostsPageRequest(cfg: Config, req: Request, page: nat)
  {
    && req.path == cfg.baseUrl + "/posts"
    && Get(req.params, "page") == Some(NatToString(page))
    && Get(req.params, "per_page") == Some(NatToString(cfg.perPage))
    && Get(req.params, "author").None?
  }

  /** Runs the page loop. `requests` are the fetches made, in order, and
      `batches` what the generator yields. The loop fetches pages 1, 2, … and
      stops at the first page that is not a non-empty array (an error response,
      a body that is not an array, an empty array) or whose fetch throws; it
      yields nothing for that page. */
  method Migrate(cfg: Config, responses: seq<HttpOutcome<Payload>>)
    returns (batches: seq<seq<Mutation>>, requests: seq<Request>)
    ensures |batches| == LeadingPages(responses)
    ensures |requests| == |batches| + 1
    ensures forall i :: 0 <= i < |requests| ==> IsPostsPageRequest(cfg, requests[i], i + 1)
    ensures forall i :: 0 <= i < |batches| ==> batches[i] == PageBatch(responses[i].body.records)
  {
    var page := 1;
    var hasMore := true;
    batches, requests := [], [];

    while hasMore
      invariant 1 <= page <= |responses| + 1
      invariant page - 1 <= LeadingPages(responses)
      invariant |batches| == page - 1
      invariant |requests| == if hasMore then page - 1 else page
      invariant !hasMore ==> page - 1 == LeadingPages(responses)
      invariant forall i :: 0 <= i < |requests| ==> IsPostsPageRequest(cfg, requests[i], i + 1)
      invariant forall i :: 0 <= i < |batches| ==> batches[i] == PageBatch(responses[i].body.records)
      decreases |responses| + 1 - page + (if hasMore then 1 else 0)
    {
      var outcome := OutcomeFor(responses, page);
      var req: Request, fetched: Fetched<Payload> := WpDataTypeFetch.WpDataTypeFetch(cfg, WpPosts, page, None, outcome);
      assert IsPostsPageRequest(cfg, req, page);
      requests := requests + [req];

      if fetched.Threw? {
        // The catch block: the error ends the loop.
        hasMore := false;
      } else if fetched.data.Some? && fetched.data.value.Records? && |fetched.data.value.records| > 0 {
        var docs := BuildDocs(fetched.data.value.records);
        var batch := seq(|docs|, k requires 0 <= k < |docs| => CreateOrReplace(docs[k]));
        assert batch == PageBatch(responses[page - 1].body.records);
        batches := batches + [batch];
        page := page + 1;
      } else {
        hasMore := false;
      }
    }
  }
}
