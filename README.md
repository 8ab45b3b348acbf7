# WordPress to Sanity import, modelled in Dafny

This project models the `import-wp` migration of a Sanity Studio. The migration reads a WordPress site through its REST API and stages Sanity documents from it. The model covers:

- **`migrate`** (`Migrate`): the page loop. It fetches the `posts` collection one page at a time. For each non-empty page it yields one batch of `createOrReplace` mutations. It stops at the first page that is empty, that is not an array, whose response is not ok, or whose fetch throws.
- **`wpDataTypeFetch`** (`WpDataTypeFetch`): builds the collection URL with the `page`, `per_page` and optional `author` query parameters (`URLSearchParams.set` semantics), then maps the response to its JSON body, `null`, or a thrown error.
- **The five transformers** (`TransformToPost`, `TransformToPage`, `TransformToAuthor`, `TransformToCategory`, `TransformToTag`): each fills a fresh document property by property. The shared helpers are in `Documents`:
  - the `<collection>-<id>` id scheme;
  - JavaScript truthiness guards;
  - entity-decode-then-trim of titles and names;
  - keyed reference arrays.
- **`getAuthorIdByName` / `getAuthorById`** (`GetAuthorIdByName`): returns the first user whose name, slug or description contains a candidate name, case-insensitively.
- **`htmlToBlockContent` after HTML parsing** (`HtmlToBlockContent`):
  - every `externalImage` block is resolved to an uploaded asset through a run-wide image cache. The media slug is derived from the image URL (last path segment, before the first dot, without a `-WxH` size suffix, lower-cased);
  - blocks whose texts trim to nothing are dropped;
  - every block without a `_key` gets a fresh one.

`Common` holds the JavaScript semantics the code relies on:

- truthiness of strings and numbers;
- `${n}` for non-negative integers;
- `String.prototype.trim`;
- lower-casing;
- `String.prototype.includes`.

## Modelling choices

- Strings are `seq<char>`, and integers are unbounded (WordPress ids are non-negative).
- Several things outside the code are parameters:
  - entity decoding is `decode`;
  - `uuid()` is `uuid: nat -> string`, where the k-th call within one operation returns `uuid(k)`;
  - HTTP responses are `HttpOutcome` values;
  - the media lookup, the media metadata fetch and the asset upload are the functions of `MediaEnv`.
- `BASE_URL` and `PER_PAGE` are the `Config` parameter. `constants.ts` is not part of this model.
- The pages `migrate` receives are a sequence of outcomes. Past its end, the API answers with an empty array.
- A document is a record with one optional component per property. `None` means the property is unassigned or `undefined`.
- The image cache is a class whose `entries` map the resolution methods update in place. Those methods are proved against the functional specification `ResolveBlock` / `ResolveAll`.

## Model

| member | source | states |
|---|---|---|
| Common.NatToString | migrations/import-wp/lib/transformToPost.ts:12 | the decimal text of an id is non-empty, all digits, and has at least two digits from 10 on |
| Common.NatToStringValue | migrations/import-wp/lib/transformToPost.ts:12 | the decimal text of an id reads back as that id, and has no leading zero |
| Common.NatToStringInjective | migrations/import-wp/lib/transformToPost.ts:12 | distinct ids render to distinct decimal texts |
| Common.Trim | migrations/import-wp/lib/transformToPost.ts:16 | `trim()` leaves no JavaScript white space at either end |
| Common.TrimEmptyIff | migrations/import-wp/lib/htmlToBlockContent.ts:173-174 | a text trims to the empty string exactly when it is all white space |
| Common.TrimIsInfix | migrations/import-wp/lib/transformToPost.ts:16 | `trim()` returns an infix of its input and removes only white space on either side |
| Common.AsciiLower | migrations/import-wp/lib/getAuthorIdByName.ts:18 | `toLowerCase()` keeps the length and lower-cases every letter, changing nothing else |
| Common.Contains | migrations/import-wp/lib/getAuthorIdByName.ts:18-20 | `includes` is true exactly when some window of the string spells the needle |
| Documents.DocId | migrations/import-wp/lib/transformToPost.ts:12 | an id is the collection prefix, a dash, then the decimal source id |
| Documents.DocIdInjective | migrations/import-wp/lib/transformToPost.ts:23-42 | for dash-free prefixes, an id determines both its prefix and its source id, so each reference names one document |
| Documents.CollectionsNeverCollide | migrations/import-wp/lib/transformToCategory.ts:11 | documents of two different collections never share an id |
| Documents.RefsTo | migrations/import-wp/lib/transformToPost.ts:23-35 | a reference array has one entry per source id, in order; entry i references `<prefix>-<id i>` and its key is the (next+i)-th uuid drawn |
| Documents.RefKeysDistinct | migrations/import-wp/lib/transformToPost.ts:24 | a non-repeating key supply gives pairwise-distinct `_key`s |
| TransformToPost.TransformToPost | migrations/import-wp/lib/transformToPost.ts:10-60 | throws exactly when the title object is missing. Otherwise: id `post-<id>`; title decoded and trimmed; slug, author, date, modified and status present exactly when truthy; categories and tags present exactly when non-empty arrays, with tag keys drawn after category keys; sticky true only for a literal `true` |
| TransformToPage.TransformToPage | migrations/import-wp/lib/transformToPage.ts:9-41 | as for posts, with id `page-<id>` and without categories, tags or sticky |
| TransformToAuthor.TransformToAuthor | migrations/import-wp/lib/transformToAuthor.ts:9-32 | id `author-<id>`. Name and description are present exactly when truthy, and then decoded and trimmed. Slug and url are present exactly when truthy |
| TransformToCategory.TransformToCategory | migrations/import-wp/lib/transformToCategory.ts:9-24 | id `category-<id>`, type `category`. The name is present exactly when truthy, decoded and trimmed. The slug is present exactly when truthy |
| TransformToTag.TransformToTag | migrations/import-wp/lib/transformToTag.ts:9-24 | id `tag-<id>`, type `tag`. The name is present exactly when truthy, decoded and trimmed. The slug is present exactly when truthy |
| WpDataTypeFetch.GetIsFirst | migrations/import-wp/lib/wpDataTypeFetch.ts:10-15 | `searchParams.get` yields the value of a parameter with the name and no earlier parameter has that name; it yields nothing only when no parameter has the name |
| WpDataTypeFetch.GetFindsName | migrations/import-wp/lib/wpDataTypeFetch.ts:10-15 | `get` finds a value exactly when a parameter of that name is present |
| WpDataTypeFetch.RemoveAll | migrations/import-wp/lib/wpDataTypeFetch.ts:10 | removing a name drops exactly that name and leaves every other value as it was |
| WpDataTypeFetch.Set | migrations/import-wp/lib/wpDataTypeFetch.ts:10-15 | after `set(name, value)`, `get(name)` is that value, every other name reads as before, and the name set grows by exactly that name |
| WpDataTypeFetch.WpDataTypeFetch | migrations/import-wp/lib/wpDataTypeFetch.ts:4-19 | path `<base>/<type>`; `page` and `per_page` set to their decimal texts; `author` present exactly for a truthy author id on posts or pages; no other parameter. Throws exactly when the fetch fails, and yields the body exactly when the response is ok |
| GetAuthorIdByName.UsersRequest | migrations/import-wp/lib/getAuthorIdByName.ts:7-8 | the user listing requests `<base>/users` with `per_page` 100 and nothing else |
| GetAuthorIdByName.AnyNameMatches | migrations/import-wp/lib/getAuthorIdByName.ts:17-21 | `some` holds exactly when one candidate name matches the user |
| GetAuthorIdByName.FirstMatch | migrations/import-wp/lib/getAuthorIdByName.ts:16-22 | `find` returns the first matching position, and nothing when no user matches |
| GetAuthorIdByName.GetAuthorIdByName | migrations/import-wp/lib/getAuthorIdByName.ts:4-40 | an id comes back exactly when the response is ok and some user matches. It is the id of the first matching user, and no candidates give no id |
| GetAuthorIdByName.GetAuthorById | migrations/import-wp/lib/getAuthorIdByName.ts:42-56 | the user comes back exactly on an ok response, and it is the response body |
| GetAuthorIdByName.AsciiLowerIdempotent | migrations/import-wp/lib/getAuthorIdByName.ts:18 | lower-casing twice is lower-casing once |
| GetAuthorIdByName.MatchIgnoresCandidateCase | migrations/import-wp/lib/getAuthorIdByName.ts:18-20 | a candidate and its lower-cased form match the same users |
| GetAuthorIdByName.EmptyCandidateMatches | migrations/import-wp/lib/getAuthorIdByName.ts:18-20 | the empty candidate matches every user with a name, slug or description |
| GetAuthorIdByName.NoFieldsNeverMatches | migrations/import-wp/lib/getAuthorIdByName.ts:18-20 | a user with no name, slug or description is never found |
| HtmlToBlockContent.AfterLastSlashSpec | migrations/import-wp/lib/htmlToBlockContent.ts:115-117 | `split('/').pop()` is the longest slash-free suffix |
| HtmlToBlockContent.BeforeFirstDotSpec | migrations/import-wp/lib/htmlToBlockContent.ts:118-119 | `split('.').shift()` is the longest dot-free prefix |
| HtmlToBlockContent.LastDashSpec | migrations/import-wp/lib/htmlToBlockContent.ts:114 | the last dash is found, or there is none |
| HtmlToBlockContent.DimensionSuffixAtLastDash | migrations/import-wp/lib/htmlToBlockContent.ts:114 | a `-\d+x\d+$` match starts at the last dash |
| HtmlToBlockContent.StripDimensionsSpec | migrations/import-wp/lib/htmlToBlockContent.ts:114-120 | the replace cuts the text at the match of `-\d+x\d+$` when there is one, and otherwise leaves it unchanged |
| HtmlToBlockContent.AfterLastSlashOfPath | migrations/import-wp/lib/htmlToBlockContent.ts:115-117 | the directory part of a url never affects the file name |
| HtmlToBlockContent.BeforeFirstDotOfName | migrations/import-wp/lib/htmlToBlockContent.ts:118-119 | the extension is dropped |
| HtmlToBlockContent.DimensionsChars | migrations/import-wp/lib/htmlToBlockContent.ts:114 | a size suffix holds only digits and `x` |
| HtmlToBlockContent.StripDimensionsOfSized | migrations/import-wp/lib/htmlToBlockContent.ts:120 | `<base>-<W>x<H>` loses exactly its size suffix |
| HtmlToBlockContent.SlugFromUrl | migrations/import-wp/lib/htmlToBlockContent.ts:115-121 | the lookup slug is cut from the url's last path segment: it is no longer than the url and holds no slash, no dot and no upper-case letter |
| HtmlToBlockContent.SlugOfFile | migrations/import-wp/lib/htmlToBlockContent.ts:115-121 | the slug of `<dir>/<stem><ext>` is the stem without a size suffix, lower-cased |
| HtmlToBlockContent.ResizedSlug | migrations/import-wp/lib/htmlToBlockContent.ts:112-121 | a resized file looks up the original name, lower-cased |
| HtmlToBlockContent.OriginalSlug | migrations/import-wp/lib/htmlToBlockContent.ts:115-121 | a file without a size suffix looks up its own name, lower-cased |
| HtmlToBlockContent.SizedVariantSharesSlug | migrations/import-wp/lib/htmlToBlockContent.ts:112-121 | a resized copy and its original look up the same media slug |
| HtmlToBlockContent.ResolveBlock | migrations/import-wp/lib/htmlToBlockContent.ts:107-159 | an upload happens only on a cache miss. A successful upload writes its asset at its media id, and nothing else writes the cache. The block returned in each case is stated by `ResolveBlockIgnores`, `ResolveBlockHit` and `ResolveBlockMiss` |
| HtmlToBlockContent.LookupId | migrations/import-wp/lib/htmlToBlockContent.ts:108-129 | a block has a media id exactly when it is an `externalImage` block with a url whose slug lookup yields a truthy number, and the id is that number |
| HtmlToBlockContent.ResolveBlockIgnores | migrations/import-wp/lib/htmlToBlockContent.ts:108-129 | non-image blocks, blocks without a url, and blocks whose lookup yields no truthy number pass through with no upload and no cache write |
| HtmlToBlockContent.ResolveBlockHit | migrations/import-wp/lib/htmlToBlockContent.ts:131-136 | a cache hit yields a reference to the cached asset with the block's key, and makes no upload |
| HtmlToBlockContent.ResolveBlockMiss | migrations/import-wp/lib/htmlToBlockContent.ts:138-158 | on a cache miss an upload is made exactly when the source url is truthy. A successful upload rewrites the block into a reference to the new asset with the block's key and caches the asset at the media id. Otherwise the block comes back unchanged and the cache is untouched |
| HtmlToBlockContent.ResolveBlockRewrites | migrations/import-wp/lib/htmlToBlockContent.ts:131-152 | a rewritten block keeps its key and references the asset the cache then holds for its media id |
| HtmlToBlockContent.ResolveBlockGrowsCache | migrations/import-wp/lib/htmlToBlockContent.ts:145-147 | resolving a block never removes a cache key or changes a truthy entry |
| HtmlToBlockContent.ResolveAll | migrations/import-wp/lib/htmlToBlockContent.ts:106-162 | resolution returns one block per block |
| HtmlToBlockContent.ResolveAllShape | migrations/import-wp/lib/htmlToBlockContent.ts:106-162 | each block comes back unchanged or as an image reference with the same key |
| HtmlToBlockContent.ResolveAllGrowsCache | migrations/import-wp/lib/htmlToBlockContent.ts:146-147 | over a whole post whose blocks are resolved one after the other, the cache only grows |
| HtmlToBlockContent.ResolveAllAppend | migrations/import-wp/lib/htmlToBlockContent.ts:103-106 | resolving two posts in turn with the shared cache equals resolving their blocks together |
| HtmlToBlockContent.UploadsSkipCached | migrations/import-wp/lib/htmlToBlockContent.ts:131-136 | no upload is made for a media id already cached truthily |
| HtmlToBlockContent.UploadsDeduplicated | migrations/import-wp/lib/htmlToBlockContent.ts:145-147 | a media id is uploaded again only after a failed upload or an empty asset id |
| HtmlToBlockContent.ResolveBlockCachesReference | migrations/import-wp/lib/htmlToBlockContent.ts:131-152 | with uploads that yield truthy ids, a block resolved into a reference points at the asset the cache then holds truthily for its media id |
| HtmlToBlockContent.ResolveAllReferencesCache | migrations/import-wp/lib/htmlToBlockContent.ts:106-162 | with uploads that yield truthy ids, after a whole post every block resolved into a reference points at the asset the final cache holds for its media id |
| HtmlToBlockContent.ResolveAllSameAsset | migrations/import-wp/lib/htmlToBlockContent.ts:131-152 | with uploads that yield truthy ids, two blocks of a post with the same media id, both resolved into references, reference the same asset |
| HtmlToBlockContent.TwoDocumentsSameAsset | migrations/import-wp/lib/htmlToBlockContent.ts:146-147 | with uploads that yield truthy ids, across two posts resolved one after the other with the shared cache, images with the same media id reference the same asset |
| HtmlToBlockContent.TwoDocumentsUploadOnce | migrations/import-wp/lib/htmlToBlockContent.ts:146 | across two posts of a run resolved one after the other, no image is uploaded successfully twice |
| HtmlToBlockContent.ImageCache.constructor | migrations/import-wp/lib/htmlToBlockContent.ts:73 | the cache starts with the entries the caller passes |
| HtmlToBlockContent.ResolveImage | migrations/import-wp/lib/htmlToBlockContent.ts:107-159 | the in-place callback returns the specified block and leaves the cache as specified |
| HtmlToBlockContent.ResolveImages | migrations/import-wp/lib/htmlToBlockContent.ts:106-162 | the in-place pass returns the specified blocks and leaves the cache as specified |
| HtmlToBlockContent.JoinTrimmedEmptyIff | migrations/import-wp/lib/htmlToBlockContent.ts:173-174 | the joined trimmed texts are empty exactly when every text is white space |
| HtmlToBlockContent.KeepBlock | migrations/import-wp/lib/htmlToBlockContent.ts:165-176 | a resolved image reference, which has no children, always passes the filter's test; a block with an empty children array never does |
| HtmlToBlockContent.KeepBlockIff | migrations/import-wp/lib/htmlToBlockContent.ts:165-176 | a block with children is kept exactly when one child text is not all white space |
| HtmlToBlockContent.FilterEmpty | migrations/import-wp/lib/htmlToBlockContent.ts:165-176 | the filter keeps exactly the blocks that pass the test, and never lengthens the sequence |
| HtmlToBlockContent.FilterEmptyAppend | migrations/import-wp/lib/htmlToBlockContent.ts:165 | the filter keeps the blocks' relative order |
| HtmlToBlockContent.FilterEmptyKeepsAll | migrations/import-wp/lib/htmlToBlockContent.ts:165-176 | a sequence whose blocks all pass the test is unchanged |
| HtmlToBlockContent.AssignKeys | migrations/import-wp/lib/htmlToBlockContent.ts:178 | blocks with a truthy key are unchanged. Each keyless block gets the next uuid, in order, and nothing else about it changes |
| HtmlToBlockContent.AllKeyed | migrations/import-wp/lib/htmlToBlockContent.ts:178 | with a supply that never yields the empty string, every block ends up keyed, and keys do not affect the filter |
| HtmlToBlockContent.HtmlToBlockContent | migrations/import-wp/lib/htmlToBlockContent.ts:70-183 | the result is resolve, then filter, then key. Every block is keyed and non-empty, there are no more blocks than were parsed, and the cache has only grown |
| Migrate.LeadingPages | migrations/import-wp/index.ts:15-36 | counts the consecutive non-empty array pages from page 1; the page after them does not have records |
| Migrate.InlineDoc | migrations/import-wp/index.ts:23-27 | the inline document has id `post-<id>` and type `post`. Its title is present exactly when the record has a title object, and is then the rendered title trimmed but not entity-decoded. No other property is set |
| Migrate.PageBatch | migrations/import-wp/index.ts:20-32 | one `createOrReplace` per record, in record order, of the inline document |
| Migrate.PageBatchIdsDistinct | migrations/import-wp/index.ts:24 | records with distinct ids give mutations of distinct documents |
| Migrate.BuildDocs | migrations/import-wp/index.ts:20-30 | the loop builds one inline document per record, in order |
| Migrate.Migrate | migrations/import-wp/index.ts:10-42 | yields one batch per leading non-empty page. It makes one more request than batches, each the posts request for pages 1, 2, …, and each batch holds the mutations of that page's records |

## Left out

- HTML parsing (`htmlToBlocks`, JSDOM, the compiled block schema and its fallback) is not modelled. The conversion starts from the parsed block sequence. The `figure` rule is only reflected in `externalImage` blocks carrying a `url`.
- The `!block` branch of the empty-block filter is not modelled: parsed blocks are never `null` here.
- `HtmlToBlockContent.ResolveImages`: image resolution is sequential. The source runs it through `pLimit(2)`, and documents may be converted concurrently. The cache test (line 131) and the cache write (line 147) are separated by the awaits at lines 138 and 140. So two blocks with the same media id can both miss the cache and both upload, and the second write replaces the truthy entry the first made. The model does not capture this. `UploadsDeduplicated`, `TwoDocumentsUploadOnce`, `ResolveAllSameAsset`, `TwoDocumentsSameAsset`, `ResolveAllReferencesCache`, `ResolveAllGrowsCache` and the `CacheGrows` ensures of `HtmlToBlockContent` (no truthy entry changes) hold only when blocks and documents are resolved one after the other.
- `HtmlToBlockContent.ResolveAllSameAsset`, `HtmlToBlockContent.TwoDocumentsSameAsset`: these assume every upload yields a non-empty `_id`. An empty id is never cached truthily, so a later block with the same media id would upload again and could get another asset.
- A fetch that throws during image resolution rejects the whole conversion. The model has no thrown errors there: the media lookup yields `None` instead.
- `sanityIdToImageReference`, `wpImageFetch` and `sanityUploadFromUrl` are not part of this model. An image reference is its asset id, assumed to carry no `_key` of its own. The upload's metadata argument is reduced to the media id.
- Entity decoding is an uninterpreted `decode` function. `uuid()` is a stream of keys.
- `Common.NatToString`: ids are rendered exactly in decimal at any size. JavaScript renders integers from 1e21 up in exponent form and is not exact above 2^53; WordPress ids stay far below both.
- `Common.AsciiLower`: `toLowerCase` / `toLocaleLowerCase` are modelled on ASCII letters only.
- A `title` object without `rendered` is not modelled. A missing `title` object is modelled as the thrown TypeError.
- `TransformToPost.TransformToPost`: `sticky == true` is modelled on a boolean `sticky` only. The loose equality's other cases (`1`, `"1"`) are not captured.
- The user listing's body is taken to be an array of users. A non-array body throws in `find` and is caught; it is folded into a failed response.
- The request URL of `getAuthorById` (`<base>/users/<id>`) is not modelled. Its response is the parameter.
- Logging (`console.log`, `console.warn`, `console.error`) is left out.
- `sanity.config.ts`, `sanity.cli.ts` and the schema types are configuration and are not modelled.
- In these four places the model follows the code as written:
  - `migrate` builds only `_id`, `_type` and a trimmed, undecoded title inline. It does not call the transformers.
  - `transformToPost` does not call `htmlToBlockContent`.
  - `migrate` never resolves an author and never filters by one: every request it sends has no `author` parameter.
  - `transformToPost` normalises `sticky` with loose `==`, not strict equality.
