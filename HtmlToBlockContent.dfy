/** `htmlToBlockContent` after HTML parsing: every `externalImage` block is
    resolved against the media library and the run-wide image cache, blocks
    whose text is only white space are dropped, and every block gets a `_key`.
    The parsed block sequence, the WordPress and Sanity calls (`MediaEnv`) and
    `uuid()` are parameters. */
module HtmlToBlockContent {
  import opened Common

  /** A portable-text block. `key` is `_key`, the empty string when absent.
      `Parsed` is a block as the HTML parser produced it: `_type`, an optional
      `url` (set on `externalImage` blocks by the `figure` rule) and, for text
      blocks, the texts of its `children`. `ImageReference` is an image block
      pointing at an uploaded Sanity asset. */
  datatype Block =
    | Parsed(blockType: string, key: string, url: Option<string>, children: Option<seq<string>>)
    | ImageReference(key: string, assetId: string)

  // ---------------------------------------------------------------------------
  // Lookup slug of an image URL

  /** `s.split('/').pop()`: the text after the last slash (all of `s` without one). */
  function AfterLastSlash(s: string): string
    decreases |s|
  {
    if s == [] || s[|s| - 1] == '/' then []
    else AfterLastSlash(s[..|s| - 1]) + [s[|s| - 1]]
  }

  /** The result is the longest slash-free suffix. */
  lemma {:induction false} AfterLastSlashSpec(s: string)
    ensures var r := AfterLastSlash(s);
      && |r| <= |s| && r == s[|s| - |r|..]
      && (forall i :: 0 <= i < |r| ==> r[i] != '/')
      && (|r| < |s| ==> s[|s| - |r| - 1] == '/')
    decreases |s|
  {
    if s != [] && s[|s| - 1] != '/' {
      AfterLastSlashSpec(s[..|s| - 1]);
    }
  }

  /** `s.split('.').shift()`: the text before the first dot (all of `s` without one). */
  function BeforeFirstDot(s: string): string
    decreases |s|
  {
    if s == [] || s[0] == '.' then [] else [s[0]] + BeforeFirstDot(s[1..])
  }

  /** The result is the longest dot-free prefix. */
  lemma {:induction false} BeforeFirstDotSpec(s: string)
    ensures var r := BeforeFirstDot(s);
      && |r| <= |s| && r == s[..|r|]
      && (forall i :: 0 <= i < |r| ==> r[i] != '.')
      && (|r| < |s| ==> s[|r|] == '.')
    decreases |s|
  {
    if s != [] && s[0] != '.' {
      BeforeFirstDotSpec(s[1..]);
    }
  }

  predicate AllDigits(s: string)
  {
    |s| > 0 && forall i :: 0 <= i < |s| ==> IsDigit(s[i])
  }

  /** `t` is `\d+x\d+` in full: digits, one `x`, digits. */
  predicate IsDimensions(t: string)
  {
    exists i :: 0 < i < |t| - 1 && t[i] == 'x' && AllDigits(t[..i]) && AllDigits(t[i + 1..])
  }

  /** The regular expression `-\d+x\d+$` matches `s` at position `p`. */
  predicate DimensionSuffixAt(s: string, p: int)
  {
    0 <= p < |s| && s[p] == '-' && IsDimensions(s[p + 1..])
  }

  /** The position of the last `-` in `s`. */
  function LastDash(s: string): (r: Option<nat>)
    ensures r.Some? ==> r.value < |s|
    decreases |s|
  {
    if s == [] then None
    else if s[|s| - 1] == '-' then Some(|s| - 1)
    else LastDash(s[..|s| - 1])
  }

  lemma {:induction false} LastDashSpec(s: string)
    ensures var r := LastDash(s);
      && (r.Some? ==> r.value < |s| && s[r.value] == '-')
      && (r.Some? ==> forall j :: r.value < j < |s| ==> s[j] != '-')
      && (r.None? ==> forall j :: 0 <= j < |s| ==> s[j] != '-')
    decreases |s|
  {
    if s != [] && s[|s| - 1] != '-' {
      LastDashSpec(s[..|s| - 1]);
    }
  }

  /** A size suffix contains no dash after its own: it starts at the last dash. */
  lemma DimensionSuffixAtLastDash(s: string, q: int)
    requires DimensionSuffixAt(s, q)
    ensures forall j :: q < j < |s| ==> s[j] != '-'
  {
    var t := s[q + 1..];
    var i :| 0 < i < |t| - 1 && t[i] == 'x' && AllDigits(t[..i]) && AllDigits(t[i + 1..]);
    forall j | q < j < |s| ensures s[j] != '-' {
      var k := j - q - 1;
      assert t[k] == s[j];
      if k < i {
        assert t[..i][k] == t[k];
      } else if k > i {
        assert t[i + 1..][k - i - 1] == t[k];
      }
    }
  }

  /** `s.replace(/-\d+x\d+$/, '')`: the suffix after the last dash is tested. */
  function StripDimensions(s: string): string
  {
    match LastDash(s)
    case None => s
    case Some(p) => if IsDimensions(s[p + 1..]) then s[..p] else s
  }

  /** Removes a trailing WordPress size suffix such as `-1024x683`, when there
      is one, and nothing else. */
  lemma StripDimensionsSpec(s: string)
    ensures forall p :: DimensionSuffixAt(s, p) ==> StripDimensions(s) == s[..p]
    ensures (forall p :: !DimensionSuffixAt(s, p)) ==> StripDimensions(s) == s
  {
    LastDashSpec(s);
    match LastDash(s)
    case None =>
    case Some(p) =>
      forall q | DimensionSuffixAt(s, q) ensures q == p {
        DimensionSuffixAtLastDash(s, q);
      }
      if IsDimensions(s[p + 1..]) {
        assert DimensionSuffixAt(s, p);
      }
  }

  /** The media lookup slug of an image URL: the file name's last path segment,
      before its first dot, without a trailing size suffix, lower-cased. */
  function SlugFromUrl(url: string): (slug: string)
    ensures |slug| <= |url|
    ensures Free(slug, '/') && Free(slug, '.') && NoUpper(slug)
  {
    var file := AfterLastSlash(url);
    AfterLastSlashSpec(url);
    var stem := BeforeFirstDot(file);
    BeforeFirstDotSpec(file);
    var bare := StripDimensions(stem);
    assert |bare| <= |stem| && bare == stem[..|bare|];
    assert Free(bare, '/') && Free(bare, '.') by {
      forall i | 0 <= i < |bare| ensures bare[i] != '/' && bare[i] != '.' {
        assert bare[i] == stem[i] == file[i];
        assert file[i] == url[|url| - |file| + i];
      }
    }
    AsciiLower(bare)
  }

  /** `c` does not occur in `s`. */
  predicate Free(s: string, c: char)
  {
    forall i :: 0 <= i < |s| ==> s[i] != c
  }

  /** `s` holds no upper-case ASCII letter. */
  predicate NoUpper(s: string)
  {
    forall i :: 0 <= i < |s| ==> !('A' <= s[i] <= 'Z')
  }

  /** Only the last path segment of a url matters. */
  lemma {:induction false} AfterLastSlashOfPath(dir: string, file: string)
    requires Free(file, '/')
    ensures AfterLastSlash(dir + "/" + file) == file
    decreases |file|
  {
    var s := dir + "/" + file;
    if file != [] {
      var init := file[..|file| - 1];
      assert s[..|s| - 1] == dir + "/" + init;
      assert s[|s| - 1] == file[|file| - 1];
      AfterLastSlashOfPath(dir, init);
      assert init + [file[|file| - 1]] == file;
    }
  }

  /** Everything from the first dot on is dropped. */
  lemma BeforeFirstDotOfName(stem: string, ext: string)
    requires Free(stem, '.') && (ext == [] || ext[0] == '.')
    ensures BeforeFirstDot(stem + ext) == stem
  {
    var s := stem + ext;
    BeforeFirstDotSpec(s);
    assert s[..|stem|] == stem;
  }

  /** A size suffix is made of digits and one `x`. */
  lemma DimensionsChars(t: string)
    requires IsDimensions(t)
    ensures forall k :: 0 <= k < |t| ==> IsDigit(t[k]) || t[k] == 'x'
  {
    var i :| 0 < i < |t| - 1 && t[i] == 'x' && AllDigits(t[..i]) && AllDigits(t[i + 1..]);
    forall k | 0 <= k < |t| ensures IsDigit(t[k]) || t[k] == 'x' {
      if k < i {
        assert t[..i][k] == t[k];
      } else if k > i {
        assert t[i + 1..][k - i - 1] == t[k];
      }
    }
  }

  /** The size suffix is removed from a resized file name. */
  lemma StripDimensionsOfSized(base: string, dims: string)
    requires IsDimensions(dims)
    ensures StripDimensions(base + "-" + dims) == base
  {
    var s := base + "-" + dims;
    assert s[|base| + 1..] == dims;
    assert DimensionSuffixAt(s, |base|);
    StripDimensionsSpec(s);
    assert s[..|base|] == base;
  }

  /** The slug of a url whose last segment is `stem` followed by an extension. */
  lemma SlugOfFile(dir: string, stem: string, ext: string)
    requires Free(stem, '/') && Free(stem, '.')
    requires (ext == [] || ext[0] == '.') && Free(ext, '/')
    ensures SlugFromUrl(dir + "/" + (stem + ext)) == AsciiLower(StripDimensions(stem))
  {
    assert Free(stem + ext, '/') by {
      forall k | 0 <= k < |stem + ext| ensures (stem + ext)[k] != '/' {
        if k >= |stem| {
          assert (stem + ext)[k] == ext[k - |stem|];
        }
      }
    }
    AfterLastSlashOfPath(dir, stem + ext);
    BeforeFirstDotOfName(stem, ext);
  }

  /** The slug of a resized file name is the original name, lower-cased. */
  lemma ResizedSlug(dir: string, base: string, dims: string, ext: string)
    requires Free(base, '/') && Free(base, '.')
    requires IsDimensions(dims)
    requires (ext == [] || ext[0] == '.') && Free(ext, '/')
    ensures SlugFromUrl(dir + "/" + base + "-" + dims + ext) == AsciiLower(base)
  {
    var stem := base + "-" + dims;
    assert Free(stem, '/') && Free(stem, '.') by {
      DimensionsChars(dims);
      forall k | |base| + 1 <= k < |stem| ensures stem[k] != '/' && stem[k] != '.' {
        assert stem[k] == dims[k - |base| - 1];
      }
    }
    assert dir + "/" + base + "-" + dims + ext == dir + "/" + (stem + ext);
    SlugOfFile(dir, stem, ext);
    StripDimensionsOfSized(base, dims);
  }

  /** The slug of a file name without a size suffix is the name, lower-cased. */
  lemma OriginalSlug(dir: string, base: string, ext: string)
    requires Free(base, '/') && Free(base, '.') && forall p :: !DimensionSuffixAt(base, p)
    requires (ext == [] || ext[0] == '.') && Free(ext, '/')
    ensures SlugFromUrl(dir + "/" + base + ext) == AsciiLower(base)
  {
    assert dir + "/" + base + ext == dir + "/" + (base + ext);
    SlugOfFile(dir, base, ext);
    StripDimensionsSpec(base);
  }

  /** WordPress's resized copy of an upload (`photo-1024x683.jpg` beside
      `photo.jpg`) looks up the same slug as the original, whatever the
      directory and extension. */
  lemma SizedVariantSharesSlug(dir: string, base: string, dims: string, ext: string)
    requires Free(base, '/') && Free(base, '.') && forall p :: !DimensionSuffixAt(base, p)
    requires IsDimensions(dims)
    requires (ext == [] || ext[0] == '.') && Free(ext, '/')
    ensures SlugFromUrl(dir + "/" + base + "-" + dims + ext) == SlugFromUrl(dir + "/" + base + ext)
  {
    ResizedSlug(dir, base, dims, ext);
    OriginalSlug(dir, base, ext);
  }

  // ---------------------------------------------------------------------------
  // Resolving external images

  /** The WordPress and Sanity calls image resolution makes:
      `lookup(slug)` is the `id` of the first media item the slug query returns
      (`None` on an error response, an empty result or a non-numeric id);
      `sourceUrl(id)` is `wpImageFetch(id)?.source?.url`;
      `upload(id, url)` is the `_id` of the asset `sanityUploadFromUrl` creates
      (`None` when it returns nothing). */
  datatype MediaEnv = MediaEnv(
    lookup: string -> Option<int>,
    sourceUrl: int -> Option<string>,
    upload: (int, string) -> Option<string>)

  /** What resolution needs of the environment: `mediaId(url)` is the media
      lookup of the url's slug. Resolution is specified over any such triple;
      `Resolving` builds the one a `MediaEnv` gives. */
  datatype Resolver = Resolver(
    mediaId: string -> Option<int>,
    sourceUrl: int -> Option<string>,
    upload: (int, string) -> Option<string>)

  function Resolving(env: MediaEnv): Resolver
  {
    Resolver(url => env.lookup(SlugFromUrl(url)), env.sourceUrl, env.upload)
  }

  /** `imageCache[id]` is truthy. */
  predicate Cached(cache: map<int, string>, id: int)
  {
    id in cache && cache[id] != ""
  }

  /** The cache only grows: no key disappears and no truthy entry changes. */
  ghost predicate CacheGrows(before: map<int, string>, after: map<int, string>)
  {
    && before.Keys <= after.Keys
    && forall id :: Cached(before, id) ==> id in after && after[id] == before[id]
  }

  /** The media id an `externalImage` block with a url resolves to, when the
      lookup yields a truthy number; `None` for every other block. */
  function LookupId(b: Block, rv: Resolver): (id: Option<int>)
    ensures id.Some? <==> b.Parsed? && b.blockType == "externalImage" && b.url.Some?
                          && rv.mediaId(b.url.value).Some? && rv.mediaId(b.url.value).value != 0
    ensures id.Some? ==> id == rv.mediaId(b.url.value)
  {
    if b.Parsed? && b.blockType == "externalImage" && b.url.Some? then
      var id := rv.mediaId(b.url.value);
      if id.Some? && id.value != 0 then id else None
    else None
  }

  /** One call of `sanityUploadFromUrl`: the media id and what it returned. */
  datatype UploadCall = UploadCall(mediaId: int, asset: Option<string>)

  /** The effect of resolving one block: the block returned, the cache after it
      and the upload made, if any. */
  datatype Step = Step(block: Block, cache: map<int, string>, upload: Option<UploadCall>)

  /** Resolution of one block against the cache. */
  function ResolveBlock(b: Block, cache: map<int, string>, rv: Resolver): (s: Step)
    // An upload happens only on a miss; a successful one caches its asset at
    // the uploaded media id, and nothing else ever writes the cache.
    ensures s.upload.Some? ==> !Cached(cache, s.upload.value.mediaId)
    ensures s.upload.Some? && s.upload.value.asset.Some? ==>
      s.cache == cache[s.upload.value.mediaId := s.upload.value.asset.value]
    ensures !(s.upload.Some? && s.upload.value.asset.Some?) ==> s.cache == cache
  {
    match LookupId(b, rv)
    case None => Step(b, cache, None)
    case Some(id) =>
      if Cached(cache, id) then Step(ImageReference(b.key, cache[id]), cache, None)
      else
        var src := rv.sourceUrl(id);
        if !TruthyStr(src) then Step(b, cache, None)
        else
          var asset := rv.upload(id, src.value);
          if asset.None? then Step(b, cache, Some(UploadCall(id, None)))
          else Step(ImageReference(b.key, asset.value), cache[id := asset.value], Some(UploadCall(id, asset)))
  }

  /** Blocks other than an external image with a url and a truthy media id pass
      through untouched: no upload, no cache write. */
  lemma ResolveBlockIgnores(b: Block, cache: map<int, string>, rv: Resolver)
    requires LookupId(b, rv).None?
    ensures ResolveBlock(b, cache, rv) == Step(b, cache, None)
  {
  }

  /** A cache hit reuses the cached asset and keeps the block's key, without uploading. */
  lemma ResolveBlockHit(b: Block, cache: map<int, string>, rv: Resolver)
    requires LookupId(b, rv).Some? && Cached(cache, LookupId(b, rv).value)
    ensures ResolveBlock(b, cache, rv)
      == Step(ImageReference(b.key, cache[LookupId(b, rv).value]), cache, None)
  {
  }

  /** A cache miss: with a truthy source url, a successful upload rewrites the
      block into a reference to the new asset, keeping its key, and caches the
      asset at the media id; without a source url, or when the upload returns
      nothing, the block comes back as it was and the cache is untouched. */
  lemma ResolveBlockMiss(b: Block, cache: map<int, string>, rv: Resolver)
    requires LookupId(b, rv).Some? && !Cached(cache, LookupId(b, rv).value)
    ensures var id := LookupId(b, rv).value;
      var src := rv.sourceUrl(id);
      var s := ResolveBlock(b, cache, rv);
      && (s.upload.Some? <==> TruthyStr(src))
      && (TruthyStr(src) && rv.upload(id, src.value).Some? ==>
            var a := rv.upload(id, src.value).value;
            s.block == ImageReference(b.key, a) && s.cache == cache[id := a])
      && (!(TruthyStr(src) && rv.upload(id, src.value).Some?) ==> s.block == b && s.cache == cache)
  {
  }

  /** A block is rewritten only into a reference to the asset the cache holds,
      afterwards, for its media id, and it keeps its key. */
  lemma ResolveBlockRewrites(b: Block, cache: map<int, string>, rv: Resolver)
    requires ResolveBlock(b, cache, rv).block != b
    ensures var s := ResolveBlock(b, cache, rv);
      LookupId(b, rv).Some? && LookupId(b, rv).value in s.cache
      && s.block == ImageReference(b.key, s.cache[LookupId(b, rv).value])
  {
  }

  /** Resolving one block never removes a cache key or changes a truthy entry. */
  lemma ResolveBlockGrowsCache(b: Block, cache: map<int, string>, rv: Resolver)
    ensures CacheGrows(cache, ResolveBlock(b, cache, rv).cache)
  {
  }

  /** Resolution of a block sequence in order, the cache threaded through. */
  datatype Resolution = Resolution(blocks: seq<Block>, cache: map<int, string>, uploads: seq<UploadCall>)

  function ResolveAll(bs: seq<Block>, cache: map<int, string>, rv: Resolver): (r: Resolution)
    ensures |r.blocks| == |bs|
    decreases |bs|
  {
    if bs == [] then Resolution([], cache, [])
    else
      var s := ResolveBlock(bs[0], cache, rv);
      Cons(s, ResolveAll(bs[1..], s.cache, rv))
  }

  /** The upload a step made, as a log of zero or one calls. */
  function Uploaded(s: Step): (log: seq<UploadCall>)
    ensures |log| <= 1
  {
    if s.upload.Some? then [s.upload.value] else []
  }

  /** One step followed by the resolution of the remaining blocks. */
  function Cons(s: Step, r: Resolution): (c: Resolution)
    ensures |c.blocks| == |r.blocks| + 1
  {
    Resolution([s.block] + r.blocks, r.cache, Uploaded(s) + r.uploads)
  }

  /** One resolution followed by another that starts from the cache it left. */
  function Then(r1: Resolution, r2: Resolution): Resolution
  {
    Resolution(r1.blocks + r2.blocks, r2.cache, r1.uploads + r2.uploads)
  }

  lemma ConsThen(s: Step, r1: Resolution, r2: Resolution)
    ensures Cons(s, Then(r1, r2)) == Then(Cons(s, r1), r2)
  {
    assert [s.block] + (r1.blocks + r2.blocks) == ([s.block] + r1.blocks) + r2.blocks;
    assert Uploaded(s) + (r1.uploads + r2.uploads) == (Uploaded(s) + r1.uploads) + r2.uploads;
  }

  /** Every block is either returned as it was or rewritten into an image
      reference with the same key. */
  lemma {:induction false} ResolveAllShape(bs: seq<Block>, cache: map<int, string>, rv: Resolver)
    ensures var r := ResolveAll(bs, cache, rv);
      forall i :: 0 <= i < |bs| ==>
        r.blocks[i] == bs[i] || (r.blocks[i].ImageReference? && r.blocks[i].key == bs[i].key)
    decreases |bs|
  {
    if bs != [] {
      var s := ResolveBlock(bs[0], cache, rv);
      ResolveAllShape(bs[1..], s.cache, rv);
      var r := ResolveAll(bs, cache, rv);
      forall i | 1 <= i < |bs|
        ensures r.blocks[i] == bs[i] || (r.blocks[i].ImageReference? && r.blocks[i].key == bs[i].key)
      {
        assert r.blocks[i] == ResolveAll(bs[1..], s.cache, rv).blocks[i - 1];
        assert bs[i] == bs[1..][i - 1];
      }
    }
  }

  /** Over a whole sequence the cache only grows. */
  lemma {:induction false} ResolveAllGrowsCache(bs: seq<Block>, cache: map<int, string>, rv: Resolver)
    ensures CacheGrows(cache, ResolveAll(bs, cache, rv).cache)
    decreases |bs|
  {
    if bs != [] {
      var s := ResolveBlock(bs[0], cache, rv);
      ResolveBlockGrowsCache(bs[0], cache, rv);
      ResolveAllGrowsCache(bs[1..], s.cache, rv);
    }
  }

  /** Resolving two sequences one after the other, with the cache the first
      leaves behind, is resolving their concatenation. This is how the cache is
      shared between the documents of a run. */
  lemma {:induction false} ResolveAllAppend(a: seq<Block>, b: seq<Block>, cache: map<int, string>, rv: Resolver)
    ensures var r1 := ResolveAll(a, cache, rv);
      ResolveAll(a + b, cache, rv) == Then(r1, ResolveAll(b, r1.cache, rv))
    decreases |a|
  {
    if a == [] {
      assert a + b == b;
    } else {
      var s := ResolveBlock(a[0], cache, rv);
      var t1 := ResolveAll(a[1..], s.cache, rv);
      var t2 := ResolveAll(b, t1.cache, rv);
      assert ResolveAll(a + b, cache, rv) == Cons(s, ResolveAll(a[1..] + b, s.cache, rv)) by {
        assert (a + b)[0] == a[0];
        assert (a + b)[1..] == a[1..] + b;
      }
      ResolveAllAppend(a[1..], b, s.cache, rv);
      ConsThen(s, t1, t2);
    }
  }

  /** No call in the log is for a media id the cache holds truthily. */
  ghost predicate AvoidsCached(ups: seq<UploadCall>, cache: map<int, string>)
  {
    forall i :: 0 <= i < |ups| ==> !Cached(cache, ups[i].mediaId)
  }

  /** Only a failed upload (nothing returned, or an empty asset id) is ever
      followed by another upload of the same media id. */
  predicate NoRepeatAfterSuccess(ups: seq<UploadCall>)
  {
    forall i, j :: 0 <= i < j < |ups| && ups[i].mediaId == ups[j].mediaId ==>
      ups[i].asset.None? || ups[i].asset == Some("")
  }

  /** A log of at most one call followed by a log that avoids the cache left
      after that call avoids the cache before it, when that step grew the cache. */
  lemma AvoidsCachedCons(here: seq<UploadCall>, rest: seq<UploadCall>, before: map<int, string>, after: map<int, string>)
    requires |here| <= 1 && (here != [] ==> !Cached(before, here[0].mediaId))
    requires AvoidsCached(rest, after) && CacheGrows(before, after)
    ensures AvoidsCached(here + rest, before)
  {
    var ups := here + rest;
    forall i | 0 <= i < |ups| ensures !Cached(before, ups[i].mediaId) {
      if i >= |here| {
        assert ups[i] == rest[i - |here|];
      }
    }
  }

  /** No upload is made for a media id the cache already held truthily. */
  lemma {:induction false} UploadsSkipCached(bs: seq<Block>, cache: map<int, string>, rv: Resolver)
    ensures AvoidsCached(ResolveAll(bs, cache, rv).uploads, cache)
    decreases |bs|
  {
    if bs != [] {
      var s := ResolveBlock(bs[0], cache, rv);
      UploadsSkipCached(bs[1..], s.cache, rv);
      ResolveBlockGrowsCache(bs[0], cache, rv);
      AvoidsCachedCons(Uploaded(s), ResolveAll(bs[1..], s.cache, rv).uploads, cache, s.cache);
    }
  }

  /** Prepending at most one call keeps `NoRepeatAfterSuccess` when the rest of
      the log avoids everything cached after that call, and a successful call
      is cached afterwards. */
  lemma NoRepeatCons(here: seq<UploadCall>, rest: seq<UploadCall>, after: map<int, string>)
    requires |here| <= 1
    requires here != [] && here[0].asset.Some? && here[0].asset.value != "" ==> Cached(after, here[0].mediaId)
    requires NoRepeatAfterSuccess(rest) && AvoidsCached(rest, after)
    ensures NoRepeatAfterSuccess(here + rest)
  {
    var ups := here + rest;
    forall i, j | 0 <= i < j < |ups| && ups[i].mediaId == ups[j].mediaId
      ensures ups[i].asset.None? || ups[i].asset == Some("")
    {
      assert ups[j] == rest[j - |here|];
      if i >= |here| {
        assert ups[i] == rest[i - |here|];
      }
    }
  }

  /** A successful upload with a non-empty asset id is never repeated for the
      same media id: later blocks find the asset in the cache. */
  lemma {:induction false} UploadsDeduplicated(bs: seq<Block>, cache: map<int, string>, rv: Resolver)
    ensures NoRepeatAfterSuccess(ResolveAll(bs, cache, rv).uploads)
    decreases |bs|
  {
    if bs != [] {
      var s := ResolveBlock(bs[0], cache, rv);
      var rest := ResolveAll(bs[1..], s.cache, rv).uploads;
      UploadsDeduplicated(bs[1..], s.cache, rv);
      UploadsSkipCached(bs[1..], s.cache, rv);
      NoRepeatCons(Uploaded(s), rest, s.cache);
    }
  }

  /** The documents of one run share the cache: when two documents' blocks are
      resolved one after the other, no media id is uploaded successfully twice,
      so two posts embedding the same image upload it once. */
  lemma TwoDocumentsUploadOnce(a: seq<Block>, b: seq<Block>, cache: map<int, string>, rv: Resolver)
    ensures var r1 := ResolveAll(a, cache, rv);
      NoRepeatAfterSuccess(r1.uploads + ResolveAll(b, r1.cache, rv).uploads)
  {
    ResolveAllAppend(a, b, cache, rv);
    UploadsDeduplicated(a + b, cache, rv);
  }


  /** Uploads yield truthy asset ids (Sanity document ids are never empty). */
  ghost predicate UploadsTruthy(rv: Resolver)
  {
    forall id, u :: rv.upload(id, u) != Some("")
  }

  /** A block resolved into a reference points at the asset the cache then
      holds, truthily, for its media id. */
  lemma ResolveBlockCachesReference(b: Block, cache: map<int, string>, rv: Resolver)
    requires UploadsTruthy(rv)
    requires LookupId(b, rv).Some? && ResolveBlock(b, cache, rv).block.ImageReference?
    ensures var id := LookupId(b, rv).value; var s := ResolveBlock(b, cache, rv);
      Cached(s.cache, id) && s.block.assetId == s.cache[id]
  {
    var id := LookupId(b, rv).value;
    if !Cached(cache, id) {
      var src := rv.sourceUrl(id);
      if TruthyStr(src) {
        assert rv.upload(id, src.value) != Some("");
      }
    }
  }

  /** Once a whole sequence is resolved, every block rewritten into a reference
      points at the asset the final cache holds for its media id: the cache is
      what lets a re-used image share one asset. */
  lemma {:induction false} ResolveAllReferencesCache(bs: seq<Block>, cache: map<int, string>, rv: Resolver)
    requires UploadsTruthy(rv)
    ensures var r := ResolveAll(bs, cache, rv);
      forall i :: 0 <= i < |bs| && LookupId(bs[i], rv).Some? && r.blocks[i].ImageReference? ==>
        Cached(r.cache, LookupId(bs[i], rv).value) && r.blocks[i].assetId == r.cache[LookupId(bs[i], rv).value]
    decreases |bs|
  {
    if bs != [] {
      var s := ResolveBlock(bs[0], cache, rv);
      var rest := ResolveAll(bs[1..], s.cache, rv);
      var r := ResolveAll(bs, cache, rv);
      assert r == Cons(s, rest);
      ResolveAllReferencesCache(bs[1..], s.cache, rv);
      forall i | 0 <= i < |bs| && LookupId(bs[i], rv).Some? && r.blocks[i].ImageReference?
        ensures Cached(r.cache, LookupId(bs[i], rv).value)
          && r.blocks[i].assetId == r.cache[LookupId(bs[i], rv).value]
      {
        if i == 0 {
          ResolveBlockCachesReference(bs[0], cache, rv);
          ResolveAllGrowsCache(bs[1..], s.cache, rv);
        } else {
          assert r.blocks[i] == rest.blocks[i - 1];
          assert bs[i] == bs[1..][i - 1];
        }
      }
    }
  }

  /** Two blocks of one sequence that look up the same media id and are both
      resolved into references point at the same asset. */
  lemma ResolveAllSameAsset(bs: seq<Block>, cache: map<int, string>, rv: Resolver, i: int, j: int)
    requires UploadsTruthy(rv)
    requires 0 <= i < |bs| && 0 <= j < |bs|
    requires LookupId(bs[i], rv).Some? && LookupId(bs[i], rv) == LookupId(bs[j], rv)
    requires ResolveAll(bs, cache, rv).blocks[i].ImageReference?
    requires ResolveAll(bs, cache, rv).blocks[j].ImageReference?
    ensures ResolveAll(bs, cache, rv).blocks[i].assetId == ResolveAll(bs, cache, rv).blocks[j].assetId
  {
    ResolveAllReferencesCache(bs, cache, rv);
  }

  /** Across two posts resolved one after the other with the shared cache, an
      image of the first and an image of the second with the same media id
      reference the same asset. */
  lemma TwoDocumentsSameAsset(a: seq<Block>, b: seq<Block>, cache: map<int, string>, rv: Resolver, i: int, j: int)
    requires UploadsTruthy(rv)
    requires 0 <= i < |a| && 0 <= j < |b|
    requires LookupId(a[i], rv).Some? && LookupId(a[i], rv) == LookupId(b[j], rv)
    requires ResolveAll(a, cache, rv).blocks[i].ImageReference?
    requires ResolveAll(b, ResolveAll(a, cache, rv).cache, rv).blocks[j].ImageReference?
    ensures ResolveAll(a, cache, rv).blocks[i].assetId
      == ResolveAll(b, ResolveAll(a, cache, rv).cache, rv).blocks[j].assetId
  {
    var r1 := ResolveAll(a, cache, rv);
    var r2 := ResolveAll(b, r1.cache, rv);
    ResolveAllAppend(a, b, cache, rv);
    var r := ResolveAll(a + b, cache, rv);
    assert r.blocks == r1.blocks + r2.blocks;
    assert (a + b)[i] == a[i] && (a + b)[|a| + j] == b[j];
    assert r.blocks[i] == r1.blocks[i] && r.blocks[|a| + j] == r2.blocks[j];
    ResolveAllSameAsset(a + b, cache, rv, i, |a| + j);
  }

  // ---------------------------------------------------------------------------
  // The cache, updated in place

  /** The run-wide `imageCache`: media id to Sanity asset id. */
  class ImageCache {
    var entries: map<int, string>

    constructor (initial: map<int, string>)
      ensures entries == initial
    {
      entries := initial;
    }
  }

  /** The callback given to `limit` for one block: rewrites an external image
      to an image reference, uploading and caching the asset on a miss. */
  method ResolveImage(b: Block, cache: ImageCache, env: MediaEnv) returns (r: Block)
    modifies cache
    ensures r == ResolveBlock(b, old(cache.entries), Resolving(env)).block
    ensures cache.entries == ResolveBlock(b, old(cache.entries), Resolving(env)).cache
  {
    if !(b.Parsed? && b.blockType == "externalImage" && b.url.Some?) {
      return b;
    }
    var slug := SlugFromUrl(b.url.value);
    var imageId := env.lookup(slug);
    if imageId.None? || imageId.value == 0 {
      return b;
    }
    var id := imageId.value;
    if id in cache.entries && cache.entries[id] != "" {
      return ImageReference(b.key, cache.entries[id]);
    }
    var src := env.sourceUrl(id);
    if TruthyStr(src) {
      var imageDocument := env.upload(id, src.value);
      if imageDocument.Some? {
        cache.entries := cache.entries[id := imageDocument.value];
        return ImageReference(b.key, cache.entries[id]);
      } else {
        return b;
      }
    }
    return b;
  }

  /** `blocks.map(...)` over the parsed blocks, one block after another. */
  method ResolveImages(blocks: seq<Block>, cache: ImageCache, env: MediaEnv) returns (resolved: seq<Block>)
    modifies cache
    ensures resolved == ResolveAll(blocks, old(cache.entries), Resolving(env)).blocks
    ensures cache.entries == ResolveAll(blocks, old(cache.entries), Resolving(env)).cache
  {
    resolved := [];
    var i := 0;
    while i < |blocks|
      invariant 0 <= i <= |blocks|
      invariant var rest := ResolveAll(blocks[i..], cache.entries, Resolving(env));
        ResolveAll(blocks, old(cache.entries), Resolving(env)).blocks == resolved + rest.blocks
        && ResolveAll(blocks, old(cache.entries), Resolving(env)).cache == rest.cache
    {
      assert blocks[i..][1..] == blocks[i + 1..];
      var r := ResolveImage(blocks[i], cache, env);
      resolved := resolved + [r];
      i := i + 1;
    }
    assert blocks[i..] == [];
  }

  // ---------------------------------------------------------------------------
  // Dropping empty blocks

  /** `children.map((c) => c.text.trim()).join('')`. */
  function JoinTrimmed(texts: seq<string>): (r: string)
    decreases |texts|
  {
    if texts == [] then [] else Trim(texts[0]) + JoinTrimmed(texts[1..])
  }

  /** The filter's test: a block without children is kept; a block with
      children is kept exactly when its joined trimmed texts are non-empty. */
  predicate KeepBlock(b: Block)
    ensures b.ImageReference? ==> KeepBlock(b)
    ensures b.Parsed? && b.children == Some([]) ==> !KeepBlock(b)
  {
    match b
    case ImageReference(_, _) => true
    case Parsed(_, _, _, children) => children.None? || |JoinTrimmed(children.value)| > 0
  }

  /** The joined trimmed texts are empty exactly when every text is white space. */
  lemma {:induction false} JoinTrimmedEmptyIff(texts: seq<string>)
    ensures JoinTrimmed(texts) == [] <==> forall i :: 0 <= i < |texts| ==> AllSpace(texts[i])
    decreases |texts|
  {
    if texts != [] {
      TrimEmptyIff(texts[0]);
      JoinTrimmedEmptyIff(texts[1..]);
      assert forall i :: 1 <= i < |texts| ==> texts[i] == texts[1..][i - 1];
    }
  }

  /** A block with children is dropped exactly when all its texts are white space. */
  lemma KeepBlockIff(b: Block)
    requires b.Parsed? && b.children.Some?
    ensures KeepBlock(b) <==> exists i :: 0 <= i < |b.children.value| && !AllSpace(b.children.value[i])
  {
    JoinTrimmedEmptyIff(b.children.value);
  }

  /** `blocks.filter(...)`. */
  function FilterEmpty(bs: seq<Block>): (r: seq<Block>)
    ensures |r| <= |bs|
    ensures forall x :: x in r <==> x in bs && KeepBlock(x)
    decreases |bs|
  {
    if bs == [] then []
    else if KeepBlock(bs[0]) then [bs[0]] + FilterEmpty(bs[1..])
    else FilterEmpty(bs[1..])
  }

  /** The filter keeps relative order: filtering a concatenation is concatenating
      the filtered parts. */
  lemma {:induction false} FilterEmptyAppend(a: seq<Block>, b: seq<Block>)
    ensures FilterEmpty(a + b) == FilterEmpty(a) + FilterEmpty(b)
    decreases |a|
  {
    if a == [] {
      assert a + b == b;
    } else {
      assert (a + b)[0] == a[0];
      assert (a + b)[1..] == a[1..] + b;
      FilterEmptyAppend(a[1..], b);
    }
  }

  /** A sequence whose blocks all pass the test is left as it is. */
  lemma {:induction false} FilterEmptyKeepsAll(bs: seq<Block>)
    requires forall i :: 0 <= i < |bs| ==> KeepBlock(bs[i])
    ensures FilterEmpty(bs) == bs
    decreases |bs|
  {
    if bs != [] {
      FilterEmptyKeepsAll(bs[1..]);
    }
  }

  // ---------------------------------------------------------------------------
  // Assigning keys

  /** The number of blocks without a truthy `_key`. */
  function MissingKeys(bs: seq<Block>): (n: nat)
    ensures n <= |bs|
    decreases |bs|
  {
    if bs == [] then 0 else (if bs[|bs| - 1].key == "" then 1 else 0) + MissingKeys(bs[..|bs| - 1])
  }

  /** `blocks.map((block) => (block._key ? block : {...block, _key: uuid()}))`,
      where `uuid(k)` is the k-th key drawn and `next` keys were drawn before. */
  function AssignKeys(bs: seq<Block>, uuid: nat -> string, next: nat): (r: seq<Block>)
    ensures |r| == |bs|
    ensures forall i :: 0 <= i < |bs| && bs[i].key != "" ==> r[i] == bs[i]
    ensures forall i :: 0 <= i < |bs| && bs[i].key == "" ==>
      r[i] == bs[i].(key := uuid(next + MissingKeys(bs[..i])))
    decreases |bs|
  {
    if bs == [] then []
    else
      var init := AssignKeys(bs[..|bs| - 1], uuid, next);
      var last := bs[|bs| - 1];
      assert bs[..|bs| - 1][..|bs| - 1] == bs[..|bs| - 1];
      assert forall i :: 0 <= i < |bs| - 1 ==> bs[..|bs| - 1][..i] == bs[..i];
      init + [if last.key != "" then last else last.(key := uuid(next + MissingKeys(bs[..|bs| - 1])))]
  }

  /** With a key supply that never yields the empty string, every block ends up
      with a truthy key, and the test of the filter is unaffected. */
  lemma AllKeyed(bs: seq<Block>, uuid: nat -> string, next: nat)
    requires forall k :: uuid(k) != ""
    ensures forall i :: 0 <= i < |bs| ==> AssignKeys(bs, uuid, next)[i].key != ""
    ensures forall i :: 0 <= i < |bs| ==> KeepBlock(AssignKeys(bs, uuid, next)[i]) == KeepBlock(bs[i])
  {
  }

  // ---------------------------------------------------------------------------
  // The whole post-parse pipeline

  /** `htmlToBlockContent` from the parsed blocks on: `blocks` is reassigned by
      each stage in turn. Every block of the result has a truthy key and passes
      the empty-block test, there are no more blocks than were parsed, and the
      cache has only grown. */
  method HtmlToBlockContent(parsed: seq<Block>, cache: ImageCache, env: MediaEnv, uuid: nat -> string)
    returns (blocks: seq<Block>)
    requires forall k :: uuid(k) != ""
    modifies cache
    ensures var res := ResolveAll(parsed, old(cache.entries), Resolving(env));
      cache.entries == res.cache && blocks == AssignKeys(FilterEmpty(res.blocks), uuid, 0)
    ensures |blocks| <= |parsed|
    ensures forall i :: 0 <= i < |blocks| ==> blocks[i].key != "" && KeepBlock(blocks[i])
    ensures CacheGrows(old(cache.entries), cache.entries)
  {
    ResolveAllGrowsCache(parsed, cache.entries, Resolving(env));
    blocks := ResolveImages(parsed, cache, env);
    blocks := FilterEmpty(blocks);
    ghost var filtered := blocks;
    blocks := AssignKeys(blocks, uuid, 0);
    AllKeyed(filtered, uuid, 0);
    assert forall i :: 0 <= i < |filtered| ==> filtered[i] in filtered;
  }
}
