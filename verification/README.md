# Sitemap generator, modelled in Dafny

This project models the sitemap generator of `src/sitemaps.ts` as pure
functions. The generator turns an ordered stream of search-index records into
XML files following the sitemaps.org Sitemap protocol 0.9, extended with
Google image entries and `xhtml:link` hreflang alternates.

Each record is passed through a transformer that may reject it. Accepted
items are buffered, and every full buffer of `linksPerSitemap` items is written
as a numbered sitemap `name.(i+1).xml`. At the end of the stream the remainder
is written, and, when anything was flushed mid-stream, an index `name.xml`
listing the numbered files.

Modules, following the structure of the source:

- `Options`, `Xml`, `Decimal`: an optional value, an abstract XML element
  tree, and decimal rendering of the file number with its parser.
- `Items`: `SitemapItem` with its images and alternates, the change
  frequencies, and the JavaScript truthiness tests the builder applies.
  - `priority || 0.5` maps an absent or zero priority to 0.5.
  - An absent or empty image field or resolved URL is falsy.
  - `lastmod` is falsy when it is 0 or `""`.
- `Elements`: `createSitemapItemElement` (`UrlElement`), the `urlset`
  document with its namespace flags (`UrlSet`), the file name, one index entry
  (`IndexEntry`) and the index document (`SitemapIndex`).
- `Reading`: the partner of the element builder. `View` says what a `url`
  element should carry, and `ParseUrl` reads that content back from the tree.
  `FileIndex` reads a batch number back from a file name.
- `Batching`: the data and end handlers of `generateSitemapsFromStream` as a
  left fold over the transform results. The run is the list of calls it makes
  to `generateSitemap` and `generateSitemapIndex`. `Chunks` is the reference
  partition of the accepted items.
- `Generation`: each call rendered to a file write (path and document). On
  top of these are the laws of a whole run, and two concrete runs.

The end handler is modelled as written. When the number of accepted items T
is a positive multiple of the limit L, the last batch is flushed mid-stream.
The end handler then still writes an index of `counter + 1` entries, so the
last index entry names a file that was never written. The laws that equate
index entries with written files therefore require `T % L != 0`. A corrected
end handler, whose index is sized by the files actually written, is modelled
alongside it (see Findings). With T = L, for instance, the run writes
`name.1.xml` and then an index of two entries.

## Model

| member | source | states |
|---|---|---|
| Elements.UrlElement | src/sitemaps.ts:53-106 | The element of an item is a `url` element with no attributes and at least two children. `loc` comes first. The priority comes second: 0.5 when the item has none or has 0, and the item's value otherwise. The full content is fixed by `Reading.UrlRoundTrip` and `Reading.MinimalItem`. |
| Reading.UrlRoundTrip | src/sitemaps.ts:53-106 | The `url` element of any item reads back as exactly its intended content. That content is `loc`, `item.priority \|\| 0.5`, the truthy `lastmod`, the `changefreq`, the resolved alternates and the image views. The element holds nothing else, and the children come in that fixed order. |
| Reading.MinimalItem | src/sitemaps.ts:58-59 | A `url` element has only two children exactly when no optional part is shown. An item with only `loc` renders as `[loc, priority 0.5]`. |
| Reading.LinkCount | src/sitemaps.ts:82-93 | Alternates give one `xhtml:link` per resolved language. With N languages and M skipped (the resolver answered `false` or ""), there are N − M links. |
| Reading.ResolvedMembership | src/sitemaps.ts:82-93 | A (language, href) pair is emitted as a link if and only if the language is listed and its resolved URL is that non-empty href. |
| Reading.LinksRoundTrip | src/sitemaps.ts:83-92 | The link elements read back, in language order, as the resolved (language, href) pairs, and the children after them are left untouched. |
| Reading.ImageRoundTrip | src/sitemaps.ts:95-103 | An `image:image` element reads back as `image:loc` followed by the title, caption, geo_location and license, each present exactly when it is non-empty. |
| Reading.ImagesRoundTrip | src/sitemaps.ts:94-104 | A list of images reads back as one image view per image, in list order. |
| Elements.ScanItems | src/sitemaps.ts:119-125 | The single scan yields each item's element, in order. The multilingual flag is set iff some item has `alternates`. The images flag is set iff some item has `images`, even an empty list. |
| Elements.Declarations | src/sitemaps.ts:116-133 | The `urlset` attributes start with the sitemap 0.9 `xmlns` and have distinct keys. `xmlns:xhtml` and `xmlns:image` carry their namespace exactly when their flag is set. |
| Elements.UrlSet | src/sitemaps.ts:116-133 | A batch's `urlset` always declares the sitemap namespace, and declares each namespace at most once. It declares `xmlns:xhtml` iff some item has alternates, and `xmlns:image` iff some item has images. Its children are the items' `url` elements, one per item, in input order. |
| Elements.IndexEntry | src/sitemaps.ts:142-152 | Entry `i` of the index has `loc` equal to `sitemapLoc + "/" + name.(i+1).xml` and `lastmod` equal to the shared timestamp. |
| Elements.SitemapIndex | src/sitemaps.ts:154-169 | The index declares only the sitemap namespace. It holds exactly `count` entries, for batches 0 .. count−1 in order, all stamped with the same time. |
| Elements.FileName | src/sitemaps.ts:136-138 | A file name starts with the sitemap name and ends in `.xml`. It is exactly `name.xml` when `ignoreIndex` is set, and only then; equivalently, its length is that of the name plus four. The numbering is fixed by `Reading.FileIndexInverse` and `Reading.FileNameInjective`. |
| Reading.FileIndexInverse | src/sitemaps.ts:136-138 | A numbered file name `name.(i+1).xml` parses back to batch index `i`. The unnumbered `name.xml` parses to no index. |
| Reading.FileNameInjective | src/sitemaps.ts:136-138 | Two file names coincide if and only if both are unnumbered, or both are numbered with the same index. |
| Decimal.ParseRender | src/sitemaps.ts:136-138 | The decimal rendering of a batch number parses back to that number. |
| Decimal.RenderInjective | src/sitemaps.ts:136-138 | Distinct batch numbers render to distinct digit strings. |
| Items.ParseFrequency | src/sitemaps.ts:7-14 | Reading a `changefreq` text is the inverse of naming a frequency: it succeeds exactly on the seven names. |
| Batching.OnData | src/sitemaps.ts:195-213 | One record adds at most one flush and leaves earlier flushes unchanged. The counter grows by the number of new flushes. A new flush holds exactly `limit` items, is numbered with the old counter, is not unnumbered, and empties the buffer. The flushes followed by the buffer gain exactly the accepted item, if any. A rejected record changes nothing unless the buffer was already full. With `limit ≥ 1` the buffer stays below the limit. |
| Batching.Consume | src/sitemaps.ts:195-213 | After the stream the counter equals the number of mid-stream flushes, and flush `i` is numbered `i` and is not unnumbered. |
| Batching.ConsumeInvariant | src/sitemaps.ts:195-213 | After any prefix of records, with L ≥ 1, four things hold. The buffer is shorter than L. Every mid-stream flush held exactly L items and was numbered 0, 1, 2, …, never unnumbered. Rejected records were never buffered. The flushed batches followed by the buffer are exactly the accepted items, in arrival order. |
| Batching.ConsumeCounts | src/sitemaps.ts:195-213 | After the stream, T / L batches were flushed and T % L items remain buffered. |
| Batching.ConsumeChunks | src/sitemaps.ts:195-213 | The flushed batches plus a non-empty remainder are exactly the reference partition of the accepted items into chunks of L. |
| Batching.ChunkCount | src/sitemaps.ts:195-229 | The reference partition has ⌈T / L⌉ chunks. |
| Batching.ChunksFlatten | src/sitemaps.ts:195-229 | The reference partition loses, duplicates and reorders nothing: its chunks laid end to end are the accepted items. |
| Batching.ChunksFull | src/sitemaps.ts:201-213 | Every chunk but the last holds L items, and the last holds between 1 and L. |
| Batching.LastChunk | src/sitemaps.ts:218-229 | The last chunk holds T % L items, or L when that remainder is zero. |
| Batching.OnEnd | src/sitemaps.ts:218-240 | The end handler writes a last sitemap exactly when the buffer is non-empty. That sitemap holds the buffer, is numbered with the counter, and is unnumbered exactly when nothing was flushed before. It writes an index exactly when something was flushed. Its last sitemap is the corrected handler's. Its index agrees with the corrected one exactly when nothing was flushed or the buffer is non-empty. |
| Batching.OnEndCorrected | src/sitemaps.ts:219-238 | The corrected end handler writes an index exactly when something was flushed, with one entry per sitemap file: the flush count, plus one if a last sitemap was written. |
| Batching.CallsShape | src/sitemaps.ts:218-240 | When mid-stream flushes are numbered and an unnumbered last sitemap comes only with no flushes and no index, every call but the last writes a sitemap, and an unnumbered sitemap is the run's only call. |
| Batching.Run | src/sitemaps.ts:195-240 | Every call of a run but the last writes a sitemap, and an unnumbered sitemap is written only by a run of one call. |
| Batching.RunCorrected | src/sitemaps.ts:219-238 | The run with the corrected end handler has the same shape: sitemaps first, and an unnumbered sitemap only alone. |
| Batching.ExactChunkCount | src/sitemaps.ts:201-213 | When T is a positive multiple of L, the reference partition has exactly T / L chunks, and the last of them is full. |
| Batching.PartialChunkCount | src/sitemaps.ts:218-229 | When T is not a multiple of L, the reference partition has T / L + 1 chunks. The last one is partial: it holds T % L items, fewer than L. |
| Batching.NothingAccepted | src/sitemaps.ts:218-240 | If no record is accepted, including the case of no records at all, nothing is written. |
| Batching.SingleSitemap | src/sitemaps.ts:218-240 | If 0 < T < L, the run is one unnumbered sitemap holding all accepted items, with no index. |
| Batching.NumberedSitemaps | src/sitemaps.ts:195-240 | If T ≥ L, chunk `i` is written as numbered sitemap `i`, in order. The index follows with T / L + 1 entries, whether or not a remainder was left. |
| Batching.NumberedSitemapsCorrected | src/sitemaps.ts:219-238 | With the corrected end handler, the index has one entry per chunk. |
| Generation.Perform | src/sitemaps.ts:116-168 | Every call becomes one write under `outputFolder + "/"`. A sitemap call writes a `urlset` with one child per item. An index call writes a `sitemapindex` with `count` children. Paths and contents are fixed by `Generation.PerformNumbered` and `Generation.SingleFile`. |
| Generation.GenerateSitemaps | src/sitemaps.ts:171-243 | A run performs one write per call of the fold, and every write but the last is a `urlset`. The full outcome is fixed by `Generation.NoFiles`, `Generation.SingleFile` and `Generation.MultipleFiles`. |
| Generation.GenerateSitemapsCorrected | src/sitemaps.ts:219-238 | The corrected run performs one write per call of the corrected fold, and every write but the last is a `urlset`. |
| Generation.NoFiles | src/sitemaps.ts:218-240 | A run that accepts nothing performs no write. |
| Generation.SingleFile | src/sitemaps.ts:218-229 | A run with 0 < T < L writes one file, `name.xml`, whose `urlset` holds every accepted item. |
| Generation.PerformNumbered | src/sitemaps.ts:136-168 | A numbered run writes chunk `i` to `folder/name.(i+1).xml` as its `urlset`, then writes the index to `folder/name.xml`. |
| Generation.MultipleFiles | src/sitemaps.ts:195-240 | A run with T ≥ L performs exactly the numbered writes over the chunks of the accepted items, with an index of T / L + 1 entries. |
| Generation.IndexMatchesFiles | src/sitemaps.ts:218-238 | If T ≥ L and T % L ≠ 0, the index names exactly the sitemap files written: one entry per file, in write order. |
| Generation.DanglingIndexEntry | src/sitemaps.ts:219-238 | If T ≥ L and T % L = 0, the index has one entry more than there are sitemap files, and its last entry names a file that no write produced. |
| Generation.DistinctPaths | src/sitemaps.ts:136-168 | No run writes the same path twice. |
| Generation.CorrectedIndexMatchesFiles | src/sitemaps.ts:219-238 | With the corrected end handler, the index names exactly the files written, whatever T % L is. |
| Generation.OneFullBatch | src/sitemaps.ts:219-238 | Any stream that accepts exactly one record, with L = 1, writes `name.1.xml` and then an index of two entries. The second entry names `name.2.xml`, which is never written. |
| Generation.TenThousandFiveHundred | src/sitemaps.test.ts:148-178 | 10,500 accepted items with L = 1,000 give eleven numbered files, written in order as `name.1.xml` … `name.11.xml`. The first ten hold 1,000 urls each and the last holds 500. `name.1.xml` declares the sitemap 0.9 namespace as its `xmlns`. An eleven-entry index follows, whose last entry names `name.11.xml`. |

## Left out

- File I/O (`writeFile`, `createReadStream`): each write is an entry in a returned list of (path, document) pairs.
- JSON-lines parsing: the input is an already-parsed sequence of records, and the transformer is a function from a record to an optional item (`None` for `false`).
- XML serialisation, the `utf-8` declaration and pretty or minified output (`minifyOutput`): the model works on the element tree, which these options do not change.
- Date handling (`Date`, `Date.parse`, `toISOString`): the ISO rendering of `lastmod` is a function parameter, and the index timestamp is a string parameter. The `RangeError` an invalid date throws is not modelled.
- Priority numerics: the priority is a `real`. JavaScript number formatting and NaN are not modelled.
- The asynchronous shell: `pause`/`resume` backpressure, the `'error'` rejection path and promise resolution. The handlers run as one sequential fold. This assumes that the `'end'` handler starts only after the last `'data'` handler's `await generateSitemap` has finished. The `'data'` listener is `async` and only `pause()` holds `'end'` back, so the program does not itself guarantee this order, and the extra index entry described above rests on it.
- The progress bar and the logger (`src/logger.ts`): side effects only.
- `generateSitemaps` (the wrapper that opens the temporary file and passes a fixed total of 10000 to the progress bar), src/typesenseClient.ts, src/collections.ts and src/index.ts: thin plumbing around an external client that is not part of this model.
- The default `linksPerSitemap = 50000` (src/sitemaps.ts:179): the limit is always a parameter, and every caller passes one (src/index.ts:76, src/sitemaps.ts:263).
- Batching laws: a limit of zero or less is accepted by the fold, as in the source, but the laws assume `linksPerSitemap ≥ 1`. The limit is an integer. A fractional `linksPerSitemap` never meets the `===` length test (src/sitemaps.ts:201), so the program would never flush and would write everything to one `name.xml`. That case is not modelled.

## Findings

| source | as written | input that shows it | evidently intended | confidence | as-written member | corrected member |
|---|---|---|---|---|---|---|
| src/sitemaps.ts:219-238 | The end handler writes an index of `currentSitemapIndex + 1` entries even when its buffer is empty. | One accepted record with `linksPerSitemap = 1`. The run writes `name.1.xml`, then an index whose second entry names `name.2.xml`, which does not exist. | The index lists one entry per sitemap file written: `counter + 1` only when a remainder was written. | not executed | Generation.DanglingIndexEntry | Generation.CorrectedIndexMatchesFiles |
