/** The whole generator as a pure function: the ordered list of file writes
    a run performs. The handlers decide the writer calls (see `Batching`);
    performing a call renders its document and names its file. */
module Generation {
  import opened Options
  import opened Xml
  import opened Items
  import opened Elements
  import opened Batching
  import Reading
  import Decimal

  datatype Config = Config(
    sitemapLoc: string,
    sitemapName: string,
    outputFolder: string,
    linksPerSitemap: int)

  /** One file write: where, and the document tree written there. */
  datatype Write = Write(path: string, doc: Node)

  function PathOf(cfg: Config, fileName: string): string {
    cfg.outputFolder + "/" + fileName
  }

  /** `generateSitemap` and `generateSitemapIndex`, minus the serialisation. */
  function Perform(cfg: Config, call: Call<SitemapItem>, toIso: DateLike -> string, now: string): (w: Write)
    ensures cfg.outputFolder + "/" <= w.path
    ensures w.doc.Element?
    ensures call.WriteSitemap? ==> w.doc.name == "urlset" && |w.doc.children| == |call.items|
    ensures call.WriteIndex? ==> w.doc.name == "sitemapindex" && |w.doc.children| == call.count
  {
    match call
    case WriteSitemap(items, index, ignoreIndex) =>
      Write(PathOf(cfg, FileName(cfg.sitemapName, index, ignoreIndex)), UrlSet(items, toIso))
    case WriteIndex(count) =>
      Write(PathOf(cfg, cfg.sitemapName + ".xml"), SitemapIndex(count, cfg.sitemapLoc, cfg.sitemapName, now))
  }

  function PerformAll(cfg: Config, calls: seq<Call<SitemapItem>>, toIso: DateLike -> string, now: string): seq<Write> {
    seq(|calls|, i requires 0 <= i < |calls| => Perform(cfg, calls[i], toIso, now))
  }

  /** `generateSitemapsFromStream` over already-parsed records. */
  function GenerateSitemaps<R>(records: seq<R>, transform: R -> Option<SitemapItem>, cfg: Config,
                               toIso: DateLike -> string, now: string): (w: seq<Write>)
    ensures |w| == |Run(records, transform, cfg.linksPerSitemap)|
    ensures forall i :: 0 <= i < |w| - 1 ==> w[i].doc.Element? && w[i].doc.name == "urlset"
  {
    PerformAll(cfg, Run(records, transform, cfg.linksPerSitemap), toIso, now)
  }

  /** The same run with the end handler sizing the index by the files written. */
  function GenerateSitemapsCorrected<R>(records: seq<R>, transform: R -> Option<SitemapItem>, cfg: Config,
                                        toIso: DateLike -> string, now: string): (w: seq<Write>)
    ensures |w| == |RunCorrected(records, transform, cfg.linksPerSitemap)|
    ensures forall i :: 0 <= i < |w| - 1 ==> w[i].doc.Element? && w[i].doc.name == "urlset"
  {
    PerformAll(cfg, RunCorrected(records, transform, cfg.linksPerSitemap), toIso, now)
  }

  // ----- laws of a run -----

  /** No accepted item (in particular, no record at all): no file is written. */
  lemma NoFiles<R>(records: seq<R>, transform: R -> Option<SitemapItem>, cfg: Config,
                   toIso: DateLike -> string, now: string)
    requires cfg.linksPerSitemap >= 1
    requires |Accepted(records, transform)| == 0
    ensures GenerateSitemaps(records, transform, cfg, toIso, now) == []
  {
    NothingAccepted(records, transform, cfg.linksPerSitemap);
  }

  /** Fewer accepted items than the limit: the one file written is the
      unnumbered `name.xml`, holding every accepted item in order; no index. */
  lemma SingleFile<R>(records: seq<R>, transform: R -> Option<SitemapItem>, cfg: Config,
                      toIso: DateLike -> string, now: string)
    requires 0 < |Accepted(records, transform)| < cfg.linksPerSitemap
    ensures var w := GenerateSitemaps(records, transform, cfg, toIso, now);
            && |w| == 1
            && w[0].path == PathOf(cfg, cfg.sitemapName + ".xml")
            && w[0].doc == UrlSet(Accepted(records, transform), toIso)
  {
    SingleSitemap(records, transform, cfg.linksPerSitemap);
  }

  /** The writes of a numbered run, position by position. */
  lemma PerformNumbered(cfg: Config, chunks: seq<seq<SitemapItem>>, count: nat,
                        toIso: DateLike -> string, now: string)
    ensures var w := PerformAll(cfg, NumberedCalls(chunks, count), toIso, now);
            && |w| == |chunks| + 1
            && (forall i :: 0 <= i < |chunks| ==>
                  w[i] == Write(PathOf(cfg, FileName(cfg.sitemapName, i, false)), UrlSet(chunks[i], toIso)))
            && w[|chunks|] == Write(PathOf(cfg, cfg.sitemapName + ".xml"),
                                    SitemapIndex(count, cfg.sitemapLoc, cfg.sitemapName, now))
  {
    var calls := NumberedCalls(chunks, count);
    assert forall i :: 0 <= i < |chunks| ==> calls[i] == WriteSitemap(chunks[i], i, false);
    assert calls[|chunks|] == WriteIndex(count);
  }

  /** At least as many accepted items as the limit: the run performs the
      numbered calls over the chunks of the accepted items, with an index of
      `|accepted| / limit + 1` entries (see `PerformNumbered` for what each
      write is). */
  lemma MultipleFiles<R>(records: seq<R>, transform: R -> Option<SitemapItem>, cfg: Config,
                         toIso: DateLike -> string, now: string)
    requires 1 <= cfg.linksPerSitemap <= |Accepted(records, transform)|
    ensures GenerateSitemaps(records, transform, cfg, toIso, now)
            == PerformAll(cfg, NumberedCalls(Chunks(Accepted(records, transform), cfg.linksPerSitemap),
                                             |Accepted(records, transform)| / cfg.linksPerSitemap + 1),
                          toIso, now)
  {
    NumberedSitemaps(records, transform, cfg.linksPerSitemap);
  }

  /** The last write is an index whose entries name, one for one and in
      order, the files of all the writes before it. */
  predicate IndexMatches(cfg: Config, w: seq<Write>) {
    && |w| >= 1
    && w[|w| - 1].doc.Element?
    && |w[|w| - 1].doc.children| == |w| - 1
    && (forall i :: 0 <= i < |w| - 1 ==>
          && w[i].path == PathOf(cfg, FileName(cfg.sitemapName, i, false))
          && ChildText(w[|w| - 1].doc.children[i], 0, "loc")
             == Some(cfg.sitemapLoc + "/" + FileName(cfg.sitemapName, i, false)))
  }

  /** A numbered run whose index has one entry per chunk matches its files. */
  lemma NumberedIndexMatches(cfg: Config, chunks: seq<seq<SitemapItem>>, toIso: DateLike -> string, now: string)
    ensures var w := PerformAll(cfg, NumberedCalls(chunks, |chunks|), toIso, now);
            |w| == |chunks| + 1 && IndexMatches(cfg, w)
  {
    PerformNumbered(cfg, chunks, |chunks|, toIso, now);
  }

  /** When the last batch is partial, the index names exactly the sitemap
      files written: one entry per file, entry `i` pointing at the `i`-th write. */
  lemma IndexMatchesFiles<R>(records: seq<R>, transform: R -> Option<SitemapItem>, cfg: Config,
                             toIso: DateLike -> string, now: string)
    requires 1 <= cfg.linksPerSitemap <= |Accepted(records, transform)|
    requires |Accepted(records, transform)| % cfg.linksPerSitemap != 0
    ensures var w := GenerateSitemaps(records, transform, cfg, toIso, now);
            |w| >= 2 && IndexMatches(cfg, w)
  {
    var all := Accepted(records, transform);
    var chunks := Chunks(all, cfg.linksPerSitemap);
    PartialChunkCount(all, cfg.linksPerSitemap);
    MultipleFiles(records, transform, cfg, toIso, now);
    assert GenerateSitemaps(records, transform, cfg, toIso, now)
        == PerformAll(cfg, NumberedCalls(chunks, |chunks|), toIso, now);
    NumberedIndexMatches(cfg, chunks, toIso, now);
  }

  lemma PathInjective(cfg: Config, a: string, b: string)
    ensures PathOf(cfg, a) == PathOf(cfg, b) <==> a == b
  {
    if PathOf(cfg, a) == PathOf(cfg, b) {
      assert a == PathOf(cfg, a)[|cfg.outputFolder| + 1..];
      assert b == PathOf(cfg, b)[|cfg.outputFolder| + 1..];
    }
  }

  /** The last write is an index with one entry per write, itself included,
      and its last entry names a numbered file that no write produced. */
  predicate DanglingEntry(cfg: Config, w: seq<Write>) {
    && |w| >= 1
    && var missing := FileName(cfg.sitemapName, |w| - 1, false);
    && w[|w| - 1].doc.Element?
    && |w[|w| - 1].doc.children| == |w|
    && ChildText(w[|w| - 1].doc.children[|w| - 1], 0, "loc") == Some(cfg.sitemapLoc + "/" + missing)
    && (forall j :: 0 <= j < |w| ==> w[j].path != PathOf(cfg, missing))
  }

  /** A numbered run whose index has one entry more than it has chunks:
      the last entry names a numbered file that none of the writes produced. */
  lemma NumberedDangling(cfg: Config, chunks: seq<seq<SitemapItem>>, toIso: DateLike -> string, now: string)
    ensures var w := PerformAll(cfg, NumberedCalls(chunks, |chunks| + 1), toIso, now);
            |w| == |chunks| + 1 && DanglingEntry(cfg, w)
  {
    var w := PerformAll(cfg, NumberedCalls(chunks, |chunks| + 1), toIso, now);
    PerformNumbered(cfg, chunks, |chunks| + 1, toIso, now);
    var n := |chunks|;
    var name := cfg.sitemapName;
    var missing := FileName(name, n, false);
    forall j | 0 <= j < |w|
      ensures w[j].path != PathOf(cfg, missing)
    {
      if j < n {
        Reading.FileNameInjective(name, j, false, n, false);
        PathInjective(cfg, FileName(name, j, false), missing);
      } else {
        Reading.FileNameInjective(name, 0, true, n, false);
        PathInjective(cfg, FileName(name, 0, true), missing);
      }
    }
  }

  /** When the accepted items fill the last batch exactly, the index still
      gets one entry more than the sitemap files written, and that last entry
      names a file that no write produced. */
  lemma DanglingIndexEntry<R>(records: seq<R>, transform: R -> Option<SitemapItem>, cfg: Config,
                              toIso: DateLike -> string, now: string)
    requires 1 <= cfg.linksPerSitemap <= |Accepted(records, transform)|
    requires |Accepted(records, transform)| % cfg.linksPerSitemap == 0
    ensures var w := GenerateSitemaps(records, transform, cfg, toIso, now);
            |w| >= 2 && DanglingEntry(cfg, w)
  {
    var all := Accepted(records, transform);
    var chunks := Chunks(all, cfg.linksPerSitemap);
    ExactChunkCount(all, cfg.linksPerSitemap);
    MultipleFiles(records, transform, cfg, toIso, now);
    assert GenerateSitemaps(records, transform, cfg, toIso, now)
        == PerformAll(cfg, NumberedCalls(chunks, |chunks| + 1), toIso, now);
    NumberedDangling(cfg, chunks, toIso, now);
  }

  /** No two writes in `w` share a path. */
  predicate PathsDistinct(w: seq<Write>) {
    forall i, j :: 0 <= i < j < |w| ==> w[i].path != w[j].path
  }

  /** The writes of a numbered run go to pairwise different paths. */
  lemma NumberedPathsDistinct(cfg: Config, chunks: seq<seq<SitemapItem>>, count: nat,
                              toIso: DateLike -> string, now: string)
    ensures PathsDistinct(PerformAll(cfg, NumberedCalls(chunks, count), toIso, now))
  {
    var w := PerformAll(cfg, NumberedCalls(chunks, count), toIso, now);
    PerformNumbered(cfg, chunks, count, toIso, now);
    var name := cfg.sitemapName;
    forall i, j | 0 <= i < j < |w|
      ensures w[i].path != w[j].path
    {
      if j < |chunks| {
        Reading.FileNameInjective(name, i, false, j, false);
        PathInjective(cfg, FileName(name, i, false), FileName(name, j, false));
      } else {
        Reading.FileNameInjective(name, i, false, 0, true);
        PathInjective(cfg, FileName(name, i, false), FileName(name, 0, true));
      }
    }
  }

  /** No run writes the same path twice. */
  lemma DistinctPaths<R>(records: seq<R>, transform: R -> Option<SitemapItem>, cfg: Config,
                         toIso: DateLike -> string, now: string)
    requires cfg.linksPerSitemap >= 1
    ensures PathsDistinct(GenerateSitemaps(records, transform, cfg, toIso, now))
  {
    var all := Accepted(records, transform);
    var w := GenerateSitemaps(records, transform, cfg, toIso, now);
    if |all| == 0 {
      NoFiles(records, transform, cfg, toIso, now);
    } else if |all| < cfg.linksPerSitemap {
      SingleFile(records, transform, cfg, toIso, now);
      assert |w| == 1;
    } else {
      var chunks := Chunks(all, cfg.linksPerSitemap);
      var count: nat := |all| / cfg.linksPerSitemap + 1;
      MultipleFiles(records, transform, cfg, toIso, now);
      NumberedPathsDistinct(cfg, chunks, count, toIso, now);
      assert w == PerformAll(cfg, NumberedCalls(chunks, count), toIso, now);
    }
  }

  /** With the corrected end handler the index always names exactly the
      sitemap files written, whether or not the last batch is full. */
  lemma CorrectedIndexMatchesFiles<R>(records: seq<R>, transform: R -> Option<SitemapItem>, cfg: Config,
                                      toIso: DateLike -> string, now: string)
    requires 1 <= cfg.linksPerSitemap <= |Accepted(records, transform)|
    ensures var w := GenerateSitemapsCorrected(records, transform, cfg, toIso, now);
            |w| >= 2 && IndexMatches(cfg, w)
  {
    var chunks := Chunks(Accepted(records, transform), cfg.linksPerSitemap);
    NumberedSitemapsCorrected(records, transform, cfg.linksPerSitemap);
    ChunkCount(Accepted(records, transform), cfg.linksPerSitemap);
    NumberedIndexMatches(cfg, chunks, toIso, now);
  }

  // ----- concrete runs -----

  /** One numbered file name at a time, so that each rendering is computed alone. */
  lemma FirstFileName(name: string)
    ensures FileName(name, 0, false) == name + ".1.xml"
  {
    assert Decimal.Render(1) == "1";
  }

  lemma SecondFileName(name: string)
    ensures FileName(name, 1, false) == name + ".2.xml"
  {
    assert Decimal.Render(2) == "2";
  }

  lemma EleventhFileName(name: string)
    ensures FileName(name, 10, false) == name + ".11.xml"
  {
    assert Decimal.Render(11) == Decimal.Render(1) + "1" == "11";
  }

  /** A single accepted item with a limit of one: the single batch is flushed
      mid-stream as `name.1.xml`, and the index then lists two entries, the
      second naming `name.2.xml`, which is never written. */
  lemma OneFullBatch<R>(records: seq<R>, transform: R -> Option<SitemapItem>, cfg: Config,
                        toIso: DateLike -> string, now: string)
    requires |Accepted(records, transform)| == 1 && cfg.linksPerSitemap == 1
    ensures var w := GenerateSitemaps(records, transform, cfg, toIso, now);
            && |w| == 2
            && w[0].path == PathOf(cfg, cfg.sitemapName + ".1.xml")
            && w[0].doc == UrlSet(Accepted(records, transform), toIso)
            && w[1].path == PathOf(cfg, cfg.sitemapName + ".xml")
            && |w[1].doc.children| == 2
            && ChildText(w[1].doc.children[1], 0, "loc") == Some(cfg.sitemapLoc + "/" + (cfg.sitemapName + ".2.xml"))
            && w[0].path != PathOf(cfg, cfg.sitemapName + ".2.xml")
            && w[1].path != PathOf(cfg, cfg.sitemapName + ".2.xml")
  {
    var all := Accepted(records, transform);
    var w := GenerateSitemaps(records, transform, cfg, toIso, now);
    assert Chunks(all, 1) == [all];
    MultipleFiles(records, transform, cfg, toIso, now);
    assert w == PerformAll(cfg, NumberedCalls([all], 2), toIso, now);
    PerformNumbered(cfg, [all], 2, toIso, now);
    DanglingIndexEntry(records, transform, cfg, toIso, now);
    FirstFileName(cfg.sitemapName);
    SecondFileName(cfg.sitemapName);
  }

  /** How 10,500 items fall into chunks of 1,000. */
  lemma ChunksOf10500<T>(all: seq<T>)
    requires |all| == 10500
    ensures |Chunks(all, 1000)| == 11 == |all| / 1000 + 1
    ensures forall i :: 0 <= i < 10 ==> |Chunks(all, 1000)[i]| == 1000
    ensures |Chunks(all, 1000)[10]| == 500
  {
    ChunkCount(all, 1000);
    ChunksFull(all, 1000);
    LastChunk(all, 1000);
  }

  /** 10,500 accepted items with a limit of 1,000: eleven numbered files,
      ten of 1,000 urls and a last one of 500, then an index of eleven
      entries, the last naming `name.11.xml`. */
  lemma TenThousandFiveHundred<R>(records: seq<R>, transform: R -> Option<SitemapItem>, cfg: Config,
                                  toIso: DateLike -> string, now: string)
    requires |Accepted(records, transform)| == 10500 && cfg.linksPerSitemap == 1000
    ensures var w := GenerateSitemaps(records, transform, cfg, toIso, now);
            && |w| == 12
            && (forall i :: 0 <= i < 11 ==> w[i].path == PathOf(cfg, FileName(cfg.sitemapName, i, false)))
            && w[0].path == PathOf(cfg, cfg.sitemapName + ".1.xml")
            && w[0].doc.Element? && |w[0].doc.attrs| >= 1
            && w[0].doc.attrs[0] == Attr("xmlns", SitemapNamespace)
            && (forall i :: 0 <= i < 10 ==> |w[i].doc.children| == 1000)
            && |w[10].doc.children| == 500
            && w[10].path == PathOf(cfg, cfg.sitemapName + ".11.xml")
            && w[11].path == PathOf(cfg, cfg.sitemapName + ".xml")
            && |w[11].doc.children| == 11
            && ChildText(w[11].doc.children[10], 0, "loc") == Some(cfg.sitemapLoc + "/" + (cfg.sitemapName + ".11.xml"))
  {
    var all := Accepted(records, transform);
    var chunks := Chunks(all, 1000);
    var w := GenerateSitemaps(records, transform, cfg, toIso, now);
    ChunksOf10500(all);
    MultipleFiles(records, transform, cfg, toIso, now);
    assert w == PerformAll(cfg, NumberedCalls(chunks, 11), toIso, now);
    PerformNumbered(cfg, chunks, 11, toIso, now);
    forall i | 0 <= i < 10
      ensures |w[i].doc.children| == 1000
    {
      assert w[i].doc == UrlSet(chunks[i], toIso);
    }
    assert w[10].doc == UrlSet(chunks[10], toIso);
    assert w[0].doc == UrlSet(chunks[0], toIso);
    FirstFileName(cfg.sitemapName);
    EleventhFileName(cfg.sitemapName);
  }
}
