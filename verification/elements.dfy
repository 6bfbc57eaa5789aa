/** The element builder and the two document builders: one `url` element per
    sitemap item, the `urlset` document of a batch with its namespace
    declarations, the file name of a batch, and the `sitemapindex` document. */
module Elements {
  import opened Options
  import opened Xml
  import opened Items
  import Decimal

  const SitemapNamespace := "http://www.sitemaps.org/schemas/sitemap/0.9"
  const XhtmlNamespace := "http://www.w3.org/1999/xhtml"
  const ImageNamespace := "http://www.google.com/schemas/sitemap-image/1.1"

  function LinkElement(lang: string, href: string): Node {
    Element("xhtml:link", [Attr("rel", "alternate"), Attr("hreflang", lang), Attr("href", href)], [])
  }

  /** One `xhtml:link` per language, in order, for each language whose URL is truthy. */
  function LinkElements(languages: seq<string>, langToURL: string -> Option<string>): (r: seq<Node>)
    ensures AllNamed(r, "xhtml:link")
    ensures |r| <= |languages|
    decreases |languages|
  {
    if |languages| == 0 then []
    else
      var href := langToURL(languages[0]);
      (if TruthyText(href) then [LinkElement(languages[0], href.value)] else [])
      + LinkElements(languages[1..], langToURL)
  }

  /** A child leaf that is emitted only when its value is truthy. */
  function OptionalLeaf(name: string, value: Option<string>): seq<Node> {
    if TruthyText(value) then [Leaf(name, value.value)] else []
  }

  function ImageElement(image: SitemapItemImage): Node {
    Element("image:image", [],
      [Leaf("image:loc", image.loc)]
      + OptionalLeaf("image:title", image.title)
      + OptionalLeaf("image:caption", image.caption)
      + OptionalLeaf("image:geo_location", image.geoLocation)
      + OptionalLeaf("image:license", image.license))
  }

  /** One `image:image` element per image, in list order. */
  function ImageElements(images: seq<SitemapItemImage>): (r: seq<Node>)
    ensures |r| == |images|
    ensures AllNamed(r, "image:image")
    decreases |images|
  {
    if |images| == 0 then []
    else [ImageElement(images[0])] + ImageElements(images[1..])
  }

  function PriorityElement(p: real): Node {
    Element("priority", [], [Number(p)])
  }

  function LastmodPart(item: SitemapItem, toIso: DateLike -> string): (r: seq<Node>)
    ensures AllNamed(r, "lastmod")
  {
    if TruthyDate(item.lastmod) then [Leaf("lastmod", toIso(item.lastmod.value))] else []
  }

  function FrequencyPart(item: SitemapItem): (r: seq<Node>)
    ensures AllNamed(r, "changefreq")
  {
    if item.changefreq.Some? then [Leaf("changefreq", FrequencyName(item.changefreq.value))] else []
  }

  function AlternatesPart(item: SitemapItem): (r: seq<Node>)
    ensures AllNamed(r, "xhtml:link")
  {
    match item.alternates
    case Some(alt) => LinkElements(alt.languages, alt.langToURL)
    case None => []
  }

  function ImagesPart(item: SitemapItem): (r: seq<Node>)
    ensures AllNamed(r, "image:image")
  {
    match item.images
    case Some(images) => ImageElements(images)
    case None => []
  }

  /** The children of a `url` element after `loc` and `priority`. */
  function OptionalParts(item: SitemapItem, toIso: DateLike -> string): seq<Node> {
    LastmodPart(item, toIso) + (FrequencyPart(item) + (AlternatesPart(item) + ImagesPart(item)))
  }

  /** The `url` element of one item: `loc`, `priority`, then the optional
      `lastmod`, `changefreq`, alternates and images, in that order. */
  function UrlElement(item: SitemapItem, toIso: DateLike -> string): (r: Node)
    ensures r.Element? && r.name == "url" && r.attrs == [] && |r.children| >= 2
    ensures r.children[0] == Leaf("loc", item.loc)
    ensures item.priority.None? || item.priority == Some(0.0) ==> r.children[1] == PriorityElement(DefaultPriority)
    ensures item.priority.Some? && item.priority.value != 0.0 ==> r.children[1] == PriorityElement(item.priority.value)
  {
    Element("url", [],
      [Leaf("loc", item.loc), PriorityElement(PriorityValue(item.priority))] + OptionalParts(item, toIso))
  }

  /** The outcome of the single forward scan over a batch: the items'
      elements and the two namespace flags. */
  datatype Scan = Scan(children: seq<Node>, isMultilingual: bool, containsImages: bool)

  function ScanItems(items: seq<SitemapItem>, render: SitemapItem -> Node): (r: Scan)
    ensures |r.children| == |items|
    ensures forall i :: 0 <= i < |items| ==> r.children[i] == render(items[i])
    ensures r.isMultilingual <==> exists i :: 0 <= i < |items| && items[i].alternates.Some?
    ensures r.containsImages <==> exists i :: 0 <= i < |items| && items[i].images.Some?
    decreases |items|
  {
    if |items| == 0 then Scan([], false, false)
    else
      var prefix := items[..|items| - 1];
      var last := items[|items| - 1];
      var s := ScanItems(prefix, render);
      assert forall i :: 0 <= i < |prefix| ==> prefix[i] == items[i];
      Scan(s.children + [render(last)],
           s.isMultilingual || last.alternates.Some?,
           s.containsImages || last.images.Some?)
  }

  /** The attributes of `urlset`: the sitemap namespace, then the alternate
      and image namespaces when their flags are set. */
  function Declarations(isMultilingual: bool, containsImages: bool): (attrs: seq<Attr>)
    ensures |attrs| >= 1 && attrs[0] == Attr("xmlns", SitemapNamespace)
    ensures DistinctKeys(attrs)
    ensures Lookup(attrs, "xmlns:xhtml") == (if isMultilingual then Some(XhtmlNamespace) else None)
    ensures Lookup(attrs, "xmlns:image") == (if containsImages then Some(ImageNamespace) else None)
  {
    var sitemap := Attr("xmlns", SitemapNamespace);
    var xhtml := Attr("xmlns:xhtml", XhtmlNamespace);
    var image := Attr("xmlns:image", ImageNamespace);
    assert "xmlns:xhtml"[6] != "xmlns:image"[6];
    if isMultilingual && containsImages then
      assert [sitemap, xhtml, image][1..] == [xhtml, image] && [xhtml, image][1..] == [image];
      [sitemap, xhtml, image]
    else if isMultilingual then [sitemap, xhtml]
    else if containsImages then [sitemap, image]
    else [sitemap]
  }

  /** The `urlset` document of one batch. */
  function UrlSet(items: seq<SitemapItem>, toIso: DateLike -> string): (r: Node)
    ensures r.Element? && r.name == "urlset"
    ensures |r.attrs| >= 1 && r.attrs[0] == Attr("xmlns", SitemapNamespace)
    ensures DistinctKeys(r.attrs)
    ensures (Lookup(r.attrs, "xmlns:xhtml") == Some(XhtmlNamespace))
              == (exists i :: 0 <= i < |items| && items[i].alternates.Some?)
    ensures (Lookup(r.attrs, "xmlns:image") == Some(ImageNamespace))
              == (exists i :: 0 <= i < |items| && items[i].images.Some?)
    ensures Lookup(r.attrs, "xmlns:xhtml").Some? ==> Lookup(r.attrs, "xmlns:xhtml") == Some(XhtmlNamespace)
    ensures Lookup(r.attrs, "xmlns:image").Some? ==> Lookup(r.attrs, "xmlns:image") == Some(ImageNamespace)
    ensures |r.children| == |items|
    ensures forall i :: 0 <= i < |items| ==> r.children[i] == UrlElement(items[i], toIso)
  {
    var s := ScanItems(items, item => UrlElement(item, toIso));
    Element("urlset", Declarations(s.isMultilingual, s.containsImages), s.children)
  }

  /** `name.xml` for a lone sitemap (and for the index), `name.(i+1).xml` otherwise. */
  function FileName(name: string, index: nat, ignoreIndex: bool): (r: string)
    ensures |r| >= |name| + 4 && r[..|name|] == name && r[|r| - 4..] == ".xml"
    ensures ignoreIndex <==> |r| == |name| + 4
    ensures ignoreIndex <==> r == name + ".xml"
  {
    if ignoreIndex then name + ".xml"
    else name + "." + Decimal.Render(index + 1) + ".xml"
  }

  /** The text of the leaf `name` at position `k` of an element, if any. */
  function ChildText(n: Node, k: nat, name: string): Option<string> {
    if n.Element? && k < |n.children| then LeafText(n.children[k], name) else None
  }

  /** One `sitemap` entry of the index, naming batch `index`. */
  function IndexEntry(sitemapLoc: string, index: nat, lastmod: string, name: string): (r: Node)
    ensures r.Element? && r.name == "sitemap"
    ensures ChildText(r, 0, "loc") == Some(sitemapLoc + "/" + FileName(name, index, false))
    ensures ChildText(r, 1, "lastmod") == Some(lastmod)
  {
    var loc := sitemapLoc + "/" + name + "." + Decimal.Render(index + 1) + ".xml";
    assert loc == sitemapLoc + "/" + FileName(name, index, false);
    Element("sitemap", [], [Leaf("loc", loc), Leaf("lastmod", lastmod)])
  }

  /** The `sitemapindex` document listing batches 0 .. count-1, all stamped `now`. */
  function SitemapIndex(count: nat, sitemapLoc: string, name: string, now: string): (r: Node)
    ensures r.Element? && r.name == "sitemapindex"
    ensures r.attrs == [Attr("xmlns", SitemapNamespace)]
    ensures |r.children| == count
    ensures forall i :: 0 <= i < count ==>
              ChildText(r.children[i], 0, "loc") == Some(sitemapLoc + "/" + FileName(name, i, false))
    ensures forall i :: 0 <= i < count ==> ChildText(r.children[i], 1, "lastmod") == Some(now)
  {
    Element("sitemapindex", [Attr("xmlns", SitemapNamespace)],
      seq(count, i requires 0 <= i < count => IndexEntry(sitemapLoc, i, now, name)))
  }
}
