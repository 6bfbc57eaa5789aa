/** The partner of the element builder: the content a `url` element is meant
    to carry (`View`, with the truthiness rules applied) and a reader that
    recovers that content from the tree. The round-trip lemmas show that the
    builder emits exactly that content, in the fixed child order. */
module Reading {
  import opened Options
  import opened Xml
  import opened Items
  import opened Elements
  import Decimal

  datatype Alternate = Alternate(lang: string, href: string)

  datatype UrlView = UrlView(
    loc: string,
    priority: real,
    lastmod: Option<string>,
    changefreq: Option<ChangeFrequency>,
    alternates: seq<Alternate>,
    images: seq<SitemapItemImage>)

  /** An optional text as the document shows it: falsy values are not shown. */
  function Shown(v: Option<string>): Option<string> {
    if TruthyText(v) then v else None
  }

  /** The (language, URL) pairs whose URL is truthy, in language order. */
  function ResolvedAlternates(languages: seq<string>, langToURL: string -> Option<string>): seq<Alternate>
    decreases |languages|
  {
    if |languages| == 0 then []
    else
      var href := langToURL(languages[0]);
      (if TruthyText(href) then [Alternate(languages[0], href.value)] else [])
      + ResolvedAlternates(languages[1..], langToURL)
  }

  /** How many languages the resolver skips (answers `false` or ""). */
  function SkippedLanguages(languages: seq<string>, langToURL: string -> Option<string>): nat
    decreases |languages|
  {
    if |languages| == 0 then 0
    else (if TruthyText(langToURL(languages[0])) then 0 else 1) + SkippedLanguages(languages[1..], langToURL)
  }

  /** An image as its element shows it: the same image with falsy optional fields dropped. */
  function ImageViewOf(image: SitemapItemImage): SitemapItemImage {
    SitemapItemImage(image.loc, Shown(image.title), Shown(image.caption), Shown(image.geoLocation), Shown(image.license))
  }

  function ImageViews(images: seq<SitemapItemImage>): (r: seq<SitemapItemImage>)
    ensures |r| == |images|
    decreases |images|
  {
    if |images| == 0 then []
    else [ImageViewOf(images[0])] + ImageViews(images[1..])
  }

  /** What the `url` element of `item` is meant to say. */
  function View(item: SitemapItem, toIso: DateLike -> string): UrlView {
    UrlView(
      item.loc,
      PriorityValue(item.priority),
      if TruthyDate(item.lastmod) then Some(toIso(item.lastmod.value)) else None,
      item.changefreq,
      match item.alternates
      case Some(alt) => ResolvedAlternates(alt.languages, alt.langToURL)
      case None => [],
      match item.images
      case Some(images) => ImageViews(images)
      case None => [])
  }

  // ----- the reader -----

  /** Consumes a leaf called `name` at the head of `cs`, if there is one. */
  function TakeLeaf(cs: seq<Node>, name: string): (Option<string>, seq<Node>) {
    if |cs| > 0 && LeafText(cs[0], name).Some? then (LeafText(cs[0], name), cs[1..]) else (None, cs)
  }

  function ParseLink(n: Node): Option<Alternate> {
    if n.Element? && n.name == "xhtml:link" && n.children == [] && |n.attrs| == 3
       && n.attrs[0] == Attr("rel", "alternate") && n.attrs[1].key == "hreflang" && n.attrs[2].key == "href"
    then Some(Alternate(n.attrs[1].value, n.attrs[2].value))
    else None
  }

  /** Consumes the longest run of alternate links at the head of `cs`. */
  function ParseLinks(cs: seq<Node>): (seq<Alternate>, seq<Node>)
    decreases |cs|
  {
    if |cs| > 0 && ParseLink(cs[0]).Some? then
      var (links, rest) := ParseLinks(cs[1..]);
      ([ParseLink(cs[0]).value] + links, rest)
    else ([], cs)
  }

  function ParseImage(n: Node): Option<SitemapItemImage> {
    if n.Element? && n.name == "image:image" && n.attrs == [] && |n.children| >= 1
       && LeafText(n.children[0], "image:loc").Some?
    then
      var (title, r1) := TakeLeaf(n.children[1..], "image:title");
      var (caption, r2) := TakeLeaf(r1, "image:caption");
      var (geoLocation, r3) := TakeLeaf(r2, "image:geo_location");
      var (license, r4) := TakeLeaf(r3, "image:license");
      if r4 == [] then Some(SitemapItemImage(LeafText(n.children[0], "image:loc").value, title, caption, geoLocation, license))
      else None
    else None
  }

  /** Reads a sequence consisting only of image blocks. */
  function ParseImages(cs: seq<Node>): Option<seq<SitemapItemImage>>
    decreases |cs|
  {
    if |cs| == 0 then Some([])
    else
      match ParseImage(cs[0])
      case None => None
      case Some(v) =>
        match ParseImages(cs[1..])
        case None => None
        case Some(vs) => Some([v] + vs)
  }

  function PriorityOf(n: Node): Option<real> {
    if n.Element? && n.name == "priority" && n.attrs == [] && |n.children| == 1 && n.children[0].Number?
    then Some(n.children[0].number)
    else None
  }

  /** The optional part of a `url` element, after `loc` and `priority`. */
  datatype Extras = Extras(
    lastmod: Option<string>,
    changefreq: Option<ChangeFrequency>,
    alternates: seq<Alternate>,
    images: seq<SitemapItemImage>)

  /** Reads alternate links followed by image blocks, and nothing else. */
  function ParseLinksAndImages(cs: seq<Node>): Option<(seq<Alternate>, seq<SitemapItemImage>)> {
    var (links, rest) := ParseLinks(cs);
    match ParseImages(rest)
    case None => None
    case Some(images) => Some((links, images))
  }

  /** Reads an optional `changefreq` leaf, then links and images. */
  function ParseFromFrequency(cs: seq<Node>): Option<Extras> {
    var (freqText, rest) := TakeLeaf(cs, "changefreq");
    var freq := if freqText.Some? then ParseFrequency(freqText.value) else None;
    if freqText.Some? && freq.None? then None
    else
      match ParseLinksAndImages(rest)
      case None => None
      case Some((links, images)) => Some(Extras(None, freq, links, images))
  }

  /** Reads the optional part of a `url` element. */
  function ParseExtras(cs: seq<Node>): Option<Extras> {
    var (lastmod, rest) := TakeLeaf(cs, "lastmod");
    match ParseFromFrequency(rest)
    case None => None
    case Some(e) => Some(e.(lastmod := lastmod))
  }

  /** Reads a `url` element back into the content it carries. */
  function ParseUrl(n: Node): Option<UrlView> {
    if !(n.Element? && n.name == "url" && n.attrs == [] && |n.children| >= 2) then None
    else
      var loc := LeafText(n.children[0], "loc");
      var priority := PriorityOf(n.children[1]);
      var extras := ParseExtras(n.children[2..]);
      if loc.None? || priority.None? || extras.None? then None
      else
        var e := extras.value;
        Some(UrlView(loc.value, priority.value, e.lastmod, e.changefreq, e.alternates, e.images))
  }

  // ----- round trips -----

  lemma TakeOptionalLeaf(name: string, v: Option<string>, rest: seq<Node>)
    requires HeadAvoids(rest, name)
    ensures TakeLeaf(OptionalLeaf(name, v) + rest, name) == (Shown(v), rest)
  {
    if TruthyText(v) {
      assert (OptionalLeaf(name, v) + rest)[1..] == rest;
    } else {
      assert OptionalLeaf(name, v) + rest == rest;
    }
  }

  lemma ImageRoundTrip(image: SitemapItemImage)
    ensures ParseImage(ImageElement(image)) == Some(ImageViewOf(image))
  {
    var license := OptionalLeaf("image:license", image.license);
    var geo := OptionalLeaf("image:geo_location", image.geoLocation) + license;
    var caption := OptionalLeaf("image:caption", image.caption) + geo;
    var title := OptionalLeaf("image:title", image.title) + caption;
    var n := ImageElement(image);
    assert n.children == [Leaf("image:loc", image.loc)] + title;
    assert n.children[1..] == title;
    assert "image:caption"[6] != "image:license"[6];
    TakeOptionalLeaf("image:license", image.license, []);
    assert license + [] == license;
    TakeOptionalLeaf("image:geo_location", image.geoLocation, license);
    TakeOptionalLeaf("image:caption", image.caption, geo);
    TakeOptionalLeaf("image:title", image.title, caption);
  }

  lemma {:induction false} ImagesRoundTrip(images: seq<SitemapItemImage>)
    ensures ParseImages(ImageElements(images)) == Some(ImageViews(images))
    decreases |images|
  {
    if |images| > 0 {
      var cs := ImageElements(images);
      assert cs[1..] == ImageElements(images[1..]);
      ImageRoundTrip(images[0]);
      ImagesRoundTrip(images[1..]);
    }
  }

  lemma {:induction false} LinksRoundTrip(languages: seq<string>, langToURL: string -> Option<string>, rest: seq<Node>)
    requires HeadAvoids(rest, "xhtml:link")
    ensures ParseLinks(LinkElements(languages, langToURL) + rest) == (ResolvedAlternates(languages, langToURL), rest)
    decreases |languages|
  {
    if |languages| > 0 {
      var href := langToURL(languages[0]);
      var tail := LinkElements(languages[1..], langToURL);
      LinksRoundTrip(languages[1..], langToURL, rest);
      if TruthyText(href) {
        var l := LinkElement(languages[0], href.value);
        assert LinkElements(languages, langToURL) + rest == [l] + (tail + rest);
        assert ([l] + (tail + rest))[1..] == tail + rest;
      } else {
        assert LinkElements(languages, langToURL) + rest == tail + rest;
        assert ResolvedAlternates(languages, langToURL) == ResolvedAlternates(languages[1..], langToURL);
      }
    } else {
      assert LinkElements(languages, langToURL) + rest == rest;
    }
  }

  /** Children named only `a`, followed by children that do not start with
      `name`, do not start with an element named `name`. */
  lemma HeadAvoidsNamed(xs: seq<Node>, a: string, ys: seq<Node>, name: string)
    requires AllNamed(xs, a) && a != name && HeadAvoids(ys, name)
    ensures HeadAvoids(xs + ys, name)
  {
    if |xs| > 0 {
      assert (xs + ys)[0] == xs[0];
    } else {
      assert xs + ys == ys;
    }
  }

  /** The `xhtml:link` and `image:image` children of an item read back as its
      resolved alternates and image views. */
  lemma LinksAndImagesStep(item: SitemapItem, toIso: DateLike -> string)
    ensures ParseLinksAndImages(AlternatesPart(item) + ImagesPart(item))
              == Some((View(item, toIso).alternates, View(item, toIso).images))
  {
    var images := ImagesPart(item);
    assert HeadAvoids(images, "xhtml:link");
    match item.alternates {
      case Some(alt) => LinksRoundTrip(alt.languages, alt.langToURL, images);
      case None => assert AlternatesPart(item) + images == images;
    }
    match item.images {
      case Some(imgs) => ImagesRoundTrip(imgs);
      case None =>
    }
  }

  function ExtrasOf(item: SitemapItem, toIso: DateLike -> string): Extras {
    var v := View(item, toIso);
    Extras(v.lastmod, v.changefreq, v.alternates, v.images)
  }

  lemma FrequencyStep(item: SitemapItem, toIso: DateLike -> string)
    ensures ParseFromFrequency(FrequencyPart(item) + (AlternatesPart(item) + ImagesPart(item)))
              == Some(ExtrasOf(item, toIso).(lastmod := None))
  {
    var rest := AlternatesPart(item) + ImagesPart(item);
    assert "changefreq"[0] != "xhtml:link"[0];
    assert HeadAvoids(ImagesPart(item), "changefreq");
    HeadAvoidsNamed(AlternatesPart(item), "xhtml:link", ImagesPart(item), "changefreq");
    LinksAndImagesStep(item, toIso);
    if item.changefreq.Some? {
      var f := item.changefreq.value;
      assert ParseFrequency(FrequencyName(f)) == Some(f);
      assert (FrequencyPart(item) + rest)[1..] == rest;
    } else {
      assert FrequencyPart(item) + rest == rest;
    }
  }

  lemma ExtrasStep(item: SitemapItem, toIso: DateLike -> string)
    ensures ParseExtras(OptionalParts(item, toIso)) == Some(ExtrasOf(item, toIso))
  {
    var links := AlternatesPart(item);
    var images := ImagesPart(item);
    var rest := FrequencyPart(item) + (links + images);
    assert HeadAvoids(images, "lastmod");
    HeadAvoidsNamed(links, "xhtml:link", images, "lastmod");
    HeadAvoidsNamed(FrequencyPart(item), "changefreq", links + images, "lastmod");
    FrequencyStep(item, toIso);
    if TruthyDate(item.lastmod) {
      assert (LastmodPart(item, toIso) + rest)[1..] == rest;
    } else {
      assert LastmodPart(item, toIso) + rest == rest;
    }
  }

  /** The reader recovers from an item's `url` element exactly the content
      `View` says it carries: `loc`, the defaulted priority, the truthy
      `lastmod` and `changefreq`, the resolved alternates and the images, in
      that order and with nothing else in the element. */
  lemma UrlRoundTrip(item: SitemapItem, toIso: DateLike -> string)
    ensures ParseUrl(UrlElement(item, toIso)) == Some(View(item, toIso))
  {
    var n := UrlElement(item, toIso);
    assert n.children[2..] == OptionalParts(item, toIso);
    ExtrasStep(item, toIso);
  }

  lemma {:induction false} LinkCount(languages: seq<string>, langToURL: string -> Option<string>)
    ensures |LinkElements(languages, langToURL)| == |ResolvedAlternates(languages, langToURL)|
    ensures |LinkElements(languages, langToURL)| == |languages| - SkippedLanguages(languages, langToURL)
    decreases |languages|
  {
    if |languages| > 0 {
      LinkCount(languages[1..], langToURL);
    }
  }

  /** A resolved alternate is a listed language whose URL is truthy, and every
      such language with its URL is resolved. */
  lemma {:induction false} ResolvedMembership(languages: seq<string>, langToURL: string -> Option<string>, a: Alternate)
    ensures (a in ResolvedAlternates(languages, langToURL))
              <==> (a.lang in languages && langToURL(a.lang) == Some(a.href) && a.href != "")
    decreases |languages|
  {
    if |languages| > 0 {
      ResolvedMembership(languages[1..], langToURL, a);
      assert languages == [languages[0]] + languages[1..];
      assert a.lang in languages <==> a.lang == languages[0] || a.lang in languages[1..];
    }
  }

  /** An item renders as exactly `loc` and `priority` if and only if nothing
      optional in it is shown. */
  lemma MinimalItem(item: SitemapItem, toIso: DateLike -> string)
    ensures (|UrlElement(item, toIso).children| == 2)
              <==> (View(item, toIso).lastmod.None? && View(item, toIso).changefreq.None?
                    && View(item, toIso).alternates == [] && View(item, toIso).images == [])
    ensures item == LocOnly(item.loc) ==>
              UrlElement(item, toIso).children == [Leaf("loc", item.loc), PriorityElement(DefaultPriority)]
  {
    match item.alternates {
      case Some(alt) => LinkCount(alt.languages, alt.langToURL);
      case None =>
    }
  }

  // ----- file names -----

  /** The batch index a numbered sitemap file name stands for: the inverse of
      `FileName` on numbered names. */
  function FileIndex(name: string, fileName: string): Option<nat> {
    if |fileName| >= |name| + 6 && fileName[..|name| + 1] == name + "." && fileName[|fileName| - 4..] == ".xml" then
      var digits := fileName[|name| + 1 .. |fileName| - 4];
      if Decimal.AllDigits(digits) && Decimal.Parse(digits) >= 1 then Some(Decimal.Parse(digits) - 1) else None
    else None
  }

  /** A numbered file name gives back its batch index; the unnumbered name
      `name.xml` (a lone sitemap, or the index) gives back none. */
  lemma FileIndexInverse(name: string, index: nat)
    ensures FileIndex(name, FileName(name, index, false)) == Some(index)
    ensures FileIndex(name, FileName(name, index, true)) == None
  {
    var digits := Decimal.Render(index + 1);
    var f := FileName(name, index, false);
    assert f == (name + ".") + digits + ".xml";
    assert f[..|name| + 1] == name + ".";
    assert f[|f| - 4..] == ".xml";
    assert f[|name| + 1 .. |f| - 4] == digits;
    Decimal.ParseRender(index + 1);
  }

  /** Two sitemap file names coincide exactly when both are unnumbered, or
      both are numbered with the same index. */
  lemma FileNameInjective(name: string, i: nat, a: bool, j: nat, b: bool)
    ensures (FileName(name, i, a) == FileName(name, j, b)) <==> (a == b && (a || i == j))
  {
    FileIndexInverse(name, i);
    FileIndexInverse(name, j);
  }
}
