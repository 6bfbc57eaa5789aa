/** The sitemap data model: one URL entry (`SitemapItem`) with its optional
    images and language alternates, and the JavaScript truthiness tests the
    element builder applies to the optional parts. */
module Items {
  import opened Options

  datatype ChangeFrequency = Always | Hourly | Daily | Weekly | Monthly | Yearly | Never

  function FrequencyName(f: ChangeFrequency): string {
    match f
    case Always => "always"
    case Hourly => "hourly"
    case Daily => "daily"
    case Weekly => "weekly"
    case Monthly => "monthly"
    case Yearly => "yearly"
    case Never => "never"
  }

  /** Reads a `changefreq` text back; the inverse of `FrequencyName`. */
  function ParseFrequency(s: string): (r: Option<ChangeFrequency>)
    ensures r.Some? ==> FrequencyName(r.value) == s
    ensures forall f :: FrequencyName(f) == s ==> r == Some(f)
  {
    if s == "always" then Some(Always)
    else if s == "hourly" then Some(Hourly)
    else if s == "daily" then Some(Daily)
    else if s == "weekly" then Some(Weekly)
    else if s == "monthly" then Some(Monthly)
    else if s == "yearly" then Some(Yearly)
    else if s == "never" then Some(Never)
    else None
  }

  /** The three shapes `lastmod` accepts: a Date object (its time value), a
      number of milliseconds, or a date string. Their conversion to an
      ISO-8601 string is host-library behaviour and is passed in as a function. */
  datatype DateLike = DateValue(time: int) | Millis(ms: int) | DateText(text: string)

  datatype SitemapItemImage = SitemapItemImage(
    loc: string,
    title: Option<string>,
    caption: Option<string>,
    geoLocation: Option<string>,
    license: Option<string>)

  /** `langToURL` answers `None` where the program's `langToURL` answers `false`. */
  datatype Alternates = Alternates(languages: seq<string>, langToURL: string -> Option<string>)

  datatype SitemapItem = SitemapItem(
    loc: string,
    lastmod: Option<DateLike>,
    changefreq: Option<ChangeFrequency>,
    priority: Option<real>,
    images: Option<seq<SitemapItemImage>>,
    alternates: Option<Alternates>)

  /** An item carrying only its location. */
  function LocOnly(loc: string): SitemapItem {
    SitemapItem(loc, None, None, None, None, None)
  }

  /** JavaScript truthiness of an optional string: absent and "" are falsy. */
  predicate TruthyText(s: Option<string>) {
    s.Some? && s.value != ""
  }

  /** JavaScript truthiness of `lastmod`: a Date object is always truthy, the
      number 0 and the empty string are not. */
  predicate TruthyDate(d: Option<DateLike>) {
    match d
    case None => false
    case Some(DateValue(_)) => true
    case Some(Millis(ms)) => ms != 0
    case Some(DateText(t)) => t != ""
  }

  const DefaultPriority: real := 0.5

  /** `priority || 0.5`: an absent or zero priority becomes the default. */
  function PriorityValue(p: Option<real>): real {
    if p.Some? && p.value != 0.0 then p.value else DefaultPriority
  }
}
