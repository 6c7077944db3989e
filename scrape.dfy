/**
 * `scrapeWebpage` after the scraping service has answered: the checks on the
 * response, the parse of each format that is present, and the merge. The
 * service itself is an input: its answer, or a transport failure.
 */
module Scrape {
  import opened Results
  import opened Seqs
  import opened Scraper
  import opened Merge
  import opened Markdown

  const ApiKeyMissing: string := "API key not configured"
  const ScrapeFailed: string := "Failed to scrape webpage content"

  /**
   * The part of `response.data.data` the scraper reads. A missing or empty
   * format is "", and a missing metadata title is "" as well: the code only
   * ever tests these for truthiness.
   */
  datatype PageData = PageData(markdown: string, html: string, metadataTitle: string)

  /** The scraping service's answer: a failed request, or a body whose `data` may be missing. */
  datatype ScrapeReply = TransportFailed | Answered(data: Option<PageData>)

  /** `parseHtmlContent(html, url)`, which is not part of this model. */
  type HtmlParser = (string, string) -> ScrapedContent

  /** The record parsed from the markdown, when there is markdown. */
  function MarkdownPart(page: PageData, url: string, resolve: (string, string) -> Option<string>): Option<ScrapedContent> {
    if page.markdown != "" then Some(ParsedMarkdown(page.markdown, url, page.metadataTitle, resolve)) else None
  }

  /** The record parsed from the HTML, when there is HTML. */
  function HtmlPart(page: PageData, url: string, parseHtml: HtmlParser): Option<ScrapedContent> {
    if page.html != "" then Some(parseHtml(page.html, url)) else None
  }

  /** What a successful scrape returns: the merge of the records of the formats present. */
  function Scraped(page: PageData, url: string, resolve: (string, string) -> Option<string>, parseHtml: HtmlParser): ScrapedContent {
    Combined(MarkdownPart(page, url, resolve), HtmlPart(page, url, parseHtml), page.metadataTitle)
  }

  /** The answer holds data with at least one of the two formats. */
  predicate HasContent(reply: ScrapeReply) {
    reply.Answered? && reply.data.Some? && (reply.data.value.markdown != "" || reply.data.value.html != "")
  }

  /**
   * `scrapeWebpage` from the API-key check on: without a key it fails before
   * any request; a failed request, a body without `data`, or data with neither
   * format all end in the one scrape error; otherwise the formats present are
   * parsed and merged.
   */
  method ScrapeWebpage(apiKey: string, url: string, reply: ScrapeReply,
                       resolve: (string, string) -> Option<string>, parseHtml: HtmlParser)
    returns (r: Result<ScrapedContent, string>)
    ensures apiKey == "" ==> r == Err(ApiKeyMissing)
    ensures apiKey != "" && !HasContent(reply) ==> r == Err(ScrapeFailed)
    ensures apiKey != "" && HasContent(reply) ==> r == Ok(Scraped(reply.data.value, url, resolve, parseHtml))
  {
    if apiKey == "" {
      return Err(ApiKeyMissing);
    }
    if reply.TransportFailed? || reply.data.None? {
      return Err(ScrapeFailed);
    }
    var page := reply.data.value;
    if page.markdown == "" && page.html == "" {
      return Err(ScrapeFailed);
    }
    var markdownData: Option<ScrapedContent> := None;
    if page.markdown != "" {
      var parsed := ParseMarkdownContent(page.markdown, url, page.metadataTitle, resolve);
      markdownData := Some(parsed);
    }
    var htmlData: Option<ScrapedContent> := if page.html != "" then Some(parseHtml(page.html, url)) else None;
    var combined := CombineContentData(markdownData, htmlData, page.metadataTitle);
    return Ok(combined);
  }

  /**
   * A scraped record always has a title and a description, at most five main
   * points without repeats and at most five images without repeats, and its
   * first main points are the distinct markdown points.
   */
  lemma ScrapedShape(page: PageData, url: string, resolve: (string, string) -> Option<string>, parseHtml: HtmlParser)
    ensures var r := Scraped(page, url, resolve, parseHtml);
      && r.title != "" && r.description != ""
      && |r.mainPoints| <= Cap && NoDup(r.mainPoints)
      && |r.imageUrls| <= Cap && NoDup(r.imageUrls)
      && (page.markdown != "" ==>
            Take(Dedup(ParsedMarkdown(page.markdown, url, page.metadataTitle, resolve).mainPoints), Cap) <= r.mainPoints)
  {
    var md, html := MarkdownPart(page, url, resolve), HtmlPart(page, url, parseHtml);
    CombinedTextsPresent(md, html, page.metadataTitle);
    CombinedMainPoints(md, html, page.metadataTitle);
    CombinedImages(md, html, page.metadataTitle);
  }

  /**
   * The title of a scrape: a usable metadata title wins whenever there is
   * markdown, since the markdown parse adopts it; without markdown, the HTML
   * title wins when usable, and the metadata title or "Untitled" otherwise.
   */
  lemma ScrapedTitle(page: PageData, url: string, resolve: (string, string) -> Option<string>, parseHtml: HtmlParser)
    ensures page.markdown != "" && Usable(page.metadataTitle, Untitled) ==>
      Scraped(page, url, resolve, parseHtml).title == page.metadataTitle
    ensures page.markdown == "" && page.html != "" && Usable(parseHtml(page.html, url).title, Untitled) ==>
      Scraped(page, url, resolve, parseHtml).title == parseHtml(page.html, url).title
    ensures page.markdown == "" && (page.html == "" || !Usable(parseHtml(page.html, url).title, Untitled)) ==>
      Scraped(page, url, resolve, parseHtml).title == (if page.metadataTitle != "" then page.metadataTitle else Untitled)
  {
  }

  /**
   * Without HTML, the scrape is the markdown record with repeated main points
   * and images collapsed, both lists cut to five.
   */
  lemma ScrapedMarkdownOnly(page: PageData, url: string, resolve: (string, string) -> Option<string>, parseHtml: HtmlParser)
    requires page.markdown != "" && page.html == ""
    ensures var parsed := ParsedMarkdown(page.markdown, url, page.metadataTitle, resolve);
      var r := Scraped(page, url, resolve, parseHtml);
      && r.mainPoints == Take(Dedup(parsed.mainPoints), Cap)
      && r.imageUrls == Take(Dedup(parsed.imageUrls), Cap)
  {
    var parsed := ParsedMarkdown(page.markdown, url, page.metadataTitle, resolve);
    MergedSets(Some(parsed), None);
    assert parsed.imageUrls + [] == parsed.imageUrls;
  }
}
