/**
 * `parseMarkdownContent` and its four extractors: the title, the first
 * substantial paragraph, the main points in three tiers, and the image links.
 */
module Markdown {
  import opened Results
  import opened Seqs
  import opened Text
  import opened Patterns
  import opened Scraper

  // ---------------------------------------------------------------------------
  // Title

  /**
   * `extractTitleFromMarkdown`: the trimmed text of the first level-one heading;
   * when there is none, that of the first line that is one bold span; else
   * nothing. A heading found stops the search even if it trims to "".
   */
  function ExtractTitle(markdown: string): (r: Option<string>)
    ensures r.Some? ==> r.value == [] || (!IsSpace(r.value[0]) && !IsSpace(r.value[|r.value| - 1]))
  {
    var lines := PatternLines(markdown);
    match FirstSome(lines, TitleHeadingCapture)
    case Some(heading) => Some(Trim(heading))
    case None =>
      match FirstSome(lines, EmphasisCapture)
      case Some(emphasis) => Some(Trim(emphasis))
      case None => None
  }

  /** The title is found exactly when some line is a level-one heading or a lone bold span. */
  lemma ExtractTitleNone(markdown: string)
    ensures ExtractTitle(markdown).None? <==>
      forall i | 0 <= i < |PatternLines(markdown)| ::
        TitleHeadingCapture(PatternLines(markdown)[i]).None? && EmphasisCapture(PatternLines(markdown)[i]).None?
  {
    FirstSomeNone(PatternLines(markdown), TitleHeadingCapture);
    FirstSomeNone(PatternLines(markdown), EmphasisCapture);
  }

  /** The first level-one heading gives the title, whatever bold lines come before it. */
  lemma ExtractTitleHeading(markdown: string, i: nat)
    requires i < |PatternLines(markdown)| && TitleHeadingCapture(PatternLines(markdown)[i]).Some?
    requires forall j | 0 <= j < i :: TitleHeadingCapture(PatternLines(markdown)[j]).None?
    ensures ExtractTitle(markdown) == Some(Trim(TitleHeadingCapture(PatternLines(markdown)[i]).value))
  {
    FirstSomeAt(PatternLines(markdown), TitleHeadingCapture, i);
  }

  /** Without any level-one heading, the first line that is a lone bold span gives the title. */
  lemma ExtractTitleEmphasis(markdown: string, i: nat)
    requires i < |PatternLines(markdown)| && EmphasisCapture(PatternLines(markdown)[i]).Some?
    requires forall j | 0 <= j < |PatternLines(markdown)| :: TitleHeadingCapture(PatternLines(markdown)[j]).None?
    requires forall j | 0 <= j < i :: EmphasisCapture(PatternLines(markdown)[j]).None?
    ensures ExtractTitle(markdown) == Some(Trim(EmphasisCapture(PatternLines(markdown)[i]).value))
  {
    FirstSomeNone(PatternLines(markdown), TitleHeadingCapture);
    FirstSomeAt(PatternLines(markdown), EmphasisCapture, i);
  }

  // ---------------------------------------------------------------------------
  // Description

  /** A trimmed line that may serve as the description. */
  predicate IsDescriptionLine(t: string) {
    && t != ""
    && Utf16Length(t) > 30
    && !StartsWith(t, "#")
    && !StartsWith(t, "!")
    && !IsLoneLink(t)
  }

  /** The trimmed line, if it may serve as the description. */
  function DescriptionCandidate(line: string): Option<string> {
    var t := Trim(line);
    if IsDescriptionLine(t) then Some(t) else None
  }

  /** The description a search of the lines of `markdown.split('\n')` finds first. */
  function Description(markdown: string): Option<string> {
    FirstSome(Lines(markdown), DescriptionCandidate)
  }

  /**
   * `extractDescriptionFromMarkdown`: returns the first line of
   * `markdown.split('\n')` that, trimmed, is longer than 30 UTF-16 code units, starts
   * with neither `#` nor `!` and is not a lone link.
   */
  method ExtractDescription(markdown: string) returns (r: Option<string>)
    ensures r == Description(markdown)
  {
    var lines := Lines(markdown);
    for i := 0 to |lines|
      invariant FirstSome(lines[i..], DescriptionCandidate) == Description(markdown)
    {
      var trimmedLine := Trim(lines[i]);
      if IsDescriptionLine(trimmedLine) {
        assert lines[i..][0] == lines[i];
        return Some(trimmedLine);
      }
      FirstSomeSkip(lines, DescriptionCandidate, i);
    }
    return None;
  }

  /**
   * The description is absent exactly when no line qualifies; otherwise it is
   * the trimmed text of the first line that qualifies.
   */
  lemma DescriptionChoice(markdown: string)
    ensures Description(markdown).None? <==>
      forall i | 0 <= i < |Lines(markdown)| :: !IsDescriptionLine(Trim(Lines(markdown)[i]))
    ensures forall i | 0 <= i < |Lines(markdown)| && IsDescriptionLine(Trim(Lines(markdown)[i]))
                       && (forall j | 0 <= j < i :: !IsDescriptionLine(Trim(Lines(markdown)[j]))) ::
      Description(markdown) == Some(Trim(Lines(markdown)[i]))
    ensures Description(markdown).Some? ==> IsDescriptionLine(Description(markdown).value)
  {
    var lines := Lines(markdown);
    FirstSomeNone(lines, DescriptionCandidate);
    forall i | 0 <= i < |lines| && IsDescriptionLine(Trim(lines[i])) && (forall j | 0 <= j < i :: !IsDescriptionLine(Trim(lines[j])))
      ensures Description(markdown) == Some(Trim(lines[i]))
    {
      assert forall j | 0 <= j < i :: DescriptionCandidate(lines[j]).None?;
      FirstSomeAt(lines, DescriptionCandidate, i);
    }
    if Description(markdown).Some? {
      var k := FirstSomeFound(lines, DescriptionCandidate);
    }
  }

  // ---------------------------------------------------------------------------
  // Main points

  /** The matches of the global `^(#{2,4})\s+(.+)$` with the multiline flag, group 2 of each. */
  function HeadingMatches(markdown: string): seq<string> {
    FlatMap(PatternLines(markdown), SectionHeadingCaptures)
  }

  /** The matches of the global `\*\*(.+?)\*\*`, group 1 of each. */
  function BoldMatches(markdown: string): seq<string> {
    FlatMap(PatternLines(markdown), BoldCaptures)
  }

  /** What a heading match contributes: its text, trimmed. */
  function HeadingPoint(capture: string): seq<string> {
    [Trim(capture)]
  }

  /** What a bold match contributes: its text, trimmed, if it has more than 15 UTF-16 code units before trimming. */
  function BoldPoint(capture: string): seq<string> {
    if Utf16Length(capture) > 15 then [Trim(capture)] else []
  }

  /** A trimmed line that may serve as a paragraph point. */
  predicate IsParagraphPoint(t: string) {
    Utf16Length(t) > 50 && !StartsWith(t, "#") && !StartsWith(t, "!") && !Contains(t, "](")
  }

  /** What a line of `markdown.split('\n')` contributes in the paragraph tier. */
  function ParagraphPoint(line: string): seq<string> {
    if IsParagraphPoint(Trim(line)) then [Trim(line)] else []
  }

  /** The heading tier: the first five trimmed heading matches. */
  function HeadingTier(markdown: string): (r: seq<string>)
    ensures |r| <= Cap
  {
    Take([] + FlatMap(HeadingMatches(markdown), HeadingPoint), Cap)
  }

  /** The points after the bold tier, which runs only when the headings gave fewer than three. */
  function BoldTier(markdown: string): (r: seq<string>)
    ensures |r| <= Cap
    ensures HeadingTier(markdown) <= r
    ensures |HeadingTier(markdown)| >= 3 ==> r == HeadingTier(markdown)
  {
    var headings := HeadingTier(markdown);
    if |headings| < 3 then Take(headings + FlatMap(BoldMatches(markdown), BoldPoint), Cap) else headings
  }

  /**
   * `extractMainPointsFromMarkdown`: the heading tier, extended by the bold tier
   * and then by the paragraph tier while fewer than three points exist; each
   * tier appends to what the earlier ones found, and the whole stops at five.
   */
  function MainPoints(markdown: string): (r: seq<string>)
    ensures |r| <= Cap
    ensures HeadingTier(markdown) <= BoldTier(markdown) <= r
    ensures |BoldTier(markdown)| >= 3 ==> r == BoldTier(markdown)
  {
    var sofar := BoldTier(markdown);
    if |sofar| < 3 then Take(sofar + FlatMap(Lines(markdown), ParagraphPoint), Cap) else sofar
  }

  /** `extractMainPointsFromMarkdown`: the three tiers, each a capped loop over its matches. */
  method ExtractMainPoints(markdown: string) returns (points: seq<string>)
    ensures points == MainPoints(markdown)
  {
    points := PushHeadings([], HeadingMatches(markdown));
    if |points| < 3 {
      points := PushBold(points, BoldMatches(markdown));
    }
    if |points| < 3 {
      points := PushParagraphs(points, Lines(markdown));
    }
  }

  /** The heading loop: pushes each trimmed match while fewer than five points exist. */
  method PushHeadings(base: seq<string>, headers: seq<string>) returns (points: seq<string>)
    requires |base| <= Cap
    ensures points == Take(base + FlatMap(headers, HeadingPoint), Cap)
  {
    points := base;
    var i := 0;
    while i < |headers|
      invariant i <= |headers| && |points| <= Cap
      invariant points == base + FlatMap(headers[..i], HeadingPoint)
    {
      if |points| >= Cap {
        break;
      }
      FlatMapStep(headers, HeadingPoint, i);
      points := points + [Trim(headers[i])];
      i := i + 1;
    }
    CappedLoopResult(base, headers, HeadingPoint, i, Cap);
  }

  /** The bold loop: pushes each trimmed match longer than 15 UTF-16 code units while fewer than five points exist. */
  method PushBold(base: seq<string>, bolds: seq<string>) returns (points: seq<string>)
    requires |base| <= Cap
    ensures points == Take(base + FlatMap(bolds, BoldPoint), Cap)
  {
    points := base;
    var i := 0;
    while i < |bolds|
      invariant i <= |bolds| && |points| <= Cap
      invariant points == base + FlatMap(bolds[..i], BoldPoint)
    {
      if |points| >= Cap {
        break;
      }
      FlatMapStep(bolds, BoldPoint, i);
      if Utf16Length(bolds[i]) > 15 {
        points := points + [Trim(bolds[i])];
      }
      i := i + 1;
    }
    CappedLoopResult(base, bolds, BoldPoint, i, Cap);
  }

  /** The paragraph loop: pushes each qualifying trimmed line while fewer than five points exist. */
  method PushParagraphs(base: seq<string>, lines: seq<string>) returns (points: seq<string>)
    requires |base| <= Cap
    ensures points == Take(base + FlatMap(lines, ParagraphPoint), Cap)
  {
    points := base;
    var i := 0;
    while i < |lines|
      invariant i <= |lines| && |points| <= Cap
      invariant points == base + FlatMap(lines[..i], ParagraphPoint)
    {
      if |points| >= Cap {
        break;
      }
      FlatMapStep(lines, ParagraphPoint, i);
      var trimmedLine := Trim(lines[i]);
      if IsParagraphPoint(trimmedLine) {
        points := points + [trimmedLine];
      }
      i := i + 1;
    }
    CappedLoopResult(base, lines, ParagraphPoint, i, Cap);
  }

  /** Every main point comes from one of the three tiers. */
  lemma MainPointsTiers(markdown: string, p: string)
    requires p in MainPoints(markdown)
    ensures || p in FlatMap(HeadingMatches(markdown), HeadingPoint)
            || p in FlatMap(BoldMatches(markdown), BoldPoint)
            || p in FlatMap(Lines(markdown), ParagraphPoint)
  {
    var heads := FlatMap(HeadingMatches(markdown), HeadingPoint);
    var bolds := FlatMap(BoldMatches(markdown), BoldPoint);
    var paras := FlatMap(Lines(markdown), ParagraphPoint);
    var tier1, tier2 := HeadingTier(markdown), BoldTier(markdown);
    if p !in tier2 {
      InPrefix(MainPoints(markdown), tier2 + paras, p);
    } else if p !in tier1 {
      InPrefix(tier2, tier1 + bolds, p);
    } else {
      assert [] + heads == heads;
      InPrefix(tier1, heads, p);
    }
  }

  /** A heading-tier point is a trimmed heading match. */
  lemma HeadingPointFrom(captures: seq<string>, p: string)
    requires p in FlatMap(captures, HeadingPoint)
    ensures exists c | c in captures :: p == Trim(c)
  {
    FlatMapMember(captures, HeadingPoint, p);
    var i :| 0 <= i < |captures| && p in HeadingPoint(captures[i]);
    assert captures[i] in captures;
  }

  /** A bold-tier point is a trimmed bold match of more than 15 UTF-16 code units. */
  lemma BoldPointFrom(captures: seq<string>, p: string)
    requires p in FlatMap(captures, BoldPoint)
    ensures exists c | c in captures :: Utf16Length(c) > 15 && p == Trim(c)
  {
    FlatMapMember(captures, BoldPoint, p);
    var i :| 0 <= i < |captures| && p in BoldPoint(captures[i]);
    assert captures[i] in captures;
  }

  /** A paragraph-tier point is a qualifying trimmed line. */
  lemma ParagraphPointFrom(lines: seq<string>, p: string)
    requires p in FlatMap(lines, ParagraphPoint)
    ensures exists line | line in lines :: IsParagraphPoint(Trim(line)) && p == Trim(line)
  {
    FlatMapMember(lines, ParagraphPoint, p);
    var i :| 0 <= i < |lines| && p in ParagraphPoint(lines[i]);
    assert lines[i] in lines;
  }

  /**
   * Every main point is a trimmed heading, a trimmed bold span of more than 15
   * UTF-16 code units, or a qualifying trimmed line.
   */
  lemma MainPointsFrom(markdown: string, p: string)
    requires p in MainPoints(markdown)
    ensures || (exists c | c in HeadingMatches(markdown) :: p == Trim(c))
            || (exists c | c in BoldMatches(markdown) :: Utf16Length(c) > 15 && p == Trim(c))
            || (exists line | line in Lines(markdown) :: IsParagraphPoint(Trim(line)) && p == Trim(line))
  {
    MainPointsTiers(markdown, p);
    if p in FlatMap(HeadingMatches(markdown), HeadingPoint) {
      HeadingPointFrom(HeadingMatches(markdown), p);
    } else if p in FlatMap(BoldMatches(markdown), BoldPoint) {
      BoldPointFrom(BoldMatches(markdown), p);
    } else {
      ParagraphPointFrom(Lines(markdown), p);
    }
  }

  // ---------------------------------------------------------------------------
  // Images

  /** The matches of the global `!\[.*?\]\((.+?)\)`, group 1 of each. */
  function ImageMatches(markdown: string): seq<string> {
    FlatMap(PatternLines(markdown), ImageCaptures)
  }

  /**
   * What an image match contributes: its trimmed target if that starts with
   * `http`, else the target resolved against the page URL, or nothing when the
   * resolution fails.
   */
  function ResolveImage(resolve: (string, string) -> Option<string>, baseUrl: string, capture: string): seq<string> {
    var imageUrl := Trim(capture);
    if StartsWith(imageUrl, "http") then [imageUrl]
    else
      match resolve(imageUrl, baseUrl)
      case Some(absolute) => [absolute]
      case None => []
  }

  /** `ResolveImage` for one page, as a function of the match. */
  function ImageResolver(resolve: (string, string) -> Option<string>, baseUrl: string): string -> seq<string> {
    capture => ResolveImage(resolve, baseUrl, capture)
  }

  /** `extractImagesFromMarkdown`: the first five contributions of the image matches. */
  function MarkdownImages(markdown: string, baseUrl: string, resolve: (string, string) -> Option<string>): (r: seq<string>)
    ensures |r| <= Cap
  {
    Take([] + FlatMap(ImageMatches(markdown), ImageResolver(resolve, baseUrl)), Cap)
  }

  /**
   * `extractImagesFromMarkdown`: checks the cap before each match, keeps an
   * absolute target as it is, resolves a relative one, and skips a target whose
   * resolution fails.
   */
  method ExtractImages(markdown: string, baseUrl: string, resolve: (string, string) -> Option<string>)
    returns (imageUrls: seq<string>)
    ensures imageUrls == MarkdownImages(markdown, baseUrl, resolve)
  {
    imageUrls := [];
    var matches := ImageMatches(markdown);
    ghost var contribute := ImageResolver(resolve, baseUrl);
    var i := 0;
    while i < |matches|
      invariant i <= |matches| && |imageUrls| <= Cap
      invariant imageUrls == [] + FlatMap(matches[..i], contribute)
    {
      if |imageUrls| >= Cap {
        break;
      }
      FlatMapStep(matches, contribute, i);
      var imageUrl := Trim(matches[i]);
      i := i + 1;
      if !StartsWith(imageUrl, "http") {
        var resolved := resolve(imageUrl, baseUrl);
        if resolved.None? {
          continue;
        }
        imageUrl := resolved.value;
      }
      imageUrls := imageUrls + [imageUrl];
    }
    CappedLoopResult([], matches, contribute, i, Cap);
  }

  /**
   * Every image URL is the trimmed target of some match: kept as it is when it
   * starts with `http`, otherwise as the URL it resolved to.
   */
  lemma MarkdownImagesFrom(markdown: string, baseUrl: string, resolve: (string, string) -> Option<string>, u: string)
    requires u in MarkdownImages(markdown, baseUrl, resolve)
    ensures exists c | c in ImageMatches(markdown) ::
      || (StartsWith(Trim(c), "http") && u == Trim(c))
      || (!StartsWith(Trim(c), "http") && resolve(Trim(c), baseUrl) == Some(u))
  {
    FlatMapMember(ImageMatches(markdown), ImageResolver(resolve, baseUrl), u);
    var i :| 0 <= i < |ImageMatches(markdown)| && u in ImageResolver(resolve, baseUrl)(ImageMatches(markdown)[i]);
    var c := ImageMatches(markdown)[i];
    assert u in ResolveImage(resolve, baseUrl, c);
  }

  // ---------------------------------------------------------------------------
  // The whole record

  /** The title the parse chooses: `metadata.title || extractTitleFromMarkdown(markdown) || 'Untitled'`. */
  function ParsedTitle(markdown: string, metadataTitle: string): (r: string)
    ensures r != ""
    ensures metadataTitle != "" ==> r == metadataTitle
    ensures metadataTitle == "" && ExtractTitle(markdown).Some? && ExtractTitle(markdown).value != "" ==> r == ExtractTitle(markdown).value
    ensures metadataTitle == "" && (ExtractTitle(markdown).None? || ExtractTitle(markdown).value == "") ==> r == Untitled
  {
    if metadataTitle != "" then metadataTitle
    else
      match ExtractTitle(markdown)
      case Some(t) => if t != "" then t else Untitled
      case None => Untitled
  }

  /** What `parseMarkdownContent` returns. */
  function ParsedMarkdown(markdown: string, baseUrl: string, metadataTitle: string, resolve: (string, string) -> Option<string>): (r: ScrapedContent)
    ensures r.title != ""
    ensures r.description == NoDescription || IsDescriptionLine(r.description)
    ensures |r.mainPoints| <= Cap && |r.imageUrls| <= Cap
  {
    var description := Description(markdown);
    DescriptionChoice(markdown);
    ScrapedContent(
      ParsedTitle(markdown, metadataTitle),
      if description.Some? then description.value else NoDescription,
      Take(MainPoints(markdown), Cap),
      MarkdownImages(markdown, baseUrl, resolve))
  }

  /** `parseMarkdownContent`: runs the four extractors and caps the main points. */
  method ParseMarkdownContent(markdown: string, baseUrl: string, metadataTitle: string, resolve: (string, string) -> Option<string>)
    returns (result: ScrapedContent)
    ensures result == ParsedMarkdown(markdown, baseUrl, metadataTitle, resolve)
  {
    var title := ParsedTitle(markdown, metadataTitle);
    var description := ExtractDescription(markdown);
    var mainPoints := ExtractMainPoints(markdown);
    var imageUrls := ExtractImages(markdown, baseUrl, resolve);
    result := ScrapedContent(
      title,
      if description.Some? then description.value else NoDescription,
      Take(mainPoints, Cap),
      imageUrls);
  }
}
