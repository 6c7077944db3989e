# A verified model of the webpage-to-presentation scraper and presenter

The tool turns a web page into a slide deck. It asks a scraping service for the
page as markdown and as HTML. It extracts a title, a description, up to five
main points and up to five image URLs from each format. It merges the two
records, and then drives a presentation service:
- create a presentation;
- fill its first slide with the title over the description;
- when there are main points, add a second slide with the title over a bullet
  list;
- finally, ask for a public share link.

This project models that core in Dafny and proves what the code promises.

- `results.dfy`, `seqs.dfy`, `text.dfy`: option and result types, and the
  sequence and string operations the code relies on:
  - a JavaScript `Set` as a sequence without repeats in insertion order;
  - `slice(0, 5)`;
  - `trim`, `split('\n')`, `join`, `includes`, `startsWith`, `toLowerCase`,
    `split(/\s+/)`, and `.length` as a count of UTF-16 code units.
- `patterns.dfy`: the regular expressions of the markdown extractors, each
  evaluated on the lines that a multiline pattern sees.
- `scraper.dfy`: word-set similarity and the near-duplicate test.
- `markdown.dfy`: the four markdown extractors and `parseMarkdownContent`.
- `merge.dfy`: `combineContentData`.
- `scrape.dfy`: `scrapeWebpage` from the API-key check on, with the scraping
  service's answer as an input.
- `payload.dfy`: the two-row element grid of a slide variant and the bullet
  list text.
- `alai.dfy`: the calls to the presentation service, as a class.
  - `trace` is the append-only list of requests sent.
  - `respond` is an oracle that answers each request given everything sent
    before it.
  - `uuid` is an oracle of identifiers, with `issued` counting the ids drawn.

Imperative code is modelled as methods with loops or state changes. Each one is
proved equal to a specification function, and the properties are proved about
those functions.

## Model

| member | source | states |
|---|---|---|
| Scraper.LongWords | alai-webpage-presenter/src/services/scraper.ts:166-167 | The word set of a text holds no repeats |
| Scraper.LongWordsMembers | alai-webpage-presenter/src/services/scraper.ts:166-167 | A word is in the set iff it is a whitespace-separated word of the text longer than 3 UTF-16 code units |
| Scraper.Shared | alai-webpage-presenter/src/services/scraper.ts:171-175 | The intersection count never exceeds the size of the first word set |
| Scraper.SharedIsIntersection | alai-webpage-presenter/src/services/scraper.ts:171-175 | The loop count equals the size of the set intersection of the two word sets |
| Scraper.Similarity | alai-webpage-presenter/src/services/scraper.ts:164-179 | The Jaccard ratio has a positive denominator, and a zero ratio (the early `return 0`) is never above 0.7 |
| Scraper.CalculateSimilarity | alai-webpage-presenter/src/services/scraper.ts:164-179 | The counting loop returns the intersection over the union of the two word sets |
| Scraper.ExceedsSevenTenthsAsReal | alai-webpage-presenter/src/services/scraper.ts:155 | The integer test `10*n > 7*d` holds iff the ratio is above 0.7 |
| Scraper.RatioAboveSevenTenths | alai-webpage-presenter/src/services/scraper.ts:155 | For a positive union, intersection/union > 0.7 iff 10·intersection > 7·union |
| Scraper.SimilarityBounds | alai-webpage-presenter/src/services/scraper.ts:169-178 | Similarity lies in [0, 1]: the intersection never exceeds the union |
| Scraper.SimilaritySymmetric | alai-webpage-presenter/src/services/scraper.ts:164-179 | Similarity is symmetric in its two texts |
| Scraper.SimilarityOfIdentical | alai-webpage-presenter/src/services/scraper.ts:164-179 | A text with at least one long word has similarity 1 with itself |
| Scraper.SimilarityWithoutLongWords | alai-webpage-presenter/src/services/scraper.ts:169 | A text with no word longer than 3 UTF-16 code units has similarity 0 with any text |
| Scraper.IsPointDuplicate | alai-webpage-presenter/src/services/scraper.ts:146-161 | The early-return loop answers true iff some existing point overlaps the new one after lowercasing |
| Scraper.IsDuplicateInAt | alai-webpage-presenter/src/services/scraper.ts:149-158 | A point is a duplicate iff it nearly duplicates the existing point at some index; so never for an empty list |
| Scraper.DuplicateOfOne | alai-webpage-presenter/src/services/scraper.ts:146-158 | Against a list of one existing point, the answer is exactly that point's near-duplicate test |
| Scraper.PointsOverlap | alai-webpage-presenter/src/services/scraper.ts:153-155 | Overlap is containment either way or similarity above 0.7 |
| Scraper.NearDuplicateOfItself | alai-webpage-presenter/src/services/scraper.ts:153-154 | Every point is a near duplicate of itself |
| Scraper.NotDuplicateNotIn | alai-webpage-presenter/src/services/scraper.ts:146-161 | A point that is not a duplicate of a list is not in the list |
| Scraper.DuplicateInExtension | alai-webpage-presenter/src/services/scraper.ts:146-161 | A duplicate of a list stays a duplicate of any extension of that list |
| Scraper.SubsumedWordsOverlap | alai-webpage-presenter/src/services/scraper.ts:153-155 | If one text's long words are all among the other's and they are more than 7/10 of them, the texts overlap (e.g. 3 of 4 words) |
| Scraper.ThreeOfFourSimilarity | alai-webpage-presenter/src/services/scraper.ts:164-179 | A three-word text against the same words plus one long and one short word has similarity 3/4, above 0.7, so the two overlap in either direction |
| Scraper.ThreeOfFourNearDuplicate | alai-webpage-presenter/src/services/scraper.ts:146-158 | When no word holds an upper-case letter, each of those two texts is a near duplicate of the other under the lowercasing test |
| Scraper.SimilarityExample | alai-webpage-presenter/src/services/scraper.ts:164-179 | "machine learning basics" against "machine learning fundamentals and basics" has similarity 3/4; each is a near duplicate of the other, so `isPointDuplicate` of either against a list holding only the other answers true |
| Text.Utf16Length | alai-webpage-presenter/src/services/scraper.ts:167 | `.length` counts UTF-16 code units: between one and two per character, exactly one each iff no character lies beyond U+FFFF |
| Text.ToLowerOfLower | alai-webpage-presenter/src/services/scraper.ts:147 | `toLowerCase` leaves a text without an upper-case ASCII letter unchanged |
| Text.ToLowerOfJoin | alai-webpage-presenter/src/services/scraper.ts:147 | Texts without upper-case letters joined by spaces give such a text, which `toLowerCase` leaves unchanged |
| Text.WordsOfJoin | alai-webpage-presenter/src/services/scraper.ts:166 | `split(/\s+/)` of words joined by single spaces gives back those words |
| Patterns.HeadingCapture | alai-webpage-presenter/src/services/scraper.ts:245 | A captured heading text is non-empty and the line starts with between `lo` and `hi` hashes (1 for the title, 2 to 4 for main points) |
| Patterns.HeadingLine | alai-webpage-presenter/src/services/scraper.ts:245 | Conversely, every line of `k` hashes with `lo <= k <= hi`, white space, and a text not starting with white space is captured, with that text as the group |
| Patterns.EmphasisCapture | alai-webpage-presenter/src/services/scraper.ts:215 | A captured emphasis title is non-empty and the whole line is that text between `**` and `**` |
| Patterns.EmphasisLine | alai-webpage-presenter/src/services/scraper.ts:215 | Conversely, every line that is `**`, a non-empty text and `**` is captured, with that text as the group |
| Patterns.PairFromFirst | alai-webpage-presenter/src/services/scraper.ts:256 | A lazy group ends at the first closing pair: the scan stops at the first position holding the pair when no earlier position holds its first character |
| Patterns.CloseParenFirst | alai-webpage-presenter/src/services/scraper.ts:288 | The lazy image target ends at the first `)` at or after the scan start |
| Patterns.BoldLine | alai-webpage-presenter/src/services/scraper.ts:256 | A line that is `**`, a non-empty text without `*`, and `**` yields exactly that text as its one bold group |
| Patterns.ImageLine | alai-webpage-presenter/src/services/scraper.ts:288 | A line that is one `![alt](url)`, with no `]` in the alt text and a non-empty url without `)`, yields exactly that url |
| Patterns.LoneLinkLine | alai-webpage-presenter/src/services/scraper.ts:233 | `[a](b)` with non-empty `a` and `b` and no line terminator in either is a lone link, so it is never taken as the description |
| Markdown.ExtractTitleNone | alai-webpage-presenter/src/services/scraper.ts:207-221 | No title is found iff no line is a `# ` heading and no line is a lone `**bold**` span |
| Markdown.ExtractTitleHeading | alai-webpage-presenter/src/services/scraper.ts:209-212 | The first level-one heading gives the title, trimmed, even when a bold line precedes it |
| Markdown.ExtractTitleEmphasis | alai-webpage-presenter/src/services/scraper.ts:215-218 | Without any level-one heading, the first lone bold line gives the title, trimmed |
| Markdown.ExtractTitle | alai-webpage-presenter/src/services/scraper.ts:207-221 | A found title has no white space at either end (both branches trim) |
| Markdown.ExtractDescription | alai-webpage-presenter/src/services/scraper.ts:224-238 | The line loop returns the first qualifying trimmed line, or nothing |
| Markdown.DescriptionChoice | alai-webpage-presenter/src/services/scraper.ts:226-237 | No description iff no trimmed line is longer than 30 UTF-16 code units, free of a leading `#`/`!`, and not a lone link; otherwise it is the first such line |
| Markdown.HeadingTier | alai-webpage-presenter/src/services/scraper.ts:245-252 | The heading tier holds at most 5 points |
| Markdown.BoldTier | alai-webpage-presenter/src/services/scraper.ts:254-263 | The bold tier extends the heading points, runs only below 3 points, and caps at 5 |
| Markdown.MainPoints | alai-webpage-presenter/src/services/scraper.ts:241-281 | Tiers append to each other: headings, then bold, then paragraphs; the paragraph tier runs only below 3 points; at most 5 |
| Markdown.ExtractMainPoints | alai-webpage-presenter/src/services/scraper.ts:241-281 | The three loops together produce exactly the tiered points |
| Markdown.PushHeadings | alai-webpage-presenter/src/services/scraper.ts:249-252 | The heading loop, checking the cap before each push, yields the first five of base followed by the trimmed texts of the level 2 to 4 headings |
| Markdown.PushBold | alai-webpage-presenter/src/services/scraper.ts:257-262 | The bold loop yields the first five of base followed by the trimmed spans longer than 15 UTF-16 code units |
| Markdown.PushParagraphs | alai-webpage-presenter/src/services/scraper.ts:267-277 | The line loop yields the first five of base followed by the qualifying trimmed lines |
| Markdown.MainPointsTiers | alai-webpage-presenter/src/services/scraper.ts:241-281 | Every main point comes from the heading, bold or paragraph tier |
| Markdown.HeadingPointFrom | alai-webpage-presenter/src/services/scraper.ts:251 | A heading-tier point is a trimmed heading match |
| Markdown.BoldPointFrom | alai-webpage-presenter/src/services/scraper.ts:259-260 | A bold-tier point is a trimmed bold match longer than 15 UTF-16 code units |
| Markdown.ParagraphPointFrom | alai-webpage-presenter/src/services/scraper.ts:271-275 | A paragraph-tier point is a trimmed line longer than 50 UTF-16 code units that does not start with `#` or `!` and does not contain `](` |
| Markdown.MainPointsFrom | alai-webpage-presenter/src/services/scraper.ts:241-281 | Every main point is a trimmed heading, a trimmed bold span longer than 15 UTF-16 code units, or a qualifying trimmed line |
| Markdown.MarkdownImages | alai-webpage-presenter/src/services/scraper.ts:284-309 | At most 5 image URLs |
| Markdown.ExtractImages | alai-webpage-presenter/src/services/scraper.ts:284-309 | The match loop (cap check, `http` test, resolution, `continue` on failure) yields the first five contributions |
| Markdown.MarkdownImagesFrom | alai-webpage-presenter/src/services/scraper.ts:293-305 | Every image URL is a trimmed match kept because it starts with `http`, or the URL its relative form resolved to |
| Markdown.ParsedTitle | alai-webpage-presenter/src/services/scraper.ts:184 | The metadata title if set; else the extracted title if found and non-empty; else "Untitled" |
| Markdown.ParsedMarkdown | alai-webpage-presenter/src/services/scraper.ts:182-204 | The parsed record has a title; its description is the placeholder or a qualifying line; at most 5 points and 5 images |
| Markdown.ParseMarkdownContent | alai-webpage-presenter/src/services/scraper.ts:182-204 | Running the four extractors and capping the points gives the parsed record |
| Merge.PreferText | alai-webpage-presenter/src/services/scraper.ts:93-105 | The markdown text wins when usable (non-empty, not the placeholder), else the HTML text when usable, else the default |
| Merge.DefaultTitle | alai-webpage-presenter/src/services/scraper.ts:87 | The starting title is the metadata title when set, else "Untitled", and never empty |
| Merge.CombineContentData | alai-webpage-presenter/src/services/scraper.ts:80-143 | The field-by-field updates and set loops produce the merged record |
| Merge.AddNovel | alai-webpage-presenter/src/services/scraper.ts:116-122 | The HTML-points loop adds each point that is not a near duplicate of a point kept so far |
| Merge.AddAll | alai-webpage-presenter/src/services/scraper.ts:111-113 | Adding items to an insertion-ordered set |
| Merge.MergedSets | alai-webpage-presenter/src/services/scraper.ts:108-137 | The set built from the markdown points is their de-duplication, and the image set is the de-duplication of markdown then HTML images |
| Merge.KeepNovelExtends | alai-webpage-presenter/src/services/scraper.ts:116-122 | The points kept before the HTML loop stay first, in order |
| Merge.KeepNovelFrom | alai-webpage-presenter/src/services/scraper.ts:116-122 | Every point after the loop was kept before or is an HTML point |
| Merge.KeepNovelDistinct | alai-webpage-presenter/src/services/scraper.ts:116-122 | The loop adds no exact repeat |
| Merge.KeepNovelAppendsNovel | alai-webpage-presenter/src/services/scraper.ts:117-120 | Each appended point is an HTML point that is not a near duplicate of any point before it |
| Merge.KeepNovelCovers | alai-webpage-presenter/src/services/scraper.ts:117-120 | Every HTML point ends up a near duplicate of some kept point (kept or rejected) |
| Merge.KeepNovelOfKnown | alai-webpage-presenter/src/services/scraper.ts:117-120 | HTML points that all nearly duplicate kept points add nothing |
| Merge.CombinedTextsPresent | alai-webpage-presenter/src/services/scraper.ts:86-105 | The merged title and description are never empty |
| Merge.CappedFoldShape | alai-webpage-presenter/src/services/scraper.ts:116-124 | The first five of the fold have no repeats, start with the kept points and come from kept or HTML points |
| Merge.CappedFoldNovel | alai-webpage-presenter/src/services/scraper.ts:116-124 | Among the first five, each appended point is novel with respect to the points before it |
| Merge.CappedFoldComplete | alai-webpage-presenter/src/services/scraper.ts:116-124 | Below the cap, every kept point survives and every HTML point is covered |
| Merge.CombinedMainPoints | alai-webpage-presenter/src/services/scraper.ts:107-124 | Merged points: at most 5, no repeats, begin with the distinct markdown points in order, later ones are HTML points novel w.r.t. earlier entries, and below 5 nothing was lost |
| Merge.CappedSetShape | alai-webpage-presenter/src/services/scraper.ts:126-139 | The first five of a set: no repeats, drawn from the input, complete below the cap |
| Merge.CappedSetOrder | alai-webpage-presenter/src/services/scraper.ts:126-139 | The first five of a set are in first-occurrence order |
| Merge.CombinedImages | alai-webpage-presenter/src/services/scraper.ts:126-139 | Merged images: at most 5, no repeats, markdown then HTML in first-occurrence order, complete below the cap |
| Merge.CombineSelf | alai-webpage-presenter/src/services/scraper.ts:93-139 | Merging a repeat-free capped record with itself, or with no HTML record, leaves its lists unchanged; the title stays unless it is empty or 'Untitled' (then the metadata title, or 'Untitled'), and the description stays unless it is empty (then the placeholder) |
| Scrape.ScrapeWebpage | alai-webpage-presenter/src/services/scraper.ts:13-77 | No API key fails first; a failed request, missing `data`, or neither format gives the scrape error; otherwise the merge of the parsed formats present |
| Scrape.ScrapedShape | alai-webpage-presenter/src/services/scraper.ts:50-64 | A scraped record has a title and a description, at most 5 repeat-free points and images, and begins with the distinct markdown points |
| Scrape.ScrapedTitle | alai-webpage-presenter/src/services/scraper.ts:52-61 | With markdown, a usable metadata title wins; without it, the HTML title when usable, else metadata or "Untitled" |
| Scrape.ScrapedMarkdownOnly | alai-webpage-presenter/src/services/scraper.ts:60-64 | Without HTML, the scrape's lists are the markdown lists de-duplicated and capped |
| SlidePayload.TitleAndBody | alai-webpage-presenter/src/services/alai.ts:55-130 | The variant payload is a `TITLE_AND_BODY_LAYOUT` of two rows of one box each, whose texts are the heading then the body |
| SlidePayload.TitleAndBodyShape | alai-webpage-presenter/src/services/alai.ts:52-128 | The variant is `TITLE_AND_BODY_LAYOUT`, two rows of one box, heading text over body text, heading/mixed subtypes; a stacked column (body anchored `auto` below the heading, unanchored heading, distinct ids) iff the two ids differ |
| SlidePayload.BulletLines | alai-webpage-presenter/src/services/alai.ts:189-190 | One line per point: the bullet prefix followed by the point |
| SlidePayload.BulletList | alai-webpage-presenter/src/services/alai.ts:187-192 | The body text is empty iff there are no main points |
| SlidePayload.BulletListLines | alai-webpage-presenter/src/services/alai.ts:187-192 | Splitting the body at line breaks gives back one bullet line per point, in order (points without line breaks) |
| Alai.Plan | alai-webpage-presenter/src/services/alai.ts:13-40 | The plan has six requests with main points, three without |
| Alai.Service.constructor | alai-webpage-presenter/src/services/alai.ts:1-2 | The HTTP client and the uuid source start with nothing sent and no id drawn |
| Alai.Service.NewId | alai-webpage-presenter/src/services/alai.ts:10 | Draws the next identifier |
| Alai.Service.Post | alai-webpage-presenter/src/services/alai.ts:13-23 | A request is appended to the trace and answered from the history before it |
| Alai.Service.SubmitVariant | alai-webpage-presenter/src/services/alai.ts:49-154 | Draws heading then body ids, submits the variant, activates the returned id; succeeds iff both requests were answered, returning that id |
| Alai.Service.CreateTitleSlideVariant | alai-webpage-presenter/src/services/alai.ts:49-154 | Submits the title over the description and activates it; succeeds iff both requests were answered, returning the variant id the service returned |
| Alai.Service.CreateContentSlideVariant | alai-webpage-presenter/src/services/alai.ts:185-298 | Submits the title over the bullet list and activates it; succeeds iff both requests were answered, returning the variant id the service returned |
| Alai.Service.CreateAdditionalSlide | alai-webpage-presenter/src/services/alai.ts:157-182 | Sends slide order 1 with a drawn id and returns that id, or fails when the request does |
| Alai.Service.CreatePresentation | alai-webpage-presenter/src/services/alai.ts:5-47 | Sends the run of requests; succeeds iff the whole plan was sent and answered, returning the drawn presentation id; any failure gives one error message |
| Alai.Service.AddContentSlide | alai-webpage-presenter/src/services/alai.ts:37-40 | New slide then its variant; succeeds iff all three requests were answered |
| Alai.Service.GetShareableLink | alai-webpage-presenter/src/services/alai.ts:302-321 | Sends a public share request; the view prefix plus the reply body, or the share error |
| Alai.RunsAppend | alai-webpage-presenter/src/services/alai.ts:5-47 | Endpoints and drawn ids add up over consecutive runs |
| Alai.RepliedAppend | alai-webpage-presenter/src/services/alai.ts:5-47 | Whether all requests were answered splits over consecutive runs |
| Alai.VariantRunShape | alai-webpage-presenter/src/services/alai.ts:137-148 | A variant step is the variant, then the activation exactly when answered; it draws two ids |
| Alai.VariantRunActivates | alai-webpage-presenter/src/services/alai.ts:137-148 | The activation uses the same slide and the id the variant request returned |
| Alai.RunStopsAtCreate | alai-webpage-presenter/src/services/alai.ts:28-31 | Without a first slide id the run is the creation alone and is not the plan |
| Alai.RunStopsAtTitle | alai-webpage-presenter/src/services/alai.ts:34-42 | After a failed title step, or without main points, the run ends with the title step; it succeeds iff the step completed and there are no points |
| Alai.ContentRunShape | alai-webpage-presenter/src/services/alai.ts:37-40 | The content block is the new slide, then its variant step when answered; it completes iff that step does |
| Alai.FullRunReplied | alai-webpage-presenter/src/services/alai.ts:13-40 | A full run follows the six-step plan, answered throughout, iff its content block completes |
| Alai.RunAddsContent | alai-webpage-presenter/src/services/alai.ts:37-42 | With main points and a completed title step, the run ends with the content block and succeeds iff it completes |
| Alai.RunFollowsPlan | alai-webpage-presenter/src/services/alai.ts:13-40 | Every run is a prefix of the plan; a second slide is requested only when there are main points |
| Alai.PlanOrder | alai-webpage-presenter/src/services/alai.ts:13-40 | Creation, then a variant step, then a content block, is in plan order |
| Alai.RunStartsWithCreation | alai-webpage-presenter/src/services/alai.ts:10-31 | The first request creates the presentation with the drawn id and title "Presentation: " + title; it is alone iff no first slide came back |
| Alai.RunSlideContents | alai-webpage-presenter/src/services/alai.ts:34-39 | Title variant on the returned first slide with title over description; new slide with drawn id, presentation id, order 1; its variant with title over bullets |
| Alai.RunVariantsStacked | alai-webpage-presenter/src/services/alai.ts:52-128 | With distinct drawn ids, every submitted variant is a two-row `TITLE_AND_BODY_LAYOUT` stacked column |
| Alai.ActivationsAppend | alai-webpage-presenter/src/services/alai.ts:137-148 | Activations stay correct over consecutive runs when the second does not begin with an activation |
| Alai.ContentRunActivates | alai-webpage-presenter/src/services/alai.ts:281-292 | In the content block, the activation follows its variant |
| Alai.RunActivations | alai-webpage-presenter/src/services/alai.ts:137-148 | Every activation follows a variant for the same slide and activates the id that variant request returned |
| Alai.ActivationsAfterCreation | alai-webpage-presenter/src/services/alai.ts:28-40 | Creation, a variant step and a block that does not start with an activation keep activations correct |
| Alai.ViewLink | alai-webpage-presenter/src/services/alai.ts:316 | The link is the view prefix followed by the reply body |
| Alai.ViewLinkInjective | alai-webpage-presenter/src/services/alai.ts:316 | Different reply bodies give different links |

## Left out

- HTTP transport is not modelled.
  - The scraping service's answer is an input to `Scrape.ScrapeWebpage`.
  - The presentation service is the `respond` oracle.
  - The `Authorization` header and the other request options are not represented.
- The API key is modelled as a string, "" when it is not set.
- `parseHtmlContent` is a function parameter. Its cheerio DOM queries are not part of this model.
- `new URL(url, base)` is a partial function parameter. When it fails, the image is skipped.
- `uuidv4` is the `uuid` oracle. Distinct ids are a precondition only where a property needs them (`Alai.RunVariantsStacked`).
- The regular-expression engine is modelled line by line.
  - Each `m`-flag pattern is evaluated on the text between line terminators.
  - This is exact wherever `.` cannot cross a line.
  - The `\s+` of a heading pattern could cross a line break when a heading line holds only white space after its hashes. That case is not modelled.
- `toLowerCase` maps only the ASCII letters.
- `trim` and `\s` follow ECMAScript white space, restricted to the characters listed in `text.dfy`.
- Non-string response data is not modelled.
  - Markdown, HTML and the metadata title are strings, "" when absent.
  - A missing metadata object is modelled as a metadata title of "".
  - A missing `slides[0].id` is "".
- The bullet prefix is kept as the exact mis-decoded constant the source contains. Nothing is proved about its characters beyond the absence of line breaks.
- Similarity is computed as an exact ratio, compared to 0.7 with integers. The source compares a floating-point quotient with the double 0.7. The two agree at every ratio of word counts below 10^15, including exactly 7/10, where neither reports a duplicate.
- Console logging is left out, as are the command-line entry point, authentication and the language-model summariser.
- Main points: the paragraph tier runs whenever fewer than three points were found. A page with two section headings and one long paragraph therefore yields three points, not two. The model follows the code.
- Scrape.ScrapedTitle: states the title precedence for the merged record only. The description precedence is stated by `Merge.PreferText`.
