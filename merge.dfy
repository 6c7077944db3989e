/**
 * `combineContentData`: the merge of the record parsed from the markdown with
 * the record parsed from the HTML. Titles and descriptions prefer the markdown,
 * main points are unioned with near-duplicate HTML points dropped, images are
 * unioned exactly, and both lists are cut to five entries.
 */
module Merge {
  import opened Results
  import opened Seqs
  import opened Scraper

  /**
   * The choice made for the title and for the description: the markdown text if
   * it is usable, else the HTML text if it is usable, else the default the
   * result record starts with.
   */
  function PreferText(fromMarkdown: Option<string>, fromHtml: Option<string>, default: string, placeholder: string): (r: string)
    ensures UsableIn(fromMarkdown, placeholder) ==> r == fromMarkdown.value
    ensures !UsableIn(fromMarkdown, placeholder) && UsableIn(fromHtml, placeholder) ==> r == fromHtml.value
    ensures !UsableIn(fromMarkdown, placeholder) && !UsableIn(fromHtml, placeholder) ==> r == default
    ensures r == default || Usable(r, placeholder)
  {
    if UsableIn(fromMarkdown, placeholder) then fromMarkdown.value
    else if UsableIn(fromHtml, placeholder) then fromHtml.value
    else default
  }

  /** A text is present and usable. */
  predicate UsableIn(text: Option<string>, placeholder: string) {
    text.Some? && Usable(text.value, placeholder)
  }

  /** The title of a record that is present. */
  function TitleOf(data: Option<ScrapedContent>): Option<string> {
    match data
    case Some(d) => Some(d.title)
    case None => None
  }

  /** The description of a record that is present. */
  function DescriptionOf(data: Option<ScrapedContent>): Option<string> {
    match data
    case Some(d) => Some(d.description)
    case None => None
  }

  /** The main points of a record that is present, none of an absent one. */
  function PointsOf(data: Option<ScrapedContent>): seq<string> {
    match data
    case Some(d) => d.mainPoints
    case None => []
  }

  /** The images of a record that is present, none of an absent one. */
  function ImagesOf(data: Option<ScrapedContent>): seq<string> {
    match data
    case Some(d) => d.imageUrls
    case None => []
  }

  /** The title a merge starts from: `metadata.title || 'Untitled'`. */
  function DefaultTitle(metadataTitle: string): (r: string)
    ensures r != ""
    ensures metadataTitle != "" ==> r == metadataTitle
  {
    if metadataTitle != "" then metadataTitle else Untitled
  }

  /**
   * The HTML points folded into the set of kept points in order: each one is
   * added unless it is a near duplicate of a point kept so far.
   */
  function KeepNovel(kept: seq<string>, candidates: seq<string>): seq<string>
    decreases |candidates|
  {
    if candidates == [] then kept
    else
      var sofar := KeepNovel(kept, candidates[..|candidates| - 1]);
      var point := candidates[|candidates| - 1];
      if IsDuplicateIn(point, sofar) then sofar else AddUnique(sofar, point)
  }

  /** What the merge produces. */
  function Combined(markdownData: Option<ScrapedContent>, htmlData: Option<ScrapedContent>, metadataTitle: string): ScrapedContent {
    ScrapedContent(
      PreferText(TitleOf(markdownData), TitleOf(htmlData), DefaultTitle(metadataTitle), Untitled),
      PreferText(DescriptionOf(markdownData), DescriptionOf(htmlData), NoDescription, NoDescription),
      Take(KeepNovel(AddEach([], PointsOf(markdownData)), PointsOf(htmlData)), Cap),
      Take(AddEach(AddEach([], ImagesOf(markdownData)), ImagesOf(htmlData)), Cap))
  }

  /** `combineContentData`: fills a result record field by field, the lists through insertion-ordered sets. */
  method CombineContentData(markdownData: Option<ScrapedContent>, htmlData: Option<ScrapedContent>, metadataTitle: string)
    returns (result: ScrapedContent)
    ensures result == Combined(markdownData, htmlData, metadataTitle)
  {
    result := ScrapedContent(if metadataTitle != "" then metadataTitle else Untitled, NoDescription, [], []);

    if markdownData.Some? && Usable(markdownData.value.title, Untitled) {
      result := result.(title := markdownData.value.title);
    } else if htmlData.Some? && Usable(htmlData.value.title, Untitled) {
      result := result.(title := htmlData.value.title);
    }

    if markdownData.Some? && Usable(markdownData.value.description, NoDescription) {
      result := result.(description := markdownData.value.description);
    } else if htmlData.Some? && Usable(htmlData.value.description, NoDescription) {
      result := result.(description := htmlData.value.description);
    }

    var allMainPoints: seq<string> := [];
    if markdownData.Some? {
      allMainPoints := AddAll(allMainPoints, markdownData.value.mainPoints);
    }
    if htmlData.Some? {
      allMainPoints := AddNovel(allMainPoints, htmlData.value.mainPoints);
    }
    result := result.(mainPoints := Take(allMainPoints, Cap));

    var allImages: seq<string> := [];
    if markdownData.Some? {
      allImages := AddAll(allImages, markdownData.value.imageUrls);
    }
    if htmlData.Some? {
      allImages := AddAll(allImages, htmlData.value.imageUrls);
    }
    result := result.(imageUrls := Take(allImages, Cap));
  }

  /** `points.forEach(point => { if (!isPointDuplicate(point, [...set])) set.add(point) })`. */
  method AddNovel(kept: seq<string>, points: seq<string>) returns (all: seq<string>)
    ensures all == KeepNovel(kept, points)
  {
    all := kept;
    for i := 0 to |points|
      invariant all == KeepNovel(kept, points[..i])
    {
      assert points[..i + 1][..i] == points[..i];
      var duplicate := IsPointDuplicate(points[i], all);
      if !duplicate {
        all := AddUnique(all, points[i]);
      }
    }
    assert points[..|points|] == points;
  }

  /** The insertion-ordered sets the merge builds hold the points, and the images, of both records without repeats. */
  lemma MergedSets(markdownData: Option<ScrapedContent>, htmlData: Option<ScrapedContent>)
    ensures AddEach([], PointsOf(markdownData)) == Dedup(PointsOf(markdownData))
    ensures AddEach(AddEach([], ImagesOf(markdownData)), ImagesOf(htmlData)) == Dedup(ImagesOf(markdownData) + ImagesOf(htmlData))
  {
    AddEachDedup([], PointsOf(markdownData));
    assert [] + PointsOf(markdownData) == PointsOf(markdownData);
    AddEachDedup([], ImagesOf(markdownData));
    assert [] + ImagesOf(markdownData) == ImagesOf(markdownData);
    AddEachDedup(ImagesOf(markdownData), ImagesOf(htmlData));
  }

  /** `items.forEach(x => set.add(x))`. */
  method AddAll(set0: seq<string>, items: seq<string>) returns (set1: seq<string>)
    ensures set1 == AddEach(set0, items)
  {
    set1 := set0;
    for i := 0 to |items|
      invariant set1 == AddEach(set0, items[..i])
    {
      assert items[..i + 1][..i] == items[..i];
      set1 := AddUnique(set1, items[i]);
    }
    assert items[..|items|] == items;
  }

  // ---------------------------------------------------------------------------
  // The fold of HTML points

  /** The points kept before the fold stay first, in order. */
  lemma {:induction false} KeepNovelExtends(kept: seq<string>, candidates: seq<string>)
    ensures kept <= KeepNovel(kept, candidates)
    decreases |candidates|
  {
    if candidates != [] {
      KeepNovelExtends(kept, candidates[..|candidates| - 1]);
    }
  }

  /** Every point of the result was kept before or is a candidate. */
  lemma {:induction false} KeepNovelFrom(kept: seq<string>, candidates: seq<string>)
    ensures forall p | p in KeepNovel(kept, candidates) :: p in kept || p in candidates
    decreases |candidates|
  {
    if candidates != [] {
      var init := candidates[..|candidates| - 1];
      KeepNovelFrom(kept, init);
      assert forall p | p in init :: p in candidates;
    }
  }

  /** The fold adds no exact repeat to a set without repeats. */
  lemma {:induction false} KeepNovelDistinct(kept: seq<string>, candidates: seq<string>)
    requires NoDup(kept)
    ensures NoDup(KeepNovel(kept, candidates))
    decreases |candidates|
  {
    if candidates != [] {
      var sofar := KeepNovel(kept, candidates[..|candidates| - 1]);
      var point := candidates[|candidates| - 1];
      KeepNovelDistinct(kept, candidates[..|candidates| - 1]);
      NoDupAddUnique(sofar, point);
    }
  }

  /**
   * Each point the fold appends is a candidate that is not a near duplicate of
   * any point before it.
   */
  lemma {:induction false} KeepNovelAppendsNovel(kept: seq<string>, candidates: seq<string>)
    ensures forall i | |kept| <= i < |KeepNovel(kept, candidates)| ::
      KeepNovel(kept, candidates)[i] in candidates && !IsDuplicateIn(KeepNovel(kept, candidates)[i], KeepNovel(kept, candidates)[..i])
    decreases |candidates|
  {
    if candidates != [] {
      var init, point := candidates[..|candidates| - 1], candidates[|candidates| - 1];
      var sofar := KeepNovel(kept, init);
      var r := KeepNovel(kept, candidates);
      KeepNovelAppendsNovel(kept, init);
      assert forall p | p in init :: p in candidates;
      if !IsDuplicateIn(point, sofar) {
        NotDuplicateNotIn(point, sofar);
        assert r == sofar + [point];
        forall i | |kept| <= i < |r|
          ensures r[i] in candidates && !IsDuplicateIn(r[i], r[..i])
        {
          if i < |sofar| {
            assert r[..i] == sofar[..i];
          } else {
            assert r[..i] == sofar;
          }
        }
      }
    }
  }

  /** Every candidate ends up a near duplicate of some point of the result. */
  lemma {:induction false} KeepNovelCovers(kept: seq<string>, candidates: seq<string>)
    ensures forall p | p in candidates :: IsDuplicateIn(p, KeepNovel(kept, candidates))
    decreases |candidates|
  {
    if candidates != [] {
      var init, point := candidates[..|candidates| - 1], candidates[|candidates| - 1];
      var sofar := KeepNovel(kept, init);
      var r := KeepNovel(kept, candidates);
      KeepNovelCovers(kept, init);
      if !IsDuplicateIn(point, sofar) {
        NotDuplicateNotIn(point, sofar);
        assert r == sofar + [point];
        assert r[..|r| - 1] == sofar;
        NearDuplicateOfItself(point);
        assert IsDuplicateIn(point, r);
      }
      forall p | p in candidates
        ensures IsDuplicateIn(p, r)
      {
        if p in init {
          DuplicateInExtension(p, sofar, r);
        } else {
          assert p == point;
          if IsDuplicateIn(point, sofar) {
            DuplicateInExtension(p, sofar, r);
          }
        }
      }
    }
  }

  /** Candidates that all nearly duplicate a kept point add nothing. */
  lemma {:induction false} KeepNovelOfKnown(kept: seq<string>, candidates: seq<string>)
    requires forall p | p in candidates :: IsDuplicateIn(p, kept)
    ensures KeepNovel(kept, candidates) == kept
    decreases |candidates|
  {
    if candidates != [] {
      var init := candidates[..|candidates| - 1];
      assert forall p | p in init :: p in candidates;
      KeepNovelOfKnown(kept, init);
      assert candidates[|candidates| - 1] in candidates;
    }
  }

  // ---------------------------------------------------------------------------
  // Properties of the merged record

  /** The merged title and description are never empty. */
  lemma CombinedTextsPresent(markdownData: Option<ScrapedContent>, htmlData: Option<ScrapedContent>, metadataTitle: string)
    ensures Combined(markdownData, htmlData, metadataTitle).title != ""
    ensures Combined(markdownData, htmlData, metadataTitle).description != ""
  {
  }

  /** The first five of the fold: a capped set without repeats that starts with the kept points. */
  lemma CappedFoldShape(kept: seq<string>, candidates: seq<string>)
    requires NoDup(kept)
    ensures |Take(KeepNovel(kept, candidates), Cap)| <= Cap
    ensures NoDup(Take(KeepNovel(kept, candidates), Cap))
    ensures Take(kept, Cap) <= Take(KeepNovel(kept, candidates), Cap)
    ensures forall p | p in Take(KeepNovel(kept, candidates), Cap) :: p in kept || p in candidates
  {
    var full := KeepNovel(kept, candidates);
    KeepNovelExtends(kept, candidates);
    KeepNovelDistinct(kept, candidates);
    KeepNovelFrom(kept, candidates);
    TakePrefix(kept, full, Cap);
    if |full| > Cap {
      NoDupPrefix(full, Cap);
    }
  }

  /** In the first five of the fold, each point after the kept ones is a candidate with no near duplicate before it. */
  lemma CappedFoldNovel(kept: seq<string>, candidates: seq<string>)
    ensures forall i | |kept| <= i < |Take(KeepNovel(kept, candidates), Cap)| ::
      && Take(KeepNovel(kept, candidates), Cap)[i] in candidates
      && !IsDuplicateIn(Take(KeepNovel(kept, candidates), Cap)[i], Take(KeepNovel(kept, candidates), Cap)[..i])
  {
    var full := KeepNovel(kept, candidates);
    var r := Take(full, Cap);
    KeepNovelAppendsNovel(kept, candidates);
    forall i | |kept| <= i < |r|
      ensures r[i] in candidates && !IsDuplicateIn(r[i], r[..i])
    {
      assert r[i] == full[i] && r[..i] == full[..i];
    }
  }

  /** Below the cap, the fold lost nothing: every kept point is there, and every candidate has a near duplicate there. */
  lemma CappedFoldComplete(kept: seq<string>, candidates: seq<string>)
    ensures |Take(KeepNovel(kept, candidates), Cap)| < Cap ==>
      && (forall p | p in kept :: p in Take(KeepNovel(kept, candidates), Cap))
      && (forall p | p in candidates :: IsDuplicateIn(p, Take(KeepNovel(kept, candidates), Cap)))
  {
    var full := KeepNovel(kept, candidates);
    if |Take(full, Cap)| < Cap {
      assert Take(full, Cap) == full;
      KeepNovelExtends(kept, candidates);
      KeepNovelCovers(kept, candidates);
    }
  }

  /**
   * The merged main points: at most five, no exact repeats, the markdown points
   * first in their order, then HTML points none of which nearly duplicates an
   * earlier entry; a markdown point is missing, or an HTML point without a near
   * duplicate in the result, only when the cap was reached.
   */
  lemma CombinedMainPoints(markdownData: Option<ScrapedContent>, htmlData: Option<ScrapedContent>, metadataTitle: string)
    ensures |Combined(markdownData, htmlData, metadataTitle).mainPoints| <= Cap
    ensures NoDup(Combined(markdownData, htmlData, metadataTitle).mainPoints)
    ensures Take(Dedup(PointsOf(markdownData)), Cap) <= Combined(markdownData, htmlData, metadataTitle).mainPoints
    ensures forall p | p in Combined(markdownData, htmlData, metadataTitle).mainPoints ::
      p in PointsOf(markdownData) || p in PointsOf(htmlData)
    ensures forall i | |Dedup(PointsOf(markdownData))| <= i < |Combined(markdownData, htmlData, metadataTitle).mainPoints| ::
      && Combined(markdownData, htmlData, metadataTitle).mainPoints[i] in PointsOf(htmlData)
      && !IsDuplicateIn(Combined(markdownData, htmlData, metadataTitle).mainPoints[i], Combined(markdownData, htmlData, metadataTitle).mainPoints[..i])
    ensures |Combined(markdownData, htmlData, metadataTitle).mainPoints| < Cap ==>
      && (forall p | p in PointsOf(markdownData) :: p in Combined(markdownData, htmlData, metadataTitle).mainPoints)
      && (forall p | p in PointsOf(htmlData) :: IsDuplicateIn(p, Combined(markdownData, htmlData, metadataTitle).mainPoints))
  {
    var base, candidates := Dedup(PointsOf(markdownData)), PointsOf(htmlData);
    MergedSets(markdownData, htmlData);
    assert Combined(markdownData, htmlData, metadataTitle).mainPoints == Take(KeepNovel(base, candidates), Cap);
    DedupProps(PointsOf(markdownData));
    CappedFoldShape(base, candidates);
    CappedFoldNovel(base, candidates);
    CappedFoldComplete(base, candidates);
  }

  /** The first five of a set built from `all`: without repeats, drawn from `all`, complete below the cap. */
  lemma CappedSetShape(all: seq<string>)
    ensures |Take(Dedup(all), Cap)| <= Cap
    ensures NoDup(Take(Dedup(all), Cap))
    ensures forall u | u in Take(Dedup(all), Cap) :: u in all
    ensures |Take(Dedup(all), Cap)| < Cap ==> forall u | u in all :: u in Take(Dedup(all), Cap)
  {
    var d := Dedup(all);
    DedupProps(all);
    if |d| > Cap {
      NoDupPrefix(d, Cap);
    }
    assert forall u | u in Take(d, Cap) :: u in d;
  }

  /** The first five of a set built from `all` are in the order of their first occurrence in `all`. */
  lemma CappedSetOrder(all: seq<string>)
    ensures forall i, j | 0 <= i < j < |Take(Dedup(all), Cap)| ::
      Take(Dedup(all), Cap)[i] in all && Take(Dedup(all), Cap)[j] in all &&
      IndexOf(all, Take(Dedup(all), Cap)[i]) < IndexOf(all, Take(Dedup(all), Cap)[j])
  {
    var r := Take(Dedup(all), Cap);
    forall i, j | 0 <= i < j < |r|
      ensures r[i] in all && r[j] in all && IndexOf(all, r[i]) < IndexOf(all, r[j])
    {
      DedupKeepsFirstOccurrenceOrder(all, i, j);
    }
  }

  /**
   * The merged images: at most five, no repeats, every one from either record,
   * listed in the order of their first occurrence among the markdown images
   * followed by the HTML images; one is missing only when the cap was reached.
   */
  lemma CombinedImages(markdownData: Option<ScrapedContent>, htmlData: Option<ScrapedContent>, metadataTitle: string)
    ensures |Combined(markdownData, htmlData, metadataTitle).imageUrls| <= Cap
    ensures NoDup(Combined(markdownData, htmlData, metadataTitle).imageUrls)
    ensures forall u | u in Combined(markdownData, htmlData, metadataTitle).imageUrls ::
      u in ImagesOf(markdownData) + ImagesOf(htmlData)
    ensures forall i, j | 0 <= i < j < |Combined(markdownData, htmlData, metadataTitle).imageUrls| ::
      && Combined(markdownData, htmlData, metadataTitle).imageUrls[i] in ImagesOf(markdownData) + ImagesOf(htmlData)
      && Combined(markdownData, htmlData, metadataTitle).imageUrls[j] in ImagesOf(markdownData) + ImagesOf(htmlData)
      && IndexOf(ImagesOf(markdownData) + ImagesOf(htmlData), Combined(markdownData, htmlData, metadataTitle).imageUrls[i])
        < IndexOf(ImagesOf(markdownData) + ImagesOf(htmlData), Combined(markdownData, htmlData, metadataTitle).imageUrls[j])
    ensures |Combined(markdownData, htmlData, metadataTitle).imageUrls| < Cap ==>
      forall u | u in ImagesOf(markdownData) + ImagesOf(htmlData) :: u in Combined(markdownData, htmlData, metadataTitle).imageUrls
  {
    var all := ImagesOf(markdownData) + ImagesOf(htmlData);
    MergedSets(markdownData, htmlData);
    assert Combined(markdownData, htmlData, metadataTitle).imageUrls == Take(Dedup(all), Cap);
    CappedSetShape(all);
    CappedSetOrder(all);
  }

  /**
   * Merging a record that has no repeats and at most five entries per list with
   * itself, or with no HTML record, gives back its lists unchanged, its title
   * unless that is empty or the placeholder (then the metadata title or
   * 'Untitled'), and its description unless that is empty (then the placeholder).
   */
  lemma CombineSelf(data: ScrapedContent, metadataTitle: string)
    requires NoDup(data.mainPoints) && |data.mainPoints| <= Cap
    requires NoDup(data.imageUrls) && |data.imageUrls| <= Cap
    ensures Combined(Some(data), Some(data), metadataTitle).mainPoints == data.mainPoints
    ensures Combined(Some(data), Some(data), metadataTitle).imageUrls == data.imageUrls
    ensures Combined(Some(data), None, metadataTitle).mainPoints == data.mainPoints
    ensures Combined(Some(data), None, metadataTitle).imageUrls == data.imageUrls
    ensures Usable(data.title, Untitled) ==> Combined(Some(data), Some(data), metadataTitle).title == data.title
    ensures Usable(data.title, Untitled) ==> Combined(Some(data), None, metadataTitle).title == data.title
    ensures !Usable(data.title, Untitled) ==> Combined(Some(data), Some(data), metadataTitle).title == DefaultTitle(metadataTitle)
    ensures !Usable(data.title, Untitled) ==> Combined(Some(data), None, metadataTitle).title == DefaultTitle(metadataTitle)
    ensures data.description != "" ==> Combined(Some(data), Some(data), metadataTitle).description == data.description
    ensures data.description != "" ==> Combined(Some(data), None, metadataTitle).description == data.description
    ensures data.description == "" ==> Combined(Some(data), Some(data), metadataTitle).description == NoDescription
    ensures data.description == "" ==> Combined(Some(data), None, metadataTitle).description == NoDescription
  {
    MergedSets(Some(data), Some(data));
    MergedSets(Some(data), None);
    DedupOfDistinct(data.mainPoints);
    DedupOfDistinct(data.imageUrls);
    forall p | p in data.mainPoints
      ensures IsDuplicateIn(p, data.mainPoints)
    {
      var k :| 0 <= k < |data.mainPoints| && data.mainPoints[k] == p;
      NearDuplicateOfItself(p);
      IsDuplicateInAt(p, data.mainPoints);
    }
    KeepNovelOfKnown(data.mainPoints, data.mainPoints);
    DedupAbsorbs(data.imageUrls, data.imageUrls);
    assert data.imageUrls + [] == data.imageUrls;
  }
}
