/**
 * The scraper's deterministic core: markdown extraction, near-duplicate
 * detection, and the merge of the markdown-derived and HTML-derived records.
 */
module Scraper {
  import opened Results
  import opened Seqs
  import opened Text
  import opened Patterns

  /** What a scrape produces; every list the scraper emits holds at most five entries. */
  datatype ScrapedContent = ScrapedContent(
    title: string,
    description: string,
    mainPoints: seq<string>,
    imageUrls: seq<string>)

  /** The most main points, and the most images, a record the scraper builds holds. */
  const Cap: nat := 5

  /** Placeholder title. */
  const Untitled: string := "Untitled"

  /** Placeholder description. */
  const NoDescription: string := "No description available"

  /** A text the merge accepts from a source: non-empty (truthy) and not the placeholder. */
  predicate Usable(text: string, placeholder: string) {
    text != "" && text != placeholder
  }

  // ---------------------------------------------------------------------------
  // Word-set similarity

  /**
   * `new Set(text.split(/\s+/).filter(w => w.length > 3))`: a JavaScript set keeps
   * its members in insertion order, so it is the filtered words without repeats.
   */
  function LongWords(text: string): (r: seq<string>)
    ensures NoDup(r)
  {
    DedupProps(LongOnes(Words(text)));
    Dedup(LongOnes(Words(text)))
  }

  /** The words of `words` longer than three UTF-16 code units, in order. */
  function LongOnes(words: seq<string>): seq<string> {
    if words == [] then []
    else (if Utf16Length(words[0]) > 3 then [words[0]] else []) + LongOnes(words[1..])
  }

  /** The long words are exactly the words of the text longer than three UTF-16 code units. */
  lemma LongWordsMembers(text: string, w: string)
    ensures w in LongWords(text) <==> w in Words(text) && Utf16Length(w) > 3
  {
    DedupProps(LongOnes(Words(text)));
    LongOnesMembers(Words(text), w);
  }

  /** Filtering keeps exactly the members longer than three UTF-16 code units. */
  lemma {:induction false} LongOnesMembers(words: seq<string>, w: string)
    ensures w in LongOnes(words) <==> w in words && Utf16Length(w) > 3
  {
    if words != [] {
      LongOnesMembers(words[1..], w);
      assert words == [words[0]] + words[1..];
    }
  }

  /** How many members of `words1` `words2` has. */
  function Shared(words1: seq<string>, words2: seq<string>): (n: nat)
    ensures n <= |words1|
  {
    if words1 == [] then 0
    else Shared(words1[..|words1| - 1], words2) + (if words1[|words1| - 1] in words2 then 1 else 0)
  }

  /**
   * A similarity value kept as an exact fraction `numerator / denominator`; the
   * source's floating-point quotient of two small counts compares with 0.7 exactly
   * as the fraction does.
   */
  datatype Ratio = Ratio(numerator: nat, denominator: nat)

  /** The fraction as a number. */
  function ValueOf(r: Ratio): real
    requires r.denominator > 0
  {
    (r.numerator as real) / (r.denominator as real)
  }

  /** The `> 0.7` test, stated without division. */
  predicate ExceedsSevenTenths(r: Ratio) {
    10 * r.numerator > 7 * r.denominator
  }

  /** The integer test agrees with comparing the quotient against 0.7. */
  lemma ExceedsSevenTenthsAsReal(r: Ratio)
    requires r.denominator > 0
    ensures ExceedsSevenTenths(r) <==> ValueOf(r) > 0.7
  {
    var i, u := r.numerator as real, r.denominator as real;
    assert u > 0.0;
    RatioAboveSevenTenths(i, u);
  }

  /** `i / u > 0.7` without division, for a positive `u`. */
  lemma RatioAboveSevenTenths(i: real, u: real)
    requires u > 0.0
    ensures i / u > 0.7 <==> 10.0 * i > 7.0 * u
  {
  }

  /**
   * Jaccard similarity of the long-word sets: the shared count over the union
   * size, the union counted as |w1| + |w2| - shared; 0 when either set is empty.
   */
  function Similarity(text1: string, text2: string): (r: Ratio)
    ensures 0 < r.denominator
    ensures r.numerator == 0 ==> !ExceedsSevenTenths(r)
  {
    var w1, w2 := LongWords(text1), LongWords(text2);
    if |w1| == 0 || |w2| == 0 then Ratio(0, 1)
    else
      var inter := Shared(w1, w2);
      Ratio(inter, |w1| + |w2| - inter)
  }

  /** `calculateSimilarity`: counts the shared words in a pass over the first set. */
  method CalculateSimilarity(text1: string, text2: string) returns (similarity: Ratio)
    ensures similarity == Similarity(text1, text2)
  {
    var words1, words2 := LongWords(text1), LongWords(text2);
    if |words1| == 0 || |words2| == 0 {
      return Ratio(0, 1);
    }
    var intersection := 0;
    for i := 0 to |words1|
      invariant intersection == Shared(words1[..i], words2)
    {
      assert words1[..i + 1][..i] == words1[..i];
      if words1[i] in words2 {
        intersection := intersection + 1;
      }
    }
    assert words1[..|words1|] == words1;
    similarity := Ratio(intersection, |words1| + |words2| - intersection);
  }

  /** Only members of both lists are counted, each once when `words1` has no repeats. */
  lemma {:induction false} SharedIsIntersection(words1: seq<string>, words2: seq<string>)
    requires NoDup(words1)
    ensures Shared(words1, words2) == |set w | w in words1 && w in words2|
  {
    if words1 != [] {
      var init, last := words1[..|words1| - 1], words1[|words1| - 1];
      SharedIsIntersection(init, words2);
      assert words1 == init + [last];
      var before := set w | w in init && w in words2;
      if last in words2 {
        assert (set w | w in words1 && w in words2) == before + {last};
      } else {
        assert (set w | w in words1 && w in words2) == before;
      }
    }
  }

  /** The long words of a text form a set: as many distinct members as entries. */
  lemma DistinctCount(words: seq<string>)
    requires NoDup(words)
    ensures |set w | w in words| == |words|
  {
    SharedIsIntersection(words, words);
    SharedOfSelf(words);
    assert (set w | w in words && w in words) == set w | w in words;
  }

  /** Every member of a list is in it. */
  lemma {:induction false} SharedOfSelf(words: seq<string>)
    ensures Shared(words, words) == |words|
  {
    SharedInSuperset(words, words);
  }

  /** Counting against a list that holds every member counts them all. */
  lemma {:induction false} SharedInSuperset(words1: seq<string>, words2: seq<string>)
    requires forall w | w in words1 :: w in words2
    ensures Shared(words1, words2) == |words1|
  {
    if words1 != [] {
      var init := words1[..|words1| - 1];
      assert forall w | w in init :: w in words1;
      SharedInSuperset(init, words2);
    }
  }

  /** The shared count never exceeds the size of the second set either. */
  lemma SharedBound(words1: seq<string>, words2: seq<string>)
    requires NoDup(words1) && NoDup(words2)
    ensures Shared(words1, words2) <= |words2|
  {
    SharedIsIntersection(words1, words2);
    DistinctCount(words2);
    var common := set w | w in words1 && w in words2;
    assert common <= set w | w in words2;
    SubsetCount(common, set w | w in words2);
  }

  /** A subset is no larger. */
  lemma SubsetCount(a: set<string>, b: set<string>)
    requires a <= b
    ensures |a| <= |b|
  {
    assert b == a + (b - a);
  }

  /** The similarity is a proper fraction: a value between 0 and 1. */
  lemma SimilarityBounds(text1: string, text2: string)
    ensures Similarity(text1, text2).numerator <= Similarity(text1, text2).denominator
  {
    var w1, w2 := LongWords(text1), LongWords(text2);
    SharedBound(w1, w2);
  }

  /** The measure does not depend on the order of its arguments. */
  lemma SimilaritySymmetric(text1: string, text2: string)
    ensures Similarity(text1, text2) == Similarity(text2, text1)
  {
    var w1, w2 := LongWords(text1), LongWords(text2);
    SharedIsIntersection(w1, w2);
    SharedIsIntersection(w2, w1);
    assert (set w | w in w1 && w in w2) == (set w | w in w2 && w in w1);
  }

  /** A text with at least one long word is fully similar to itself. */
  lemma SimilarityOfIdentical(text: string)
    requires LongWords(text) != []
    ensures Similarity(text, text).numerator == Similarity(text, text).denominator
  {
    SharedOfSelf(LongWords(text));
  }

  /** Without a word longer than three UTF-16 code units on either side the similarity is 0. */
  lemma SimilarityWithoutLongWords(text1: string, text2: string)
    requires forall w | w in Words(text1) :: Utf16Length(w) <= 3
    ensures Similarity(text1, text2).numerator == 0
  {
    var w1 := LongWords(text1);
    if w1 != [] {
      LongWordsMembers(text1, w1[0]);
    }
  }

  // ---------------------------------------------------------------------------
  // Near-duplicate detection

  /**
   * One step of `isPointDuplicate`: after lowercasing, either text includes the
   * other, or their similarity exceeds 0.7.
   */
  predicate NearDuplicate(newPoint: string, existing: string) {
    Overlaps(ToLower(newPoint), ToLower(existing))
  }

  /** The test on lowercased texts: containment either way, or similarity above 0.7. */
  predicate Overlaps(newLower: string, existingLower: string) {
    || Contains(newLower, existingLower)
    || Contains(existingLower, newLower)
    || ExceedsSevenTenths(Similarity(newLower, existingLower))
  }

  /** Some existing point is a near duplicate of `newPoint`. */
  predicate IsDuplicateIn(newPoint: string, existing: seq<string>) {
    existing != [] &&
    (IsDuplicateIn(newPoint, existing[..|existing| - 1]) || NearDuplicate(newPoint, existing[|existing| - 1]))
  }

  /** `IsDuplicateIn` holds exactly when some entry is a near duplicate. */
  lemma {:induction false} IsDuplicateInAt(newPoint: string, existing: seq<string>)
    ensures IsDuplicateIn(newPoint, existing) <==> exists k | 0 <= k < |existing| :: NearDuplicate(newPoint, existing[k])
  {
    if existing != [] {
      var init := existing[..|existing| - 1];
      IsDuplicateInAt(newPoint, init);
      if IsDuplicateIn(newPoint, existing) {
        if IsDuplicateIn(newPoint, init) {
          var k :| 0 <= k < |init| && NearDuplicate(newPoint, init[k]);
          assert existing[k] == init[k];
        } else {
          assert NearDuplicate(newPoint, existing[|existing| - 1]);
        }
      } else {
        forall k | 0 <= k < |existing|
          ensures !NearDuplicate(newPoint, existing[k])
        {
          if k < |init| {
            assert existing[k] == init[k];
          }
        }
      }
    }
  }

  /** Against a single existing point, the test is that point's near-duplicate test. */
  lemma DuplicateOfOne(newPoint: string, existing: string)
    ensures IsDuplicateIn(newPoint, [existing]) <==> NearDuplicate(newPoint, existing)
  {
    assert [existing][..0] == [];
  }

  /** `isPointDuplicate`: scans the existing points and stops at the first near duplicate. */
  method IsPointDuplicate(newPoint: string, existingPoints: seq<string>) returns (duplicate: bool)
    ensures duplicate <==> IsDuplicateIn(newPoint, existingPoints)
  {
    var newLower := ToLower(newPoint);
    var i := 0;
    while i < |existingPoints|
      invariant 0 <= i <= |existingPoints|
      invariant !IsDuplicateIn(newPoint, existingPoints[..i])
    {
      assert existingPoints[..i + 1][..i] == existingPoints[..i];
      var overlaps := PointsOverlap(newLower, ToLower(existingPoints[i]));
      if overlaps {
        DuplicateInExtension(newPoint, existingPoints[..i + 1], existingPoints);
        return true;
      }
      i := i + 1;
    }
    assert existingPoints[..i] == existingPoints;
    return false;
  }

  /** The body of the scan: containment either way first, the similarity only when neither holds. */
  method PointsOverlap(newLower: string, existingLower: string) returns (overlaps: bool)
    ensures overlaps == Overlaps(newLower, existingLower)
  {
    if Contains(newLower, existingLower) || Contains(existingLower, newLower) {
      return true;
    }
    var similarity := CalculateSimilarity(newLower, existingLower);
    return ExceedsSevenTenths(similarity);
  }

  /** Every point nearly duplicates itself, so an exact repeat is always rejected. */
  lemma NearDuplicateOfItself(point: string)
    ensures NearDuplicate(point, point)
  {
    ContainsItself(ToLower(point));
  }

  /** A point that is not a near duplicate of any entry is not an entry. */
  lemma NotDuplicateNotIn(point: string, existing: seq<string>)
    requires !IsDuplicateIn(point, existing)
    ensures point !in existing
  {
    NearDuplicateOfItself(point);
    assert forall k | 0 <= k < |existing| && existing[k] == point :: NearDuplicate(point, existing[k]);
  }

  /** A near duplicate of an entry stays one when more entries follow. */
  lemma {:induction false} DuplicateInExtension(point: string, a: seq<string>, b: seq<string>)
    requires IsDuplicateIn(point, a) && a <= b
    ensures IsDuplicateIn(point, b)
    decreases |b|
  {
    if a != b {
      var init := b[..|b| - 1];
      assert a <= init;
      DuplicateInExtension(point, a, init);
    }
  }

  /**
   * A text whose long words all occur in another text, and make up more than
   * 70% of that text's long words, overlaps it: the similarity is then the ratio
   * of the two set sizes.
   */
  lemma SubsumedWordsOverlap(lower1: string, lower2: string)
    requires LongWords(lower2) != []
    requires forall w | w in LongWords(lower2) :: w in LongWords(lower1)
    requires 10 * |LongWords(lower2)| > 7 * |LongWords(lower1)|
    ensures Overlaps(lower1, lower2)
  {
    var w1, w2 := LongWords(lower1), LongWords(lower2);
    SharedIsIntersection(w1, w2);
    assert (set w | w in w1 && w in w2) == set w | w in w2;
    DistinctCount(w2);
    assert Similarity(lower1, lower2) == Ratio(|w2|, |w1|);
  }


  /** Filtering the example's words keeps the four long ones. */
  lemma ExampleLongOnes(m: string, l: string, f: string, a: string, b: string)
    requires Utf16Length(m) > 3 && Utf16Length(l) > 3 && Utf16Length(f) > 3 && Utf16Length(b) > 3 && Utf16Length(a) <= 3
    ensures LongOnes([m, l, b]) == [m, l, b]
    ensures LongOnes([m, l, f, a, b]) == [m, l, f, b]
  {
    assert [b][1..] == [] && [a, b][1..] == [b] && [l, b][1..] == [b];
    assert [f, a, b][1..] == [a, b] && [l, f, a, b][1..] == [f, a, b];
    assert [m, l, f, a, b][1..] == [l, f, a, b] && [m, l, b][1..] == [l, b];
    assert LongOnes([b]) == [b];
    assert LongOnes([l, b]) == [l, b];
    assert LongOnes([a, b]) == [b];
    assert LongOnes([f, a, b]) == [f, b];
    assert LongOnes([l, f, a, b]) == [l, f, b];
  }

  /** Distinct long words: no repeats on either side, and three of them shared. */
  lemma ExampleShared(m: string, l: string, f: string, b: string)
    requires m != l && m != f && m != b && l != f && l != b && f != b
    ensures NoDup([m, l, b]) && NoDup([m, l, f, b])
    ensures Shared([m, l, b], [m, l, f, b]) == 3
  {
    assert [m][..0] == [] && [m, l][..1] == [m] && [m, l, b][..2] == [m, l];
    assert [m, l, f][..2] == [m, l] && [m, l, f, b][..3] == [m, l, f];
    assert NoDup([m]);
    assert NoDup([m, l]);
    assert NoDup([m, l, f]);
    assert Shared([m], [m, l, f, b]) == 1;
    assert Shared([m, l], [m, l, f, b]) == 2;
  }

  /**
   * The shape of the worked example: a three-word text against a five-word
   * text that adds one long word and one short word shares three of four long
   * words, a similarity of 3/4, above 0.7.
   */
  lemma ThreeOfFourSimilarity(m: string, l: string, f: string, a: string, b: string)
    requires IsWord(m) && IsWord(l) && IsWord(f) && IsWord(a) && IsWord(b)
    requires Utf16Length(m) > 3 && Utf16Length(l) > 3 && Utf16Length(f) > 3 && Utf16Length(b) > 3 && Utf16Length(a) <= 3
    requires m != l && m != f && m != b && l != f && l != b && f != b
    ensures Similarity(Join([m, l, b], ' '), Join([m, l, f, a, b], ' ')) == Ratio(3, 4)
    ensures Overlaps(Join([m, l, f, a, b], ' '), Join([m, l, b], ' '))
    ensures Overlaps(Join([m, l, b], ' '), Join([m, l, f, a, b], ' '))
  {
    WordsOfJoin([m, l, b]);
    WordsOfJoin([m, l, f, a, b]);
    ExampleLongOnes(m, l, f, a, b);
    ExampleShared(m, l, f, b);
    DedupOfDistinct([m, l, b]);
    DedupOfDistinct([m, l, f, b]);
    SimilaritySymmetric(Join([m, l, b], ' '), Join([m, l, f, a, b], ' '));
  }

  /**
   * The same texts, when no word holds an upper-case letter, are near duplicates
   * of each other.
   */
  lemma ThreeOfFourNearDuplicate(m: string, l: string, f: string, a: string, b: string)
    requires IsWord(m) && IsWord(l) && IsWord(f) && IsWord(a) && IsWord(b)
    requires Utf16Length(m) > 3 && Utf16Length(l) > 3 && Utf16Length(f) > 3 && Utf16Length(b) > 3 && Utf16Length(a) <= 3
    requires m != l && m != f && m != b && l != f && l != b && f != b
    requires NoUpper(m) && NoUpper(l) && NoUpper(f) && NoUpper(a) && NoUpper(b)
    ensures NearDuplicate(Join([m, l, f, a, b], ' '), Join([m, l, b], ' '))
    ensures NearDuplicate(Join([m, l, b], ' '), Join([m, l, f, a, b], ' '))
  {
    var short, long := Join([m, l, b], ' '), Join([m, l, f, a, b], ' ');
    ThreeOfFourSimilarity(m, l, f, a, b);
    var ws := [m, l, f, a, b];
    assert ws[0] == m && ws[1] == l && ws[2] == f && ws[3] == a && ws[4] == b;
    ToLowerOfJoin([m, l, b]);
    ToLowerOfJoin(ws);
  }

  /** The example's words are words, four of them long, all different. */
  lemma ExampleWords()
    ensures IsWord("machine") && IsWord("learning") && IsWord("fundamentals") && IsWord("and") && IsWord("basics")
    ensures Utf16Length("machine") > 3 && Utf16Length("learning") > 3 && Utf16Length("fundamentals") > 3
    ensures Utf16Length("basics") > 3 && Utf16Length("and") <= 3
  {
    LettersNotSpace("machine");
    LettersNotSpace("learning");
    LettersNotSpace("fundamentals");
    LettersNotSpace("and");
    LettersNotSpace("basics");
  }

  /** The example's words hold no upper-case letter. */
  lemma ExampleLower()
    ensures NoUpper("machine") && NoUpper("learning") && NoUpper("fundamentals") && NoUpper("and") && NoUpper("basics")
  {
  }

  /**
   * The worked example: "machine learning basics" and "machine learning
   * fundamentals and basics", each the words joined by single spaces, share
   * three of their four long words, so either is a near duplicate of the other
   * and a list holding one turns the other away.
   */
  lemma SimilarityExample()
    ensures Similarity(Join(["machine", "learning", "basics"], ' '),
                       Join(["machine", "learning", "fundamentals", "and", "basics"], ' ')) == Ratio(3, 4)
    ensures NearDuplicate(Join(["machine", "learning", "fundamentals", "and", "basics"], ' '),
                          Join(["machine", "learning", "basics"], ' '))
    ensures NearDuplicate(Join(["machine", "learning", "basics"], ' '),
                          Join(["machine", "learning", "fundamentals", "and", "basics"], ' '))
    ensures IsDuplicateIn(Join(["machine", "learning", "fundamentals", "and", "basics"], ' '),
                          [Join(["machine", "learning", "basics"], ' ')])
    ensures IsDuplicateIn(Join(["machine", "learning", "basics"], ' '),
                          [Join(["machine", "learning", "fundamentals", "and", "basics"], ' ')])
  {
    ExampleWords();
    ExampleLower();
    ThreeOfFourSimilarity("machine", "learning", "fundamentals", "and", "basics");
    ThreeOfFourNearDuplicate("machine", "learning", "fundamentals", "and", "basics");
    DuplicateOfOne(Join(["machine", "learning", "fundamentals", "and", "basics"], ' '), Join(["machine", "learning", "basics"], ' '));
    DuplicateOfOne(Join(["machine", "learning", "basics"], ' '), Join(["machine", "learning", "fundamentals", "and", "basics"], ' '));
  }
}
