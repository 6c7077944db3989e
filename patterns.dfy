/**
 * The regular expressions of the markdown extractors, evaluated on one line at a
 * time. A "line" here is a piece of the text between line terminators, so `.`
 * matches every character of it, `^` is its start and `$` its end.
 */
module Patterns {
  import opened Results
  import opened Text

  /** The number of leading characters of `s` equal to `c`. */
  function LeadingCount(s: string, c: char): (n: nat)
    ensures n <= |s|
    ensures forall k | 0 <= k < n :: s[k] == c
    ensures n < |s| ==> s[n] != c
    decreases |s|
  {
    if s == [] || s[0] != c then 0 else 1 + LeadingCount(s[1..], c)
  }

  /** The number of leading white-space characters of `s`. */
  function LeadingSpaceCount(s: string): (n: nat)
    ensures n <= |s|
    ensures forall k | 0 <= k < n :: IsSpace(s[k])
    ensures n < |s| ==> !IsSpace(s[n])
    decreases |s|
  {
    if s == [] || !IsSpace(s[0]) then 0 else 1 + LeadingSpaceCount(s[1..])
  }

  /**
   * Group `(.+)` of `^#{lo,hi}\s+(.+)$` on one line. The hashes must be the whole
   * run of leading `#` (another `#` cannot match `\s`). Greedy `\s+` leaves the rest
   * of the line to the group; if the rest is all white space, `\s+` gives back its
   * last character, which needs at least two white-space characters.
   */
  function HeadingCapture(line: string, lo: nat, hi: nat): (r: Option<string>)
    ensures r.Some? ==> r.value != [] && lo <= LeadingCount(line, '#') <= hi
  {
    var h := LeadingCount(line, '#');
    if h < lo || h > hi then None
    else
      var rest := line[h..];
      var w := LeadingSpaceCount(rest);
      if w == 0 then None
      else if w < |rest| then Some(rest[w..])
      else if w >= 2 then Some(rest[w - 1..])
      else None
  }

  /** `n` copies of `c`. */
  function Repeat(c: char, n: nat): (r: string)
    ensures |r| == n && forall k | 0 <= k < n :: r[k] == c
  {
    seq(n, _ => c)
  }

  /**
   * Every heading line is captured: `k` hashes with `lo <= k <= hi`, then white
   * space, then a text that does not start with white space give that text.
   */
  lemma HeadingLine(k: nat, spaces: string, text: string, lo: nat, hi: nat)
    requires lo <= k <= hi
    requires spaces != [] && forall i | 0 <= i < |spaces| :: IsSpace(spaces[i])
    requires text != [] && !IsSpace(text[0])
    ensures HeadingCapture(Repeat('#', k) + spaces + text, lo, hi) == Some(text)
  {
    var line := Repeat('#', k) + spaces + text;
    assert !IsSpace('#');
    assert line[k] == spaces[0] != '#';
    assert LeadingCount(line, '#') == k;
    var rest := line[k..];
    assert rest == spaces + text;
    assert rest[|spaces|] == text[0];
    assert forall i | 0 <= i < |spaces| :: rest[i] == spaces[i];
    assert LeadingSpaceCount(rest) == |spaces|;
    assert rest[|spaces|..] == text;
  }

  /** Group 1 of `^#\s+(.+)$`: a level-one heading. */
  function TitleHeadingCapture(line: string): Option<string> {
    HeadingCapture(line, 1, 1)
  }

  /** Group 2 of `^(#{2,4})\s+(.+)$`: a heading of level two to four, as a list of zero or one. */
  function SectionHeadingCaptures(line: string): seq<string> {
    match HeadingCapture(line, 2, 4)
    case Some(c) => [c]
    case None => []
  }

  /** Group 1 of `^\*\*(.+?)\*\*$`: a line that is one bold span of at least one character. */
  function EmphasisCapture(line: string): (r: Option<string>)
    ensures r.Some? ==> line == "**" + r.value + "**" && r.value != []
  {
    if |line| >= 5 && line[..2] == "**" && line[|line| - 2..] == "**" then
      Some(line[2..|line| - 2])
    else None
  }

  /** Every line that is `**`, a non-empty text and `**` is captured, with that text as the group. */
  lemma EmphasisLine(x: string)
    requires x != []
    ensures EmphasisCapture("**" + x + "**") == Some(x)
  {
    var line := "**" + x + "**";
    assert line[..2] == "**";
    assert line[|line| - 2..] == "**";
    assert line[2..|line| - 2] == x;
  }

  /** The first `j >= from` where the two characters `a` `b` begin in `s`. */
  function PairFrom(s: string, from: nat, a: char, b: char): (r: Option<nat>)
    ensures r.Some? ==> from <= r.value && r.value + 2 <= |s| && s[r.value] == a && s[r.value + 1] == b
    decreases |s| - from
  {
    if from + 1 >= |s| then None
    else if s[from] == a && s[from + 1] == b then Some(from)
    else PairFrom(s, from + 1, a, b)
  }

  /**
   * The successive groups of the global `\*\*(.+?)\*\*` on one line: at each
   * `**`, the shortest non-empty span up to the next `**`; scanning resumes after
   * a match, or one character further when there is none.
   */
  function BoldCaptures(s: string): seq<string>
    decreases |s|
  {
    if |s| < 2 then []
    else if s[0] == '*' && s[1] == '*' then
      match PairFrom(s, 3, '*', '*')
      case Some(j) => [s[2..j]] + BoldCaptures(s[j + 2..])
      case None => BoldCaptures(s[1..])
    else BoldCaptures(s[1..])
  }

  /** The first `q >= from` where `)` stands in `s`. */
  function CloseParenFrom(s: string, from: nat): (r: Option<nat>)
    ensures r.Some? ==> from <= r.value < |s| && s[r.value] == ')'
    decreases |s| - from
  {
    if from >= |s| then None
    else if s[from] == ')' then Some(from)
    else CloseParenFrom(s, from + 1)
  }

  /**
   * `!\[.*?\]\((.+?)\)` anchored at the `![` that starts `s`: the lazy alt text ends
   * at the first `](`, and the lazy target at the first `)` after at least one
   * character. A later `](` cannot help when this one has no `)` after it, so the
   * first is the only candidate. Gives the target and the length of the match.
   */
  function ImageLinkAt(s: string): (r: Option<(string, nat)>)
    ensures r.Some? ==> 0 < r.value.1 <= |s|
  {
    match PairFrom(s, 2, ']', '(')
    case None => None
    case Some(i) =>
      match CloseParenFrom(s, i + 3)
      case None => None
      case Some(q) => Some((s[i + 2..q], q + 1))
  }

  /** The successive groups of the global `!\[.*?\]\((.+?)\)` on one line. */
  function ImageCaptures(s: string): seq<string>
    decreases |s|
  {
    if |s| < 2 then []
    else if s[0] == '!' && s[1] == '[' then
      match ImageLinkAt(s)
      case Some((target, end)) => [target] + ImageCaptures(s[end..])
      case None => ImageCaptures(s[1..])
    else ImageCaptures(s[1..])
  }

  /**
   * `^\[.+?\]\(.+?\)$` on a whole trimmed line (no multiline flag): a lone
   * `[text](url)` with non-empty text and url and no line terminator inside.
   */
  predicate IsLoneLink(t: string) {
    && |t| >= 6
    && t[0] == '[' && t[|t| - 1] == ')'
    && (forall k | 0 <= k < |t| :: t[k] !in LineTerminators)
    && exists i | 2 <= i <= |t| - 4 :: t[i] == ']' && t[i + 1] == '('
  }

  /** `PairFrom` stops at the first `a` `b` when no `a` stands before it. */
  lemma {:induction false} PairFromFirst(s: string, from: nat, j: nat, a: char, b: char)
    requires from <= j && j + 1 < |s| && s[j] == a && s[j + 1] == b
    requires forall k | from <= k < j :: s[k] != a
    ensures PairFrom(s, from, a, b) == Some(j)
    decreases j - from
  {
    if from < j {
      PairFromFirst(s, from + 1, j, a, b);
    }
  }

  /** `CloseParenFrom` stops at the first `)`. */
  lemma {:induction false} CloseParenFirst(s: string, from: nat, q: nat)
    requires from <= q < |s| && s[q] == ')'
    requires forall k | from <= k < q :: s[k] != ')'
    ensures CloseParenFrom(s, from) == Some(q)
    decreases q - from
  {
    if from < q {
      CloseParenFirst(s, from + 1, q);
    }
  }

  /** A line that is `**`, a non-empty text without `*`, and `**` has that text as its one bold group. */
  lemma BoldLine(x: string)
    requires x != [] && '*' !in x
    ensures BoldCaptures("**" + x + "**") == [x]
  {
    var s := "**" + x + "**";
    var j := |x| + 2;
    assert s[j] == '*' && s[j + 1] == '*';
    forall k | 3 <= k < j
      ensures s[k] != '*'
    {
      assert s[k] == x[k - 2];
    }
    PairFromFirst(s, 3, j, '*', '*');
    assert s[2..j] == x;
    assert s[j + 2..] == [];
  }

  /** A line that is one `![alt](url)`, with no `]` in alt and a non-empty url without `)`, yields that url. */
  lemma ImageLine(alt: string, url: string)
    requires ']' !in alt && url != [] && ')' !in url
    ensures ImageCaptures("![" + alt + "](" + url + ")") == [url]
  {
    var s := "![" + alt + "](" + url + ")";
    var i := |alt| + 2;
    var q := |s| - 1;
    assert s[i] == ']' && s[i + 1] == '(' && s[q] == ')';
    forall k | 2 <= k < i
      ensures s[k] != ']'
    {
      assert s[k] == alt[k - 2];
    }
    forall k | i + 3 <= k < q
      ensures s[k] != ')'
    {
      assert s[k] == url[k - i - 2];
    }
    PairFromFirst(s, 2, i, ']', '(');
    CloseParenFirst(s, i + 3, q);
    assert s[i + 2..q] == url;
    assert ImageLinkAt(s) == Some((url, |s|));
    assert s[|s|..] == [];
  }

  /** `[a](b)` with non-empty `a` and `b` and no line terminator in either is a lone link. */
  lemma LoneLinkLine(a: string, b: string)
    requires a != [] && b != []
    requires forall k | 0 <= k < |a| :: a[k] !in LineTerminators
    requires forall k | 0 <= k < |b| :: b[k] !in LineTerminators
    ensures IsLoneLink("[" + a + "](" + b + ")")
  {
    var t := "[" + a + "](" + b + ")";
    var i := |a| + 1;
    assert t[i] == ']' && t[i + 1] == '(';
    forall k | 0 <= k < |t|
      ensures t[k] !in LineTerminators
    {
      if 1 <= k < i {
        assert t[k] == a[k - 1];
      } else if i + 2 <= k < |t| - 1 {
        assert t[k] == b[k - i - 2];
      }
    }
  }
}
