/**
 * The JavaScript string operations the scraper and the slide builder rely on:
 * `trim`, the `\s` character class, `toLowerCase`, `startsWith`, `includes`,
 * `split` and `join`.
 */
module Text {

  /** The characters ECMAScript calls LineTerminator; `.` in a regular expression matches none of them. */
  const LineTerminators: set<char> := {'\n', '\r', '\U{2028}', '\U{2029}'}

  /** ECMAScript WhiteSpace or LineTerminator: what `\s` matches and what `trim()` removes. */
  predicate IsSpace(c: char) {
    || c in LineTerminators
    || c in {' ', '\t', '\U{000B}', '\U{000C}', '\U{00A0}', '\U{1680}', '\U{202F}', '\U{205F}', '\U{3000}', '\U{FEFF}'}
    || '\U{2000}' <= c <= '\U{200A}'
  }

  /** `toLowerCase` on one character, restricted to the ASCII letters. */
  function LowerChar(c: char): char {
    if 'A' <= c <= 'Z' then (c as int + 32) as char else c
  }

  /** `s.toLowerCase()`, character by character. */
  function ToLower(s: string): (r: string)
    ensures |r| == |s|
    decreases |s|
  {
    if s == [] then [] else [LowerChar(s[0])] + ToLower(s[1..])
  }

  /**
   * `s.length`: JavaScript counts UTF-16 code units, so a character beyond
   * U+FFFF, stored as a surrogate pair, counts twice.
   */
  function Utf16Length(s: string): (n: nat)
    ensures |s| <= n <= 2 * |s|
    ensures n == |s| <==> forall k | 0 <= k < |s| :: s[k] < '\U{10000}'
    decreases |s|
  {
    if s == [] then 0 else (if s[0] < '\U{10000}' then 1 else 2) + Utf16Length(s[1..])
  }

  /** `s.startsWith(prefix)`. */
  predicate StartsWith(s: string, prefix: string) {
    prefix <= s
  }

  /** `s.includes(sub)`: `sub` is a prefix of some suffix of `s`. */
  predicate Contains(s: string, sub: string)
    decreases |s|
  {
    if sub <= s then true
    else if s == [] then false
    else Contains(s[1..], sub)
  }

  /** `Contains` holds exactly when `sub` occurs at some position of `s`. */
  lemma {:induction false} ContainsAt(s: string, sub: string)
    ensures Contains(s, sub) <==> exists i | 0 <= i <= |s| :: sub <= s[i..]
    decreases |s|
  {
    assert s[0..] == s;
    if !(sub <= s) && s != [] {
      ContainsAt(s[1..], sub);
      if Contains(s, sub) {
        var j :| 0 <= j <= |s| - 1 && sub <= s[1..][j..];
        assert s[1..][j..] == s[j + 1..];
      } else {
        forall i | 0 <= i <= |s|
          ensures !(sub <= s[i..])
        {
          if i > 0 {
            assert s[i..] == s[1..][i - 1..];
          }
        }
      }
    }
  }

  /** Every string includes itself, so a point is always a containment match of itself. */
  lemma ContainsItself(s: string)
    ensures Contains(s, s)
  {
  }

  /** `s.trimStart()`. */
  function TrimStart(s: string): (r: string)
    ensures |r| <= |s|
    ensures r == [] || !IsSpace(r[0])
    decreases |s|
  {
    if s != [] && IsSpace(s[0]) then TrimStart(s[1..]) else s
  }

  /** `s.trimEnd()`. */
  function TrimEnd(s: string): (r: string)
    ensures |r| <= |s|
    ensures r == [] || !IsSpace(r[|r| - 1])
    ensures r <= s
    decreases |s|
  {
    if s != [] && IsSpace(s[|s| - 1]) then TrimEnd(s[..|s| - 1]) else s
  }

  /** `s.trim()`: the longest infix of `s` that neither starts nor ends with white space. */
  function Trim(s: string): (r: string)
    ensures |r| <= |s|
    ensures r == [] || (!IsSpace(r[0]) && !IsSpace(r[|r| - 1]))
  {
    TrimEnd(TrimStart(s))
  }

  /** The number of leading characters of `s` that are not white space. */
  function WordLength(s: string): (n: nat)
    ensures n <= |s|
    ensures s != [] && !IsSpace(s[0]) ==> n > 0
    decreases |s|
  {
    if s == [] || IsSpace(s[0]) then 0 else 1 + WordLength(s[1..])
  }

  /**
   * The non-empty pieces of `s.split(/\s+/)`: the maximal runs of characters
   * that are not white space, in order.
   */
  function Words(s: string): seq<string>
    decreases |s|
  {
    if s == [] then []
    else if IsSpace(s[0]) then Words(s[1..])
    else
      var n := WordLength(s);
      [s[..n]] + Words(s[n..])
  }

  /** The position of the first character of `s` in `seps`, or `|s|` when there is none. */
  function IndexOfAny(s: string, seps: set<char>): (i: nat)
    ensures i <= |s|
    ensures i < |s| ==> s[i] in seps
    decreases |s|
  {
    if s == [] then 0
    else if s[0] in seps then 0
    else 1 + IndexOfAny(s[1..], seps)
  }

  /**
   * `s.split(sep)` for a separator that is any one character of `seps`: the pieces
   * between separators, including empty ones, always at least one.
   */
  function Split(s: string, seps: set<char>): (parts: seq<string>)
    ensures |parts| >= 1
    decreases |s|
  {
    var i := IndexOfAny(s, seps);
    if i == |s| then [s] else [s[..i]] + Split(s[i + 1..], seps)
  }

  /** `s.split('\n')`. */
  function Lines(s: string): seq<string> {
    Split(s, {'\n'})
  }

  /** The pieces of `s` between line terminators: the lines that `^`, `$` and `.` of a multiline pattern see. */
  function PatternLines(s: string): seq<string> {
    Split(s, LineTerminators)
  }

  /** `parts.join(sep)` for a one-character separator. */
  function Join(parts: seq<string>, sep: char): string
    decreases |parts|
  {
    if parts == [] then ""
    else if |parts| == 1 then parts[0]
    else parts[0] + [sep] + Join(parts[1..], sep)
  }

  /** Splitting and joining again on the same character restores the text. */
  lemma {:induction false} JoinSplit(s: string, sep: char)
    ensures Join(Split(s, {sep}), sep) == s
    decreases |s|
  {
    var i := IndexOfAny(s, {sep});
    if i < |s| {
      var rest := s[i + 1..];
      var parts := Split(rest, {sep});
      assert Split(s, {sep}) == [s[..i]] + parts;
      assert ([s[..i]] + parts)[1..] == parts;
      assert Join([s[..i]] + parts, sep) == s[..i] + [sep] + Join(parts, sep);
      JoinSplit(rest, sep);
      assert s == s[..i] + [sep] + rest;
    }
  }

  /** Joining pieces that do not contain the separator and splitting again restores the pieces. */
  lemma {:induction false} SplitJoin(parts: seq<string>, sep: char)
    requires |parts| >= 1
    requires forall p | p in parts :: sep !in p
    ensures Split(Join(parts, sep), {sep}) == parts
    decreases |parts|
  {
    var s := Join(parts, sep);
    var head := parts[0];
    IndexOfAnyStopsAt(head, [sep] + Join(parts[1..], sep), sep);
    if |parts| > 1 {
      SplitJoin(parts[1..], sep);
      assert s == head + ([sep] + Join(parts[1..], sep));
      assert s[..|head|] == head;
      assert s[|head| + 1..] == Join(parts[1..], sep);
      assert parts == [head] + parts[1..];
    } else {
      assert s == head;
      IndexOfAnyAbsent(head, sep);
    }
  }

  /** The first separator of `a + b` is the first of `b` when `a` has none. */
  lemma {:induction false} IndexOfAnyStopsAt(a: string, b: string, sep: char)
    requires sep !in a && b != [] && b[0] == sep
    ensures IndexOfAny(a + b, {sep}) == |a|
    decreases |a|
  {
    if a != [] {
      assert (a + b)[1..] == a[1..] + b;
      assert a[0] in a;
      assert forall c | c in a[1..] :: c in a;
      IndexOfAnyStopsAt(a[1..], b, sep);
    }
  }

  /** A text without the separator has no separator position. */
  lemma IndexOfAnyAbsent(a: string, sep: char)
    requires sep !in a
    ensures IndexOfAny(a, {sep}) == |a|
  {
    assert forall k | 0 <= k < |a| :: a[k] in a;
  }

  /** A word that `split(/\s+/)` keeps whole: non-empty, without white space. */
  predicate IsWord(w: string) {
    w != [] && forall k | 0 <= k < |w| :: !IsSpace(w[k])
  }

  /** Lower-case ASCII letters are not white space. */
  lemma LettersNotSpace(w: string)
    requires forall k | 0 <= k < |w| :: 'a' <= w[k] <= 'z'
    ensures forall k | 0 <= k < |w| :: !IsSpace(w[k])
  {
  }

  /** A word of `s.split(/\s+/)` ends where white space or the text ends. */
  lemma {:induction false} WordLengthOfWord(w: string, rest: string)
    requires forall k | 0 <= k < |w| :: !IsSpace(w[k])
    requires rest == [] || IsSpace(rest[0])
    ensures WordLength(w + rest) == |w|
    decreases |w|
  {
    if w != [] {
      assert (w + rest)[1..] == w[1..] + rest;
      WordLengthOfWord(w[1..], rest);
    }
  }

  /** Splitting a text that starts with a word gives that word first. */
  lemma WordsOfWord(w: string, rest: string)
    requires IsWord(w)
    requires rest == [] || IsSpace(rest[0])
    ensures Words(w + rest) == [w] + Words(rest)
  {
    WordLengthOfWord(w, rest);
    assert (w + rest)[..|w|] == w;
    assert (w + rest)[|w|..] == rest;
  }

  /** Leading white space is skipped. */
  lemma WordsOfSpace(rest: string)
    ensures Words(" " + rest) == Words(rest)
  {
    assert (" " + rest)[1..] == rest;
  }

  /** Splitting words joined by single spaces gives the words back. */
  lemma {:induction false} WordsOfJoin(ws: seq<string>)
    requires forall i | 0 <= i < |ws| :: IsWord(ws[i])
    ensures Words(Join(ws, ' ')) == ws
    decreases |ws|
  {
    if |ws| == 1 {
      WordsOfWord(ws[0], "");
      assert ws[0] + "" == ws[0];
    } else if |ws| > 1 {
      var rest := Join(ws[1..], ' ');
      assert Join(ws, ' ') == ws[0] + (" " + rest);
      WordsOfWord(ws[0], " " + rest);
      WordsOfSpace(rest);
      WordsOfJoin(ws[1..]);
    }
  }
  /** No upper-case ASCII letter stands in `s`. */
  predicate NoUpper(s: string) {
    forall k | 0 <= k < |s| :: !('A' <= s[k] <= 'Z')
  }

  /** Text without an upper-case ASCII letter is its own lower case. */
  lemma {:induction false} ToLowerOfLower(s: string)
    requires NoUpper(s)
    ensures ToLower(s) == s
    decreases |s|
  {
    if s != [] {
      ToLowerOfLower(s[1..]);
    }
  }

  /** Joining texts without upper-case letters by spaces gives one, its own lower case. */
  lemma {:induction false} ToLowerOfJoin(ws: seq<string>)
    requires forall i | 0 <= i < |ws| :: NoUpper(ws[i])
    ensures NoUpper(Join(ws, ' '))
    ensures ToLower(Join(ws, ' ')) == Join(ws, ' ')
    decreases |ws|
  {
    if |ws| > 1 {
      var rest := Join(ws[1..], ' ');
      ToLowerOfJoin(ws[1..]);
      var joined := ws[0] + [' '] + rest;
      forall k | 0 <= k < |joined|
        ensures !('A' <= joined[k] <= 'Z')
      {
        if k < |ws[0]| {
          assert joined[k] == ws[0][k];
        } else if k > |ws[0]| {
          assert joined[k] == rest[k - |ws[0]| - 1];
        }
      }
    }
    ToLowerOfLower(Join(ws, ' '));
  }
}
