/** Sequence operations the source gets from JavaScript arrays and insertion-ordered `Set`s. */
module Seqs {
  import opened Results

  /** `s.slice(0, n)`: the first `n` elements, or all of them when there are fewer. */
  function Take<T>(s: seq<T>, n: nat): (r: seq<T>)
    ensures r <= s
    ensures |r| == if |s| <= n then |s| else n
  {
    if |s| <= n then s else s[..n]
  }

  /** No element occurs twice: each one is absent from the part before it. */
  predicate NoDup<T(==)>(s: seq<T>)
    decreases |s|
  {
    s == [] || (s[|s| - 1] !in s[..|s| - 1] && NoDup(s[..|s| - 1]))
  }

  /** `NoDup` is the usual statement that distinct positions hold distinct elements. */
  lemma {:induction false} NoDupIndices<T>(s: seq<T>)
    ensures NoDup(s) <==> forall i, j | 0 <= i < j < |s| :: s[i] != s[j]
    decreases |s|
  {
    if s != [] {
      var init, last := s[..|s| - 1], s[|s| - 1];
      NoDupIndices(init);
      assert forall i | 0 <= i < |init| :: init[i] == s[i];
      if forall i, j | 0 <= i < j < |s| :: s[i] != s[j] {
        assert forall i | 0 <= i < |init| :: s[i] != s[|s| - 1];
      }
    }
  }

  /** A prefix of a sequence without repeats has none. */
  lemma {:induction false} NoDupPrefix<T>(s: seq<T>, n: nat)
    requires NoDup(s) && n <= |s|
    ensures NoDup(s[..n])
    decreases |s|
  {
    if n < |s| {
      var init := s[..|s| - 1];
      assert init[..n] == s[..n];
      NoDupPrefix(init, n);
    } else {
      assert s[..n] == s;
    }
  }

  /** Adding an element to a sequence without repeats keeps it so. */
  lemma NoDupAddUnique<T>(s: seq<T>, x: T)
    requires NoDup(s)
    ensures NoDup(AddUnique(s, x))
  {
    if x !in s {
      NoDupSnoc(s, x);
    }
  }

  /** Appending an absent element keeps a sequence without repeats. */
  lemma NoDupSnoc<T>(s: seq<T>, x: T)
    requires NoDup(s) && x !in s
    ensures NoDup(s + [x])
  {
    assert (s + [x])[..|s|] == s;
  }

  /** `set.add(x)` on an insertion-ordered set kept as a sequence: a no-op when `x` is present. */
  function AddUnique<T(==)>(s: seq<T>, x: T): seq<T> {
    if x in s then s else s + [x]
  }

  /** `Array.from(new Set(s))`: the elements of `s` in order of first occurrence, each once. */
  function Dedup<T(==)>(s: seq<T>): (r: seq<T>)
    ensures |r| <= |s|
    decreases |s|
  {
    if s == [] then [] else AddUnique(Dedup(s[..|s| - 1]), s[|s| - 1])
  }

  /** The set holds each element of its input exactly once. */
  lemma {:induction false} DedupProps<T>(s: seq<T>)
    ensures NoDup(Dedup(s))
    ensures forall x :: x in Dedup(s) <==> x in s
    decreases |s|
  {
    if s != [] {
      var init, last := s[..|s| - 1], s[|s| - 1];
      assert s == init + [last];
      DedupProps(init);
      NoDupAddUnique(Dedup(init), last);
    }
  }

  /** A sequence without repeats passes through the set unchanged. */
  lemma {:induction false} DedupOfDistinct<T>(s: seq<T>)
    requires NoDup(s)
    ensures Dedup(s) == s
    decreases |s|
  {
    if s != [] {
      var init, last := s[..|s| - 1], s[|s| - 1];
      DedupOfDistinct(init);
      assert init + [last] == s;
    }
  }

  /** Adding elements that are already present changes nothing. */
  lemma {:induction false} DedupAbsorbs<T>(a: seq<T>, b: seq<T>)
    requires forall x :: x in b ==> x in a
    ensures Dedup(a + b) == Dedup(a)
  {
    if b != [] {
      var ab := a + b;
      assert ab[..|ab| - 1] == a + b[..|b| - 1];
      assert ab[|ab| - 1] == b[|b| - 1];
      DedupAbsorbs(a, b[..|b| - 1]);
      DedupProps(a);
    } else {
      assert a + b == a;
    }
  }

  /** `items.forEach(x => set.add(x))` on an insertion-ordered set. */
  function AddEach<T(==)>(s: seq<T>, items: seq<T>): seq<T>
    decreases |items|
  {
    if items == [] then s else AddUnique(AddEach(s, items[..|items| - 1]), items[|items| - 1])
  }

  /** Adding the elements of `b` one by one to the set of `a` gives the set of `a + b`. */
  lemma {:induction false} AddEachDedup<T>(a: seq<T>, b: seq<T>)
    ensures AddEach(Dedup(a), b) == Dedup(a + b)
    decreases |b|
  {
    if b == [] {
      assert a + b == a;
    } else {
      var init, last := b[..|b| - 1], b[|b| - 1];
      AddEachDedup(a, init);
      var ab := a + b;
      assert ab[..|ab| - 1] == a + init;
      assert ab[|ab| - 1] == last;
    }
  }

  /** The position of the first occurrence of `x` in `s`. */
  function IndexOf<T(==)>(s: seq<T>, x: T): (i: nat)
    requires x in s
    ensures i < |s| && s[i] == x && x !in s[..i]
  {
    if s[0] == x then 0
    else
      var k := IndexOf(s[1..], x);
      assert s[..k + 1] == [s[0]] + s[1..][..k];
      k + 1
  }

  /** The first occurrence is the only position with nothing equal before it. */
  lemma IndexOfUnique<T>(s: seq<T>, x: T, k: nat)
    requires k < |s| && s[k] == x && x !in s[..k]
    ensures IndexOf(s, x) == k
  {
    var i := IndexOf(s, x);
    assert forall m | 0 <= m < k :: s[..k][m] == s[m];
    assert forall m | 0 <= m < i :: s[..i][m] == s[m];
  }

  /** `Dedup` lists its elements in the order in which they first occur in its input. */
  lemma {:induction false} DedupKeepsFirstOccurrenceOrder<T>(s: seq<T>, i: nat, j: nat)
    requires i < j < |Dedup(s)|
    ensures Dedup(s)[i] in s && Dedup(s)[j] in s
    ensures IndexOf(s, Dedup(s)[i]) < IndexOf(s, Dedup(s)[j])
  {
    DedupProps(s);
    var init, last := s[..|s| - 1], s[|s| - 1];
    assert s == init + [last];
    var d := Dedup(init);
    DedupProps(init);
    var x, y := Dedup(s)[i], Dedup(s)[j];
    assert i < |d|;
    assert Dedup(s) == AddUnique(d, last);
    assert x == d[i] && x in d;
    FirstOccurrenceInPrefix(init, last, x);
    if j < |d| {
      assert y == d[j] && y in d;
      FirstOccurrenceInPrefix(init, last, y);
      DedupKeepsFirstOccurrenceOrder(init, i, j);
    } else {
      assert y == last && last !in d && last !in init;
      assert s[..|init|] == init;
      IndexOfUnique(s, last, |init|);
    }
  }

  /** Appending an element does not move the first occurrence of an element already present. */
  lemma FirstOccurrenceInPrefix<T>(init: seq<T>, last: T, x: T)
    requires x in init
    ensures IndexOf(init + [last], x) == IndexOf(init, x)
  {
    var s := init + [last];
    var k := IndexOf(init, x);
    assert s[..k] == init[..k];
    IndexOfUnique(s, x, k);
  }

  /** Concatenation of `f` over `xs`, built from the end: the shape of a push-only loop. */
  function FlatMap<T, U>(xs: seq<T>, f: T -> seq<U>): seq<U>
    decreases |xs|
  {
    if xs == [] then [] else FlatMap(xs[..|xs| - 1], f) + f(xs[|xs| - 1])
  }

  /** One more input element appends its image. */
  lemma FlatMapStep<T, U>(xs: seq<T>, f: T -> seq<U>, i: nat)
    requires i < |xs|
    ensures FlatMap(xs[..i + 1], f) == FlatMap(xs[..i], f) + f(xs[i])
  {
    assert xs[..i + 1][..i] == xs[..i];
  }

  /** What a prefix of the input produces is a prefix of what the whole input produces. */
  lemma {:induction false} FlatMapPrefix<T, U>(xs: seq<T>, f: T -> seq<U>, i: nat)
    requires i <= |xs|
    ensures FlatMap(xs[..i], f) <= FlatMap(xs, f)
    decreases |xs|
  {
    if i < |xs| {
      var init := xs[..|xs| - 1];
      assert init[..i] == xs[..i];
      FlatMapPrefix(init, f, i);
    } else {
      assert xs[..i] == xs;
    }
  }

  /** Every element of a concatenation comes from the image of some input element. */
  lemma {:induction false} FlatMapMember<T, U>(xs: seq<T>, f: T -> seq<U>, y: U)
    requires y in FlatMap(xs, f)
    ensures exists i | 0 <= i < |xs| :: y in f(xs[i])
    decreases |xs|
  {
    var init := xs[..|xs| - 1];
    if y in FlatMap(init, f) {
      FlatMapMember(init, f, y);
      var i :| 0 <= i < |init| && y in f(init[i]);
      assert xs[i] == init[i];
    } else {
      assert y in f(xs[|xs| - 1]);
    }
  }

  /**
   * A push loop that adds `f(x)` for each `x` of `xs` to `base`, and checks
   * the cap before each element, holds the first `n` of `base + FlatMap(xs, f)`
   * once it stops at the cap or at the end of the input.
   */
  lemma CappedLoopResult<T, U>(base: seq<U>, xs: seq<T>, f: T -> seq<U>, i: nat, n: nat)
    requires i <= |xs| && |base + FlatMap(xs[..i], f)| <= n
    requires |base + FlatMap(xs[..i], f)| == n || i == |xs|
    ensures Take(base + FlatMap(xs, f), n) == base + FlatMap(xs[..i], f)
  {
    FlatMapPrefix(xs, f, i);
    if i == |xs| {
      assert xs[..i] == xs;
    }
    TakeOfExtension(base + FlatMap(xs[..i], f), base + FlatMap(xs, f), n);
  }

  /** A capped push loop that stopped at the cap, or ran out of input, holds the first `n`. */
  lemma TakeOfExtension<T>(a: seq<T>, b: seq<T>, n: nat)
    requires a <= b && |a| <= n
    requires |a| == n || a == b
    ensures Take(b, n) == a
  {
  }

  /** A member of a prefix is a member of the whole. */
  lemma InPrefix<T>(a: seq<T>, b: seq<T>, x: T)
    requires a <= b && x in a
    ensures x in b
  {
    var i :| 0 <= i < |a| && a[i] == x;
    assert b[i] == x;
  }

  /** Cutting two sequences, one a prefix of the other, at the same length keeps them so. */
  lemma TakePrefix<T>(a: seq<T>, b: seq<T>, n: nat)
    requires a <= b
    ensures Take(a, n) <= Take(b, n)
  {
  }

  /** Taking from a longer extension changes nothing once the first `n` are fixed. */
  lemma TakeOfLonger<T>(a: seq<T>, b: seq<T>, n: nat)
    requires a <= b && n <= |a|
    ensures Take(b, n) == Take(a, n)
  {
    assert a[..n] == b[..n];
  }

  /** The first defined `f(x)` over `xs` in order: the shape of a loop that returns at its first hit. */
  function FirstSome<T, U>(xs: seq<T>, f: T -> Option<U>): Option<U>
    decreases |xs|
  {
    if xs == [] then None
    else if f(xs[0]).Some? then f(xs[0])
    else FirstSome(xs[1..], f)
  }

  /** Nothing is found exactly when no element gives a value. */
  lemma {:induction false} FirstSomeNone<T, U>(xs: seq<T>, f: T -> Option<U>)
    ensures FirstSome(xs, f).None? <==> forall i | 0 <= i < |xs| :: f(xs[i]).None?
    decreases |xs|
  {
    if xs != [] {
      FirstSomeNone(xs[1..], f);
      assert forall i | 1 <= i < |xs| :: xs[1..][i - 1] == xs[i];
    }
  }

  /** What is found is the value of the first element that gives one. */
  lemma {:induction false} FirstSomeAt<T, U>(xs: seq<T>, f: T -> Option<U>, i: nat)
    requires i < |xs| && f(xs[i]).Some?
    requires forall j | 0 <= j < i :: f(xs[j]).None?
    ensures FirstSome(xs, f) == f(xs[i])
    decreases i
  {
    if i > 0 {
      assert forall j | 0 <= j < i - 1 :: xs[1..][j] == xs[j + 1];
      FirstSomeAt(xs[1..], f, i - 1);
    }
  }

  /** A value found comes from the first element that gives one. */
  lemma {:induction false} FirstSomeFound<T, U>(xs: seq<T>, f: T -> Option<U>) returns (i: nat)
    requires FirstSome(xs, f).Some?
    ensures i < |xs| && f(xs[i]) == FirstSome(xs, f)
    ensures forall j | 0 <= j < i :: f(xs[j]).None?
    decreases |xs|
  {
    if f(xs[0]).Some? {
      i := 0;
    } else {
      var k := FirstSomeFound(xs[1..], f);
      i := k + 1;
      assert forall j | 1 <= j < i :: xs[j] == xs[1..][j - 1];
    }
  }

  /** Skipping an element that gives no value leaves the search result unchanged. */
  lemma FirstSomeSkip<T, U>(xs: seq<T>, f: T -> Option<U>, i: nat)
    requires i < |xs| && f(xs[i]).None?
    ensures FirstSome(xs[i..], f) == FirstSome(xs[i + 1..], f)
  {
    assert xs[i..][1..] == xs[i + 1..];
  }
}
