/** Strings as the program uses them: byte-wise comparison, splitting at a separator, sorting by a key. */
module Text {
  import opened Base

  /** The `<` of the program's strings: the first difference decides, a proper prefix is smaller. */
  predicate Less(a: string, b: string) {
    |b| > 0 && (|a| == 0 || a[0] < b[0] || (a[0] == b[0] && Less(a[1..], b[1..])))
  }

  lemma {:induction false} LessTrichotomy(a: string, b: string)
    ensures Less(a, b) || a == b || Less(b, a)
    ensures !(Less(a, b) && Less(b, a)) && !(Less(a, b) && a == b)
    decreases |a|
  {
    if |a| > 0 && |b| > 0 && a[0] == b[0] {
      LessTrichotomy(a[1..], b[1..]);
      assert a == [a[0]] + a[1..] && b == [b[0]] + b[1..];
    }
  }

  lemma {:induction false} LessTransitive(a: string, b: string, c: string)
    requires Less(a, b) && Less(b, c)
    ensures Less(a, c)
    decreases |a|
  {
    if |a| > 0 && a[0] == b[0] && b[0] == c[0] {
      LessTransitive(a[1..], b[1..], c[1..]);
    }
  }

  /** The texts agree up to position `k`, where `a` has the smaller character. */
  predicate SmallerAt(a: string, b: string, k: nat) {
    k < |a| && k < |b| && a[..k] == b[..k] && a[k] < b[k]
  }

  /** The first difference decides. */
  lemma {:induction false} LessAtDifference(a: string, b: string, k: nat)
    requires SmallerAt(a, b, k)
    ensures Less(a, b)
  {
    if k > 0 {
      assert a[0] == a[..k][0] && b[0] == b[..k][0];
      assert a[1..][..k - 1] == a[..k][1..] && b[1..][..k - 1] == b[..k][1..];
      LessAtDifference(a[1..], b[1..], k - 1);
    }
  }

  /** A proper prefix is smaller. */
  lemma {:induction false} LessThanExtension(a: string, b: string)
    requires |a| < |b| && a == b[..|a|]
    ensures Less(a, b)
  {
    if a != "" {
      assert b[0] == b[..|a|][0] && b[1..][..|a| - 1] == b[..|a|][1..];
      LessThanExtension(a[1..], b[1..]);
    }
  }

  /** Splitting at every occurrence of `sep`; the empty string splits into one empty piece. */
  function Split(s: string, sep: char): (r: seq<string>)
    ensures |r| > 0
  {
    if s == "" then [""]
    else
      var rest := Split(s[1..], sep);
      if s[0] == sep then [""] + rest else [[s[0]] + rest[0]] + rest[1..]
  }

  lemma {:induction false} SplitPlain(a: string, sep: char)
    requires sep !in a
    ensures Split(a, sep) == [a]
  {
    if a != "" {
      SplitPlain(a[1..], sep);
      assert a == [a[0]] + a[1..];
    }
  }

  /** The text before the first separator is the first piece. */
  lemma {:induction false} SplitFirst(a: string, sep: char, b: string)
    requires sep !in a
    ensures Split(a + [sep] + b, sep) == [a] + Split(b, sep)
  {
    var s := a + [sep] + b;
    if a == "" {
      assert s[1..] == b;
    } else {
      assert s[1..] == a[1..] + [sep] + b;
      SplitFirst(a[1..], sep, b);
      assert a == [a[0]] + a[1..];
    }
  }

  /** White space in the sense of Unicode. */
  predicate IsSpace(c: char) {
    || c == '\t' || c == '\n' || c == '\U{000B}' || c == '\U{000C}' || c == '\r' || c == ' '
    || c == '\U{0085}' || c == '\U{00A0}' || c == '\U{1680}' || '\U{2000}' <= c <= '\U{200A}'
    || c == '\U{2028}' || c == '\U{2029}' || c == '\U{202F}' || c == '\U{205F}' || c == '\U{3000}'
  }

  ghost predicate AllSpace(s: string) {
    forall k :: 0 <= k < |s| ==> IsSpace(s[k])
  }

  /** A printable character of ASCII other than the blank. */
  predicate IsGraphic(c: char) {
    '!' <= c <= '~'
  }

  /** The characters that lay out plain text. */
  ghost predicate Blank(s: string) {
    forall k :: 0 <= k < |s| ==> s[k] in " \t\r\n"
  }

  lemma BlanksAreSpace(s: string)
    requires Blank(s)
    ensures AllSpace(s)
  {
  }

  lemma GraphicsAreNotSpace(c: char)
    requires IsGraphic(c)
    ensures !IsSpace(c)
  {
  }

  /** No later element has a smaller key. */
  ghost predicate SortedBy<T>(xs: seq<T>, key: T -> string) {
    forall i, j :: 0 <= i < j < |xs| ==> !Less(key(xs[j]), key(xs[i]))
  }

  function Insert<T>(x: T, xs: seq<T>, key: T -> string): seq<T> {
    if xs == [] || !Less(key(xs[0]), key(x)) then [x] + xs
    else [xs[0]] + Insert(x, xs[1..], key)
  }

  /** A stable sort: elements with equal keys keep their order. */
  function StableSort<T>(xs: seq<T>, key: T -> string): seq<T> {
    if xs == [] then [] else Insert(xs[0], StableSort(xs[1..], key), key)
  }

  lemma {:induction false} InsertKeeps<T>(x: T, xs: seq<T>, key: T -> string)
    ensures multiset(Insert(x, xs, key)) == multiset{x} + multiset(xs)
    ensures SortedBy(xs, key) ==> SortedBy(Insert(x, xs, key), key)
  {
    if xs == [] {
    } else if !Less(key(xs[0]), key(x)) {
      if SortedBy(xs, key) {
        forall j | 0 <= j < |xs| ensures !Less(key(xs[j]), key(x)) {
          if j > 0 && Less(key(xs[j]), key(x)) {
            LessTrichotomy(key(xs[j]), key(xs[0]));
            LessTrichotomy(key(x), key(xs[0]));
            if Less(key(x), key(xs[0])) { LessTransitive(key(xs[j]), key(x), key(xs[0])); }
          }
        }
      }
    } else {
      InsertKeeps(x, xs[1..], key);
      var rest := Insert(x, xs[1..], key);
      assert xs == [xs[0]] + xs[1..];
      if SortedBy(xs, key) {
        forall j | 0 <= j < |rest| ensures !Less(key(rest[j]), key(xs[0])) {
          assert rest[j] in multiset(rest);
          LessTrichotomy(key(x), key(xs[0]));
          assert rest[j] == x || rest[j] in xs[1..];
        }
      }
    }
  }

  /** The sort rearranges its input into sorted order. */
  lemma {:induction false} StableSortCorrect<T>(xs: seq<T>, key: T -> string)
    ensures multiset(StableSort(xs, key)) == multiset(xs)
    ensures SortedBy(StableSort(xs, key), key)
  {
    if xs != [] {
      StableSortCorrect(xs[1..], key);
      InsertKeeps(xs[0], StableSort(xs[1..], key), key);
      assert xs == [xs[0]] + xs[1..];
    }
  }

  lemma {:induction false} StableSortElements<T>(xs: seq<T>, key: T -> string)
    ensures |StableSort(xs, key)| == |xs|
    ensures forall x :: x in StableSort(xs, key) <==> x in xs
    ensures Distinct(xs) ==> Distinct(StableSort(xs, key))
  {
    var ys := StableSort(xs, key);
    StableSortCorrect(xs, key);
    assert |multiset(ys)| == |ys| && |multiset(xs)| == |xs|;
    forall x ensures x in ys <==> x in xs {
      assert x in multiset(ys) <==> x in multiset(xs);
    }
    if Distinct(xs) {
      forall i, j | 0 <= i < j < |ys| ensures ys[i] != ys[j] {
        DistinctMultiplicity(xs, ys[i]);
        if ys[i] == ys[j] { TwoOccurrences(ys, i, j); }
      }
    }
  }

  /** Sorting a sorted list changes nothing. */
  lemma {:induction false} StableSortFixpoint<T>(xs: seq<T>, key: T -> string)
    requires SortedBy(xs, key)
    ensures StableSort(xs, key) == xs
  {
    if xs != [] {
      StableSortFixpoint(xs[1..], key);
      assert xs == [xs[0]] + xs[1..];
    }
  }

  lemma TwoOccurrences<T>(s: seq<T>, i: nat, j: nat)
    requires i < j < |s| && s[i] == s[j]
    ensures multiset(s)[s[i]] >= 2
  {
    assert s == s[..j] + [s[j]] + s[j + 1..];
    assert s[i] in s[..j];
  }

  lemma SameHead<T>(xs: seq<T>, ys: seq<T>, key: T -> string)
    requires |xs| > 0 && |ys| > 0
    requires SortedBy(xs, key) && SortedBy(ys, key) && xs[0] in ys && ys[0] in xs
    ensures key(xs[0]) == key(ys[0])
  {
    var i :| 0 <= i < |ys| && ys[i] == xs[0];
    var j :| 0 <= j < |xs| && xs[j] == ys[0];
    LessTrichotomy(key(xs[0]), key(ys[0]));
  }

  lemma TailMultiset<T>(xs: seq<T>)
    requires |xs| > 0
    ensures multiset(xs[1..]) == multiset(xs) - multiset{xs[0]}
  {
    assert xs == [xs[0]] + xs[1..];
  }

  ghost predicate Identifies<T(!new)>(key: T -> string, s: multiset<T>) {
    forall a, b :: a in s && b in s && key(a) == key(b) ==> a == b
  }

  /** With keys that identify elements, a sorted list is determined by the multiset of its elements. */
  lemma {:induction false} SortedUnique<T(!new)>(xs: seq<T>, ys: seq<T>, key: T -> string)
    requires SortedBy(xs, key) && SortedBy(ys, key) && multiset(xs) == multiset(ys)
    requires Identifies(key, multiset(xs))
    ensures xs == ys
  {
    assert |multiset(xs)| == |xs| && |multiset(ys)| == |ys|;
    if xs != [] {
      assert xs[0] in multiset(ys) && ys[0] in multiset(xs);
      SameHead(xs, ys, key);
      assert xs[0] == ys[0];
      TailMultiset(xs);
      TailMultiset(ys);
      SortedUnique(xs[1..], ys[1..], key);
    }
  }
}
