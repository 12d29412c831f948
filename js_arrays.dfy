/**
 * The JavaScript array idioms the ingestion code and the view use: `filter(Boolean)` on
 * strings, `Array.from(new Set(xs))` and the default `sort()` of an array of strings.
 */
module JsArrays {

  // ---------------------------------------------------------------------------------------
  // filter(Boolean)
  // ---------------------------------------------------------------------------------------

  /**
   * `xs.filter(Boolean)` on strings: the non-empty ones. `NonEmptyCounts` adds that each is
   * kept as often as in `xs`, `NonEmptyAppend` that they stay in order.
   */
  function NonEmpty(xs: seq<string>): (r: seq<string>)
    ensures forall x :: x in r <==> x in xs && x != ""
    ensures |r| <= |xs|
  {
    if xs == [] then [] else (if xs[0] == "" then [] else [xs[0]]) + NonEmpty(xs[1..])
  }

  /** Every non-empty string is kept as often as it occurs; the empty string not at all. */
  lemma {:induction false} NonEmptyCounts(xs: seq<string>)
    ensures multiset(NonEmpty(xs)) == multiset(xs)["" := 0]
  {
    if xs != [] {
      assert xs == [xs[0]] + xs[1..];
      NonEmptyCounts(xs[1..]);
    }
  }

  /** Filtering works piece by piece, so the kept strings keep their order. */
  lemma {:induction false} NonEmptyAppend(xs: seq<string>, ys: seq<string>)
    ensures NonEmpty(xs + ys) == NonEmpty(xs) + NonEmpty(ys)
  {
    if xs == [] {
      assert xs + ys == ys;
    } else {
      assert (xs + ys)[0] == xs[0] && (xs + ys)[1..] == xs[1..] + ys;
      NonEmptyAppend(xs[1..], ys);
    }
  }

  /** A list without empty strings is kept whole. */
  lemma {:induction false} NonEmptyKeepsAll(xs: seq<string>)
    requires forall x :: x in xs ==> x != ""
    ensures NonEmpty(xs) == xs
  {
    if xs != [] {
      assert xs[0] in xs;
      assert forall x :: x in xs[1..] ==> x in xs;
      NonEmptyKeepsAll(xs[1..]);
    }
  }

  /** The first non-empty string survives as the head of the filtered list. */
  lemma {:induction false} NonEmptyHead(xs: seq<string>)
    ensures NonEmpty(xs) != [] ==>
      exists k :: 0 <= k < |xs| && xs[k] == NonEmpty(xs)[0] && (forall j :: 0 <= j < k ==> xs[j] == "")
  {
    if xs != [] && xs[0] == "" {
      NonEmptyHead(xs[1..]);
      if NonEmpty(xs) != [] {
        var k :| 0 <= k < |xs[1..]| && xs[1..][k] == NonEmpty(xs[1..])[0] && (forall j :: 0 <= j < k ==> xs[1..][j] == "");
        assert xs[k + 1] == NonEmpty(xs)[0];
        assert forall j :: 0 <= j < k + 1 ==> xs[j] == "" by {
          forall j | 0 <= j < k + 1 ensures xs[j] == "" {
            if j > 0 { assert xs[j] == xs[1..][j - 1]; }
          }
        }
      }
    } else if xs != [] {
      assert xs[0] == NonEmpty(xs)[0];
    }
  }

  // ---------------------------------------------------------------------------------------
  // Array.from(new Set(xs))
  // ---------------------------------------------------------------------------------------

  predicate NoDuplicates<T(==)>(s: seq<T>) {
    forall i, j :: 0 <= i < j < |s| ==> s[i] != s[j]
  }

  /** The index of the first occurrence of `x` in `s`. */
  function FirstIndex<T(==)>(s: seq<T>, x: T): (k: nat)
    requires x in s
    ensures k < |s| && s[k] == x && forall j :: 0 <= j < k ==> s[j] != x
  {
    if s[0] == x then 0 else 1 + FirstIndex(s[1..], x)
  }

  /** Appending leaves the first occurrence of an element already present where it was. */
  lemma {:induction false} FirstIndexAppend<T>(s: seq<T>, y: T, x: T)
    requires x in s
    ensures FirstIndex(s + [y], x) == FirstIndex(s, x)
  {
    var k := FirstIndex(s, x);
    var k' := FirstIndex(s + [y], x);
    assert (s + [y])[k] == x;
    assert k' <= k;
  }

  /** `Array.from(new Set(s))`: each distinct element once, in order of first occurrence. */
  function Dedup<T(==,!new)>(s: seq<T>): (r: seq<T>)
    ensures NoDuplicates(r)
    ensures forall x :: x in r <==> x in s
    ensures |r| <= |s|
  {
    if s == [] then []
    else
      var d := Dedup(s[..|s| - 1]);
      var x := s[|s| - 1];
      assert forall y :: y in s <==> y in s[..|s| - 1] || y == x by {
        assert s == s[..|s| - 1] + [x];
      }
      if x in d then d else d + [x]
  }

  /** A repeat is dropped: `x, y, x` gives `x, y`. */
  lemma DedupExample<T(!new)>(x: T, y: T)
    requires x != y
    ensures Dedup([x, y, x]) == [x, y]
  {
    assert [x, y, x][..2] == [x, y] && [x, y][..1] == [x] && [x][..0] == [];
  }

  /** The elements of `Array.from(new Set(s))` stand in order of their first occurrence in `s`. */
  lemma {:induction false} DedupKeepsFirstOccurrenceOrder<T(!new)>(s: seq<T>)
    ensures forall j, k :: 0 <= j < k < |Dedup(s)| ==> FirstIndex(s, Dedup(s)[j]) < FirstIndex(s, Dedup(s)[k])
  {
    if s != [] {
      var p := s[..|s| - 1];
      var x := s[|s| - 1];
      assert s == p + [x];
      DedupKeepsFirstOccurrenceOrder(p);
      var d := Dedup(p);
      forall y | y in d ensures FirstIndex(s, y) == FirstIndex(p, y) {
        FirstIndexAppend(p, x, y);
      }
      if x !in d {
        assert x !in p;
        assert FirstIndex(s, x) == |s| - 1;
      }
    }
  }

  /** `a` is the subsequence of `b` at the ascending positions `idx`. */
  predicate SubsequenceAt<T(==)>(a: seq<T>, b: seq<T>, idx: seq<nat>) {
    && |idx| == |a|
    && (forall j, k :: 0 <= j < k < |idx| ==> idx[j] < idx[k])
    && (forall k :: 0 <= k < |idx| ==> idx[k] < |b| && b[idx[k]] == a[k])
  }

  /** `Array.from(new Set(s))` is a subsequence of `s`: the first occurrences, in order. */
  lemma DedupSubsequence<T(!new)>(s: seq<T>) returns (idx: seq<nat>)
    ensures SubsequenceAt(Dedup(s), s, idx)
  {
    var r := Dedup(s);
    DedupKeepsFirstOccurrenceOrder(s);
    idx := seq(|r|, k requires 0 <= k < |r| => FirstIndex(s, r[k]));
  }

  /** On a list without repeats, `Array.from(new Set(s))` is the list itself. */
  lemma {:induction false} DedupDistinct<T(!new)>(s: seq<T>)
    requires NoDuplicates(s)
    ensures Dedup(s) == s
  {
    if s != [] {
      var p := s[..|s| - 1];
      assert NoDuplicates(p);
      DedupDistinct(p);
      assert s[|s| - 1] !in p;
      assert s == p + [s[|s| - 1]];
    }
  }

  // ---------------------------------------------------------------------------------------
  // sort() on strings
  // ---------------------------------------------------------------------------------------

  /** The default comparison of `sort()`: lexicographic, character by character. */
  predicate StrLess(a: string, b: string) {
    if a == [] then b != []
    else if b == [] then false
    else if a[0] != b[0] then a[0] < b[0]
    else StrLess(a[1..], b[1..])
  }

  lemma {:induction false} StrLessIrreflexive(a: string)
    ensures !StrLess(a, a)
  {
    if a != [] { StrLessIrreflexive(a[1..]); }
  }

  lemma {:induction false} StrLessTransitive(a: string, b: string, c: string)
    requires StrLess(a, b) && StrLess(b, c)
    ensures StrLess(a, c)
  {
    if a != [] && b != [] && c != [] && a[0] == b[0] && b[0] == c[0] {
      StrLessTransitive(a[1..], b[1..], c[1..]);
    }
  }

  lemma {:induction false} StrLessTotal(a: string, b: string)
    requires a != b
    ensures StrLess(a, b) || StrLess(b, a)
  {
    if a != [] && b != [] && a[0] == b[0] {
      assert a == [a[0]] + a[1..] && b == [b[0]] + b[1..];
      StrLessTotal(a[1..], b[1..]);
    }
  }

  /** No later element sorts before an earlier one. */
  predicate Sorted(s: seq<string>) {
    forall i, j :: 0 <= i < j < |s| ==> !StrLess(s[j], s[i])
  }

  predicate StrictlySorted(s: seq<string>) {
    forall i, j :: 0 <= i < j < |s| ==> StrLess(s[i], s[j])
  }

  function Insert(x: string, s: seq<string>): (r: seq<string>)
    requires Sorted(s)
    ensures Sorted(r)
    ensures multiset(r) == multiset(s) + multiset{x}
  {
    if s == [] then [x]
    else if StrLess(x, s[0]) then
      assert forall k :: 0 <= k < |s| ==> !StrLess(s[k], x) by {
        forall k | 0 <= k < |s| ensures !StrLess(s[k], x) {
          if StrLess(s[k], x) { StrLessTransitive(s[k], x, s[0]); StrLessIrreflexive(s[0]); }
        }
      }
      [x] + s
    else
      var t := Insert(x, s[1..]);
      assert s == [s[0]] + s[1..];
      assert forall k :: 0 <= k < |t| ==> !StrLess(t[k], s[0]) by {
        forall k | 0 <= k < |t| ensures !StrLess(t[k], s[0]) {
          assert t[k] in multiset(t);
          assert t[k] == x || t[k] in s[1..];
        }
      }
      [s[0]] + t
  }

  /** `sort()`: the same strings, in ascending order. */
  function Sort(s: seq<string>): (r: seq<string>)
    ensures Sorted(r)
    ensures multiset(r) == multiset(s)
  {
    if s == [] then []
    else
      assert s == [s[0]] + s[1..];
      Insert(s[0], Sort(s[1..]))
  }

  /** Sorting a list without repeats gives a strictly ascending list of the same elements. */
  lemma SortDistinct(s: seq<string>)
    requires NoDuplicates(s)
    ensures StrictlySorted(Sort(s))
    ensures forall x :: x in Sort(s) <==> x in s
  {
    var r := Sort(s);
    assert forall x :: x in r <==> x in s by {
      forall x ensures x in r <==> x in s {
        assert x in r <==> x in multiset(r);
        assert x in s <==> x in multiset(s);
      }
    }
    forall i, j | 0 <= i < j < |r| ensures StrLess(r[i], r[j]) {
      if r[i] == r[j] {
        DistinctMultiset(s, r[i]);
        PairMultiset(r, i, j);
        assert false;
      }
      StrLessTotal(r[i], r[j]);
    }
  }

  /** In a list without repeats every element occurs once. */
  lemma {:induction false} DistinctMultiset<T>(s: seq<T>, x: T)
    requires NoDuplicates(s)
    ensures multiset(s)[x] <= 1
  {
    if s != [] {
      assert s == [s[0]] + s[1..];
      assert NoDuplicates(s[1..]);
      DistinctMultiset(s[1..], x);
      if s[0] == x { assert x !in s[1..]; }
    }
  }

  /** Two equal elements at different places occur at least twice. */
  lemma {:induction false} PairMultiset<T>(s: seq<T>, i: nat, j: nat)
    requires i < j < |s| && s[i] == s[j]
    ensures multiset(s)[s[i]] >= 2
  {
    assert s == s[..j] + [s[j]] + s[j + 1..];
    assert s[i] in s[..j];
  }
}
