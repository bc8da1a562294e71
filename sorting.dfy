/**
 * A stable sort by an integer key, highest key first: the semantics of
 * `Array.prototype.sort((a, b) => key(b) - key(a))`, which ECMAScript requires to be stable.
 * `StableSortDesc` is the specification (an insertion sort on sequences); `SortInPlace`
 * sorts an array in place and is proved to produce exactly that sequence.
 */
module Sorting {
  import opened Seqs

  /** `x` placed after every element of `s`, scanning from the back past the elements with a smaller key. */
  function Insert<T>(s: seq<T>, x: T, key: T -> int): (r: seq<T>)
    ensures |r| == |s| + 1
  {
    if s == [] then [x]
    else if key(s[|s| - 1]) < key(x) then Insert(s[..|s| - 1], x, key) + [s[|s| - 1]]
    else s + [x]
  }

  /** `s` sorted by descending key, elements with equal keys kept in their order in `s`. */
  function StableSortDesc<T>(s: seq<T>, key: T -> int): (r: seq<T>)
    ensures |r| == |s|
  {
    if s == [] then [] else Insert(StableSortDesc(s[..|s| - 1], key), s[|s| - 1], key)
  }

  ghost predicate SortedDesc<T>(s: seq<T>, key: T -> int)
  {
    forall i, j :: 0 <= i < j < |s| ==> key(s[i]) >= key(s[j])
  }

  /** The test "has key `v`". */
  function HasKey<T>(key: T -> int, v: int): T -> bool
  {
    x => key(x) == v
  }

  /** Inserting adds exactly one copy of `x`. */
  lemma {:induction false} InsertMultiset<T>(s: seq<T>, x: T, key: T -> int)
    ensures multiset(Insert(s, x, key)) == multiset(s) + multiset{x}
  {
    if s != [] {
      var s', l := s[..|s| - 1], s[|s| - 1];
      assert s == s' + [l];
      if key(l) < key(x) {
        InsertMultiset(s', x, key);
      }
    }
  }

  /** The result is a permutation of the input. */
  lemma {:induction false} SortIsPermutation<T>(s: seq<T>, key: T -> int)
    ensures multiset(StableSortDesc(s, key)) == multiset(s)
  {
    if s != [] {
      var s', l := s[..|s| - 1], s[|s| - 1];
      assert s == s' + [l];
      SortIsPermutation(s', key);
      InsertMultiset(StableSortDesc(s', key), l, key);
    }
  }

  lemma SortedSnoc<T>(s: seq<T>, x: T, key: T -> int)
    requires SortedDesc(s, key)
    requires forall y :: y in s ==> key(y) >= key(x)
    ensures SortedDesc(s + [x], key)
  {
    forall i, j | 0 <= i < j < |s| + 1 ensures key((s + [x])[i]) >= key((s + [x])[j]) {
      if j == |s| {
        assert (s + [x])[i] == s[i];
      }
    }
  }

  /** Inserting into a sorted sequence keeps it sorted. */
  lemma {:induction false} InsertSorted<T>(s: seq<T>, x: T, key: T -> int)
    requires SortedDesc(s, key)
    ensures SortedDesc(Insert(s, x, key), key)
  {
    if s != [] {
      var s', l := s[..|s| - 1], s[|s| - 1];
      assert s == s' + [l];
      if key(l) < key(x) {
        InsertSorted(s', x, key);
        InsertMultiset(s', x, key);
        forall y | y in Insert(s', x, key) ensures key(y) >= key(l) {
          assert y in multiset(Insert(s', x, key));
          if y != x {
            assert y in s';
          }
        }
        SortedSnoc(Insert(s', x, key), l, key);
      } else {
        SortedSnoc(s, x, key);
      }
    }
  }

  /** Inserting `x` appends it to the elements of its own key and leaves every other key's elements alone. */
  lemma {:induction false} InsertKeyGroups<T>(s: seq<T>, x: T, key: T -> int, v: int)
    ensures Filter(Insert(s, x, key), HasKey(key, v))
         == Filter(s, HasKey(key, v)) + (if key(x) == v then [x] else [])
  {
    var p := HasKey(key, v);
    if s == [] {
      FilterSnoc([], x, p);
      assert [] + [x] == [x];
    } else {
      var s', l := s[..|s| - 1], s[|s| - 1];
      assert s == s' + [l];
      if key(l) < key(x) {
        InsertKeyGroups(s', x, key, v);
        FilterSnoc(Insert(s', x, key), l, p);
        FilterSnoc(s', l, p);
      } else {
        FilterSnoc(s, x, p);
      }
    }
  }

  /** The result is in descending key order. */
  lemma {:induction false} SortIsSorted<T>(s: seq<T>, key: T -> int)
    ensures SortedDesc(StableSortDesc(s, key), key)
  {
    if s != [] {
      SortIsSorted(s[..|s| - 1], key);
      InsertSorted(StableSortDesc(s[..|s| - 1], key), s[|s| - 1], key);
    }
  }

  /** For every key, the elements with that key are the same, in the same order, before and after. */
  lemma {:induction false} SortKeepsKeyGroups<T>(s: seq<T>, key: T -> int, v: int)
    ensures Filter(StableSortDesc(s, key), HasKey(key, v)) == Filter(s, HasKey(key, v))
  {
    if s != [] {
      var s', l := s[..|s| - 1], s[|s| - 1];
      assert s == s' + [l];
      SortKeepsKeyGroups(s', key, v);
      InsertKeyGroups(StableSortDesc(s', key), l, key, v);
      FilterSnoc(s', l, HasKey(key, v));
    }
  }

  /** Stability: two results with equal keys appear in that order in the input too. */
  lemma SortIsStable<T>(s: seq<T>, key: T -> int, i: int, j: int)
    requires 0 <= i < j < |s|
    requires key(StableSortDesc(s, key)[i]) == key(StableSortDesc(s, key)[j])
    ensures Ordered(s, StableSortDesc(s, key)[i], StableSortDesc(s, key)[j])
  {
    var r := StableSortDesc(s, key);
    var p := HasKey(key, key(r[i]));
    assert Ordered(r, r[i], r[j]);
    FilterOrdered(r, p, r[i], r[j]);
    SortKeepsKeyGroups(s, key, key(r[i]));
    FilterOrdered(s, p, r[i], r[j]);
  }

  /** Elements at the back with a smaller key than `x` stay behind it. */
  lemma {:induction false} InsertSplit<T>(s: seq<T>, x: T, key: T -> int, j: int)
    requires 0 <= j <= |s|
    requires forall k :: j <= k < |s| ==> key(s[k]) < key(x)
    ensures Insert(s, x, key) == Insert(s[..j], x, key) + s[j..]
    decreases |s|
  {
    if j == |s| {
      assert s[..j] == s;
    } else {
      var s', l := s[..|s| - 1], s[|s| - 1];
      InsertSplit(s', x, key, j);
      assert s'[..j] == s[..j];
      assert s[j..] == s'[j..] + [l];
    }
  }

  /** Where `SortInPlace` stops shifting, `x` goes right after the elements before it. */
  lemma InsertStop<T>(s: seq<T>, x: T, key: T -> int, j: int)
    requires 0 <= j <= |s|
    requires j == 0 || key(s[j - 1]) >= key(x)
    ensures Insert(s[..j], x, key) == s[..j] + [x]
  {
    if j > 0 {
      assert s[..j][..j - 1] == s[..j - 1];
    }
  }

  /** Moves `a[i]` left into the sorted prefix `a[..i]`, shifting the elements with a smaller key one step right. */
  method InsertInPlace<T>(a: array<T>, i: int, key: T -> int)
    requires 0 <= i < a.Length
    modifies a
    ensures a[..i + 1] == Insert(old(a[..i]), old(a[i]), key)
    ensures forall k :: i < k < a.Length ==> a[k] == old(a[k])
  {
    var x := a[i];
    ghost var sorted := a[..i];
    var j := i;
    while j > 0 && key(a[j - 1]) < key(x)
      invariant 0 <= j <= i
      invariant forall k :: 0 <= k < j ==> a[k] == sorted[k]
      invariant forall k :: j < k <= i ==> a[k] == sorted[k - 1]
      invariant forall k :: i < k < a.Length ==> a[k] == old(a[k])
      invariant forall k :: j <= k < i ==> key(sorted[k]) < key(x)
    {
      a[j] := a[j - 1];
      j := j - 1;
    }
    InsertSplit(sorted, x, key, j);
    InsertStop(sorted, x, key, j);
    a[j] := x;
    assert a[..i + 1] == sorted[..j] + [x] + sorted[j..];
  }

  /** Sorts `a` in place by insertion: the result is `StableSortDesc` of the original contents. */
  method SortInPlace<T>(a: array<T>, key: T -> int)
    modifies a
    ensures a[..] == StableSortDesc(old(a[..]), key)
  {
    ghost var original := a[..];
    var i := 0;
    while i < a.Length
      invariant 0 <= i <= a.Length
      invariant a[..i] == StableSortDesc(original[..i], key)
      invariant forall k :: i <= k < a.Length ==> a[k] == original[k]
    {
      InsertInPlace(a, i, key);
      assert original[..i + 1][..i] == original[..i];
      i := i + 1;
    }
    assert original[..a.Length] == original;
  }
}
