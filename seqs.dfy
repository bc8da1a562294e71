/**
 * Sequence operations with the semantics of JavaScript's `Array.prototype.filter` and
 * `slice(0, n)`, and the order facts the ranking results are stated with.
 */
module Seqs {

  /** The elements of `s` that satisfy `p`, in their order in `s`. */
  function Filter<T>(s: seq<T>, p: T -> bool): (r: seq<T>)
    ensures |r| <= |s|
  {
    if s == [] then [] else Filter(s[..|s| - 1], p) + (if p(s[|s| - 1]) then [s[|s| - 1]] else [])
  }

  /** The smaller of two integers. */
  function Min(a: int, b: int): int
  {
    if a <= b then a else b
  }

  /** A prefix one element longer is the prefix with that element appended. */
  lemma PrefixSnoc<T>(s: seq<T>, n: nat)
    requires n < |s|
    ensures s[..n + 1] == s[..n] + [s[n]]
  {
  }

  /** The first `n` elements of `s`, or all of `s` when it is shorter. */
  function Take<T>(s: seq<T>, n: nat): (r: seq<T>)
    ensures |r| == if |s| <= n then |s| else n
    ensures r == s[..|r|]
  {
    if |s| <= n then s else s[..n]
  }

  /** `a` is `b` with some elements left out, the rest kept in order. */
  ghost predicate IsSubsequence<T>(a: seq<T>, b: seq<T>)
  {
    if a == [] then true
    else if b == [] then false
    else (a[|a| - 1] == b[|b| - 1] && IsSubsequence(a[..|a| - 1], b[..|b| - 1]))
         || IsSubsequence(a, b[..|b| - 1])
  }

  /** `x` occurs in `s` at an earlier index than some occurrence of `y`. */
  ghost predicate Ordered<T>(s: seq<T>, x: T, y: T)
  {
    exists i, j :: 0 <= i < j < |s| && s[i] == x && s[j] == y
  }

  lemma FilterSnoc<T>(s: seq<T>, x: T, p: T -> bool)
    ensures Filter(s + [x], p) == Filter(s, p) + (if p(x) then [x] else [])
  {
    assert (s + [x])[..|s|] == s;
  }

  lemma SubsequenceSnoc<T>(a: seq<T>, b: seq<T>, x: T)
    requires IsSubsequence(a, b)
    ensures IsSubsequence(a, b + [x])
  {
    assert (b + [x])[..|b|] == b;
  }

  lemma SubsequenceBothSnoc<T>(a: seq<T>, b: seq<T>, x: T)
    requires IsSubsequence(a, b)
    ensures IsSubsequence(a + [x], b + [x])
  {
    assert (a + [x])[..|a|] == a;
    assert (b + [x])[..|b|] == b;
  }

  lemma {:induction false} SubsequenceReflexive<T>(s: seq<T>)
    ensures IsSubsequence(s, s)
  {
    if s != [] {
      SubsequenceReflexive(s[..|s| - 1]);
      SubsequenceBothSnoc(s[..|s| - 1], s[..|s| - 1], s[|s| - 1]);
      assert s[..|s| - 1] + [s[|s| - 1]] == s;
    }
  }

  /** A subsequence is no longer than the sequence and has no element outside it. */
  lemma {:induction false} SubsequenceMembers<T>(a: seq<T>, b: seq<T>)
    requires IsSubsequence(a, b)
    ensures |a| <= |b|
    ensures forall x :: x in a ==> x in b
    decreases |b|
  {
    if a != [] {
      assert b != [];
      var a', b' := a[..|a| - 1], b[..|b| - 1];
      if a[|a| - 1] == b[|b| - 1] && IsSubsequence(a', b') {
        SubsequenceMembers(a', b');
        assert a == a' + [a[|a| - 1]];
        assert b == b' + [b[|b| - 1]];
      } else {
        SubsequenceMembers(a, b');
        assert b == b' + [b[|b| - 1]];
      }
    }
  }

  /** A prefix is a subsequence. */
  lemma {:induction false} PrefixIsSubsequence<T>(s: seq<T>, n: nat)
    requires n <= |s|
    ensures IsSubsequence(s[..n], s)
    decreases |s|
  {
    if n == |s| {
      assert s[..n] == s;
      SubsequenceReflexive(s);
    } else {
      PrefixIsSubsequence(s[..|s| - 1], n);
      assert s[..|s| - 1][..n] == s[..n];
      SubsequenceSnoc(s[..n], s[..|s| - 1], s[|s| - 1]);
      assert s[..|s| - 1] + [s[|s| - 1]] == s;
    }
  }

  /** A subsequence of a subsequence is a subsequence. */
  lemma {:induction false} SubsequenceTransitive<T>(a: seq<T>, b: seq<T>, c: seq<T>)
    requires IsSubsequence(a, b) && IsSubsequence(b, c)
    ensures IsSubsequence(a, c)
    decreases |c|
  {
    if a != [] {
      assert b != [] && c != [];
      var a', b', c' := a[..|a| - 1], b[..|b| - 1], c[..|c| - 1];
      assert c == c' + [c[|c| - 1]];
      if b[|b| - 1] == c[|c| - 1] && IsSubsequence(b', c') {
        if a[|a| - 1] == b[|b| - 1] && IsSubsequence(a', b') {
          SubsequenceTransitive(a', b', c');
        } else {
          SubsequenceTransitive(a, b', c');
        }
      } else {
        SubsequenceTransitive(a, b, c');
      }
    }
  }

  /** Filtering keeps the order of the elements it keeps. */
  lemma {:induction false} FilterIsSubsequence<T>(s: seq<T>, p: T -> bool)
    ensures IsSubsequence(Filter(s, p), s)
  {
    if s != [] {
      var s', x := s[..|s| - 1], s[|s| - 1];
      FilterIsSubsequence(s', p);
      assert s == s' + [x];
      if p(x) {
        SubsequenceBothSnoc(Filter(s', p), s', x);
      } else {
        assert Filter(s, p) == Filter(s', p);
        SubsequenceSnoc(Filter(s', p), s', x);
      }
    }
  }

  /** An element is kept exactly when it is in `s` and satisfies `p`. */
  lemma {:induction false} FilterMembership<T>(s: seq<T>, p: T -> bool, x: T)
    ensures x in Filter(s, p) <==> x in s && p(x)
  {
    if s != [] {
      var s' := s[..|s| - 1];
      FilterMembership(s', p, x);
      assert s == s' + [s[|s| - 1]];
    }
  }

  /** Every copy of a kept element is kept: its count is unchanged. */
  lemma {:induction false} FilterMultiplicity<T>(s: seq<T>, p: T -> bool, x: T)
    ensures multiset(Filter(s, p))[x] == if p(x) then multiset(s)[x] else 0
  {
    if s != [] {
      var s' := s[..|s| - 1];
      FilterMultiplicity(s', p, x);
      assert s == s' + [s[|s| - 1]];
    }
  }

  /** A value that stands at two distinct indices occurs at least twice. */
  lemma TwoIndicesCountTwice<T>(s: seq<T>, i: int, j: int)
    requires 0 <= i < j < |s| && s[i] == s[j]
    ensures multiset(s)[s[i]] >= 2
  {
    assert s == s[..i] + [s[i]] + s[i + 1..j] + [s[j]] + s[j + 1..];
  }

  /** Nothing is kept when nothing satisfies `p`. */
  lemma {:induction false} FilterNone<T>(s: seq<T>, p: T -> bool)
    requires forall x :: x in s ==> !p(x)
    ensures Filter(s, p) == []
  {
    if s != [] {
      assert s == s[..|s| - 1] + [s[|s| - 1]];
      FilterNone(s[..|s| - 1], p);
    }
  }

  /** A weaker test keeps at least what a stronger one keeps, in the same order. */
  lemma {:induction false} FilterMonotone<T>(s: seq<T>, p: T -> bool, q: T -> bool)
    requires forall x :: x in s && p(x) ==> q(x)
    ensures IsSubsequence(Filter(s, p), Filter(s, q))
    ensures |Filter(s, p)| <= |Filter(s, q)|
  {
    if s != [] {
      var s', x := s[..|s| - 1], s[|s| - 1];
      assert s == s' + [x];
      FilterMonotone(s', p, q);
      if p(x) {
        SubsequenceBothSnoc(Filter(s', p), Filter(s', q), x);
      } else if q(x) {
        assert Filter(s, p) == Filter(s', p);
        SubsequenceSnoc(Filter(s', p), Filter(s', q), x);
      } else {
        assert Filter(s, p) == Filter(s', p) && Filter(s, q) == Filter(s', q);
      }
    }
    SubsequenceMembers(Filter(s, p), Filter(s, q));
  }

  /**
   * Filtering neither creates nor loses an ordering between two kept elements: `x`
   * comes before `y` among the kept elements exactly when it does in `s`.
   */
  lemma {:induction false} FilterOrdered<T>(s: seq<T>, p: T -> bool, x: T, y: T)
    requires p(x) && p(y)
    ensures Ordered(Filter(s, p), x, y) <==> Ordered(s, x, y)
  {
    if s != [] {
      var s', l := s[..|s| - 1], s[|s| - 1];
      assert s == s' + [l];
      var f' := Filter(s', p);
      var f := Filter(s, p);
      FilterOrdered(s', p, x, y);
      if Ordered(s, x, y) {
        var i, j :| 0 <= i < j < |s| && s[i] == x && s[j] == y;
        if j < |s'| {
          assert s'[i] == x && s'[j] == y;
          var i', j' :| 0 <= i' < j' < |f'| && f'[i'] == x && f'[j'] == y;
          assert f[i'] == x && f[j'] == y;
        } else {
          assert x in s';
          FilterMembership(s', p, x);
          var i' :| 0 <= i' < |f'| && f'[i'] == x;
          assert f == f' + [l] && l == y;
          assert f[i'] == x && f[|f'|] == y;
        }
      }
      if Ordered(f, x, y) {
        var i, j :| 0 <= i < j < |f| && f[i] == x && f[j] == y;
        if j < |f'| {
          assert f'[i] == x && f'[j] == y;
          var i', j' :| 0 <= i' < j' < |s'| && s'[i'] == x && s'[j'] == y;
          assert s[i'] == x && s[j'] == y;
        } else {
          assert f == f' + [l] && l == y;
          assert x in f';
          FilterMembership(s', p, x);
          var i' :| 0 <= i' < |s'| && s'[i'] == x;
          assert s[i'] == x && s[|s'|] == y;
        }
      }
    }
  }
}
