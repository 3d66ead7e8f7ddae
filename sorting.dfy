/** Sorting with a caller-supplied order, as `slice::sort_by` does it: the order is any total
    relation, the result is a permutation of the input in which neighbours are in order. */
module Sorting {

  /** `le` relates every pair one way or the other. */
  ghost predicate Total<T(!new)>(le: (T, T) -> bool) {
    forall x, y :: le(x, y) || le(y, x)
  }

  ghost predicate Transitive<T(!new)>(le: (T, T) -> bool) {
    forall x, y, z :: le(x, y) && le(y, z) ==> le(x, z)
  }

  /** Every element is in order with the next one. */
  ghost predicate Sorted<T>(s: seq<T>, le: (T, T) -> bool) {
    forall k :: 0 <= k < |s| - 1 ==> le(s[k], s[k + 1])
  }

  /** Insertion sort in place: each element in turn sinks past the larger ones before it. */
  method InsertionSort<T(!new)>(a: array<T>, le: (T, T) -> bool)
    requires Total(le)
    modifies a
    ensures Sorted(a[..], le)
    ensures multiset(a[..]) == multiset(old(a[..]))
  {
    if a.Length == 0 {
      return;
    }
    var i := 1;
    while i < a.Length
      invariant 1 <= i <= a.Length
      invariant Sorted(a[..i], le)
      invariant multiset(a[..]) == multiset(old(a[..]))
    {
      var j := i;
      SinkStart(a[..], i, le);
      while j > 0 && !le(a[j - 1], a[j])
        invariant 0 <= j <= i
        invariant Sinking(a[..], j, i, le)
        invariant multiset(a[..]) == multiset(old(a[..]))
      {
        SinkStep(a[..], j, i, le);
        Swap(a, j - 1, j);
        j := j - 1;
      }
      SinkDone(a[..], j, i, le);
      i := i + 1;
    }
    assert a[..a.Length] == a[..];
  }

  /** While element `i` sinks and now stands at `j`: the elements before it are in order, so
      are it and those after it up to `i`, and its two neighbours are in order with each other. */
  ghost predicate Sinking<T>(s: seq<T>, j: nat, i: nat, le: (T, T) -> bool)
    requires j <= i < |s|
  {
    Sorted(s[..j], le) && Sorted(s[j..i + 1], le) && (0 < j < i ==> le(s[j - 1], s[j + 1]))
  }

  lemma {:induction false} SinkStart<T>(s: seq<T>, i: nat, le: (T, T) -> bool)
    requires 0 < i < |s| && Sorted(s[..i], le)
    ensures Sinking(s, i, i, le)
  {
  }

  lemma {:induction false} SinkStep<T(!new)>(s: seq<T>, j: nat, i: nat, le: (T, T) -> bool)
    requires Total(le) && 0 < j <= i < |s| && Sinking(s, j, i, le) && !le(s[j - 1], s[j])
    ensures Sinking(s[j - 1 := s[j]][j := s[j - 1]], j - 1, i, le)
  {
    var t := s[j - 1 := s[j]][j := s[j - 1]];
    assert t[..j - 1] == s[..j - 1];
    assert le(t[j - 1], t[j]);
    var u := t[j - 1..i + 1];
    forall k | 0 <= k < |u| - 1 ensures le(u[k], u[k + 1]) {
      if k > 1 {
        assert u[k] == s[j..i + 1][k - 1] && u[k + 1] == s[j..i + 1][k];
      }
    }
  }

  lemma {:induction false} SinkDone<T>(s: seq<T>, j: nat, i: nat, le: (T, T) -> bool)
    requires j <= i < |s| && Sinking(s, j, i, le) && (j == 0 || le(s[j - 1], s[j]))
    ensures Sorted(s[..i + 1], le)
  {
    var p := s[..i + 1];
    forall k | 0 <= k < i ensures le(p[k], p[k + 1]) {
      if k < j - 1 {
        assert p[k] == s[..j][k] && p[k + 1] == s[..j][k + 1];
      } else if k >= j {
        assert p[k] == s[j..i + 1][k - j] && p[k + 1] == s[j..i + 1][k - j + 1];
      }
    }
  }

  /** Exchange two elements. */
  method Swap<T>(a: array<T>, i: nat, j: nat)
    requires i < j < a.Length
    modifies a
    ensures a[..] == old(a[..])[i := old(a[j])][j := old(a[i])]
    ensures multiset(a[..]) == multiset(old(a[..]))
  {
    a[i], a[j] := a[j], a[i];
  }

  /** With a transitive order, neighbours in order put every pair in order. */
  lemma {:induction false} SortedPairwise<T(!new)>(s: seq<T>, le: (T, T) -> bool)
    requires Transitive(le) && Sorted(s, le)
    ensures forall i, j :: 0 <= i < j < |s| ==> le(s[i], s[j])
  {
    if |s| > 1 {
      SortedPairwise(s[1..], le);
      forall i, j | 0 <= i < j < |s| ensures le(s[i], s[j]) {
        if 0 < i {
          assert s[i] == s[1..][i - 1] && s[j] == s[1..][j - 1];
        } else if 1 < j {
          assert le(s[1], s[j]) by { assert s[1] == s[1..][0] && s[j] == s[1..][j - 1]; }
        }
      }
    }
  }

  /** No two elements of `s` are in order both ways unless they are equal. */
  ghost predicate AntisymmetricOn<T>(s: seq<T>, le: (T, T) -> bool) {
    forall x, y :: x in s && y in s && le(x, y) && le(y, x) ==> x == y
  }

  /** A total, transitive order puts a multiset in one order only, when no two of its
      elements are in order both ways. */
  lemma {:induction false} SortedUnique<T(!new)>(s: seq<T>, t: seq<T>, le: (T, T) -> bool)
    requires Transitive(le) && Sorted(s, le) && Sorted(t, le) && multiset(s) == multiset(t)
    requires AntisymmetricOn(s, le)
    ensures s == t
  {
    if s != [] {
      assert |t| == |multiset(t)| == |s|;
      SortedHeads(s, t, le);
      SortedTail(s, le);
      SortedTail(t, le);
      TailMultiset(s);
      TailMultiset(t);
      AntisymmetricTail(s, le);
      SortedUnique(s[1..], t[1..], le);
      assert s == [s[0]] + s[1..] && t == [t[0]] + t[1..];
    }
  }

  /** The first elements of two such orderings are the same. */
  lemma {:induction false} SortedHeads<T(!new)>(s: seq<T>, t: seq<T>, le: (T, T) -> bool)
    requires Transitive(le) && Sorted(s, le) && Sorted(t, le) && multiset(s) == multiset(t)
    requires AntisymmetricOn(s, le) && s != [] && t != []
    ensures s[0] == t[0]
  {
    assert s[0] in multiset(t) && t[0] in multiset(s);
    var i :| 0 <= i < |t| && t[i] == s[0];
    var j :| 0 <= j < |s| && s[j] == t[0];
    if i > 0 && j > 0 {
      SortedPairwise(s, le);
      SortedPairwise(t, le);
      assert le(t[0], t[i]) && le(s[0], s[j]);
    }
  }

  lemma {:induction false} AntisymmetricTail<T>(s: seq<T>, le: (T, T) -> bool)
    requires AntisymmetricOn(s, le) && s != []
    ensures AntisymmetricOn(s[1..], le)
  {
    forall x, y | x in s[1..] && y in s[1..] && le(x, y) && le(y, x) ensures x == y {
      assert x in s && y in s;
    }
  }

  lemma {:induction false} TailMultiset<T>(s: seq<T>)
    requires s != []
    ensures multiset(s[1..]) == multiset(s) - multiset{s[0]}
  {
    assert s == [s[0]] + s[1..];
  }

  lemma {:induction false} SortedTail<T>(s: seq<T>, le: (T, T) -> bool)
    requires Sorted(s, le) && s != []
    ensures Sorted(s[1..], le)
  {
    var u := s[1..];
    forall k | 0 <= k < |u| - 1 ensures le(u[k], u[k + 1]) {
      assert u[k] == s[k + 1] && u[k + 1] == s[k + 2];
    }
  }
}
