/** Facts about sequences and sets: subsequences, distinctness, sorting and sizes. */
module Sequences {
  ghost predicate Distinct<T>(s: seq<T>) {
    forall i, j :: 0 <= i < j < |s| ==> s[i] != s[j]
  }

  /** `a` is `b` with some elements left out. */
  ghost predicate IsSubsequence<T>(a: seq<T>, b: seq<T>)
    decreases |b|
  {
    a == [] ||
    (b != [] &&
     (IsSubsequence(a, b[..|b| - 1]) ||
      (a[|a| - 1] == b[|b| - 1] && IsSubsequence(a[..|a| - 1], b[..|b| - 1]))))
  }

  lemma SubsequenceSkips<T>(a: seq<T>, b: seq<T>, x: T)
    requires IsSubsequence(a, b)
    ensures IsSubsequence(a, b + [x])
  {
    assert (b + [x])[..|b|] == b;
  }

  lemma SubsequenceTakes<T>(a: seq<T>, b: seq<T>, x: T)
    requires IsSubsequence(a, b)
    ensures IsSubsequence(a + [x], b + [x])
  {
    assert (b + [x])[..|b|] == b && (a + [x])[..|a|] == a;
  }

  lemma {:induction false} SubsequenceOfLonger<T>(a: seq<T>, b: seq<T>, c: seq<T>)
    requires IsSubsequence(a, b)
    ensures IsSubsequence(a, b + c)
    decreases |c|
  {
    if c == [] {
      assert b + c == b;
    } else {
      SubsequenceOfLonger(a, b, c[..|c| - 1]);
      SubsequenceSkips(a, b + c[..|c| - 1], c[|c| - 1]);
      assert (b + c[..|c| - 1]) + [c[|c| - 1]] == b + c;
    }
  }

  lemma {:induction false} SubsequenceElements<T>(a: seq<T>, b: seq<T>, x: T)
    requires IsSubsequence(a, b) && x in a
    ensures x in b
    decreases |b|
  {
    var b' := b[..|b| - 1];
    if IsSubsequence(a, b') {
      SubsequenceElements(a, b', x);
    } else if x != a[|a| - 1] {
      SubsequenceElements(a[..|a| - 1], b', x);
    }
  }

  lemma {:induction false} SubsequenceIsDistinct<T>(a: seq<T>, b: seq<T>)
    requires IsSubsequence(a, b) && Distinct(b)
    ensures Distinct(a)
    decreases |b|
  {
    if a != [] {
      var b' := b[..|b| - 1];
      if IsSubsequence(a, b') {
        SubsequenceIsDistinct(a, b');
      } else {
        var a' := a[..|a| - 1];
        SubsequenceIsDistinct(a', b');
        forall i | 0 <= i < |a'|
          ensures a[i] != a[|a| - 1]
        {
          SubsequenceElements(a', b', a'[i]);
        }
      }
    }
  }

  // ---------------------------------------------------------------- sorting

  ghost predicate SortedBy<T(!new)>(leq: (T, T) -> bool, s: seq<T>) {
    forall i, j :: 0 <= i < j < |s| ==> leq(s[i], s[j])
  }

  ghost predicate TotalPreorder<T(!new)>(leq: (T, T) -> bool) {
    && (forall x, y :: leq(x, y) || leq(y, x))
    && (forall x, y, z :: leq(x, y) && leq(y, z) ==> leq(x, z))
  }

  lemma InsertionIsSorted<T(!new)>(leq: (T, T) -> bool, tail: seq<T>, k: nat, x: T)
    requires TotalPreorder(leq) && SortedBy(leq, tail) && k <= |tail|
    requires forall i :: 0 <= i < k ==> leq(tail[i], x)
    requires k < |tail| ==> leq(x, tail[k])
    ensures SortedBy(leq, tail[..k] + [x] + tail[k..])
  {
    forall i | k <= i < |tail|
      ensures leq(x, tail[i])
    {
      assert leq(x, tail[k]) && (i == k || leq(tail[k], tail[i]));
    }
    var sorted := tail[..k] + [x] + tail[k..];
    forall i, j | 0 <= i < j < |sorted|
      ensures leq(sorted[i], sorted[j])
    {
      assert sorted[i] == if i < k then tail[i] else if i == k then x else tail[i - 1];
      assert sorted[j] == if j < k then tail[j] else if j == k then x else tail[j - 1];
    }
  }

  /** Whatever the order, some arrangement of the elements is sorted: a sorted query always has an answer. */
  lemma {:induction false} SortedArrangementExists<T(!new)>(leq: (T, T) -> bool, s: seq<T>) returns (sorted: seq<T>)
    requires TotalPreorder(leq)
    ensures SortedBy(leq, sorted) && multiset(sorted) == multiset(s)
  {
    if s == [] {
      return [];
    }
    var x, rest := s[0], s[1..];
    assert s == [x] + rest;
    var tail := SortedArrangementExists(leq, rest);
    var k := 0;
    while k < |tail| && !leq(x, tail[k])
      invariant k <= |tail|
      invariant forall i :: 0 <= i < k ==> leq(tail[i], x)
    {
      k := k + 1;
    }
    sorted := tail[..k] + [x] + tail[k..];
    assert tail == tail[..k] + tail[k..];
    InsertionIsSorted(leq, tail, k, x);
  }

  lemma {:induction false} DistinctCount<T>(s: seq<T>, x: T)
    requires Distinct(s)
    ensures multiset(s)[x] == if x in s then 1 else 0
  {
    if s != [] {
      var front, last := s[..|s| - 1], s[|s| - 1];
      assert s == front + [last];
      DistinctCount(front, x);
      assert last !in front;
    }
  }

  /** A sequence repeats an element exactly when some multiplicity exceeds one. */
  lemma DistinctMeansOnce<T(!new)>(s: seq<T>)
    ensures Distinct(s) <==> forall x :: multiset(s)[x] <= 1
  {
    if Distinct(s) {
      forall x
        ensures multiset(s)[x] <= 1
      {
        DistinctCount(s, x);
      }
    } else {
      var i, j :| 0 <= i < j < |s| && s[i] == s[j];
      assert s == s[..j] + [s[j]] + s[j + 1..];
      assert s[j] in s[..j];
      assert multiset(s)[s[j]] == multiset(s[..j])[s[j]] + 1 + multiset(s[j + 1..])[s[j]];
    }
  }

  lemma FrontElements<T>(s: seq<T>)
    requires s != []
    ensures multiset(s[..|s| - 1]) == multiset(s) - multiset{s[|s| - 1]}
  {
    assert s == s[..|s| - 1] + [s[|s| - 1]];
  }

  lemma DistinctConcat<T>(xs: seq<T>, ys: seq<T>)
    requires Distinct(xs) && Distinct(ys) && forall x :: x in xs ==> x !in ys
    ensures Distinct(xs + ys)
  {
    forall i, j | 0 <= i < j < |xs + ys|
      ensures (xs + ys)[i] != (xs + ys)[j]
    {
      if i < |xs| <= j {
        assert (xs + ys)[i] in xs && (xs + ys)[j] in ys;
      }
    }
  }

  // ---------------------------------------------------------------- sizes of sets

  function Elements<T>(s: seq<T>): set<T> {
    set x | x in s
  }

  lemma {:induction false} DistinctSize<T>(s: seq<T>)
    requires Distinct(s)
    ensures |Elements(s)| == |s|
  {
    if s != [] {
      var front, last := s[..|s| - 1], s[|s| - 1];
      DistinctSize(front);
      assert s == front + [last];
      assert Elements(s) == Elements(front) + {last};
    }
  }

  lemma {:induction false} SubsetSize<T>(x: set<T>, y: set<T>)
    requires x <= y
    ensures |x| <= |y|
  {
    if x != {} {
      var e :| e in x;
      SubsetSize(x - {e}, y - {e});
    }
  }
}
