/**
 * The array operations the components use (`filter`, `indexOf` and the
 * "keep the first occurrence" idiom), as functions on sequences, with the
 * facts about them that the rest of the model relies on.
 */
module Seqs {

  /** `a` occurs in `b` in the same relative order, possibly with gaps. */
  ghost predicate IsSubsequence<T>(a: seq<T>, b: seq<T>)
    decreases |b|
  {
    if a == [] then true
    else if b == [] then false
    else if a[0] == b[0] then IsSubsequence(a[1..], b[1..])
    else IsSubsequence(a, b[1..])
  }

  /** No element occurs twice. */
  predicate NoDuplicates<T(==)>(s: seq<T>) {
    forall i, j :: 0 <= i < j < |s| ==> s[i] != s[j]
  }

  /**
   * `Array.prototype.filter`: the elements that satisfy `p`, in their
   * original order, each as often as it occurs in `s`.
   */
  function Filter<T(==,!new)>(s: seq<T>, p: T -> bool): (r: seq<T>)
    ensures |r| <= |s|
    ensures forall i :: 0 <= i < |r| ==> p(r[i])
    ensures forall x :: x in r <==> x in s && p(x)
  {
    if s == [] then []
    else
      var rest := Filter(s[1..], p);
      if p(s[0]) then [s[0]] + rest else rest
  }

  /** Each element is kept exactly as often as it occurs, or dropped. */
  lemma {:induction false} FilterMultiset<T(!new)>(s: seq<T>, p: T -> bool)
    ensures forall x :: multiset(Filter(s, p))[x] == if p(x) then multiset(s)[x] else 0
  {
    if s != [] {
      FilterMultiset(s[1..], p);
      assert s == [s[0]] + s[1..];
    }
  }

  /** The kept elements stay in their original relative order. */
  lemma {:induction false} FilterSubsequence<T(!new)>(s: seq<T>, p: T -> bool)
    ensures IsSubsequence(Filter(s, p), s)
  {
    if s != [] {
      FilterSubsequence(s[1..], p);
    }
  }

  /** Filtering distributes over concatenation. */
  lemma {:induction false} FilterConcat<T(!new)>(a: seq<T>, b: seq<T>, p: T -> bool)
    ensures Filter(a + b, p) == Filter(a, p) + Filter(b, p)
  {
    if a == [] {
      assert a + b == b;
    } else {
      assert (a + b)[1..] == a[1..] + b;
      FilterConcat(a[1..], b, p);
    }
  }

  /** A filter that every element passes returns its input. */
  lemma {:induction false} FilterKeepsAll<T(!new)>(s: seq<T>, p: T -> bool)
    requires forall i :: 0 <= i < |s| ==> p(s[i])
    ensures Filter(s, p) == s
  {
    if s != [] {
      FilterKeepsAll(s[1..], p);
    }
  }

  /**
   * `Array.prototype.indexOf`: the first index holding `x`, or -1 when
   * `x` does not occur.
   */
  function IndexOf<T(==)>(s: seq<T>, x: T): (i: int)
    ensures -1 <= i < |s|
    ensures i == -1 <==> x !in s
    ensures 0 <= i ==> s[i] == x && forall j :: 0 <= j < i ==> s[j] != x
  {
    if s == [] then -1
    else if s[0] == x then 0
    else
      var k := IndexOf(s[1..], x);
      if k == -1 then -1 else k + 1
  }

  /**
   * `s.filter((v, i, self) => self.indexOf(v) === i)` restricted to the
   * indices from `from` on.
   */
  function FirstOccurrencesFrom<T(==,!new)>(s: seq<T>, from: nat): (r: seq<T>)
    requires from <= |s|
    decreases |s| - from
    ensures forall i :: 0 <= i < |r| ==> from <= IndexOf(s, r[i])
  {
    if from == |s| then []
    else
      var rest := FirstOccurrencesFrom(s, from + 1);
      if IndexOf(s, s[from]) == from then [s[from]] + rest else rest
  }

  /** The kept elements are those whose first occurrence is at `from` or later. */
  lemma {:induction false} FirstOccurrencesFromMembers<T(!new)>(s: seq<T>, from: nat)
    requires from <= |s|
    decreases |s| - from
    ensures forall x :: x in FirstOccurrencesFrom(s, from) <==> x in s && from <= IndexOf(s, x)
  {
    if from < |s| {
      FirstOccurrencesFromMembers(s, from + 1);
    }
  }

  /** The kept elements appear in the order of their first occurrences. */
  lemma {:induction false} FirstOccurrencesFromOrdered<T(!new)>(s: seq<T>, from: nat)
    requires from <= |s|
    decreases |s| - from
    ensures forall i, j :: 0 <= i < j < |FirstOccurrencesFrom(s, from)| ==>
      IndexOf(s, FirstOccurrencesFrom(s, from)[i]) < IndexOf(s, FirstOccurrencesFrom(s, from)[j])
  {
    if from < |s| {
      FirstOccurrencesFromOrdered(s, from + 1);
      var rest := FirstOccurrencesFrom(s, from + 1);
      if IndexOf(s, s[from]) == from {
        var r := [s[from]] + rest;
        assert FirstOccurrencesFrom(s, from) == r;
        forall i, j | 0 <= i < j < |r| ensures IndexOf(s, r[i]) < IndexOf(s, r[j]) {
          assert r[j] == rest[j - 1];
          if i > 0 {
            assert r[i] == rest[i - 1];
          }
        }
      }
    }
  }

  /**
   * The deduplication idiom on the whole sequence: every element of `s`
   * exactly once, in the order of its first occurrence.
   */
  function FirstOccurrences<T(==,!new)>(s: seq<T>): (r: seq<T>)
    ensures forall x :: x in r <==> x in s
    ensures NoDuplicates(r)
    ensures forall i, j :: 0 <= i < j < |r| ==> IndexOf(s, r[i]) < IndexOf(s, r[j])
  {
    FirstOccurrencesFromMembers(s, 0);
    FirstOccurrencesFromOrdered(s, 0);
    var r := FirstOccurrencesFrom(s, 0);
    assert forall i, j :: 0 <= i < j < |r| ==> IndexOf(s, r[i]) < IndexOf(s, r[j]);
    r
  }
}
