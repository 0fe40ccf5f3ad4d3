/** Sequence vocabulary shared by the pages: `Array.prototype.filter`, order-preserving
    subsequences, duplicate-free sequences and first occurrences. */
module Seqs {

  /** `s.filter(keep)`: the elements of `s` that satisfy `keep`, in their order. */
  function Filter<T(!new)>(s: seq<T>, keep: T -> bool): (r: seq<T>)
    ensures |r| <= |s|
    ensures forall k :: 0 <= k < |r| ==> r[k] in s && keep(r[k])
    ensures forall k :: 0 <= k < |s| && keep(s[k]) ==> s[k] in r
    ensures forall x {:trigger multiset(r)[x]} :: multiset(r)[x] == if keep(x) then multiset(s)[x] else 0
    decreases |s|
  {
    if s == [] then []
    else
      var head := if keep(s[0]) then [s[0]] else [];
      var rest := Filter(s[1..], keep);
      FilterCountsStep(s, keep, head, rest);
      head + rest
  }

  /** The multiplicities kept by `Filter` carry over from the tail to the whole
      sequence. */
  lemma FilterCountsStep<T(!new)>(s: seq<T>, keep: T -> bool, head: seq<T>, rest: seq<T>)
    requires s != [] && head == if keep(s[0]) then [s[0]] else []
    requires forall x {:trigger multiset(rest)[x]} :: multiset(rest)[x] == if keep(x) then multiset(s[1..])[x] else 0
    ensures forall x {:trigger multiset(head + rest)[x]} :: multiset(head + rest)[x] == if keep(x) then multiset(s)[x] else 0
  {
    assert s == [s[0]] + s[1..];
    assert multiset(s) == multiset([s[0]]) + multiset(s[1..]);
    assert multiset(head + rest) == multiset(head) + multiset(rest);
  }

  /** `a` can be read off `b` left to right, skipping some elements of `b`. */
  predicate IsSubsequence<T(==)>(a: seq<T>, b: seq<T>)
    decreases |b|
  {
    if a == [] then true
    else if b == [] then false
    else if a[0] == b[0] then IsSubsequence(a[1..], b[1..])
    else IsSubsequence(a, b[1..])
  }

  /** Allowing one more element at the front of `b` keeps `a` a subsequence. */
  lemma {:induction false} SubsequenceOfTail<T>(a: seq<T>, b: seq<T>)
    requires |b| > 0 && IsSubsequence(a, b[1..])
    ensures IsSubsequence(a, b)
    decreases |b|, 0
  {
    if a != [] && a[0] == b[0] {
      SubsequenceDropFirst(a, b[1..]);
    }
  }

  /** Dropping the first element of a subsequence leaves a subsequence. */
  lemma {:induction false} SubsequenceDropFirst<T>(a: seq<T>, c: seq<T>)
    requires a != [] && IsSubsequence(a, c)
    ensures IsSubsequence(a[1..], c)
    decreases |c|, 1
  {
    if a[0] != c[0] {
      SubsequenceDropFirst(a, c[1..]);
    }
    if a[1..] != [] {
      SubsequenceOfTail(a[1..], c);
    }
  }

  /** Filtering keeps the survivors in their original order. */
  lemma {:induction false} FilterIsSubsequence<T(!new)>(s: seq<T>, keep: T -> bool)
    ensures IsSubsequence(Filter(s, keep), s)
    decreases |s|
  {
    if s != [] {
      FilterIsSubsequence(s[1..], keep);
      var rest := Filter(s[1..], keep);
      if keep(s[0]) {
        assert Filter(s, keep) == [s[0]] + rest;
        assert ([s[0]] + rest)[1..] == rest;
      } else {
        assert Filter(s, keep) == rest;
        SubsequenceOfTail(rest, s);
      }
    }
  }

  /** Everything `keep` accepts survives: filtering with an always-true test
      changes nothing. */
  lemma {:induction false} FilterKeepsAll<T(!new)>(s: seq<T>, keep: T -> bool)
    requires forall k :: 0 <= k < |s| ==> keep(s[k])
    ensures Filter(s, keep) == s
    decreases |s|
  {
    if s != [] {
      FilterKeepsAll(s[1..], keep);
    }
  }

  /** Two filters in a row are one filter with the conjunction of the tests. */
  lemma {:induction false} FilterFilter<T(!new)>(s: seq<T>, f: T -> bool, g: T -> bool, fg: T -> bool)
    requires forall x :: fg(x) == (f(x) && g(x))
    ensures Filter(Filter(s, f), g) == Filter(s, fg)
    decreases |s|
  {
    if s != [] {
      FilterFilter(s[1..], f, g, fg);
      var rest := Filter(s[1..], f);
      if f(s[0]) {
        assert Filter(s, f) == [s[0]] + rest;
        assert ([s[0]] + rest)[1..] == rest;
        assert Filter([s[0]] + rest, g) == (if g(s[0]) then [s[0]] else []) + Filter(rest, g);
      } else {
        assert Filter(s, f) == rest;
      }
    }
  }

  predicate NoDuplicates<T(==)>(s: seq<T>)
  {
    forall i, j :: 0 <= i < j < |s| ==> s[i] != s[j]
  }

  /** The index of the first occurrence of `x` in `s`. */
  function FirstIndex<T(==)>(s: seq<T>, x: T): (k: nat)
    requires x in s
    ensures k < |s| && s[k] == x
    ensures forall i :: 0 <= i < k ==> s[i] != x
    decreases |s|
  {
    if s[0] == x then 0 else 1 + FirstIndex(s[1..], x)
  }

  /** The distinct elements of `s` in the order in which they first occur (what
      inserting into a JavaScript `Set` and reading it back with `Array.from` gives). */
  function Distinct<T(==)>(s: seq<T>): (r: seq<T>)
    ensures NoDuplicates(r)
    ensures forall k :: 0 <= k < |r| ==> r[k] in s
    ensures forall k :: 0 <= k < |s| ==> s[k] in r
    decreases |s|
  {
    if s == [] then []
    else
      var d := Distinct(s[..|s| - 1]);
      if s[|s| - 1] in d then d else d + [s[|s| - 1]]
  }

  /** An element of the prefix `s[..|s| - 1]` first occurs in `s` where it first
      occurs in the prefix. */
  lemma FirstIndexInInit<T>(s: seq<T>, x: T)
    requires |s| > 0 && x in s[..|s| - 1]
    ensures FirstIndex(s, x) == FirstIndex(s[..|s| - 1], x)
  {
    var init := s[..|s| - 1];
    var k := FirstIndex(init, x);
    assert s[k] == x;
    assert forall i :: 0 <= i < k ==> s[i] == init[i];
  }

  /** `Distinct` lists elements by increasing index of first occurrence. */
  lemma {:induction false} DistinctFirstOccurrenceOrder<T>(s: seq<T>)
    ensures forall i, j :: 0 <= i < j < |Distinct(s)| ==>
      FirstIndex(s, Distinct(s)[i]) < FirstIndex(s, Distinct(s)[j])
    decreases |s|
  {
    if s != [] {
      var init := s[..|s| - 1];
      var last := s[|s| - 1];
      var d := Distinct(init);
      DistinctFirstOccurrenceOrder(init);
      forall k | 0 <= k < |d| ensures FirstIndex(s, d[k]) == FirstIndex(init, d[k]) {
        FirstIndexInInit(s, d[k]);
      }
      if last !in d {
        assert last !in init;
        assert FirstIndex(s, last) == |s| - 1;
        assert Distinct(s) == d + [last];
      } else {
        assert Distinct(s) == d;
      }
    }
  }

  /** Proof helper, not a property of the page: regroups a concatenation, so
      that a loop can name the regrouped sequence as one term. */
  lemma AppendAssoc<T>(a: seq<T>, b: seq<T>, c: seq<T>)
    ensures (a + b) + c == a + (b + c)
  {
  }
}
