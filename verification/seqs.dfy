/** Order-preserving filtering of sequences, the model of JavaScript's
    `Array.prototype.filter` and of a store query that scans its
    collection in order. */
module Seqs {

  /** `r` can be obtained from `s` by deleting elements: nothing is
      reordered and nothing is duplicated. */
  predicate IsSubsequence<T(==)>(r: seq<T>, s: seq<T>)
    decreases |s|
  {
    if |r| == 0 then true
    else if |s| == 0 then false
    else (r[0] == s[0] && IsSubsequence(r[1..], s[1..])) || IsSubsequence(r, s[1..])
  }

  /** The elements of `s` that satisfy `p`, in their original order. */
  function Filter<T(==)>(p: T -> bool, s: seq<T>): (r: seq<T>)
    ensures |r| <= |s|
    ensures forall i :: 0 <= i < |r| ==> r[i] in s && p(r[i])
    ensures forall i :: 0 <= i < |s| && p(s[i]) ==> s[i] in r
    decreases |s|
  {
    if |s| == 0 then []
    else if p(s[0]) then [s[0]] + Filter(p, s[1..])
    else Filter(p, s[1..])
  }

  /** Filtering keeps the survivors in order and never duplicates one. */
  lemma {:induction false} FilterIsSubsequence<T>(p: T -> bool, s: seq<T>)
    ensures IsSubsequence(Filter(p, s), s)
    decreases |s|
  {
    if |s| > 0 {
      FilterIsSubsequence(p, s[1..]);
      var r := Filter(p, s);
      if p(s[0]) {
        assert r[0] == s[0] && r[1..] == Filter(p, s[1..]);
      }
    }
  }

  /** The conjunction of two tests. */
  function And<T>(p: T -> bool, q: T -> bool): T -> bool
  {
    x => p(x) && q(x)
  }

  /** Two filtering passes are one pass with the conjunction of the tests. */
  lemma {:induction false} FilterFilter<T>(p: T -> bool, q: T -> bool, s: seq<T>)
    ensures Filter(q, Filter(p, s)) == Filter(And(p, q), s)
    decreases |s|
  {
    if |s| > 0 {
      FilterFilter(p, q, s[1..]);
      if p(s[0]) {
        assert Filter(p, s) == [s[0]] + Filter(p, s[1..]);
        assert Filter(p, s)[1..] == Filter(p, s[1..]);
      }
    }
  }

  /** A filter whose test every element passes changes nothing. */
  lemma {:induction false} FilterKeepsAll<T>(p: T -> bool, s: seq<T>)
    requires forall i :: 0 <= i < |s| ==> p(s[i])
    ensures Filter(p, s) == s
    decreases |s|
  {
    if |s| > 0 {
      FilterKeepsAll(p, s[1..]);
      assert [s[0]] + s[1..] == s;
    }
  }

  /** A filter whose test no element passes keeps nothing. */
  lemma FilterDropsAll<T>(p: T -> bool, s: seq<T>)
    requires forall i :: 0 <= i < |s| ==> !p(s[i])
    ensures Filter(p, s) == []
  {
  }

  /** Filtering keeps every copy of an element that passes and no copy
      of one that fails. */
  lemma {:induction false} FilterMultiset<T>(p: T -> bool, s: seq<T>, x: T)
    ensures multiset(Filter(p, s))[x] == if p(x) then multiset(s)[x] else 0
    decreases |s|
  {
    if |s| > 0 {
      var t := s[1..];
      FilterMultiset(p, t, x);
      assert s == [s[0]] + t;
      assert multiset(s) == multiset{s[0]} + multiset(t);
      if p(s[0]) {
        assert Filter(p, s) == [s[0]] + Filter(p, t);
        assert multiset(Filter(p, s)) == multiset{s[0]} + multiset(Filter(p, t));
      } else {
        assert Filter(p, s) == Filter(p, t);
      }
    }
  }

  /** `FilterMultiset` for every element at once. */
  lemma FilterMultisets<T>(p: T -> bool, s: seq<T>)
    ensures forall x :: multiset(Filter(p, s))[x] == if p(x) then multiset(s)[x] else 0
  {
    forall x
      ensures multiset(Filter(p, s))[x] == if p(x) then multiset(s)[x] else 0
    {
      FilterMultiset(p, s, x);
    }
  }

  /** Filtering distributes over concatenation. */
  lemma {:induction false} FilterAppend<T>(p: T -> bool, a: seq<T>, b: seq<T>)
    ensures Filter(p, a + b) == Filter(p, a) + Filter(p, b)
    decreases |a|
  {
    if |a| == 0 {
      assert a + b == b;
    } else {
      var ab := a + b;
      assert ab[0] == a[0];
      assert ab[1..] == a[1..] + b;
      FilterAppend(p, a[1..], b);
      if p(a[0]) {
        assert Filter(p, ab) == [a[0]] + (Filter(p, a[1..]) + Filter(p, b));
        assert Filter(p, a) == [a[0]] + Filter(p, a[1..]);
      } else {
        assert Filter(p, ab) == Filter(p, a[1..]) + Filter(p, b);
        assert Filter(p, a) == Filter(p, a[1..]);
      }
    }
  }

  /** When every element passes at least one of two tests, the two
      filters together keep at least as many elements as there are. */
  lemma {:induction false} FilterCover<T>(p: T -> bool, q: T -> bool, s: seq<T>)
    requires forall i :: 0 <= i < |s| ==> p(s[i]) || q(s[i])
    ensures |Filter(p, s)| + |Filter(q, s)| >= |s|
    decreases |s|
  {
    if |s| > 0 {
      FilterCover(p, q, s[1..]);
    }
  }

  /** Deleting the element at index `i` removes one occurrence of it
      from the multiset. */
  lemma RemoveAtMultiset<T>(t: seq<T>, i: int)
    requires 0 <= i < |t|
    ensures multiset(t[..i] + t[i + 1..]) == multiset(t) - multiset{t[i]}
  {
    assert t == t[..i] + [t[i]] + t[i + 1..];
    assert multiset(t) == multiset(t[..i]) + multiset{t[i]} + multiset(t[i + 1..]);
  }

  /** Deleting the element at index `i` loses one survivor of the filter
      exactly when that element passes the test. */
  lemma RemoveAtFilterCount<T>(p: T -> bool, t: seq<T>, i: int)
    requires 0 <= i < |t|
    ensures |Filter(p, t)| == |Filter(p, t[..i] + t[i + 1..])| + (if p(t[i]) then 1 else 0)
  {
    assert t == t[..i] + ([t[i]] + t[i + 1..]);
    FilterAppend(p, t[..i], [t[i]] + t[i + 1..]);
    FilterAppend(p, [t[i]], t[i + 1..]);
    FilterAppend(p, t[..i], t[i + 1..]);
  }

  /** An element of the multiset of `t` occurs at some index of `t`. */
  lemma IndexOf<T>(t: seq<T>, v: T) returns (i: int)
    requires v in multiset(t)
    ensures 0 <= i < |t| && t[i] == v
  {
    assert v in t;
    i :| 0 <= i < |t| && t[i] == v;
  }

  /** Matching the head of `s` with an occurrence in a rearrangement `t`
      leaves two rearrangements of each other. */
  lemma PermutationTail<T>(s: seq<T>, t: seq<T>, i: int)
    requires multiset(s) == multiset(t)
    requires 0 < |s| && 0 <= i < |t| && t[i] == s[0]
    ensures multiset(s[1..]) == multiset(t[..i] + t[i + 1..])
  {
    assert s == [s[0]] + s[1..];
    assert multiset(s) == multiset{s[0]} + multiset(s[1..]);
    assert multiset(s[1..]) == multiset(s) - multiset{s[0]};
    RemoveAtMultiset(t, i);
  }

  /** How many elements pass a test depends only on the multiset of the
      sequence, not on its order. */
  lemma {:induction false} FilterCountPermutation<T>(p: T -> bool, s: seq<T>, t: seq<T>)
    requires multiset(s) == multiset(t)
    ensures |Filter(p, s)| == |Filter(p, t)|
    decreases |s|
  {
    if |s| == 0 {
      assert |t| == |multiset(t)| == 0;
    } else {
      assert s[0] in multiset(s);
      var i := IndexOf(t, s[0]);
      PermutationTail(s, t, i);
      FilterCountPermutation(p, s[1..], t[..i] + t[i + 1..]);
      RemoveAtFilterCount(p, t, i);
    }
  }

  /** A subsequence of a subsequence is a subsequence. */
  lemma {:induction false} SubsequenceTrans<T>(a: seq<T>, b: seq<T>, c: seq<T>)
    requires IsSubsequence(a, b) && IsSubsequence(b, c)
    ensures IsSubsequence(a, c)
    decreases |c|
  {
    if |a| > 0 && |c| > 0 {
      if b[0] == c[0] && IsSubsequence(b[1..], c[1..]) {
        if a[0] == b[0] && IsSubsequence(a[1..], b[1..]) {
          SubsequenceTrans(a[1..], b[1..], c[1..]);
        } else {
          SubsequenceTrans(a, b[1..], c[1..]);
        }
      } else {
        SubsequenceTrans(a, b, c[1..]);
      }
    }
  }

  /** Filters whose tests agree on every element keep the same elements. */
  lemma {:induction false} FilterExtensional<T>(p: T -> bool, q: T -> bool, s: seq<T>)
    requires forall i :: 0 <= i < |s| ==> p(s[i]) == q(s[i])
    ensures Filter(p, s) == Filter(q, s)
    decreases |s|
  {
    if |s| > 0 {
      FilterExtensional(p, q, s[1..]);
    }
  }
}
