/** Ascending numeric sort on a copy of a price list, the model of
    `[...prices].sort((a, b) => a - b)`. */
module Sorting {

  predicate SortedAsc(s: seq<real>)
  {
    forall i, j :: 0 <= i < j < |s| ==> s[i] <= s[j]
  }

  /** Prefixing an ascending list with a value no larger than its head
      keeps it ascending. */
  lemma {:induction false} ConsSorted(v: real, t: seq<real>)
    requires SortedAsc(t)
    requires |t| > 0 ==> v <= t[0]
    ensures SortedAsc([v] + t)
  {
    forall i, j | 0 <= i < j < |t| + 1
      ensures ([v] + t)[i] <= ([v] + t)[j]
    {
      if i > 0 {
        assert ([v] + t)[i] == t[i - 1];
      }
      assert ([v] + t)[j] == t[j - 1];
    }
  }

  /** Places `x` into an already sorted list. */
  function Insert(x: real, s: seq<real>): (r: seq<real>)
    requires SortedAsc(s)
    ensures |r| == |s| + 1
    ensures r[0] == (if |s| == 0 || x <= s[0] then x else s[0])
    ensures SortedAsc(r)
    ensures multiset(r) == multiset(s) + multiset{x}
    decreases |s|
  {
    if |s| == 0 || x <= s[0] then
      ConsSorted(x, s);
      [x] + s
    else
      SortedTail(s);
      var rest := Insert(x, s[1..]);
      ConsSorted(s[0], rest);
      assert s == [s[0]] + s[1..];
      assert multiset([s[0]] + rest) == multiset{s[0]} + multiset(rest);
      [s[0]] + rest
  }

  /** An ascending arrangement of the same values. */
  function Sort(s: seq<real>): (r: seq<real>)
    ensures |r| == |s|
    ensures SortedAsc(r)
    ensures multiset(r) == multiset(s)
    decreases |s|
  {
    if |s| == 0 then []
    else
      assert s == [s[0]] + s[1..];
      Insert(s[0], Sort(s[1..]))
  }

  /** The first entry of an ascending list is its least value. */
  lemma {:induction false} HeadIsLeast(a: seq<real>, v: real)
    requires SortedAsc(a)
    requires v in multiset(a)
    ensures a[0] <= v
  {
    var i :| 0 <= i < |a| && a[i] == v;
  }

  /** The tail of an ascending list is ascending. */
  lemma {:induction false} SortedTail(a: seq<real>)
    requires SortedAsc(a) && |a| > 0
    ensures SortedAsc(a[1..])
  {
    forall i, j | 0 <= i < j < |a| - 1
      ensures a[1..][i] <= a[1..][j]
    {
      assert a[1..][i] == a[i + 1] && a[1..][j] == a[j + 1];
    }
  }

  /** Dropping the first entry removes one occurrence of it. */
  lemma {:induction false} MultisetTail(a: seq<real>)
    requires |a| > 0
    ensures multiset(a[1..]) == multiset(a) - multiset{a[0]}
  {
    assert a == [a[0]] + a[1..];
  }

  /** Two non-empty ascending arrangements of one multiset start with the
      same value, and what follows is again one multiset. */
  lemma {:induction false} SortedSameHead(a: seq<real>, b: seq<real>)
    requires SortedAsc(a) && SortedAsc(b)
    requires multiset(a) == multiset(b)
    requires |a| > 0 && |b| > 0
    ensures a[0] == b[0]
    ensures multiset(a[1..]) == multiset(b[1..])
  {
    assert a[0] in multiset(a) && b[0] in multiset(b);
    HeadIsLeast(a, b[0]);
    HeadIsLeast(b, a[0]);
    MultisetTail(a);
    MultisetTail(b);
  }

  /** There is only one ascending arrangement of a multiset of numbers, so
      every correct sorting algorithm yields the same sequence. */
  lemma {:induction false} SortedUnique(a: seq<real>, b: seq<real>)
    requires SortedAsc(a) && SortedAsc(b)
    requires multiset(a) == multiset(b)
    ensures a == b
    decreases |a|
  {
    assert |a| == |multiset(a)| == |multiset(b)| == |b|;
    if |a| > 0 {
      SortedSameHead(a, b);
      SortedTail(a);
      SortedTail(b);
      SortedUnique(a[1..], b[1..]);
      assert a == [a[0]] + a[1..];
      assert b == [b[0]] + b[1..];
    }
  }

  /** Sorting a rearrangement gives the same sorted list. */
  lemma {:induction false} SortPermutation(s: seq<real>, t: seq<real>)
    requires multiset(s) == multiset(t)
    ensures Sort(s) == Sort(t)
  {
    SortedUnique(Sort(s), Sort(t));
  }

  /** An already ascending list sorts to itself. */
  lemma {:induction false} SortOfSorted(s: seq<real>)
    requires SortedAsc(s)
    ensures Sort(s) == s
  {
    SortedUnique(Sort(s), s);
  }
}
