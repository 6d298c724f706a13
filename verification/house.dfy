/** The listing record of the house collection and its static helper
    `calculateMedianPrice`, which turns a list of prices into the
    benchmark of a search. */
module House {
  import opened Wrappers
  import Seqs
  import Sorting

  /** A GeoJSON point; coordinates are stored longitude first. */
  datatype Point = Point(lng: real, lat: real)

  /** One stored listing. `address`, `price` and `location` are required
      by the schema, the remaining attributes may be missing. `id` is the
      identifier the store assigns to every document. */
  datatype Listing = Listing(
    id: nat,
    address: string,
    price: real,
    location: Point,
    bedrooms: Option<real>,
    bathrooms: Option<real>,
    sqft: Option<real>,
    propertyType: Option<string>,
    listingUrl: Option<string>)

  /** The median of a price list: the middle value of an ascending copy
      for an odd count, the mean of the two middle values for an even
      count, and 0 for a missing or empty list. The caller's list is never
      reordered: sorting works on a copy. */
  function CalculateMedianPrice(prices: Option<seq<real>>): (r: real)
    ensures prices.None? ==> r == 0.0
    ensures prices.Some? && |prices.value| == 0 ==> r == 0.0
    ensures prices.Some? && |prices.value| == 1 ==> r == prices.value[0]
  {
    if prices.None? || |prices.value| == 0 then 0.0
    else Middle(Sorting.Sort(prices.value))
  }

  /** The middle entry of a non-empty list, or the mean of its two middle
      entries when its length is even. */
  function Middle(sorted: seq<real>): real
    requires |sorted| > 0
  {
    var mid := |sorted| / 2;
    if |sorted| % 2 == 0 then (sorted[mid - 1] + sorted[mid]) / 2.0
    else sorted[mid]
  }

  /** The benchmark read off the ascending copy of a non-empty list. */
  lemma {:induction false} MedianOfSortedCopy(s: seq<real>)
    requires |s| > 0
    ensures var t := Sorting.Sort(s);
      && (|s| % 2 == 1 ==> CalculateMedianPrice(Some(s)) == t[|s| / 2])
      && (|s| % 2 == 0 ==> CalculateMedianPrice(Some(s)) == (t[|s| / 2 - 1] + t[|s| / 2]) / 2.0)
  {
    if |s| % 2 == 1 {
      var k := |s| / 2;
      assert |s| == 2 * k + 1;
      SortedCopyOdd(s, k);
    } else {
      var k := |s| / 2 - 1;
      assert |s| == 2 * k + 2;
      SortedCopyEven(s, k);
    }
  }

  /** `MedianOfSortedCopy` for an odd length `2k + 1`. */
  lemma SortedCopyOdd(s: seq<real>, k: nat)
    requires |s| == 2 * k + 1
    ensures CalculateMedianPrice(Some(s)) == Sorting.Sort(s)[k]
  {
    assert CalculateMedianPrice(Some(s)) == Middle(Sorting.Sort(s));
    MiddleOfOdd(Sorting.Sort(s), k);
  }

  /** `MedianOfSortedCopy` for an even length `2k + 2`. */
  lemma SortedCopyEven(s: seq<real>, k: nat)
    requires |s| == 2 * k + 2
    ensures CalculateMedianPrice(Some(s)) == (Sorting.Sort(s)[k] + Sorting.Sort(s)[k + 1]) / 2.0
  {
    assert CalculateMedianPrice(Some(s)) == Middle(Sorting.Sort(s));
    MiddleOfEven(Sorting.Sort(s), k);
  }

  /** The middle of a list of odd length `2k + 1` is entry `k`. */
  lemma MiddleOfOdd(t: seq<real>, k: nat)
    requires |t| == 2 * k + 1
    ensures Middle(t) == t[k]
  {
    assert |t| / 2 == k && |t| % 2 == 1;
  }

  /** The middle of a list of even length `2k + 2` is the mean of
      entries `k` and `k + 1`. */
  lemma MiddleOfEven(t: seq<real>, k: nat)
    requires |t| == 2 * k + 2
    ensures Middle(t) == (t[k] + t[k + 1]) / 2.0
  {
    assert |t| / 2 == k + 1 && |t| % 2 == 0;
  }

  /** An already ascending list needs no reordering: its benchmark is
      read off its middle positions directly. */
  lemma {:induction false} MedianOfAscending(s: seq<real>)
    requires Sorting.SortedAsc(s) && |s| > 0
    ensures |s| % 2 == 1 ==> CalculateMedianPrice(Some(s)) == s[|s| / 2]
    ensures |s| % 2 == 0 ==> CalculateMedianPrice(Some(s)) == (s[|s| / 2 - 1] + s[|s| / 2]) / 2.0
  {
    if |s| % 2 == 1 {
      var k := |s| / 2;
      assert |s| == 2 * k + 1;
      AscendingOdd(s, k);
    } else {
      var k := |s| / 2 - 1;
      assert |s| == 2 * k + 2;
      AscendingEven(s, k);
    }
  }

  /** `MedianOfAscending` for an odd length `2k + 1`. */
  lemma AscendingOdd(s: seq<real>, k: nat)
    requires Sorting.SortedAsc(s) && |s| == 2 * k + 1
    ensures CalculateMedianPrice(Some(s)) == s[k]
  {
    Sorting.SortOfSorted(s);
    SortedCopyOdd(s, k);
  }

  /** `MedianOfAscending` for an even length `2k + 2`. */
  lemma AscendingEven(s: seq<real>, k: nat)
    requires Sorting.SortedAsc(s) && |s| == 2 * k + 2
    ensures CalculateMedianPrice(Some(s)) == (s[k] + s[k + 1]) / 2.0
  {
    Sorting.SortOfSorted(s);
    SortedCopyEven(s, k);
  }

  // ---------------------------------------------------------------------
  // An order-statistic reference for the median, independent of sorting.
  // ---------------------------------------------------------------------

  function Below(v: real): real -> bool { x => x < v }

  function Above(v: real): real -> bool { x => x > v }

  /** How many entries of `s` are strictly below `v`. */
  function CountBelow(s: seq<real>, v: real): nat
    decreases |s|
  {
    if |s| == 0 then 0 else (if s[0] < v then 1 else 0) + CountBelow(s[1..], v)
  }

  /** How many entries of `s` are strictly above `v`. */
  function CountAbove(s: seq<real>, v: real): nat
    decreases |s|
  {
    if |s| == 0 then 0 else (if s[0] > v then 1 else 0) + CountAbove(s[1..], v)
  }

  /** The counts are the sizes of the corresponding filters. */
  lemma {:induction false} CountsAreFilters(s: seq<real>, v: real)
    ensures CountBelow(s, v) == |Seqs.Filter(Below(v), s)|
    ensures CountAbove(s, v) == |Seqs.Filter(Above(v), s)|
    decreases |s|
  {
    if |s| > 0 {
      CountsAreFilters(s[1..], v);
    }
  }

  /** `v` is the `k`-th smallest entry of `s` (counting from 0): it occurs
      in `s`, at most `k` entries are smaller and at most `|s| - 1 - k`
      entries are larger. */
  ghost predicate IsKthSmallest(s: seq<real>, k: int, v: real)
  {
    0 <= k < |s| && v in s && CountBelow(s, v) <= k && CountAbove(s, v) <= |s| - 1 - k
  }

  /** The smallest entry of a non-empty list. */
  function Min(s: seq<real>): (m: real)
    requires |s| > 0
    ensures m in s
    ensures forall i :: 0 <= i < |s| ==> m <= s[i]
  {
    if |s| == 1 then s[0]
    else
      var rest := Min(s[1..]);
      assert forall i :: 1 <= i < |s| ==> s[i] == s[1..][i - 1];
      if s[0] <= rest then s[0] else rest
  }

  /** The largest entry of a non-empty list. */
  function Max(s: seq<real>): (m: real)
    requires |s| > 0
    ensures m in s
    ensures forall i :: 0 <= i < |s| ==> s[i] <= m
  {
    if |s| == 1 then s[0]
    else
      var rest := Max(s[1..]);
      assert forall i :: 1 <= i < |s| ==> s[i] == s[1..][i - 1];
      if s[0] >= rest then s[0] else rest
  }

  /** A k-th smallest value is unique. */
  lemma {:induction false} KthSmallestUnique(s: seq<real>, k: int, v: real, w: real)
    requires IsKthSmallest(s, k, v) && IsKthSmallest(s, k, w)
    ensures v == w
  {
    if v < w {
      CountsAreFilters(s, v);
      CountsAreFilters(s, w);
      Seqs.FilterCover(Below(w), Above(v), s);
    } else if w < v {
      CountsAreFilters(s, v);
      CountsAreFilters(s, w);
      Seqs.FilterCover(Below(v), Above(w), s);
    }
  }

  /** In an ascending list, at most `k` entries lie below entry `k` and at
      most `|t| - 1 - k` entries lie above it. */
  lemma {:induction false} SortedCounts(t: seq<real>, k: int)
    requires Sorting.SortedAsc(t)
    requires 0 <= k < |t|
    ensures CountBelow(t, t[k]) <= k
    ensures CountAbove(t, t[k]) <= |t| - 1 - k
  {
    SortedCountBelow(t, k);
    SortedCountAbove(t, k);
  }

  /** Only the entries before position `k` of an ascending list can lie
      below entry `k`. */
  lemma SortedCountBelow(t: seq<real>, k: int)
    requires Sorting.SortedAsc(t)
    requires 0 <= k < |t|
    ensures CountBelow(t, t[k]) <= k
  {
    var v := t[k];
    var front, back := t[..k], t[k..];
    assert t == front + back;
    assert forall i :: 0 <= i < |back| ==> !Below(v)(back[i]) by {
      forall i | 0 <= i < |back|
        ensures !Below(v)(back[i])
      {
        assert back[i] == t[k + i];
      }
    }
    Seqs.FilterDropsAll(Below(v), back);
    Seqs.FilterAppend(Below(v), front, back);
    CountsAreFilters(t, v);
  }

  /** Only the entries after position `k` of an ascending list can lie
      above entry `k`. */
  lemma SortedCountAbove(t: seq<real>, k: int)
    requires Sorting.SortedAsc(t)
    requires 0 <= k < |t|
    ensures CountAbove(t, t[k]) <= |t| - 1 - k
  {
    var v := t[k];
    var front, back := t[..k + 1], t[k + 1..];
    assert t == front + back;
    assert forall i :: 0 <= i < |front| ==> !Above(v)(front[i]) by {
      forall i | 0 <= i < |front|
        ensures !Above(v)(front[i])
      {
        assert front[i] == t[i];
      }
    }
    Seqs.FilterDropsAll(Above(v), front);
    Seqs.FilterAppend(Above(v), front, back);
    CountsAreFilters(t, v);
  }

  /** A rearrangement has the same k-th smallest values. */
  lemma {:induction false} KthSmallestPermutation(s: seq<real>, t: seq<real>, k: int, v: real)
    requires multiset(s) == multiset(t)
    requires IsKthSmallest(t, k, v)
    ensures IsKthSmallest(s, k, v)
  {
    assert |s| == |multiset(s)| == |t|;
    assert v in multiset(s);
    CountsAreFilters(s, v);
    CountsAreFilters(t, v);
    Seqs.FilterCountPermutation(Below(v), s, t);
    Seqs.FilterCountPermutation(Above(v), s, t);
  }

  /** Entry `k` of the ascending copy is the `k`-th smallest entry. */
  lemma {:induction false} SortedIsKthSmallest(s: seq<real>, k: int)
    requires 0 <= k < |s|
    ensures IsKthSmallest(s, k, Sorting.Sort(s)[k])
  {
    var t := Sorting.Sort(s);
    SortedCounts(t, k);
    KthSmallestPermutation(s, t, k, t[k]);
  }

  /** The `k`-th smallest value is entry `k` of the ascending copy. */
  lemma {:induction false} KthSmallestIsSorted(s: seq<real>, k: int, v: real)
    requires IsKthSmallest(s, k, v)
    ensures v == Sorting.Sort(s)[k]
  {
    SortedIsKthSmallest(s, k);
    KthSmallestUnique(s, k, v, Sorting.Sort(s)[k]);
  }

  /** Every position of a non-empty list has a k-th smallest value. */
  lemma {:induction false} KthSmallestExists(s: seq<real>, k: int)
    requires 0 <= k < |s|
    ensures exists v :: IsKthSmallest(s, k, v)
  {
    SortedIsKthSmallest(s, k);
  }

  /** For an odd count the benchmark is the middle order statistic. */
  lemma {:induction false} MedianOdd(s: seq<real>, m: real)
    requires |s| % 2 == 1
    requires IsKthSmallest(s, |s| / 2, m)
    ensures CalculateMedianPrice(Some(s)) == m
  {
    KthSmallestIsSorted(s, |s| / 2, m);
    MedianOfSortedCopy(s);
  }

  /** For an even, non-zero count the benchmark is the mean of the two
      middle order statistics. */
  lemma {:induction false} MedianEven(s: seq<real>, lo: real, hi: real)
    requires |s| > 0 && |s| % 2 == 0
    requires IsKthSmallest(s, |s| / 2 - 1, lo)
    requires IsKthSmallest(s, |s| / 2, hi)
    ensures CalculateMedianPrice(Some(s)) == (lo + hi) / 2.0
  {
    var k := |s| / 2 - 1;
    assert |s| == 2 * k + 2;
    MedianEvenAt(s, k, lo, hi);
  }

  /** `MedianEven` with the lower middle position `k` named. */
  lemma MedianEvenAt(s: seq<real>, k: nat, lo: real, hi: real)
    requires |s| == 2 * k + 2
    requires IsKthSmallest(s, k, lo) && IsKthSmallest(s, k + 1, hi)
    ensures CalculateMedianPrice(Some(s)) == (lo + hi) / 2.0
  {
    KthSmallestIsSorted(s, k, lo);
    KthSmallestIsSorted(s, k + 1, hi);
    MeanOfMiddle(s, k, lo, hi);
  }

  /** The even case read off the two middle entries of the ascending copy. */
  lemma MeanOfMiddle(s: seq<real>, k: nat, lo: real, hi: real)
    requires |s| == 2 * k + 2
    requires lo == Sorting.Sort(s)[k] && hi == Sorting.Sort(s)[k + 1]
    ensures CalculateMedianPrice(Some(s)) == (lo + hi) / 2.0
  {
    SortedCopyEven(s, k);
  }

  /** The benchmark of a non-empty list lies between its smallest and its
      largest price. */
  lemma {:induction false} MedianBounds(s: seq<real>)
    requires |s| > 0
    ensures Min(s) <= CalculateMedianPrice(Some(s)) <= Max(s)
  {
    var t := Sorting.Sort(s);
    var mid := |t| / 2;
    MedianOfSortedCopy(s);
    assert t[mid] in multiset(s);
    assert t[mid] in s;
    if |t| % 2 == 0 {
      assert t[mid - 1] in multiset(s);
      assert t[mid - 1] in s;
    }
  }

  /** The benchmark depends only on the multiset of prices: any
      rearrangement of the list yields the same value. */
  lemma {:induction false} MedianPermutation(s: seq<real>, t: seq<real>)
    requires multiset(s) == multiset(t)
    ensures CalculateMedianPrice(Some(s)) == CalculateMedianPrice(Some(t))
  {
    assert |s| == |t| by {
      assert |s| == |multiset(s)|;
      assert |t| == |multiset(t)|;
    }
    Sorting.SortPermutation(s, t);
  }
}
