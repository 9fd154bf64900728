/** Placing each shock event on the plotted series: the right-biased binary search over
    the sorted timestamps, the offset and clamp that turn it into a row index, and the loop
    that collects the matched value of every event. */
module Alignment {
  import opened Seqs

  /** Timestamps in ascending order, as `sort_values` leaves them. */
  predicate Sorted(xs: seq<int>) {
    forall i, j :: 0 <= i < j < |xs| ==> xs[i] <= xs[j]
  }

  /** Reference meaning of `searchsorted(d, side="right")` on a sorted sequence: the
      number of timestamps at or before `d`. */
  function SearchSorted(xs: seq<int>, d: int): (n: nat)
    ensures n <= |xs|
  {
    Count(xs, x => x <= d)
  }

  /** On sorted timestamps that number splits the sequence: everything before it is at
      or before `d`, everything from it on is after `d`. */
  lemma {:induction false} SearchSortedSplits(xs: seq<int>, d: int)
    requires Sorted(xs)
    ensures forall j :: 0 <= j < SearchSorted(xs, d) ==> xs[j] <= d
    ensures forall j :: SearchSorted(xs, d) <= j < |xs| ==> d < xs[j]
  {
    if xs != [] {
      var rest := xs[1..];
      SearchSortedSplits(rest, d);
      assert SearchSorted(xs, d) == (if xs[0] <= d then 1 else 0) + SearchSorted(rest, d);
      assert forall j :: 1 <= j < |xs| ==> xs[j] == rest[j - 1];
    }
  }

  /** Any split point of sorted timestamps is the count of those at or before `d`. */
  lemma {:induction false} SplitIsSearchSorted(xs: seq<int>, d: int, i: nat)
    requires Sorted(xs) && i <= |xs|
    requires forall j :: 0 <= j < i ==> xs[j] <= d
    requires forall j :: i <= j < |xs| ==> d < xs[j]
    ensures SearchSorted(xs, d) == i
  {
    if xs != [] {
      var rest := xs[1..];
      assert forall j :: 1 <= j < |xs| ==> xs[j] == rest[j - 1];
      assert SearchSorted(xs, d) == (if xs[0] <= d then 1 else 0) + SearchSorted(rest, d);
      if i > 0 {
        SplitIsSearchSorted(rest, d, i - 1);
      } else {
        SplitIsSearchSorted(rest, d, 0);
      }
    }
  }

  /** Counting timestamps at or before a later date never gives fewer. */
  lemma {:induction false} SearchSortedMonotone(xs: seq<int>, d1: int, d2: int)
    requires d1 <= d2
    ensures SearchSorted(xs, d1) <= SearchSorted(xs, d2)
  {
    if xs != [] {
      SearchSortedMonotone(xs[1..], d1, d2);
      assert SearchSorted(xs, d1) == (if xs[0] <= d1 then 1 else 0) + SearchSorted(xs[1..], d1);
      assert SearchSorted(xs, d2) == (if xs[0] <= d2 then 1 else 0) + SearchSorted(xs[1..], d2);
    }
  }

  /** `x_series.searchsorted(d, side="right")`: binary search for the first timestamp
      after `d`. */
  method SearchSortedRight(xs: seq<int>, d: int) returns (i: nat)
    requires Sorted(xs)
    ensures i <= |xs|
    ensures forall j :: 0 <= j < i ==> xs[j] <= d
    ensures forall j :: i <= j < |xs| ==> d < xs[j]
    ensures i == SearchSorted(xs, d)
  {
    var lo, hi := 0, |xs|;
    while lo < hi
      invariant 0 <= lo <= hi <= |xs|
      invariant forall j :: 0 <= j < lo ==> xs[j] <= d
      invariant forall j :: hi <= j < |xs| ==> d < xs[j]
    {
      var mid := (lo + hi) / 2;
      if xs[mid] <= d {
        lo := mid + 1;
      } else {
        hi := mid;
      }
    }
    i := lo;
    SplitIsSearchSorted(xs, d, i);
  }

  function Max(a: int, b: int): int { if a < b then b else a }
  function Min(a: int, b: int): int { if a < b then a else b }

  /** The row an event dated `d` is drawn against:
      `max(0, min(searchsorted(d, side="right") - 1, n - 1))`. */
  function AlignIndex(xs: seq<int>, d: int): (idx: nat)
    requires |xs| > 0
    ensures idx < |xs|
  {
    Max(0, Min(SearchSorted(xs, d) - 1, |xs| - 1))
  }

  /** When some timestamp is at or before `d`, the index picks the latest one: it is at
      or before `d`, the next one (if any) is after `d`, and no timestamp at or before `d`
      is later than it. */
  lemma AlignIndexIsLatest(xs: seq<int>, d: int)
    requires Sorted(xs) && |xs| > 0
    requires exists j :: 0 <= j < |xs| && xs[j] <= d
    ensures xs[AlignIndex(xs, d)] <= d
    ensures AlignIndex(xs, d) == |xs| - 1 || d < xs[AlignIndex(xs, d) + 1]
    ensures forall j :: 0 <= j < |xs| && xs[j] <= d ==> xs[j] <= xs[AlignIndex(xs, d)]
  {
    SearchSortedSplits(xs, d);
    var j :| 0 <= j < |xs| && xs[j] <= d;
    assert SearchSorted(xs, d) > j;
  }

  /** An event earlier than every timestamp is clamped to the first row. */
  lemma AlignIndexBeforeAll(xs: seq<int>, d: int)
    requires Sorted(xs) && |xs| > 0
    requires d < xs[0]
    ensures AlignIndex(xs, d) == 0
  {
    SearchSortedSplits(xs, d);
  }

  /** A later event never lands on an earlier row, so events taken in date order get
      non-decreasing indices, and events on the same date share one. */
  lemma AlignIndexMonotone(xs: seq<int>, d1: int, d2: int)
    requires |xs| > 0 && d1 <= d2
    ensures AlignIndex(xs, d1) <= AlignIndex(xs, d2)
  {
    SearchSortedMonotone(xs, d1, d2);
  }

  /** Days 1 and 32 (1 January and 1 February) carrying the values 100 and 200: the 15th
      of January reads 100, 1 February reads 200, 1 March reads 200, and a day before
      the data reads the first value. */
  lemma ForwardFillExample()
    ensures var ys := [100, 200];
            && ys[AlignIndex([1, 32], 15)] == 100
            && ys[AlignIndex([1, 32], 32)] == 200
            && ys[AlignIndex([1, 32], 60)] == 200
            && ys[AlignIndex([1, 32], 0)] == 100
  {
  }

  /** The loop over the sorted event dates: for each, the value of the series row it is
      aligned with, in event order. */
  method AlignEvents<Y>(xs: seq<int>, ys: seq<Y>, dates: seq<int>) returns (eventY: seq<Y>)
    requires Sorted(xs) && |xs| == |ys| && |xs| > 0
    ensures |eventY| == |dates|
    ensures forall k :: 0 <= k < |dates| ==> eventY[k] == ys[AlignIndex(xs, dates[k])]
  {
    eventY := [];
    for k := 0 to |dates|
      invariant |eventY| == k
      invariant forall m :: 0 <= m < k ==> eventY[m] == ys[AlignIndex(xs, dates[m])]
    {
      var idx: int := SearchSortedRight(xs, dates[k]);
      idx := Max(0, Min(idx - 1, |xs| - 1));
      eventY := eventY + [ys[idx]];
    }
  }
}
