/** The median key of two sorted arrays, by binary search on one cut position. */
module Median {
  import opened Keys

  ghost predicate Ascending(s: seq<Key>) {
    forall i, j :: 0 <= i < j < |s| ==> s[i] <= s[j]
  }

  /** `m` has rank `r` (counted from one) in the multiset union of two sorted arrays: fewer than
      `r` elements are below it and at least `r` are not above it. */
  ghost predicate HasRank(a: seq<Key>, b: seq<Key>, m: Key, r: nat) {
    && (m in a || m in b)
    && LowerBound(a, m) + LowerBound(b, m) < r <= UpperBound(a, m) + UpperBound(b, m)
  }

  /** Exactly the elements of `s` up to position `p` lie on the left of the cut. */
  lemma CutBounds(s: seq<Key>, p: nat, m: Key)
    requires Ascending(s) && p <= |s|
    requires p > 0 ==> s[p - 1] <= m
    requires p < |s| ==> m <= s[p]
    ensures LowerBound(s, m) <= p <= UpperBound(s, m)
    ensures p > 0 && s[p - 1] == m ==> LowerBound(s, m) < p
  {
    var lb, ub := LowerBound(s, m), UpperBound(s, m);
    assert forall i :: 0 <= i < p ==> s[i] <= s[p - 1];
  }

  /** A cut of both arrays whose left parts do not exceed its right parts ends at the element
      whose rank is the number of elements on its left. */
  lemma CutIsMedian(a: seq<Key>, b: seq<Key>, x: nat, y: nat, m: Key)
    requires Ascending(a) && Ascending(b) && x <= |a| && y <= |b| && 0 < x + y
    requires x > 0 ==> a[x - 1] <= m
    requires y > 0 ==> b[y - 1] <= m
    requires x < |a| && y > 0 ==> b[y - 1] <= a[x]
    requires y < |b| && x > 0 ==> a[x - 1] <= b[y]
    requires (x > 0 && m == a[x - 1]) || (y > 0 && m == b[y - 1])
    ensures HasRank(a, b, m, x + y)
  {
    assert x < |a| ==> m <= a[x];
    assert y < |b| ==> m <= b[y];
    CutBounds(a, x, m);
    CutBounds(b, y, m);
  }

  lemma RankEitherWay(a: seq<Key>, b: seq<Key>, r: nat)
    ensures forall m :: HasRank(a, b, m, r) ==> HasRank(b, a, m, r)
  {
  }

  /** findMedianKey: for two sorted prefixes it returns the element of rank ceil(n / 2) of their
      union. The search never leaves the arrays and never runs out of cut positions, so the
      error at its end is unreachable. */
  method FindMedianKey(first: seq<Key>, second: seq<Key>) returns (median: Key)
    requires Ascending(first) && Ascending(second)
    ensures 0 < |first| + |second| ==> HasRank(first, second, median, (|first| + |second| + 1) / 2)
    decreases |first| > |second|
  {
    hide Ascending, HasRank, LowerBound, UpperBound;
    if |first| > |second| {
      RankEitherWay(second, first, (|first| + |second| + 1) / 2);
      median := FindMedianKey(second, first);
      return;
    }
    var low, high := 0, |first|;
    var half := (|first| + |second| + 1) / 2;
    median := 0;
    while low <= high
      invariant 0 <= low <= high + 1 && low <= |first| && 0 <= high <= |first|
      invariant 0 < low ==> low <= half && half - low < |second| && first[low - 1] < second[half - low]
      invariant high < |first| ==> second[half - (high + 1)] < first[high]
      decreases high + 1 - low
    {
      var partX := (low + high) / 2;
      var partY := half - partX;
      var leftX: Key := if partX == 0 then 0 else first[partX - 1];
      var rightX: Key := if partX >= |first| then MAX_KEY else first[partX];
      var leftY: Key := if partY == 0 then 0 else second[partY - 1];
      var rightY: Key := if partY >= |second| then MAX_KEY else second[partY];
      if leftX <= rightY && leftY <= rightX {
        median := if leftX < leftY then leftY else leftX;
        if 0 < |first| + |second| {
          CutIsMedian(first, second, partX, partY, median);
        }
        return;
      }
      if leftX > rightY {
        high := partX - 1;
      } else {
        low := partX + 1;
      }
    }
    assert false;
  }
}
