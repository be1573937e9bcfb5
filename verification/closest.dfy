/** The nearest track point to a clicked location (`findClosestPoint` in
    tracks.js). */
module Closest {
  import opened Gpx
  import opened Distance
  import opened Numbers

  /** `k` is an index of `c` no farther from `target` than any other index. */
  predicate IsClosest(d: Metric, c: seq<LatLon>, target: LatLon, k: int) {
    && 0 <= k < |c|
    && forall j :: 0 <= j < |c| ==> d(target, c[k]) <= d(target, c[j])
  }

  /** `k` is the lowest index among the closest ones: every earlier index is
      strictly farther. */
  predicate IsFirstClosest(d: Metric, c: seq<LatLon>, target: LatLon, k: int) {
    && IsClosest(d, c, target, k)
    && forall j :: 0 <= j < k ==> d(target, c[k]) < d(target, c[j])
  }

  /** The scan of tracks.js:110-122: `-1` exactly when there are no
      coordinates, otherwise the lowest index of minimum distance, since an
      index replaces the current one only when strictly closer. */
  method FindClosestPoint(d: Metric, c: seq<LatLon>, target: LatLon) returns (minIndex: int)
    ensures minIndex == -1 <==> |c| == 0
    ensures |c| > 0 ==> IsFirstClosest(d, c, target, minIndex)
  {
    var minDistance := PositiveInfinity;
    minIndex := -1;
    var i := 0;
    while i < |c|
      invariant 0 <= i <= |c|
      invariant i == 0 <==> minIndex == -1
      invariant i == 0 ==> minDistance == PositiveInfinity
      invariant i > 0 ==> 0 <= minIndex < i && minDistance == Finite(d(target, c[minIndex]))
      invariant forall j :: 0 <= j < i ==> d(target, c[minIndex]) <= d(target, c[j])
      invariant forall j :: 0 <= j < minIndex ==> d(target, c[minIndex]) < d(target, c[j])
    {
      var dist := d(target, c[i]);
      if Less(dist, minDistance) {
        minDistance := Finite(dist);
        minIndex := i;
      }
      i := i + 1;
    }
  }

  /** The lowest closest index is unique, so the scan's answer is determined
      by the coordinates and the target alone. */
  lemma FirstClosestUnique(d: Metric, c: seq<LatLon>, target: LatLon, k1: int, k2: int)
    requires IsFirstClosest(d, c, target, k1)
    requires IsFirstClosest(d, c, target, k2)
    ensures k1 == k2
  {
    var x1, x2 := d(target, c[k1]), d(target, c[k2]);
    assert x1 == x2;
    assert k1 < k2 ==> x2 < x1;
    assert k2 < k1 ==> x1 < x2;
  }

  /** The metric separates points: lengths are non-negative and zero exactly
      between equal coordinates. */
  ghost predicate Separates(d: Metric) {
    forall a, b :: d(a, b) >= 0.0 && (d(a, b) == 0.0 <==> a == b)
  }

  /** Clicking exactly on the coordinate of point `k` selects `k`, or the
      lowest index that holds the same coordinate. */
  lemma ClosestToTrackPoint(d: Metric, c: seq<LatLon>, k: int, r: int)
    requires Separates(d)
    requires 0 <= k < |c|
    requires IsFirstClosest(d, c, c[k], r)
    ensures r <= k && c[r] == c[k]
    ensures forall j :: 0 <= j < r ==> c[j] != c[k]
  {
  }
}
