/** The numbers shown in a point's popup (`pointDescription` in tracks.js):
    elapsed minutes, the fraction of the track's time and of its distance,
    the elevation and the distance travelled. The HTML around them is not
    modelled. */
module Describe {
  import opened Gpx
  import opened Distance
  import opened Wrappers
  import opened Numbers

  /** A part of a positive whole is a fraction between 0 and 1. */
  lemma PartOfWhole(part: real, whole: real)
    requires 0.0 <= part <= whole && 0.0 < whole
    ensures 0.0 <= part / whole <= 1.0
  {
  }

  /** `Math.round(ms / 60000)` for a whole number of milliseconds equals the
      integer division `(ms + 30000) / 60000`, rounded toward negative
      infinity, for negative differences too. */
  function ElapsedMinutes(ms: int): (minutes: int)
    ensures minutes == (ms + 30000) / 60000
  {
    var q, r := (ms + 30000) / 60000, (ms + 30000) % 60000;
    var x := ms as real / 60000.0;
    assert ms + 30000 == 60000 * q + r && 0 <= r < 60000;
    assert x + 0.5 == q as real + r as real / 60000.0;
    assert q as real <= x + 0.5 < q as real + 1.0;
    Round(x)
  }

  /** What the popup of a point shows. */
  datatype Summary = Summary(
    elapsedMinutes: int,
    timeFraction: Number,
    distFraction: Number,
    elevation: real,
    distanceMeters: int)

  /** The times of the track never go backwards. */
  predicate Chronological(points: seq<Point>) {
    forall i, j :: 0 <= i <= j < |points| ==> points[i].time <= points[j].time
  }

  /** Distance travelled over the whole track, `cumulativeDistance(_points.length - 1)`. */
  function TotalDistance(d: Metric, s: State): real
    requires 0 < |s.points| <= |s.coords|
  {
    Travelled(d, s.coords, |s.points| - 1)
  }

  /** The numbers of `pointDescription(index)` (tracks.js:93-106). The source
      reads `_points[index]` and `cumulativeDistance(_points.length - 1)`, so
      the index must be a point and the coordinates cover every point. */
  function PointDescription(d: Metric, s: State, index: int): (r: Summary)
    requires 0 <= index < |s.points| <= |s.coords|
    ensures r.elevation == s.points[index].elevation
    ensures r.elapsedMinutes == (s.points[index].time - s.points[0].time + 30000) / 60000
    ensures r.distanceMeters as real - 0.5 <= Travelled(d, s.coords, index) < r.distanceMeters as real + 0.5
    // the time fraction: 0 at the start and 1 at the end of a track that takes time
    ensures s.points[0].time != s.points[|s.points| - 1].time && index == 0 ==>
              r.timeFraction == Finite(0.0)
    ensures s.points[0].time != s.points[|s.points| - 1].time && index == |s.points| - 1 ==>
              r.timeFraction == Finite(1.0)
    ensures s.points[0].time != s.points[|s.points| - 1].time ==>
              r.timeFraction.Finite? &&
              r.timeFraction.value * (s.points[|s.points| - 1].time - s.points[0].time) as real
                == (s.points[index].time - s.points[0].time) as real
    // the distance fraction: 0 at the start and 1 at the end of a track that covers ground
    ensures TotalDistance(d, s) != 0.0 ==>
              r.distFraction.Finite? &&
              r.distFraction.value * TotalDistance(d, s) == Travelled(d, s.coords, index)
    ensures TotalDistance(d, s) == 0.0 ==>
              (r.distFraction == NaN <==> Travelled(d, s.coords, index) == 0.0)
    ensures TotalDistance(d, s) != 0.0 && index == 0 ==> r.distFraction == Finite(0.0)
    ensures TotalDistance(d, s) != 0.0 && index == |s.points| - 1 ==> r.distFraction == Finite(1.0)
    // a track whose first and last times are equal divides by zero
    ensures s.points[0].time == s.points[|s.points| - 1].time ==>
              (r.timeFraction == NaN <==> s.points[index].time == s.points[0].time)
    ensures s.points[0].time == s.points[|s.points| - 1].time && s.points[index].time > s.points[0].time ==>
              r.timeFraction == PositiveInfinity
    ensures s.points[0].time == s.points[|s.points| - 1].time && s.points[index].time < s.points[0].time ==>
              r.timeFraction == NegativeInfinity
    // so does a track that covers no ground in total
    ensures TotalDistance(d, s) == 0.0 && Travelled(d, s.coords, index) > 0.0 ==>
              r.distFraction == PositiveInfinity
    ensures TotalDistance(d, s) == 0.0 && Travelled(d, s.coords, index) < 0.0 ==>
              r.distFraction == NegativeInfinity
    // a one-point track divides zero by zero twice
    ensures |s.points| == 1 ==> r.timeFraction == NaN && r.distFraction == NaN
  {
    var point := s.points[index];
    var first := s.points[0].time;
    var last := s.points[|s.points| - 1].time;
    Summary(
      ElapsedMinutes(point.time - first),
      Divide((point.time - first) as real, (last - first) as real),
      Divide(Travelled(d, s.coords, index), TotalDistance(d, s)),
      point.elevation,
      Round(Travelled(d, s.coords, index)))
  }

  /** On a chronological track that takes time, and with no negative step
      along a track that covers ground, both fractions lie between 0 and 1. */
  lemma FractionsWithinUnit(d: Metric, s: State, index: int)
    requires 0 <= index < |s.points| <= |s.coords|
    ensures Chronological(s.points) && s.points[0].time < s.points[|s.points| - 1].time ==>
              var f := PointDescription(d, s, index).timeFraction;
              f.Finite? && 0.0 <= f.value <= 1.0
    ensures StepsNonNegative(d, s.coords) && TotalDistance(d, s) > 0.0 ==>
              var f := PointDescription(d, s, index).distFraction;
              f.Finite? && 0.0 <= f.value <= 1.0
  {
    var last := |s.points| - 1;
    if Chronological(s.points) && s.points[0].time < s.points[last].time {
      var elapsed := (s.points[index].time - s.points[0].time) as real;
      var total := (s.points[last].time - s.points[0].time) as real;
      PartOfWhole(elapsed, total);
      assert PointDescription(d, s, index).timeFraction == Finite(elapsed / total);
    }
    if StepsNonNegative(d, s.coords) && TotalDistance(d, s) > 0.0 {
      TravelledMonotone(d, s.coords, index, last);
      PartOfWhole(Travelled(d, s.coords, index), TotalDistance(d, s));
      assert PointDescription(d, s, index).distFraction
          == Finite(Travelled(d, s.coords, index) / TotalDistance(d, s));
    }
  }

  /** A three-point track with one minute and equal lengths between points:
      the middle point is one minute and half the track in. */
  lemma MiddleOfThreePoints(d: Metric, t0: int)
    requires d(LatLon(0.0, 0.0), LatLon(0.0, 1.0)) == d(LatLon(0.0, 1.0), LatLon(0.0, 2.0)) > 0.0
    ensures
      var points := [Point(0.0, 0.0, 0.0, t0), Point(0.0, 1.0, 10.0, t0 + 60000),
                     Point(0.0, 2.0, 20.0, t0 + 120000)];
      var s := State(None, points, [Coordinate(points[0]), Coordinate(points[1]), Coordinate(points[2])]);
      var r := PointDescription(d, s, 1);
      && r.elapsedMinutes == 1
      && r.timeFraction == Finite(0.5)
      && r.distFraction == Finite(0.5)
      && r.elevation == 10.0
  {
    var points := [Point(0.0, 0.0, 0.0, t0), Point(0.0, 1.0, 10.0, t0 + 60000),
                   Point(0.0, 2.0, 20.0, t0 + 120000)];
    var c := [Coordinate(points[0]), Coordinate(points[1]), Coordinate(points[2])];
    var step := d(LatLon(0.0, 0.0), LatLon(0.0, 1.0));
    assert Travelled(d, c, 2) == step + step;
  }
}
