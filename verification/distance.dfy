/** Distance travelled along the track (`cumulativeDistance` in tracks.js). */
module Distance {
  import opened Gpx

  /** The distance in meters between two coordinates, Leaflet's `distanceTo`.
      Its formula is not part of this model: it is a parameter. */
  type Metric = (LatLon, LatLon) -> real

  /** The metric gives no negative length to any step of the track. */
  predicate StepsNonNegative(d: Metric, c: seq<LatLon>) {
    forall i :: 0 < i < |c| ==> d(c[i - 1], c[i]) >= 0.0
  }

  /** Reference definition: the distance travelled up to `index` is nothing at
      or before the start, and grows by one step's length per index. Indices
      at or below zero are accepted, as the source's loop simply does not run. */
  function Travelled(d: Metric, c: seq<LatLon>, index: int): real
    requires index <= 0 || index < |c|
    decreases index
  {
    if index <= 0 then 0.0 else Travelled(d, c, index - 1) + d(c[index - 1], c[index])
  }

  /** The source's loop (tracks.js:84-90), which reads `_coordinates[i + 1]`
      for every `i < index` and so needs `index` inside the track, computes
      the reference sum. */
  method CumulativeDistance(d: Metric, c: seq<LatLon>, index: int) returns (dist: real)
    requires index <= 0 || index < |c|
    ensures dist == Travelled(d, c, index)
    ensures index <= 0 ==> dist == 0.0
  {
    dist := 0.0;
    var i := 0;
    while i < index
      invariant 0 <= i && (i <= index || i == 0)
      invariant dist == Travelled(d, c, i)
    {
      dist := dist + d(c[i], c[i + 1]);
      i := i + 1;
    }
  }

  /** With no negative step, the distance travelled is never negative and never
      decreases along the track. */
  lemma {:induction false} TravelledMonotone(d: Metric, c: seq<LatLon>, i: int, j: int)
    requires StepsNonNegative(d, c)
    requires 0 <= i <= j < |c|
    ensures 0.0 <= Travelled(d, c, i) <= Travelled(d, c, j)
    decreases j
  {
    if j > 0 {
      TravelledMonotone(d, c, if i < j then i else j - 1, j - 1);
      assert d(c[j - 1], c[j]) >= 0.0;
    }
  }

  /** The distance travelled depends only on the coordinates up to `index`:
      a longer track with the same prefix gives the same value. */
  lemma {:induction false} TravelledPrefix(d: Metric, c: seq<LatLon>, e: seq<LatLon>, index: int)
    requires 0 <= index < |c| && index < |e|
    requires c[..index + 1] == e[..index + 1]
    ensures Travelled(d, c, index) == Travelled(d, e, index)
    decreases index
  {
    if index > 0 {
      assert c[index - 1] == c[..index + 1][index - 1] == e[..index + 1][index - 1] == e[index - 1];
      assert c[index] == c[..index + 1][index] == e[..index + 1][index] == e[index];
      assert c[..index] == c[..index + 1][..index] == e[..index + 1][..index] == e[..index];
      TravelledPrefix(d, c, e, index - 1);
    }
  }
}
