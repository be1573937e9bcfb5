/** The track held by the viewer and its extraction from a GPX document
    (`parseGPX` in tracks.js).

    XML parsing itself is not modelled: a document is given as its optional
    `metadata` element and its `trkseg` elements, each the list of its `trkpt`
    children, in document order. The JavaScript runtime's `parseFloat` and
    `new Date(...)` are opaque parameters. */
module Gpx {
  import opened Wrappers

  /** A map coordinate, as Leaflet's `L.LatLng` holds it. */
  datatype LatLon = LatLon(lat: real, lon: real)

  /** One entry of `_points`; `time` is the instant in milliseconds since the epoch. */
  datatype Point = Point(lat: real, lon: real, elevation: real, time: int)

  /** The value of `_metadata`. */
  datatype Metadata = Metadata(name: string, desc: string)

  /** A `metadata` element: the text of its `name` and `desc` children
      (the empty string when a child is absent, as jQuery's `text()` gives). */
  datatype MetadataElement = MetadataElement(nameText: string, descText: string)

  /** A `trkpt` element: its `lat` and `lon` attributes and the text of its
      `ele` and `time` children. */
  datatype TrkPt = TrkPt(latAttr: string, lonAttr: string, eleText: string, timeText: string)

  /** A GPX document, reduced to what `parseGPX` looks at. */
  datatype Document = Document(metadata: Option<MetadataElement>, segments: seq<seq<TrkPt>>)

  /** The runtime's number and date parsing, left opaque: `parseFloat` and the
      millisecond value of `new Date(text)`. */
  datatype Runtime = Runtime(parseFloat: string -> real, parseDate: string -> int)

  /** The globals `_metadata`, `_points` and `_coordinates`. `None` and the
      empty sequence stand for `undefined`: a successful parse never stores an
      empty track. */
  datatype State = State(metadata: Option<Metadata>, points: seq<Point>, coords: seq<LatLon>)

  /** The globals as the page starts: all undefined. */
  const Initial := State(None, [], [])

  /** The name stored when a `metadata` element has an empty `name`. */
  const DefaultName := "No Name"

  /** The coordinate pushed onto `_coordinates` for a point. */
  function Coordinate(p: Point): LatLon {
    LatLon(p.lat, p.lon)
  }

  /** `_points` and `_coordinates` are parallel: same length, and each
      coordinate is the latitude and longitude of the point at the same index. */
  predicate Consistent(s: State) {
    && |s.points| == |s.coords|
    && forall i :: 0 <= i < |s.points| ==> s.coords[i] == Coordinate(s.points[i])
  }

  /** `xml.find('trkseg').children('trkpt')`: the `trkpt` children of every
      `trkseg`, segment after segment, each in its own order. The selection is
      empty exactly when every segment is. */
  function TrackPoints(segments: seq<seq<TrkPt>>): (r: seq<TrkPt>)
    ensures |r| == 0 <==> forall k :: 0 <= k < |segments| ==> segments[k] == []
  {
    if segments == [] then [] else segments[0] + TrackPoints(segments[1..])
  }

  /** Selecting over two runs of segments yields the first run's points before
      the second's: document order is kept across segment boundaries. */
  lemma {:induction false} TrackPointsAppend(a: seq<seq<TrkPt>>, b: seq<seq<TrkPt>>)
    ensures TrackPoints(a + b) == TrackPoints(a) + TrackPoints(b)
    ensures |TrackPoints(a + b)| == |TrackPoints(a)| + |TrackPoints(b)|
  {
    if a == [] {
      assert a + b == b;
    } else {
      assert (a + b)[1..] == a[1..] + b;
      TrackPointsAppend(a[1..], b);
    }
  }

  /** The points of segment `k` sit, in their own order, right after the points
      of all earlier segments. */
  lemma TrackPointsOfSegment(segments: seq<seq<TrkPt>>, k: int, j: int)
    requires 0 <= k < |segments| && 0 <= j < |segments[k]|
    ensures |TrackPoints(segments[..k])| + j < |TrackPoints(segments)|
    ensures TrackPoints(segments)[|TrackPoints(segments[..k])| + j] == segments[k][j]
  {
    assert segments == segments[..k] + ([segments[k]] + segments[k + 1..]);
    TrackPointsAppend(segments[..k], [segments[k]] + segments[k + 1..]);
    assert ([segments[k]] + segments[k + 1..])[1..] == segments[k + 1..];
  }

  /** The metadata stored from a `metadata` element (tracks.js:46-53). */
  function MetadataOf(e: MetadataElement): (m: Metadata)
    ensures m.name != ""
    ensures e.nameText != "" ==> m.name == e.nameText
    ensures e.nameText == "" ==> m.name == DefaultName
    ensures m.desc == e.descText
  {
    var m := Metadata(e.nameText, e.descText);
    if m.name == "" then m.(name := DefaultName) else m
  }

  /** The point stored for a `trkpt` element. */
  function PointOf(rt: Runtime, t: TrkPt): Point {
    Point(rt.parseFloat(t.latAttr), rt.parseFloat(t.lonAttr),
          rt.parseFloat(t.eleText), rt.parseDate(t.timeText))
  }

  /** The loop that pushes one point and one coordinate per `trkpt`
      (tracks.js:63-78): the arrays it leaves have one entry per element, in
      the elements' order, and are parallel. */
  function Extract(rt: Runtime, ts: seq<TrkPt>): (r: (seq<Point>, seq<LatLon>))
    ensures |r.0| == |ts| && |r.1| == |ts|
    ensures forall i :: 0 <= i < |ts| ==> r.0[i] == PointOf(rt, ts[i])
    ensures forall i :: 0 <= i < |ts| ==> r.1[i] == LatLon(rt.parseFloat(ts[i].latAttr), rt.parseFloat(ts[i].lonAttr))
  {
    if ts == [] then ([], [])
    else
      var (points, coords) := Extract(rt, ts[..|ts| - 1]);
      var p := PointOf(rt, ts[|ts| - 1]);
      (points + [p], coords + [Coordinate(p)])
  }

  /** `parseGPX` as a transformer of the globals: the boolean it returns and
      the globals it leaves. */
  function ParseGpx(s: State, doc: Document, rt: Runtime): (r: (bool, State))
    // metadata: untouched when absent, otherwise replaced, whether or not points follow
    ensures doc.metadata.None? ==> r.1.metadata == s.metadata
    ensures doc.metadata.Some? ==> r.1.metadata.Some?
    ensures doc.metadata.Some? ==> r.1.metadata.value.desc == doc.metadata.value.descText
    ensures doc.metadata.Some? && doc.metadata.value.nameText != "" ==>
              r.1.metadata.value.name == doc.metadata.value.nameText
    ensures doc.metadata.Some? && doc.metadata.value.nameText == "" ==>
              r.1.metadata.value.name == DefaultName
    // success exactly when some segment has a point
    ensures r.0 <==> exists k :: 0 <= k < |doc.segments| && doc.segments[k] != []
    // failure leaves the track untouched
    ensures !r.0 ==> r.1.points == s.points && r.1.coords == s.coords
    // success replaces the track with one entry per trkpt, in document order
    ensures r.0 ==> |r.1.points| == |TrackPoints(doc.segments)| > 0
    ensures r.0 ==> forall i :: 0 <= i < |r.1.points| ==>
                      r.1.points[i] == PointOf(rt, TrackPoints(doc.segments)[i])
    ensures r.0 ==> Consistent(r.1)
    ensures Consistent(s) ==> Consistent(r.1)
  {
    var metadata := if doc.metadata.None? then s.metadata else Some(MetadataOf(doc.metadata.value));
    var trackPoints := TrackPoints(doc.segments);
    if |trackPoints| == 0 then
      (false, s.(metadata := metadata))
    else
      var (points, coords) := Extract(rt, trackPoints);
      (true, State(metadata, points, coords))
  }

  /** Parsing a document a second time changes nothing: the globals it leaves
      are a fixed point, on success and on failure alike. */
  lemma ParseGpxIdempotent(s: State, doc: Document, rt: Runtime)
    ensures ParseGpx(ParseGpx(s, doc, rt).1, doc, rt) == ParseGpx(s, doc, rt)
  {
  }

  /** A successful parse replaces the track wholesale: the points and
      coordinates it leaves do not depend on what was loaded before. */
  lemma ParseGpxReplacesTrack(s1: State, s2: State, doc: Document, rt: Runtime)
    requires ParseGpx(s1, doc, rt).0
    ensures ParseGpx(s2, doc, rt).0
    ensures ParseGpx(s1, doc, rt).1.points == ParseGpx(s2, doc, rt).1.points
    ensures ParseGpx(s1, doc, rt).1.coords == ParseGpx(s2, doc, rt).1.coords
  {
  }
}
