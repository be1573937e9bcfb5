# GPX track viewer: track pipeline

A Dafny model of the core of a drag-and-drop GPX track viewer (`tracks.js`).
This core sits between the XML document and the map. It covers:

- `parseGPX`, which reads a GPX document into three globals:
  - the metadata (`_metadata`),
  - the track points (`_points`),
  - their map coordinates (`_coordinates`).
- `cumulativeDistance`, the distance travelled from the start to a point.
- The numbers behind `pointDescription`: elapsed minutes, time fraction, distance fraction, elevation and distance.
- `findClosestPoint`, the nearest track point to a clicked location.
- How `loadFiles` ends a load: invalid XML, no points, or a shown track.

The globals are an explicit `State` value, and `parseGPX` is a function from
one state to the next, so the model can say what a failed parse changes. The
XML tree is abstracted to an optional `metadata` element plus the `trkseg`
elements, each holding the list of its `trkpt` records in document order. The
runtime's `parseFloat` and `new Date(...)` are passed in as opaque functions.
Leaflet's `distanceTo` is passed in as an opaque metric `d`. Times are whole
milliseconds, because subtracting two JavaScript `Date`s gives milliseconds.
Fractions are exact reals. Division by zero follows JavaScript: `0 / 0` is
NaN, and any other number divided by zero is an infinity with that number's
sign.

Modules, one per concern: `Wrappers` (optional values), `Numbers` (JavaScript
number semantics: the infinities and NaN, `<`, `Math.round`, division), `Gpx`
(data model and `parseGPX`), `Distance`, `Closest`, `Describe`, `Loader`.

The model follows the code where it departs from what a reader of the page might expect:

- A document without a `metadata` element leaves the stored metadata as it
  was (tracks.js:43-44). It does not reset the name to "No Name" with an
  empty description.
- A document with no track points still overwrites the stored metadata when
  it has a `metadata` element (tracks.js:46-53 run before the check at 58-61).
  A failed parse is therefore not free of side effects.
- `cumulativeDistance` accepts any index at or below zero and returns 0 for it.
  Above zero, the index must lie inside the track.

## Model

| member | source | states |
|---|---|---|
| `Gpx.TrackPoints` | tracks.js:57 | Takes the `trkpt` children of every `trkseg`, one segment after another. The selection is empty exactly when every segment is empty. |
| `Gpx.TrackPointsAppend` | tracks.js:57 | Selecting over two runs of segments gives the first run's points followed by the second's, so document order survives segment boundaries. |
| `Gpx.TrackPointsOfSegment` | tracks.js:57 | Point `j` of segment `k` sits at position (number of points in earlier segments) + `j` of the selection. |
| `Gpx.MetadataOf` | tracks.js:46-53 | The stored name is the element's name text, or "No Name" when that text is empty, so it is never empty. The description is copied verbatim, with no default. |
| `Gpx.Extract` | tracks.js:63-78 | The push loop makes one point and one coordinate per `trkpt`, in order. Point `i` holds the parsed fields of element `i`. Coordinate `i` holds the same parsed latitude and longitude. |
| `Gpx.ParseGpx` | tracks.js:38-81 | Absent metadata leaves the stored metadata unchanged; present metadata replaces it. The parse succeeds exactly when some segment has a point. Failure leaves points and coordinates untouched. Success stores one point per `trkpt` in document order, in parallel arrays. Consistency of the arrays is preserved. |
| `Gpx.ParseGpxIdempotent` | tracks.js:38-81 | Parsing the same document again leaves the globals and the result unchanged. |
| `Gpx.ParseGpxReplacesTrack` | tracks.js:63-80 | A successful parse replaces the track wholesale. The points and coordinates it stores do not depend on the earlier state. |
| `Distance.CumulativeDistance` | tracks.js:84-90 | The accumulation loop computes the recurrence: 0 at or below index 0, then the previous value plus `d(c[k-1], c[k])`. |
| `Distance.TravelledMonotone` | tracks.js:84-90 | When no step has a negative length, the distance travelled is non-negative and non-decreasing in the index. |
| `Distance.TravelledPrefix` | tracks.js:84-90 | The distance travelled up to an index depends only on the coordinates up to that index. |
| `Closest.FindClosestPoint` | tracks.js:110-122 | Returns -1 exactly when there are no coordinates. Otherwise it returns an index of minimum distance to the target, and every earlier index is strictly farther, because the update uses a strict `<` from `Infinity` (JavaScript's `<` on numbers, `Numbers.Less`). |
| `Closest.FirstClosestUnique` | tracks.js:115-118 | The lowest closest index is unique, so the scan's answer depends only on the coordinates and the target. |
| `Closest.ClosestToTrackPoint` | tracks.js:110-122 | For a metric that is zero only between equal points, targeting point `k`'s own coordinate selects `k` or the lowest index with an equal coordinate. |
| `Numbers.Round` | tracks.js:96 | `Math.round` gives the integer `n` with `n - 1/2 <= x < n + 1/2`, so halves round up. |
| `Numbers.Divide` | tracks.js:97-98 | Division by a nonzero number is exact (the quotient times the divisor gives back the dividend). `0 / 0` is NaN. Any other number divided by zero is an infinity of the dividend's sign. |
| `Describe.ElapsedMinutes` | tracks.js:96 | `Math.round(ms / 60000)` equals the floor division `(ms + 30000) / 60000`, for negative differences too. |
| `Describe.PointDescription` | tracks.js:93-106 | Elevation is the point's own value. Elapsed minutes are the rounded difference from the first time. The time fraction times the total duration gives the elapsed time. The distance fraction times the total distance gives the distance travelled to the point. Each fraction is 0 at the first point and 1 at the last when its total is nonzero. A zero divisor follows JavaScript. When the first and last times are equal, the time fraction is NaN exactly when the point's time equals the first time. Otherwise it is an infinity of the elapsed time's sign. When the total distance is zero, the distance fraction is NaN exactly when the distance travelled is zero. Otherwise it is an infinity of that distance's sign. A one-point track gives NaN for both fractions. The shown distance is the distance travelled, rounded. |
| `Describe.FractionsWithinUnit` | tracks.js:97-98 | On a chronological track that takes time, the time fraction lies in [0, 1]. With no negative step and a positive total, the distance fraction also lies in [0, 1]. |
| `Describe.MiddleOfThreePoints` | tracks.js:96-98 | Three points one minute apart with equal step lengths: the middle point shows 1 minute, time fraction 0.5, distance fraction 0.5 and elevation 10. |
| `Loader.LoadFileAsWritten` | tracks.js:153-170 | Malformed XML leaves the globals untouched. A well-formed document leaves exactly the globals the parse left. A shown track shows the stored metadata's name and description. The load crashes exactly when the document has points, no metadata element, and no metadata was stored before. |
| `Loader.FirstLoadWithoutMetadataCrashes` | tracks.js:163-167 | The page's first load of a document with points but no `metadata` element ends in a `TypeError`, not a shown track. |
| `Loader.DisplayedMetadata` | tracks.js:135-138 | Corrected `displayMetadata`: it shows the stored metadata. When nothing has been stored, it shows "No Name" with an empty description instead of throwing. |
| `Loader.LoadFile` | tracks.js:153-170 | Corrected load. Malformed XML leaves the globals untouched. A well-formed document leaves exactly the globals the parse left. A shown track shows the name and description of `DisplayedMetadata` applied to the stored metadata. The "No points" alert happens exactly when every segment is empty. Otherwise the track is shown, with parallel non-empty arrays. The shown name is non-empty whenever every stored name is non-empty (`Named`). That holds from the page's initial state on, since the load preserves it. |
| `Loader.LoadFileAgreesUnlessCrashed` | tracks.js:153-170 | Whenever the load as written does not crash, the corrected load ends the same way and leaves the same globals. |

## Left out

- XML parsing (`$.parseXML` and jQuery's `find`, `children` and `text`) is foreign library code. A document is an abstract value, and malformed XML is one abstract input.
- Several `metadata` elements, or several `name` children, whose texts jQuery would concatenate, are not modelled: a document has at most one metadata element with one name text and one description text.
- `parseFloat` and `new Date(...)` are opaque functions to reals and to whole milliseconds. NaN coordinates and elevations, and Invalid Date, are not modelled.
- `new L.LatLng(lat, lon)` (tracks.js:71) is taken to store its arguments unchanged, so the parallel-array property rests on that. The constructor throws on a NaN latitude or longitude. That would abort `parseGPX` after lines 63-64 have reset the arrays, leaving them partly filled. This exception is not modelled.
- Leaflet's `distanceTo` (haversine on doubles) is an opaque metric. Non-negativity and separation are assumed only by the lemmas that need them.
- Doubles are exact reals. Rounding error, `-0` and overflow to infinity in sums are not modelled. Only the zero divisors of the two fractions produce NaN or an infinity.
- HTML building, `toISOString`, and the percentage rounding `Math.round(fraction * 100)` in `pointDescription` are presentation only.
- Map and DOM glue is not modelled: `resizeMap`, `initMap`, `drawPath`, `pointMarker`, the drag-and-drop, click and reload-confirmation handlers, `FileReader`, the alerts and console logging. It is UI and asynchronous I/O.
- `mozapp.js` is not part of this model: it only calls the browser's app-install API.

## Findings

| source | as written | input that shows it | evidently intended | confidence | as-written member | corrected member |
|---|---|---|---|---|---|---|
| tracks.js:163-167 | When no metadata element has ever been found, `displayMetadata` reads `.name` of an undefined `_metadata` and throws. By then the drop area and footer are already removed, and the map is never drawn. | The first file loaded is a GPX document with at least one `trkpt` and no `metadata` element. | The track is shown under "No Name" with an empty description. Missing metadata is logged as harmless at line 44. | high (not executed) | `Loader.LoadFileAsWritten`, `Loader.FirstLoadWithoutMetadataCrashes` | `Loader.LoadFile`, `Loader.DisplayedMetadata` |
