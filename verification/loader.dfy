/** Loading a file (`loadFiles` in tracks.js): the text is parsed as XML, the
    track extracted, and on success the page shows the track's metadata. The
    file reading, the DOM changes and the map drawing are not modelled; what
    is kept is how a load ends and the globals it leaves. */
module Loader {
  import opened Wrappers
  import opened Gpx

  /** What `$.parseXML` makes of the file's text; it throws on malformed XML. */
  datatype XmlInput = Malformed | WellFormed(doc: Document)

  /** How a load ends: the "Invalid XML" alert, the "No points" alert, a
      `TypeError` thrown while showing the track, or the track shown under a
      name with a description as its tooltip. */
  datatype Outcome = InvalidXml | NoPoints | Crashed | Shown(name: string, desc: string)

  /** A successful load that shows its track (tracks.js:151-171), as written:
      `displayMetadata` reads `_metadata.name`, which throws when no metadata
      has ever been stored. The globals the parse left stay as they are. */
  function LoadFileAsWritten(s: State, input: XmlInput, rt: Runtime): (r: (Outcome, State))
    ensures input.Malformed? ==> r == (InvalidXml, s)
    ensures input.WellFormed? ==> r.1 == ParseGpx(s, input.doc, rt).1
    ensures r.0.Shown? ==> r.1.metadata.Some?
    ensures r.0.Shown? ==> r.0 == Shown(r.1.metadata.value.name, r.1.metadata.value.desc)
    ensures r.0 == Crashed <==>
              && input.WellFormed?
              && ParseGpx(s, input.doc, rt).0
              && input.doc.metadata.None?
              && s.metadata.None?
  {
    match input
    case Malformed => (InvalidXml, s)
    case WellFormed(doc) =>
      var (success, s') := ParseGpx(s, doc, rt);
      if !success then (NoPoints, s')
      else if s'.metadata.None? then (Crashed, s')
      else (Shown(s'.metadata.value.name, s'.metadata.value.desc), s')
  }

  /** The first file the page loads, when it has track points but no
      `metadata` element, ends in a `TypeError` instead of a shown track. */
  lemma FirstLoadWithoutMetadataCrashes(rt: Runtime, pt: TrkPt)
    ensures LoadFileAsWritten(Initial, WellFormed(Document(None, [[pt]])), rt).0 == Crashed
  {
  }

  /** The metadata to show: what is stored, or the default name with an empty
      description when nothing has been stored. */
  function DisplayedMetadata(m: Option<Metadata>): (shown: Metadata)
    ensures m.Some? ==> shown == m.value
    ensures m.None? ==> shown.name == DefaultName && shown.desc == ""
  {
    match m
    case Some(stored) => stored
    case None => Metadata(DefaultName, "")
  }

  /** Metadata that is stored always has a name. */
  predicate Named(s: State) {
    s.metadata.Some? ==> s.metadata.value.name != ""
  }

  /** A load with the missing-metadata case handled: malformed XML leaves the
      globals untouched, a document without points is refused, and every
      document with points is shown, under a non-empty name. */
  function LoadFile(s: State, input: XmlInput, rt: Runtime): (r: (Outcome, State))
    ensures input.Malformed? ==> r.0 == InvalidXml && r.1 == s
    ensures input.WellFormed? ==> r.1 == ParseGpx(s, input.doc, rt).1
    ensures r.0.Shown? ==>
              r.0 == Shown(DisplayedMetadata(r.1.metadata).name, DisplayedMetadata(r.1.metadata).desc)
    ensures r.0 == NoPoints <==>
              input.WellFormed? && forall k :: 0 <= k < |input.doc.segments| ==> input.doc.segments[k] == []
    ensures r.0.Shown? <==>
              input.WellFormed? && exists k :: 0 <= k < |input.doc.segments| && input.doc.segments[k] != []
    ensures r.0.Shown? ==> Consistent(r.1) && |r.1.points| > 0
    ensures Named(s) ==> Named(r.1)
    ensures Named(s) && r.0.Shown? ==> r.0.name != ""
    ensures r.0.Shown? && input.doc.metadata.None? && s.metadata.None? ==>
              r.0 == Shown(DefaultName, "")
  {
    match input
    case Malformed => (InvalidXml, s)
    case WellFormed(doc) =>
      var (success, s') := ParseGpx(s, doc, rt);
      if !success then (NoPoints, s')
      else
        var shown := DisplayedMetadata(s'.metadata);
        (Shown(shown.name, shown.desc), s')
  }

  /** Wherever the load as written does not crash, the corrected load ends the
      same way and leaves the same globals. */
  lemma LoadFileAgreesUnlessCrashed(s: State, input: XmlInput, rt: Runtime)
    requires LoadFileAsWritten(s, input, rt).0 != Crashed
    ensures LoadFile(s, input, rt) == LoadFileAsWritten(s, input, rt)
  {
  }
}
