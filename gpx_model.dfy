/** The plain data the engine passes around: points, segment payloads, the
    events of the streaming parser, file locations, jobs and errors. */
module GpxModel {
  import opened Wrappers
  import opened XmlNodes

  /** The great-circle distance in metres between (lat1, lon1) and
      (lat2, lon2); the haversine computation itself is not part of this model. */
  type Distance = (real, real, real, real) -> real

  /** `approximateSquaredDistance`: the haversine distance, squared. */
  function ApproxSquared(dist: Distance, lat1: real, lon1: real, lat2: real, lon2: real): (r: real)
    ensures r >= 0.0
  {
    var d := dist(lat1, lon1, lat2, lon2);
    d * d
  }

  /** `GPXPointRecord`; a timestamp is a point in time, here seconds on some
      fixed time line. */
  datatype Point = Point(
    latitude: real,
    longitude: real,
    elevation: Option<real>,
    timestamp: Option<real>,
    attributes: map<string, string>,
    childNodes: seq<XmlNode>)

  /** `distanceSquared(to:)`. */
  function DistanceSquared(dist: Distance, p: Point, q: Point): (r: real)
    ensures r >= 0.0
  {
    ApproxSquared(dist, p.latitude, p.longitude, q.latitude, q.longitude)
  }

  datatype DocumentHeader = DocumentHeader(attributes: map<string, string>)

  datatype TrackMetadata = TrackMetadata(attributes: map<string, string>, childNodes: seq<XmlNode>)

  datatype SegmentPayload = SegmentPayload(
    trackIndex: int,
    segmentIndex: int,
    attributes: map<string, string>,
    leadingNodes: seq<XmlNode>,
    trailingNodes: seq<XmlNode>,
    points: seq<Point>)

  /** `GPXStreamEvent`; the metadata, waypoint and route containers are the
      wrapped node itself. */
  datatype StreamEvent =
    | Header(header: DocumentHeader)
    | Metadata(node: XmlNode)
    | Waypoint(node: XmlNode)
    | Route(node: XmlNode)
    | Extensions(node: XmlNode)
    | TrackStart(index: int, metadata: TrackMetadata)
    | TrackSegment(payload: SegmentPayload)
    | TrackEnd(index: int)
    | DocumentEnd

  /** `GPXProcessingError`; URLs are file locations and the underlying error
      of a write failure is its description. */
  datatype ProcessingError =
    | UnsupportedInput(url: Url)
    | UnreadableInput(url: Url)
    | OutputWriteFailure(url: Url, underlying: string)
    | ParsingFailure(line: int, column: int, message: string)
    | Cancelled
    | InternalInconsistency(message: string)

  /** What a processing run can throw: a `GPXProcessingError`, the
      `CancellationError` of a cancelled task, or a failed file write
      (its description). */
  datatype Failure =
    | ProcessingFailed(error: ProcessingError)
    | CancellationError
    | WriteFailed(description: string)

  /** A file URL as its path components, the last one being the file name. */
  datatype Url = Url(components: seq<string>)
  {
    function LastPathComponent(): (r: string)
      ensures components == [] ==> r == ""
    {
      if components == [] then "" else components[|components| - 1]
    }

    function DeletingLastPathComponent(): (r: Url)
      ensures components != [] ==> r.components + [LastPathComponent()] == components
    {
      if components == [] then this else Url(components[..|components| - 1])
    }

    function AppendingPathComponent(name: string): (r: Url)
      ensures r.LastPathComponent() == name && r.DeletingLastPathComponent() == this
    {
      Url(components + [name])
    }
  }

  /** The position of the last `.` in a file name, if any. */
  function LastDot(name: string): (r: Option<nat>)
    ensures r.Some? ==>
      && r.value < |name| && name[r.value] == '.'
      && forall i :: r.value < i < |name| ==> name[i] != '.'
    ensures r.None? ==> '.' !in name
  {
    if |name| == 0 then None
    else if name[|name| - 1] == '.' then Some(|name| - 1)
    else LastDot(name[..|name| - 1])
  }

  /** `pathExtension`: what follows the last `.` of the file name, when that
      dot is neither its first nor its last character. */
  function PathExtension(name: string): (r: string)
    ensures '.' !in r
  {
    match LastDot(name)
    case Some(i) => if 0 < i < |name| - 1 then name[i + 1..] else ""
    case None => ""
  }

  /** `deletingPathExtension().lastPathComponent`: the name without `.` and
      its extension. */
  function BaseName(name: string): (r: string)
    ensures PathExtension(name) != "" ==> r + "." + PathExtension(name) == name
    ensures PathExtension(name) == "" ==> r == name
  {
    match LastDot(name)
    case Some(i) => if 0 < i < |name| - 1 then name[..i] else name
    case None => name
  }

  /** `GPXProcessingJob`; the random UUID is an identifier chosen by the caller. */
  datatype Job<Config> = Job(id: nat, inputUrl: Url, outputUrl: Url, configuration: Config)
}
