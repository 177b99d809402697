/** `GPXStreamingParser`: the delegate that turns the start-tag, text and
    end-tag callbacks of an XML scanner into `GPXStreamEvent`s.

    The scanner is replaced by the sequence of callbacks it makes (`Token`),
    and the number and ISO-8601 date parsers by the partial functions of
    `Decoders`. Each callback is a transition on `ParserState`, a snapshot
    of the delegate's fields plus the events yielded so far; the class
    `StreamingParser` has those fields and its methods are proved to perform
    exactly these transitions. */
module GpxStreamingParser {
  import opened Wrappers
  import opened Seqs
  import opened XmlNodes
  import opened GpxModel

  /** One delegate callback: an element starts, characters are found, an
      element ends. */
  datatype Token =
    | Start(name: string, attributes: map<string, string>)
    | Text(text: string)
    | End(name: string)

  /** `Double(String)` and the formatter's `date(from:)`; both may fail. */
  datatype Decoders = Decoders(number: string -> Option<real>, date: string -> Option<real>)

  // ---------------------------------------------------------------------
  // State containers

  /** `TrackState`: the open `trk`. */
  datatype TrackState = TrackState(
    index: int,
    attributes: map<string, string>,
    childNodes: seq<XmlNode>,
    builderStack: seq<NodeBuilder>,
    didEmitStart: bool,
    nextSegmentIndex: int)

  function NewTrackState(index: int, attributes: map<string, string>): TrackState {
    TrackState(index, attributes, [], [], false, 0)
  }

  /** `SegmentState`: the open `trkseg`. */
  datatype SegmentState = SegmentState(
    trackIndex: int,
    segmentIndex: int,
    attributes: map<string, string>,
    leadingNodes: seq<XmlNode>,
    trailingNodes: seq<XmlNode>,
    builderStack: seq<NodeBuilder>,
    points: seq<Point>,
    seenPoint: bool)
  {
    /** `append(segmentNode:to:)`: before the first point the node leads the
        segment, after it the node trails it. */
    function AppendSegmentNode(node: XmlNode): (r: SegmentState)
      ensures !seenPoint ==> r == this.(leadingNodes := leadingNodes + [node])
      ensures seenPoint ==> r == this.(trailingNodes := trailingNodes + [node])
    {
      if seenPoint then this.(trailingNodes := trailingNodes + [node])
      else this.(leadingNodes := leadingNodes + [node])
    }

    /** `makePayload()`. */
    function MakePayload(): (p: SegmentPayload)
      ensures p.trackIndex == trackIndex && p.segmentIndex == segmentIndex && p.points == points
      ensures p.leadingNodes == leadingNodes && p.trailingNodes == trailingNodes && p.attributes == attributes
    {
      SegmentPayload(trackIndex, segmentIndex, attributes, leadingNodes, trailingNodes, points)
    }
  }

  function NewSegmentState(trackIndex: int, segmentIndex: int, attributes: map<string, string>): SegmentState {
    SegmentState(trackIndex, segmentIndex, attributes, [], [], [], [], false)
  }

  /** `PointState`: the open `trkpt`. */
  datatype PointState = PointState(
    attributes: map<string, string>,
    childBuilderStack: seq<NodeBuilder>,
    childNodes: seq<XmlNode>,
    elevation: Option<real>,
    timestamp: Option<real>)
  {
    /** `append(node:using:)`: an `ele` child sets the elevation (nil when
        its text is not a number), a `time` child with text sets the
        timestamp (nil when it is not a date), any other child is kept. */
    function Append(node: XmlNode, decoders: Decoders): (r: PointState)
      ensures r.attributes == attributes && r.childBuilderStack == childBuilderStack
      ensures node.name == "ele" ==>
        r == this.(elevation := decoders.number(node.text.GetOr("")))
      ensures node.name == "time" && node.text.Some? ==>
        r == this.(timestamp := decoders.date(node.text.value))
      ensures node.name == "time" && node.text.None? ==> r == this
      ensures node.name != "ele" && node.name != "time" ==>
        r == this.(childNodes := childNodes + [node])
    {
      if node.name == "ele" then this.(elevation := decoders.number(node.text.GetOr("")))
      else if node.name == "time" then
        (if node.text.Some? then this.(timestamp := decoders.date(node.text.value)) else this)
      else this.(childNodes := childNodes + [node])
    }

    /** `build(using:)`: a point exists exactly when `lat` and `lon` are
        present and both are numbers; its attributes are the others. */
    function Build(decoders: Decoders): (r: Option<Point>)
      ensures r.Some? <==>
        && "lat" in attributes && "lon" in attributes
        && decoders.number(attributes["lat"]).Some? && decoders.number(attributes["lon"]).Some?
      ensures r.Some? ==>
        && r.value.latitude == decoders.number(attributes["lat"]).value
        && r.value.longitude == decoders.number(attributes["lon"]).value
        && r.value.elevation == elevation && r.value.timestamp == timestamp
        && r.value.childNodes == childNodes
        && "lat" !in r.value.attributes && "lon" !in r.value.attributes
        && (forall k :: k in attributes && k != "lat" && k != "lon" ==>
              k in r.value.attributes && r.value.attributes[k] == attributes[k])
        && (forall k :: k in r.value.attributes ==> k in attributes)
    {
      if "lat" in attributes && "lon" in attributes then
        var latitude := decoders.number(attributes["lat"]);
        var longitude := decoders.number(attributes["lon"]);
        if latitude.Some? && longitude.Some? then
          Some(Point(latitude.value, longitude.value, elevation, timestamp,
            map k | k in attributes && k != "lat" && k != "lon" :: attributes[k], childNodes))
        else None
      else None
    }
  }

  function NewPointState(attributes: map<string, string>): PointState {
    PointState(attributes, [], [], None, None)
  }

  // ---------------------------------------------------------------------
  // Builder stacks

  /** The stack with `text` appended to its top builder. */
  function AppendTextToTop(stack: seq<NodeBuilder>, text: string): (r: seq<NodeBuilder>)
    requires |stack| > 0
    ensures |r| == |stack| && r[..|r| - 1] == stack[..|stack| - 1]
    ensures Last(r) == Last(stack).AppendText(text)
  {
    stack[..|stack| - 1] + [Last(stack).AppendText(text)]
  }

  /** `popNode(from:)`: the top builder is closed; it becomes a child of the
      builder below it, or, when it was the bottom one, the result. */
  function PopNode(stack: seq<NodeBuilder>): (r: (seq<NodeBuilder>, Option<XmlNode>))
    ensures |stack| == 0 ==> r == (stack, None)
    ensures |stack| == 1 ==> r == ([], Some(stack[0].Build()))
    ensures |stack| > 1 ==> r.1 == None && r.0 == MergeTopNode(stack)
  {
    if |stack| == 0 then (stack, None)
    else
      var child := Last(stack);
      var rest := stack[..|stack| - 1];
      if |rest| > 0 then (rest[..|rest| - 1] + [Last(rest).AppendChild(child.Build())], None)
      else ([], Some(child.Build()))
  }

  /** `mergeTopNode(into:)`: the top builder is closed and becomes the last
      child of the builder below it. */
  function MergeTopNode(stack: seq<NodeBuilder>): (r: seq<NodeBuilder>)
    ensures |stack| > 1 ==>
      && |r| == |stack| - 1
      && r[..|r| - 1] == stack[..|stack| - 2]
      && Last(r) == stack[|stack| - 2].AppendChild(Last(stack).Build())
    ensures |stack| <= 1 ==> r == []
  {
    if |stack| == 0 then stack
    else
      var child := Last(stack);
      var rest := stack[..|stack| - 1];
      if |rest| > 0 then rest[..|rest| - 1] + [Last(rest).AppendChild(child.Build())] else rest
  }

  /** The `while let builder = builderStack.popLast()` loop at `</trkseg>`:
      the open builders are closed from the top down, each through
      `append(segmentNode:to:)`. */
  function FlushSegment(segment: SegmentState): (r: SegmentState)
    ensures r.builderStack == []
    ensures r.trackIndex == segment.trackIndex && r.segmentIndex == segment.segmentIndex
    ensures r.attributes == segment.attributes && r.points == segment.points && r.seenPoint == segment.seenPoint
    decreases |segment.builderStack|
  {
    if |segment.builderStack| == 0 then segment
    else
      var stack := segment.builderStack;
      FlushSegment(segment.(builderStack := stack[..|stack| - 1]).AppendSegmentNode(Last(stack).Build()))
  }

  /** The same loop at `</trkpt>`, each node going through `append(node:using:)`. */
  function FlushPoint(point: PointState, decoders: Decoders): (r: PointState)
    ensures r.childBuilderStack == [] && r.attributes == point.attributes
    decreases |point.childBuilderStack|
  {
    if |point.childBuilderStack| == 0 then point
    else
      var stack := point.childBuilderStack;
      FlushPoint(point.(childBuilderStack := stack[..|stack| - 1]).Append(Last(stack).Build(), decoders), decoders)
  }

  // ---------------------------------------------------------------------
  // The delegate's state and its transitions

  /** The delegate's fields, and the events yielded so far. */
  datatype ParserState = ParserState(
    currentTrackIndex: int,
    trackState: Option<TrackState>,
    segmentState: Option<SegmentState>,
    pointState: Option<PointState>,
    metadataStack: seq<NodeBuilder>,
    waypointStack: seq<NodeBuilder>,
    routeStack: seq<NodeBuilder>,
    headerEmitted: bool,
    documentHeader: Option<DocumentHeader>,
    events: seq<StreamEvent>)

  function Initial(): ParserState {
    ParserState(-1, None, None, None, [], [], [], false, None, [])
  }

  /** `emitHeaderIfNeeded()`: the recorded header is yielded once. */
  function HeaderIfNeeded(s: ParserState): (r: ParserState)
    ensures !s.headerEmitted && s.documentHeader.Some? ==>
      r == s.(events := s.events + [Header(s.documentHeader.value)], headerEmitted := true)
    ensures s.headerEmitted || s.documentHeader.None? ==> r == s
  {
    if !s.headerEmitted && s.documentHeader.Some? then
      s.(events := s.events + [Header(s.documentHeader.value)], headerEmitted := true)
    else s
  }

  /** `ensureTrackStartEmitted()`: the open track's start is yielded once,
      with the attributes and the children closed so far. */
  function TrackStartIfNeeded(s: ParserState): (r: ParserState)
    ensures s.trackState.Some? && !s.trackState.value.didEmitStart ==>
      var t := s.trackState.value;
      r == s.(events := s.events + [TrackStart(t.index, TrackMetadata(t.attributes, t.childNodes))],
              trackState := Some(t.(didEmitStart := true)))
    ensures s.trackState.None? || s.trackState.value.didEmitStart ==> r == s
  {
    match s.trackState
    case Some(t) =>
      if !t.didEmitStart then
        s.(events := s.events + [TrackStart(t.index, TrackMetadata(t.attributes, t.childNodes))],
           trackState := Some(t.(didEmitStart := true)))
      else s
    case None => s
  }

  /** `<trkseg>`: inside a track, the track's start is yielded if it was not
      yet, and a segment opens with the track's next segment index. */
  function OpenSegment(s: ParserState, attributes: map<string, string>): (r: ParserState)
  {
    if s.trackState.None? then s
    else
      var e := TrackStartIfNeeded(s);
      var t := e.trackState.value;
      e.(trackState := Some(t.(nextSegmentIndex := t.nextSegmentIndex + 1)),
         segmentState := Some(NewSegmentState(t.index, t.nextSegmentIndex, attributes)))
  }

  /** `<trkseg>` as the source writes it: the track state is copied before
      `ensureTrackStartEmitted()` marks the start as yielded, and the copy,
      with the start still unmarked, is what is written back. */
  function OpenSegmentAsWritten(s: ParserState, attributes: map<string, string>): ParserState
  {
    if s.trackState.None? then s
    else
      var copy := s.trackState.value;
      var e := TrackStartIfNeeded(s);
      e.(segmentState := Some(NewSegmentState(copy.index, copy.nextSegmentIndex, attributes)),
         trackState := Some(copy.(nextSegmentIndex := copy.nextSegmentIndex + 1)))
  }

  /** An element that the switch does not name opens a builder on the
      innermost open container. */
  function StartUnknown(s: ParserState, name: string, attributes: map<string, string>): ParserState {
    var b := NewBuilder(name, attributes);
    if s.pointState.Some? then
      s.(pointState := Some(s.pointState.value.(childBuilderStack := s.pointState.value.childBuilderStack + [b])))
    else if s.segmentState.Some? then
      s.(segmentState := Some(s.segmentState.value.(builderStack := s.segmentState.value.builderStack + [b])))
    else if s.trackState.Some? then
      s.(trackState := Some(s.trackState.value.(builderStack := s.trackState.value.builderStack + [b])))
    else if |s.metadataStack| > 0 then s.(metadataStack := s.metadataStack + [b])
    else if |s.waypointStack| > 0 then s.(waypointStack := s.waypointStack + [b])
    else if |s.routeStack| > 0 then s.(routeStack := s.routeStack + [b])
    else s
  }

  /** `parser(_:didStartElement:...)`. */
  function StartElement(s: ParserState, name: string, attributes: map<string, string>): ParserState {
    if name == "gpx" then HeaderIfNeeded(s.(documentHeader := Some(DocumentHeader(attributes))))
    else if name == "metadata" then s.(metadataStack := s.metadataStack + [NewBuilder(name, attributes)])
    else if name == "wpt" then s.(waypointStack := s.waypointStack + [NewBuilder(name, attributes)])
    else if name == "rte" then s.(routeStack := s.routeStack + [NewBuilder(name, attributes)])
    else if name == "trk" then
      var h := HeaderIfNeeded(s);
      h.(currentTrackIndex := h.currentTrackIndex + 1,
         trackState := Some(NewTrackState(h.currentTrackIndex + 1, attributes)))
    else if name == "trkseg" then OpenSegment(s, attributes)
    else if name == "trkpt" then s.(pointState := Some(NewPointState(attributes)))
    else StartUnknown(s, name, attributes)
  }

  /** `parser(_:foundCharacters:)`: non-empty text goes to the top builder
      of the innermost container whose builder stack is not empty. */
  function FoundCharacters(s: ParserState, text: string): ParserState {
    if text == "" then s
    else if s.pointState.Some? && |s.pointState.value.childBuilderStack| > 0 then
      s.(pointState := Some(s.pointState.value.(childBuilderStack := AppendTextToTop(s.pointState.value.childBuilderStack, text))))
    else if s.segmentState.Some? && |s.segmentState.value.builderStack| > 0 then
      s.(segmentState := Some(s.segmentState.value.(builderStack := AppendTextToTop(s.segmentState.value.builderStack, text))))
    else if s.trackState.Some? && |s.trackState.value.builderStack| > 0 then
      s.(trackState := Some(s.trackState.value.(builderStack := AppendTextToTop(s.trackState.value.builderStack, text))))
    else if |s.metadataStack| > 0 then s.(metadataStack := AppendTextToTop(s.metadataStack, text))
    else if |s.waypointStack| > 0 then s.(waypointStack := AppendTextToTop(s.waypointStack, text))
    else if |s.routeStack| > 0 then s.(routeStack := AppendTextToTop(s.routeStack, text))
    else s
  }

  /** `</trk>`: the track's start (if still due) and its end are yielded;
      the track closes. */
  function CloseTrack(s: ParserState): ParserState {
    var e := if s.trackState.Some? then
        var t := TrackStartIfNeeded(s);
        t.(events := t.events + [TrackEnd(s.trackState.value.index)])
      else s;
    e.(trackState := None)
  }

  /** `</trkseg>`: the open builders are flushed and the payload yielded. */
  function CloseSegment(s: ParserState): ParserState {
    if s.segmentState.None? then s
    else
      var segment := FlushSegment(s.segmentState.value);
      s.(events := s.events + [TrackSegment(segment.MakePayload())], segmentState := None)
  }

  /** `</trkpt>`: inside a segment, the point's children are flushed and the
      point, when it can be built, joins the segment. */
  function ClosePoint(s: ParserState, decoders: Decoders): ParserState {
    if s.segmentState.None? || s.pointState.None? then s
    else
      var point := FlushPoint(s.pointState.value, decoders);
      var segment := s.segmentState.value;
      var built := match point.Build(decoders)
        case Some(record) => segment.(points := segment.points + [record], seenPoint := true)
        case None => segment;
      s.(segmentState := Some(built), pointState := None)
  }

  /** The end of an element the switch does not name: its builder is closed
      and its node handed to the innermost open container: a point child, a
      segment node, a track child, or a child of the enclosing builder of
      metadata, a waypoint or a route. */
  function EndUnknown(s: ParserState, decoders: Decoders): ParserState {
    if s.pointState.Some? then
      var p := s.pointState.value;
      var stack := p.childBuilderStack;
      if |stack| > 0 then
        s.(pointState := Some(p.(childBuilderStack := stack[..|stack| - 1]).Append(Last(stack).Build(), decoders)))
      else s
    else if s.segmentState.Some? then
      var g := s.segmentState.value;
      var stack := g.builderStack;
      if |stack| > 0 then
        s.(segmentState := Some(g.(builderStack := stack[..|stack| - 1]).AppendSegmentNode(Last(stack).Build())))
      else s
    else if s.trackState.Some? then
      var t := s.trackState.value;
      var stack := t.builderStack;
      if |stack| > 0 then
        s.(trackState := Some(t.(builderStack := stack[..|stack| - 1], childNodes := t.childNodes + [Last(stack).Build()])))
      else s
    else if |s.metadataStack| > 1 then s.(metadataStack := MergeTopNode(s.metadataStack))
    else if |s.waypointStack| > 1 then s.(waypointStack := MergeTopNode(s.waypointStack))
    else if |s.routeStack| > 1 then s.(routeStack := MergeTopNode(s.routeStack))
    else s
  }

  /** `parser(_:didEndElement:...)`. */
  function EndElement(s: ParserState, name: string, decoders: Decoders): ParserState {
    if name == "metadata" then
      var (stack, node) := PopNode(s.metadataStack);
      var e := s.(metadataStack := stack);
      if node.Some? then e.(events := e.events + [Metadata(node.value)]) else e
    else if name == "wpt" then
      var (stack, node) := PopNode(s.waypointStack);
      var e := s.(waypointStack := stack);
      if node.Some? then e.(events := e.events + [Waypoint(node.value)]) else e
    else if name == "rte" then
      var (stack, node) := PopNode(s.routeStack);
      var e := s.(routeStack := stack);
      if node.Some? then e.(events := e.events + [Route(node.value)]) else e
    else if name == "trk" then CloseTrack(s)
    else if name == "trkseg" then CloseSegment(s)
    else if name == "trkpt" then ClosePoint(s, decoders)
    else EndUnknown(s, decoders)
  }

  function Step(s: ParserState, token: Token, decoders: Decoders): ParserState {
    match token
    case Start(name, attributes) => StartElement(s, name, attributes)
    case Text(text) => FoundCharacters(s, text)
    case End(name) => EndElement(s, name, decoders)
  }

  /** The callbacks of a whole document, in order. */
  function Run(s: ParserState, tokens: seq<Token>, decoders: Decoders): ParserState
    decreases |tokens|
  {
    if |tokens| == 0 then s else Run(Step(s, tokens[0], decoders), tokens[1..], decoders)
  }

  /** The callbacks as the source writes them, `<trkseg>` included. */
  function StepAsWritten(s: ParserState, token: Token, decoders: Decoders): ParserState {
    match token
    case Start(name, attributes) =>
      if name == "trkseg" then OpenSegmentAsWritten(s, attributes) else StartElement(s, name, attributes)
    case Text(text) => FoundCharacters(s, text)
    case End(name) => EndElement(s, name, decoders)
  }

  function RunAsWritten(s: ParserState, tokens: seq<Token>, decoders: Decoders): ParserState
    decreases |tokens|
  {
    if |tokens| == 0 then s else RunAsWritten(StepAsWritten(s, tokens[0], decoders), tokens[1..], decoders)
  }

  /** `parse(url:)`: the events of all callbacks, then `documentEnd` when the
      scan succeeds; `failure` is the error that ends the stream when reading
      or scanning fails. */
  function Parse(tokens: seq<Token>, failure: Option<Failure>, decoders: Decoders): (r: (seq<StreamEvent>, Option<Failure>))
    ensures r.1 == failure
  {
    var events := Run(Initial(), tokens, decoders).events;
    if failure.None? then (events + [DocumentEnd], None) else (events, failure)
  }

  // ---------------------------------------------------------------------
  // The delegate object

  class StreamingParser {
    const decoders: Decoders
    var currentTrackIndex: int
    var trackState: Option<TrackState>
    var segmentState: Option<SegmentState>
    var pointState: Option<PointState>
    var metadataStack: seq<NodeBuilder>
    var waypointStack: seq<NodeBuilder>
    var routeStack: seq<NodeBuilder>
    var headerEmitted: bool
    var documentHeader: Option<DocumentHeader>
    /** What has been yielded to the stream's continuation. */
    var events: seq<StreamEvent>

    function State(): ParserState
      reads this
    {
      ParserState(currentTrackIndex, trackState, segmentState, pointState,
        metadataStack, waypointStack, routeStack, headerEmitted, documentHeader, events)
    }

    constructor (decoders: Decoders)
      ensures State() == Initial() && this.decoders == decoders
    {
      this.decoders := decoders;
      currentTrackIndex := -1;
      trackState := None;
      segmentState := None;
      pointState := None;
      metadataStack := [];
      waypointStack := [];
      routeStack := [];
      headerEmitted := false;
      documentHeader := None;
      events := [];
    }

    method EmitHeaderIfNeeded()
      modifies this
      ensures State() == HeaderIfNeeded(old(State()))
    {
      if !headerEmitted && documentHeader.Some? {
        events := events + [Header(documentHeader.value)];
        headerEmitted := true;
      }
    }

    method EnsureTrackStartEmitted()
      modifies this
      ensures State() == TrackStartIfNeeded(old(State()))
    {
      if trackState.Some? {
        var t := trackState.value;
        if !t.didEmitStart {
          events := events + [TrackStart(t.index, TrackMetadata(t.attributes, t.childNodes))];
          t := t.(didEmitStart := true);
          trackState := Some(t);
        }
      }
    }

    method DidStartElement(name: string, attributes: map<string, string>)
      modifies this
      ensures State() == StartElement(old(State()), name, attributes)
    {
      if name == "gpx" {
        documentHeader := Some(DocumentHeader(attributes));
        EmitHeaderIfNeeded();
      } else if name == "metadata" {
        metadataStack := metadataStack + [NewBuilder(name, attributes)];
      } else if name == "wpt" {
        waypointStack := waypointStack + [NewBuilder(name, attributes)];
      } else if name == "rte" {
        routeStack := routeStack + [NewBuilder(name, attributes)];
      } else if name == "trk" {
        EmitHeaderIfNeeded();
        currentTrackIndex := currentTrackIndex + 1;
        trackState := Some(NewTrackState(currentTrackIndex, attributes));
      } else if name == "trkseg" {
        if trackState.None? {
          return;
        }
        EnsureTrackStartEmitted();
        var t := trackState.value;
        var segmentIndex := t.nextSegmentIndex;
        t := t.(nextSegmentIndex := t.nextSegmentIndex + 1);
        segmentState := Some(NewSegmentState(t.index, segmentIndex, attributes));
        trackState := Some(t);
      } else if name == "trkpt" {
        pointState := Some(NewPointState(attributes));
      } else {
        var b := NewBuilder(name, attributes);
        if pointState.Some? {
          pointState := Some(pointState.value.(childBuilderStack := pointState.value.childBuilderStack + [b]));
        } else if segmentState.Some? {
          segmentState := Some(segmentState.value.(builderStack := segmentState.value.builderStack + [b]));
        } else if trackState.Some? {
          trackState := Some(trackState.value.(builderStack := trackState.value.builderStack + [b]));
        } else if |metadataStack| > 0 {
          metadataStack := metadataStack + [b];
        } else if |waypointStack| > 0 {
          waypointStack := waypointStack + [b];
        } else if |routeStack| > 0 {
          routeStack := routeStack + [b];
        }
      }
    }

    method DidFindCharacters(text: string)
      modifies this
      ensures State() == FoundCharacters(old(State()), text)
    {
      if text == "" {
        return;
      }
      if pointState.Some? && |pointState.value.childBuilderStack| > 0 {
        var stack := AppendTextToTop(pointState.value.childBuilderStack, text);
        pointState := Some(pointState.value.(childBuilderStack := stack));
      } else if segmentState.Some? && |segmentState.value.builderStack| > 0 {
        var stack := AppendTextToTop(segmentState.value.builderStack, text);
        segmentState := Some(segmentState.value.(builderStack := stack));
      } else if trackState.Some? && |trackState.value.builderStack| > 0 {
        var stack := AppendTextToTop(trackState.value.builderStack, text);
        trackState := Some(trackState.value.(builderStack := stack));
      } else if |metadataStack| > 0 {
        metadataStack := AppendTextToTop(metadataStack, text);
      } else if |waypointStack| > 0 {
        waypointStack := AppendTextToTop(waypointStack, text);
      } else if |routeStack| > 0 {
        routeStack := AppendTextToTop(routeStack, text);
      }
    }

    method DidEndElement(name: string)
      modifies this
      ensures State() == EndElement(old(State()), name, decoders)
    {
      if name == "metadata" {
        var node;
        metadataStack, node := PopNode(metadataStack).0, PopNode(metadataStack).1;
        if node.Some? {
          events := events + [Metadata(node.value)];
        }
      } else if name == "wpt" {
        var node;
        waypointStack, node := PopNode(waypointStack).0, PopNode(waypointStack).1;
        if node.Some? {
          events := events + [Waypoint(node.value)];
        }
      } else if name == "rte" {
        var node;
        routeStack, node := PopNode(routeStack).0, PopNode(routeStack).1;
        if node.Some? {
          events := events + [Route(node.value)];
        }
      } else if name == "trk" {
        if trackState.Some? {
          var index := trackState.value.index;
          EnsureTrackStartEmitted();
          events := events + [TrackEnd(index)];
        }
        trackState := None;
      } else if name == "trkseg" {
        DidEndSegment();
      } else if name == "trkpt" {
        DidEndPoint();
      } else {
        DidEndOther();
      }
    }

    /** The `trkseg` case of `didEndElement`. */
    method DidEndSegment()
      modifies this
      ensures State() == CloseSegment(old(State()))
    {
      if segmentState.None? {
        return;
      }
      var segment := segmentState.value;
      while |segment.builderStack| > 0
        invariant FlushSegment(segment) == FlushSegment(old(segmentState.value))
        decreases |segment.builderStack|
      {
        var stack := segment.builderStack;
        var builder := stack[|stack| - 1];
        segment := segment.(builderStack := stack[..|stack| - 1]);
        segment := segment.AppendSegmentNode(builder.Build());
      }
      events := events + [TrackSegment(segment.MakePayload())];
      segmentState := None;
    }

    /** The `trkpt` case of `didEndElement`. */
    method DidEndPoint()
      modifies this
      ensures State() == ClosePoint(old(State()), decoders)
    {
      if segmentState.None? || pointState.None? {
        return;
      }
      var segment := segmentState.value;
      var point := pointState.value;
      while |point.childBuilderStack| > 0
        invariant FlushPoint(point, decoders) == FlushPoint(old(pointState.value), decoders)
        decreases |point.childBuilderStack|
      {
        var stack := point.childBuilderStack;
        var builder := stack[|stack| - 1];
        point := point.(childBuilderStack := stack[..|stack| - 1]);
        point := point.Append(builder.Build(), decoders);
      }
      var record := point.Build(decoders);
      if record.Some? {
        segment := segment.(points := segment.points + [record.value], seenPoint := true);
      }
      segmentState := Some(segment);
      pointState := None;
    }

    /** The `default` case of `didEndElement`. */
    method DidEndOther()
      modifies this
      ensures State() == EndUnknown(old(State()), decoders)
    {
      if pointState.Some? {
        var p := pointState.value;
        if |p.childBuilderStack| > 0 {
          var stack := p.childBuilderStack;
          var builder := stack[|stack| - 1];
          p := p.(childBuilderStack := stack[..|stack| - 1]);
          p := p.Append(builder.Build(), decoders);
        }
        pointState := Some(p);
      } else if segmentState.Some? {
        var g := segmentState.value;
        if |g.builderStack| > 0 {
          var stack := g.builderStack;
          var builder := stack[|stack| - 1];
          g := g.(builderStack := stack[..|stack| - 1]);
          g := g.AppendSegmentNode(builder.Build());
        }
        segmentState := Some(g);
      } else if trackState.Some? {
        var t := trackState.value;
        if |t.builderStack| > 0 {
          var stack := t.builderStack;
          var builder := stack[|stack| - 1];
          t := t.(builderStack := stack[..|stack| - 1]);
          t := t.(childNodes := t.childNodes + [builder.Build()]);
        }
        trackState := Some(t);
      } else if |metadataStack| > 1 {
        metadataStack := MergeTopNode(metadataStack);
      } else if |waypointStack| > 1 {
        waypointStack := MergeTopNode(waypointStack);
      } else if |routeStack| > 1 {
        routeStack := MergeTopNode(routeStack);
      }
    }
  }

  /** `parse(url:)` driving a fresh delegate through the callbacks. */
  method ParseDocument(tokens: seq<Token>, failure: Option<Failure>, decoders: Decoders)
    returns (events: seq<StreamEvent>, error: Option<Failure>)
    ensures (events, error) == Parse(tokens, failure, decoders)
  {
    var parser := new StreamingParser(decoders);
    for i := 0 to |tokens|
      invariant parser.decoders == decoders
      invariant Run(parser.State(), tokens[i..], decoders) == Run(Initial(), tokens, decoders)
    {
      assert tokens[i..][0] == tokens[i] && tokens[i..][1..] == tokens[i + 1..];
      match tokens[i] {
        case Start(name, attributes) => parser.DidStartElement(name, attributes);
        case Text(text) => parser.DidFindCharacters(text);
        case End(name) => parser.DidEndElement(name);
      }
    }
    assert tokens[|tokens|..] == [];
    events := parser.events;
    error := failure;
    if failure.None? {
      events := events + [DocumentEnd];
    }
  }
}
