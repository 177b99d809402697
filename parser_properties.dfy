/** What the streaming parser promises about the events it yields, for every
    sequence of callbacks (well-formed or not): one header at most, tracks
    started once each in increasing order, segments and track ends only
    after their track's start, segment indices increasing within a track,
    no `extensions` or `documentEnd` from a callback, and no `lat`/`lon`
    among a point's attributes. */
module ParserProperties {
  import opened Wrappers
  import opened Seqs
  import opened XmlNodes
  import opened GpxModel
  import opened GpxStreamingParser

  // ---------------------------------------------------------------------
  // Properties of an event sequence

  ghost predicate HasHeader(events: seq<StreamEvent>) {
    exists k :: 0 <= k < |events| && events[k].Header?
  }

  ghost predicate HeaderAtMostOnce(events: seq<StreamEvent>) {
    forall j, k :: 0 <= j < |events| && 0 <= k < |events| && events[j].Header? && events[k].Header? ==> j == k
  }

  ghost predicate StartedIn(events: seq<StreamEvent>, track: int) {
    exists j :: 0 <= j < |events| && events[j].TrackStart? && events[j].index == track
  }

  /** Each track is started at most once, in increasing index order. */
  ghost predicate TrackStartsIncreasing(events: seq<StreamEvent>) {
    forall j, k :: 0 <= j < k < |events| && events[j].TrackStart? && events[k].TrackStart? ==>
      events[j].index < events[k].index
  }

  /** A segment payload or a track end comes after its track's start. */
  ghost predicate StartedBeforeUse(events: seq<StreamEvent>) {
    forall k :: 0 <= k < |events| ==>
      && (events[k].TrackSegment? ==> StartedIn(events[..k], events[k].payload.trackIndex))
      && (events[k].TrackEnd? ==> StartedIn(events[..k], events[k].index))
  }

  /** Within a track, segment payloads come in increasing segment index. */
  ghost predicate SegmentsIncreasing(events: seq<StreamEvent>) {
    forall j, k ::
      (&& 0 <= j < k < |events| && events[j].TrackSegment? && events[k].TrackSegment?
       && events[j].payload.trackIndex == events[k].payload.trackIndex) ==>
        events[j].payload.segmentIndex < events[k].payload.segmentIndex
  }

  /** Every payload of `track` so far has a segment index below `bound`. */
  ghost predicate SegmentsBelow(events: seq<StreamEvent>, track: int, bound: int) {
    forall k :: 0 <= k < |events| && events[k].TrackSegment? && events[k].payload.trackIndex == track ==>
      events[k].payload.segmentIndex < bound
  }

  /** No callback yields `extensions` or `documentEnd`. */
  ghost predicate FromCallbacks(events: seq<StreamEvent>) {
    forall k :: 0 <= k < |events| ==> !events[k].Extensions? && !events[k].DocumentEnd?
  }

  ghost predicate CleanPoint(p: Point) {
    "lat" !in p.attributes && "lon" !in p.attributes
  }

  ghost predicate CleanPayloads(events: seq<StreamEvent>) {
    forall k, i :: 0 <= k < |events| && events[k].TrackSegment? && 0 <= i < |events[k].payload.points| ==>
      CleanPoint(events[k].payload.points[i])
  }

  /** Track indices lie in 0..`current`, segment indices are not negative. */
  ghost predicate IndicesBounded(events: seq<StreamEvent>, current: int) {
    forall k :: 0 <= k < |events| ==>
      && (events[k].TrackStart? ==> 0 <= events[k].index <= current)
      && (events[k].TrackSegment? ==>
            0 <= events[k].payload.trackIndex <= current && events[k].payload.segmentIndex >= 0)
  }

  // ---------------------------------------------------------------------
  // The delegate's invariant

  ghost predicate TrackOk(s: ParserState) {
    s.trackState.Some? ==>
      var t := s.trackState.value;
      && 0 <= t.index == s.currentTrackIndex && t.nextSegmentIndex >= 0
      && (t.didEmitStart <==> StartedIn(s.events, t.index))
      && SegmentsBelow(s.events, t.index, t.nextSegmentIndex)
  }

  ghost predicate SegmentOk(s: ParserState) {
    s.segmentState.Some? ==>
      var g := s.segmentState.value;
      && StartedIn(s.events, g.trackIndex) && g.trackIndex <= s.currentTrackIndex && g.segmentIndex >= 0
      && SegmentsBelow(s.events, g.trackIndex, g.segmentIndex)
      && (s.trackState.Some? && s.trackState.value.index == g.trackIndex ==>
            g.segmentIndex < s.trackState.value.nextSegmentIndex)
      && (g.seenPoint <==> |g.points| > 0)
      && (forall i :: 0 <= i < |g.points| ==> CleanPoint(g.points[i]))
  }

  ghost predicate EventsOk(s: ParserState) {
    && HeaderAtMostOnce(s.events) && (s.headerEmitted <==> HasHeader(s.events))
    && TrackStartsIncreasing(s.events) && StartedBeforeUse(s.events) && SegmentsIncreasing(s.events)
    && FromCallbacks(s.events) && CleanPayloads(s.events)
    && IndicesBounded(s.events, s.currentTrackIndex)
  }

  ghost predicate Inv(s: ParserState) {
    s.currentTrackIndex >= -1 && EventsOk(s) && TrackOk(s) && SegmentOk(s)
  }

  /** The fields the invariant reads are the same in both states. */
  ghost predicate SameSkeleton(s: ParserState, r: ParserState) {
    && r.events == s.events && r.currentTrackIndex == s.currentTrackIndex && r.headerEmitted == s.headerEmitted
    && r.trackState.Some? == s.trackState.Some?
    && (r.trackState.Some? ==>
          && r.trackState.value.index == s.trackState.value.index
          && r.trackState.value.didEmitStart == s.trackState.value.didEmitStart
          && r.trackState.value.nextSegmentIndex == s.trackState.value.nextSegmentIndex)
    && r.segmentState.Some? == s.segmentState.Some?
    && (r.segmentState.Some? ==>
          && r.segmentState.value.trackIndex == s.segmentState.value.trackIndex
          && r.segmentState.value.segmentIndex == s.segmentState.value.segmentIndex
          && r.segmentState.value.points == s.segmentState.value.points
          && r.segmentState.value.seenPoint == s.segmentState.value.seenPoint)
  }

  lemma InitialInv()
    ensures Inv(Initial())
  {
  }

  lemma SkeletonInv(s: ParserState, r: ParserState)
    requires Inv(s) && SameSkeleton(s, r)
    ensures Inv(r)
  {
  }

  // ---------------------------------------------------------------------
  // Appending one event

  lemma AppendEvent(events: seq<StreamEvent>, x: StreamEvent)
    ensures HasHeader(events + [x]) <==> HasHeader(events) || x.Header?
    ensures HeaderAtMostOnce(events) && (x.Header? ==> !HasHeader(events)) ==> HeaderAtMostOnce(events + [x])
    ensures forall i :: StartedIn(events + [x], i) <==> StartedIn(events, i) || (x.TrackStart? && x.index == i)
    ensures
      (&& TrackStartsIncreasing(events)
       && (x.TrackStart? ==> forall j :: 0 <= j < |events| && events[j].TrackStart? ==> events[j].index < x.index))
      ==> TrackStartsIncreasing(events + [x])
    ensures
      (&& StartedBeforeUse(events)
       && (x.TrackSegment? ==> StartedIn(events, x.payload.trackIndex))
       && (x.TrackEnd? ==> StartedIn(events, x.index)))
      ==> StartedBeforeUse(events + [x])
    ensures
      (SegmentsIncreasing(events) && (x.TrackSegment? ==> SegmentsBelow(events, x.payload.trackIndex, x.payload.segmentIndex)))
      ==> SegmentsIncreasing(events + [x])
    ensures forall t, b ::
      (SegmentsBelow(events, t, b) && (x.TrackSegment? && x.payload.trackIndex == t ==> x.payload.segmentIndex < b))
      ==> SegmentsBelow(events + [x], t, b)
    ensures FromCallbacks(events) && !x.Extensions? && !x.DocumentEnd? ==> FromCallbacks(events + [x])
    ensures
      (CleanPayloads(events) && (x.TrackSegment? ==> forall i :: 0 <= i < |x.payload.points| ==> CleanPoint(x.payload.points[i])))
      ==> CleanPayloads(events + [x])
    ensures forall c ::
      (&& IndicesBounded(events, c)
       && (x.TrackStart? ==> 0 <= x.index <= c)
       && (x.TrackSegment? ==> 0 <= x.payload.trackIndex <= c && x.payload.segmentIndex >= 0))
      ==> IndicesBounded(events + [x], c)
  {
    var e := events + [x];
    if StartedBeforeUse(events) && (x.TrackSegment? ==> StartedIn(events, x.payload.trackIndex)) &&
      (x.TrackEnd? ==> StartedIn(events, x.index))
    {
      forall k | 0 <= k < |e|
        ensures e[k].TrackSegment? ==> StartedIn(e[..k], e[k].payload.trackIndex)
        ensures e[k].TrackEnd? ==> StartedIn(e[..k], e[k].index)
      {
        if k < |events| {
          assert e[..k] == events[..k];
        } else {
          assert e[..k] == events;
        }
      }
    }
    forall i | StartedIn(events, i)
      ensures StartedIn(e, i)
    {
      var j :| 0 <= j < |events| && events[j].TrackStart? && events[j].index == i;
      assert e[j] == events[j];
    }
    if HasHeader(events) {
      var j :| 0 <= j < |events| && events[j].Header?;
      assert e[j] == events[j];
    }
    if x.Header? {
      assert e[|events|].Header?;
    }
    if x.TrackStart? {
      assert e[|events|] == x;
    }
  }

  /** An unchanged event list with more tracks allowed stays bounded. */
  lemma IndicesBoundedMonotonic(events: seq<StreamEvent>, c: int, d: int)
    requires IndicesBounded(events, c) && c <= d
    ensures IndicesBounded(events, d)
  {
  }

  // ---------------------------------------------------------------------
  // Each transition keeps the invariant

  lemma HeaderIfNeededInv(s: ParserState)
    requires Inv(s)
    ensures Inv(HeaderIfNeeded(s))
    ensures HeaderIfNeeded(s).currentTrackIndex == s.currentTrackIndex
    ensures HeaderIfNeeded(s).trackState == s.trackState && HeaderIfNeeded(s).segmentState == s.segmentState
    ensures forall i :: StartedIn(HeaderIfNeeded(s).events, i) <==> StartedIn(s.events, i)
  {
    AppendEvent(s.events, Header(s.documentHeader.GetOr(DocumentHeader(map[]))));
  }

  lemma TrackStartIfNeededInv(s: ParserState)
    requires Inv(s) && s.trackState.Some?
    ensures var r := TrackStartIfNeeded(s);
      && Inv(r) && r.currentTrackIndex == s.currentTrackIndex && r.segmentState == s.segmentState
      && r.trackState.Some? && r.trackState.value == s.trackState.value.(didEmitStart := true)
      && StartedIn(r.events, s.trackState.value.index)
      && (forall i :: StartedIn(s.events, i) ==> StartedIn(r.events, i))
  {
    var t := s.trackState.value;
    var x := TrackStart(t.index, TrackMetadata(t.attributes, t.childNodes));
    AppendEvent(s.events, x);
    if !t.didEmitStart {
      forall j | 0 <= j < |s.events| && s.events[j].TrackStart?
        ensures s.events[j].index < t.index
      {
      }
    }
  }

  lemma OpenSegmentInv(s: ParserState, attributes: map<string, string>)
    requires Inv(s)
    ensures Inv(OpenSegment(s, attributes))
  {
    if s.trackState.Some? {
      TrackStartIfNeededInv(s);
    }
  }

  lemma OpenTrackInv(s: ParserState, attributes: map<string, string>)
    requires Inv(s)
    ensures Inv(StartElement(s, "trk", attributes))
  {
    HeaderIfNeededInv(s);
    var h := HeaderIfNeeded(s);
    var c := h.currentTrackIndex + 1;
    IndicesBoundedMonotonic(h.events, h.currentTrackIndex, c);
    var r := StartElement(s, "trk", attributes);
    assert r == h.(currentTrackIndex := c, trackState := Some(NewTrackState(c, attributes)));
    forall j | 0 <= j < |h.events| && h.events[j].TrackStart?
      ensures h.events[j].index != c
    {
    }
  }

  lemma StartElementInv(s: ParserState, name: string, attributes: map<string, string>)
    requires Inv(s)
    ensures Inv(StartElement(s, name, attributes))
  {
    if name == "gpx" {
      var d := s.(documentHeader := Some(DocumentHeader(attributes)));
      SkeletonInv(s, d);
      HeaderIfNeededInv(d);
    } else if name == "trk" {
      OpenTrackInv(s, attributes);
    } else if name == "trkseg" {
      OpenSegmentInv(s, attributes);
    } else if name == "metadata" {
      SkeletonInv(s, s.(metadataStack := s.metadataStack + [NewBuilder(name, attributes)]));
    } else if name == "wpt" {
      SkeletonInv(s, s.(waypointStack := s.waypointStack + [NewBuilder(name, attributes)]));
    } else if name == "rte" {
      SkeletonInv(s, s.(routeStack := s.routeStack + [NewBuilder(name, attributes)]));
    } else if name == "trkpt" {
      SkeletonInv(s, s.(pointState := Some(NewPointState(attributes))));
    } else {
      StartUnknownInv(s, name, attributes);
    }
  }

  lemma StartUnknownInv(s: ParserState, name: string, attributes: map<string, string>)
    requires Inv(s)
    ensures Inv(StartUnknown(s, name, attributes))
  {
    SkeletonInv(s, StartUnknown(s, name, attributes));
  }

  lemma FoundCharactersInv(s: ParserState, text: string)
    requires Inv(s)
    ensures Inv(FoundCharacters(s, text))
  {
    SkeletonInv(s, FoundCharacters(s, text));
  }

  lemma CloseTrackInv(s: ParserState)
    requires Inv(s)
    ensures Inv(CloseTrack(s))
  {
    if s.trackState.Some? {
      TrackStartIfNeededInv(s);
      var t := TrackStartIfNeeded(s);
      AppendEvent(t.events, TrackEnd(s.trackState.value.index));
    }
  }

  lemma CloseSegmentInv(s: ParserState)
    requires Inv(s)
    ensures Inv(CloseSegment(s))
  {
    if s.segmentState.Some? {
      var segment := FlushSegment(s.segmentState.value);
      var p := segment.MakePayload();
      AppendEvent(s.events, TrackSegment(p));
      var g := s.segmentState.value;
      assert StartedIn(s.events, g.trackIndex);
      var j :| 0 <= j < |s.events| && s.events[j].TrackStart? && s.events[j].index == g.trackIndex;
      assert 0 <= g.trackIndex;
    }
  }

  lemma ClosePointInv(s: ParserState, decoders: Decoders)
    requires Inv(s)
    ensures Inv(ClosePoint(s, decoders))
  {
  }

  lemma EndUnknownInv(s: ParserState, decoders: Decoders)
    requires Inv(s)
    ensures Inv(EndUnknown(s, decoders))
  {
    SkeletonInv(s, EndUnknown(s, decoders));
  }

  /** Yielding a metadata, waypoint or route container keeps the invariant. */
  lemma EmitContainerInv(s: ParserState, x: StreamEvent)
    requires Inv(s) && (x.Metadata? || x.Waypoint? || x.Route?)
    ensures Inv(s.(events := s.events + [x]))
  {
    AppendEvent(s.events, x);
  }

  lemma EndElementInv(s: ParserState, name: string, decoders: Decoders)
    requires Inv(s)
    ensures Inv(EndElement(s, name, decoders))
  {
    if name == "metadata" {
      var (stack, node) := PopNode(s.metadataStack);
      var e := s.(metadataStack := stack);
      SkeletonInv(s, e);
      if node.Some? {
        EmitContainerInv(e, Metadata(node.value));
      }
    } else if name == "wpt" {
      var (stack, node) := PopNode(s.waypointStack);
      var e := s.(waypointStack := stack);
      SkeletonInv(s, e);
      if node.Some? {
        EmitContainerInv(e, Waypoint(node.value));
      }
    } else if name == "rte" {
      var (stack, node) := PopNode(s.routeStack);
      var e := s.(routeStack := stack);
      SkeletonInv(s, e);
      if node.Some? {
        EmitContainerInv(e, Route(node.value));
      }
    } else if name == "trk" {
      CloseTrackInv(s);
    } else if name == "trkseg" {
      CloseSegmentInv(s);
    } else if name == "trkpt" {
      ClosePointInv(s, decoders);
    } else {
      EndUnknownInv(s, decoders);
    }
  }

  lemma StepInv(s: ParserState, token: Token, decoders: Decoders)
    requires Inv(s)
    ensures Inv(Step(s, token, decoders))
  {
    match token {
      case Start(name, attributes) => StartElementInv(s, name, attributes);
      case Text(text) => FoundCharactersInv(s, text);
      case End(name) => EndElementInv(s, name, decoders);
    }
  }

  lemma {:induction false} RunInv(s: ParserState, tokens: seq<Token>, decoders: Decoders)
    requires Inv(s)
    ensures Inv(Run(s, tokens, decoders))
    decreases |tokens|
  {
    if |tokens| > 0 {
      StepInv(s, tokens[0], decoders);
      RunInv(Step(s, tokens[0], decoders), tokens[1..], decoders);
    }
  }

  // ---------------------------------------------------------------------
  // The whole stream

  /** For every sequence of callbacks: the header at most once, each track
      started at most once and in increasing order, every segment payload
      and track end after its track's start, segment indices increasing
      within a track, every built point free of `lat`/`lon` attributes, no
      `extensions` event, `documentEnd` exactly once, last, when the scan
      succeeds, and every track index between 0 and the number of `<trk>`
      callbacks less one, every segment index at least 0. */
  lemma ParseEvents(tokens: seq<Token>, failure: Option<Failure>, decoders: Decoders)
    ensures var (events, error) := Parse(tokens, failure, decoders);
      && error == failure
      && HeaderAtMostOnce(events)
      && TrackStartsIncreasing(events)
      && StartedBeforeUse(events)
      && SegmentsIncreasing(events)
      && CleanPayloads(events)
      && (forall k :: 0 <= k < |events| ==> !events[k].Extensions?)
      && (failure.None? <==> |events| > 0 && Last(events) == DocumentEnd)
      && (forall k :: 0 <= k < |events| - 1 ==> !events[k].DocumentEnd?)
      && IndicesBounded(events, TrackOpenings(tokens) - 1)
  {
    InitialInv();
    RunInv(Initial(), tokens, decoders);
    RunNumbering(tokens, decoders);
    var s := Run(Initial(), tokens, decoders);
    if failure.None? {
      AppendEvent(s.events, DocumentEnd);
      var events := s.events + [DocumentEnd];
      assert forall k :: 0 <= k < |s.events| ==> events[k] == s.events[k];
      assert IndicesBounded(events, s.currentTrackIndex);
    } else if |s.events| > 0 {
      assert !Last(s.events).DocumentEnd?;
    }
  }

  // ---------------------------------------------------------------------
  // Numbering, counted on the callbacks

  predicate Opens(t: Token, name: string) {
    t.Start? && t.name == name
  }

  predicate Closes(t: Token, name: string) {
    t.End? && t.name == name
  }

  /** How many `<trk>` callbacks `tokens` holds. */
  function TrackOpenings(tokens: seq<Token>): nat
    decreases |tokens|
  {
    if |tokens| == 0 then 0
    else TrackOpenings(tokens[..|tokens| - 1]) + if Opens(Last(tokens), "trk") then 1 else 0
  }

  /** Whether a track is open after `tokens`: the last `<trk>` or `</trk>`
      among them is a `<trk>`. */
  function InTrack(tokens: seq<Token>): bool
    decreases |tokens|
  {
    if |tokens| == 0 then false
    else if Opens(Last(tokens), "trk") then true
    else if Closes(Last(tokens), "trk") then false
    else InTrack(tokens[..|tokens| - 1])
  }

  /** How many `<trkseg>` callbacks came since the last `<trk>`. */
  function SegmentOpenings(tokens: seq<Token>): nat
    decreases |tokens|
  {
    if |tokens| == 0 then 0
    else if Opens(Last(tokens), "trk") then 0
    else SegmentOpenings(tokens[..|tokens| - 1]) + if Opens(Last(tokens), "trkseg") then 1 else 0
  }

  /** The numbers the last `<trkseg>` inside an open track stands for: the
      `<trk>`s before it less one, and the `<trkseg>`s between that `<trk>`
      and it. */
  function LastSegmentNumbers(tokens: seq<Token>): Option<(int, int)>
    decreases |tokens|
  {
    if |tokens| == 0 then None
    else
      var before := tokens[..|tokens| - 1];
      if Opens(Last(tokens), "trkseg") && InTrack(before) then Some((TrackOpenings(before) - 1, SegmentOpenings(before)))
      else LastSegmentNumbers(before)
  }

  lemma CountsSnoc(before: seq<Token>, t: Token)
    ensures var tokens := before + [t];
      && TrackOpenings(tokens) == TrackOpenings(before) + (if Opens(t, "trk") then 1 else 0)
      && InTrack(tokens) == (if Opens(t, "trk") then true else if Closes(t, "trk") then false else InTrack(before))
      && SegmentOpenings(tokens)
           == (if Opens(t, "trk") then 0 else SegmentOpenings(before) + if Opens(t, "trkseg") then 1 else 0)
      && LastSegmentNumbers(tokens)
           == (if Opens(t, "trkseg") && InTrack(before) then Some((TrackOpenings(before) - 1, SegmentOpenings(before)))
               else LastSegmentNumbers(before))
  {
    assert (before + [t])[..|before|] == before;
  }

  /** The delegate's indices agree with the counts on the callbacks so far. */
  ghost predicate Numbered(s: ParserState, tokens: seq<Token>) {
    && s.currentTrackIndex == TrackOpenings(tokens) - 1
    && (s.trackState.Some? <==> InTrack(tokens))
    && (s.trackState.Some? ==>
          && s.trackState.value.index == TrackOpenings(tokens) - 1
          && s.trackState.value.nextSegmentIndex == SegmentOpenings(tokens))
    && (s.segmentState.Some? ==>
          LastSegmentNumbers(tokens) == Some((s.segmentState.value.trackIndex, s.segmentState.value.segmentIndex)))
  }

  /** What an event the callback `t` yields, after the callbacks `before`,
      may be: the header only at `<gpx>` or `<trk>`; a track start only at
      `<trkseg>` or `</trk>` and a track end only at `</trk>`, both numbered
      by the `<trk>`s so far less one; a payload only at `</trkseg>`,
      numbered as the last `<trkseg>` inside an open track; a container only
      at its own closing tag. */
  ghost predicate YieldedBy(e: StreamEvent, before: seq<Token>, t: Token) {
    && (e.Header? ==> Opens(t, "gpx") || Opens(t, "trk"))
    && (e.TrackStart? ==> (Opens(t, "trkseg") || Closes(t, "trk")) && e.index == TrackOpenings(before) - 1)
    && (e.TrackEnd? ==> Closes(t, "trk") && e.index == TrackOpenings(before) - 1)
    && (e.TrackSegment? ==>
          Closes(t, "trkseg") && LastSegmentNumbers(before) == Some((e.payload.trackIndex, e.payload.segmentIndex)))
    && (e.Metadata? ==> Closes(t, "metadata"))
    && (e.Waypoint? ==> Closes(t, "wpt"))
    && (e.Route? ==> Closes(t, "rte"))
  }

  /** `after` is `before` followed by events the callback `t` may yield. */
  ghost predicate Yields(before: seq<StreamEvent>, after: seq<StreamEvent>, tokens: seq<Token>, t: Token) {
    && |before| <= |after| && after[..|before|] == before
    && forall k :: |before| <= k < |after| ==> YieldedBy(after[k], tokens, t)
  }

  lemma YieldsAppend(before: seq<StreamEvent>, added: seq<StreamEvent>, tokens: seq<Token>, t: Token)
    requires forall k :: 0 <= k < |added| ==> YieldedBy(added[k], tokens, t)
    ensures Yields(before, before + added, tokens, t)
  {
    assert (before + added)[..|before|] == before;
    forall k | |before| <= k < |before + added|
      ensures YieldedBy((before + added)[k], tokens, t)
    {
      assert (before + added)[k] == added[k - |before|];
    }
  }

  lemma YieldsNothing(events: seq<StreamEvent>, tokens: seq<Token>, t: Token)
    ensures Yields(events, events, tokens, t)
  {
    assert events[..|events|] == events;
  }

  lemma StartNumbering(s: ParserState, name: string, attributes: map<string, string>, before: seq<Token>)
    requires Numbered(s, before)
    ensures var r := StartElement(s, name, attributes);
      Numbered(r, before + [Start(name, attributes)]) && Yields(s.events, r.events, before, Start(name, attributes))
  {
    if name == "gpx" || name == "trk" {
      StartHeaderNumbering(s, name, attributes, before);
    } else if name == "trkseg" {
      StartSegmentNumbering(s, attributes, before);
    } else {
      CountsSnoc(before, Start(name, attributes));
      assert StartElement(s, name, attributes).events == s.events;
      YieldsNothing(s.events, before, Start(name, attributes));
    }
  }

  lemma StartHeaderNumbering(s: ParserState, name: string, attributes: map<string, string>, before: seq<Token>)
    requires Numbered(s, before) && (name == "gpx" || name == "trk")
    ensures var r := StartElement(s, name, attributes);
      Numbered(r, before + [Start(name, attributes)]) && Yields(s.events, r.events, before, Start(name, attributes))
  {
    var t := Start(name, attributes);
    CountsSnoc(before, t);
    var g := if name == "gpx" then s.(documentHeader := Some(DocumentHeader(attributes))) else s;
    if !g.headerEmitted && g.documentHeader.Some? {
      YieldsAppend(s.events, [Header(g.documentHeader.value)], before, t);
    } else {
      YieldsNothing(s.events, before, t);
    }
  }

  lemma StartSegmentNumbering(s: ParserState, attributes: map<string, string>, before: seq<Token>)
    requires Numbered(s, before)
    ensures var r := StartElement(s, "trkseg", attributes);
      Numbered(r, before + [Start("trkseg", attributes)]) && Yields(s.events, r.events, before, Start("trkseg", attributes))
  {
    var t := Start("trkseg", attributes);
    CountsSnoc(before, t);
    if s.trackState.Some? && !s.trackState.value.didEmitStart {
      var tr := s.trackState.value;
      YieldsAppend(s.events, [TrackStart(tr.index, TrackMetadata(tr.attributes, tr.childNodes))], before, t);
    } else {
      YieldsNothing(s.events, before, t);
    }
  }

  lemma TextNumbering(s: ParserState, text: string, before: seq<Token>)
    requires Numbered(s, before)
    ensures var r := FoundCharacters(s, text);
      Numbered(r, before + [Text(text)]) && Yields(s.events, r.events, before, Text(text))
  {
    CountsSnoc(before, Text(text));
    YieldsNothing(s.events, before, Text(text));
  }

  lemma EndContainerNumbering(s: ParserState, name: string, decoders: Decoders, before: seq<Token>)
    requires Numbered(s, before) && (name == "metadata" || name == "wpt" || name == "rte")
    ensures var r := EndElement(s, name, decoders);
      Numbered(r, before + [End(name)]) && Yields(s.events, r.events, before, End(name))
  {
    var t := End(name);
    CountsSnoc(before, t);
    var r := EndElement(s, name, decoders);
    var stack := if name == "metadata" then s.metadataStack else if name == "wpt" then s.waypointStack else s.routeStack;
    var (_, node) := PopNode(stack);
    if node.Some? {
      var e := if name == "metadata" then Metadata(node.value) else if name == "wpt" then Waypoint(node.value) else Route(node.value);
      assert r.events == s.events + [e];
      YieldsAppend(s.events, [e], before, t);
    } else {
      YieldsNothing(s.events, before, t);
    }
  }

  lemma EndTrackNumbering(s: ParserState, decoders: Decoders, before: seq<Token>)
    requires Numbered(s, before)
    ensures var r := EndElement(s, "trk", decoders);
      Numbered(r, before + [End("trk")]) && Yields(s.events, r.events, before, End("trk"))
  {
    var t := End("trk");
    CountsSnoc(before, t);
    if s.trackState.Some? {
      var tr := s.trackState.value;
      if !tr.didEmitStart {
        YieldsAppend(s.events, [TrackStart(tr.index, TrackMetadata(tr.attributes, tr.childNodes)), TrackEnd(tr.index)], before, t);
      } else {
        YieldsAppend(s.events, [TrackEnd(tr.index)], before, t);
      }
    } else {
      YieldsNothing(s.events, before, t);
    }
  }

  lemma EndSegmentNumbering(s: ParserState, decoders: Decoders, before: seq<Token>)
    requires Numbered(s, before)
    ensures var r := EndElement(s, "trkseg", decoders);
      Numbered(r, before + [End("trkseg")]) && Yields(s.events, r.events, before, End("trkseg"))
  {
    var t := End("trkseg");
    CountsSnoc(before, t);
    if s.segmentState.Some? {
      var payload := FlushSegment(s.segmentState.value).MakePayload();
      YieldsAppend(s.events, [TrackSegment(payload)], before, t);
    } else {
      YieldsNothing(s.events, before, t);
    }
  }

  lemma EndNumbering(s: ParserState, name: string, decoders: Decoders, before: seq<Token>)
    requires Numbered(s, before)
    ensures var r := EndElement(s, name, decoders);
      Numbered(r, before + [End(name)]) && Yields(s.events, r.events, before, End(name))
  {
    if name == "metadata" || name == "wpt" || name == "rte" {
      EndContainerNumbering(s, name, decoders, before);
    } else if name == "trk" {
      EndTrackNumbering(s, decoders, before);
    } else if name == "trkseg" {
      EndSegmentNumbering(s, decoders, before);
    } else {
      CountsSnoc(before, End(name));
      assert EndElement(s, name, decoders).events == s.events;
      YieldsNothing(s.events, before, End(name));
    }
  }

  lemma StepNumbering(s: ParserState, t: Token, decoders: Decoders, before: seq<Token>)
    requires Numbered(s, before)
    ensures var r := Step(s, t, decoders);
      Numbered(r, before + [t]) && Yields(s.events, r.events, before, t)
  {
    match t {
      case Start(name, attributes) => StartNumbering(s, name, attributes, before);
      case Text(text) => TextNumbering(s, text, before);
      case End(name) => EndNumbering(s, name, decoders, before);
    }
  }

  lemma RunSnoc(tokens: seq<Token>, decoders: Decoders)
    requires |tokens| > 0
    ensures Run(Initial(), tokens, decoders) == Step(Run(Initial(), tokens[..|tokens| - 1], decoders), Last(tokens), decoders)
  {
    var n := |tokens| - 1;
    assert tokens == tokens[..n] + [tokens[n]];
    RunAppend(Initial(), tokens[..n], [tokens[n]], decoders);
  }

  lemma {:induction false} RunNumbering(tokens: seq<Token>, decoders: Decoders)
    ensures Numbered(Run(Initial(), tokens, decoders), tokens)
    decreases |tokens|
  {
    if |tokens| > 0 {
      var n := |tokens| - 1;
      RunNumbering(tokens[..n], decoders);
      RunSnoc(tokens, decoders);
      StepNumbering(Run(Initial(), tokens[..n], decoders), tokens[n], decoders, tokens[..n]);
      assert tokens[..n] + [tokens[n]] == tokens;
    }
  }

  /** For every sequence of callbacks, each callback only appends events,
      and what it appends is numbered by the callbacks before it: a track
      start or end carries the number of `<trk>`s so far less one, a
      payload the numbers of the `<trkseg>` that opened it (the `<trk>`s
      before that `<trkseg>` less one, and the `<trkseg>`s between them);
      the header comes only at `<gpx>` or `<trk>`. */
  lemma EventNumbers(tokens: seq<Token>, decoders: Decoders)
    ensures forall n :: 0 <= n < |tokens| ==>
      Yields(Run(Initial(), tokens[..n], decoders).events, Run(Initial(), tokens[..n + 1], decoders).events, tokens[..n], tokens[n])
  {
    forall n | 0 <= n < |tokens|
      ensures Yields(Run(Initial(), tokens[..n], decoders).events, Run(Initial(), tokens[..n + 1], decoders).events, tokens[..n], tokens[n])
    {
      var prefix := tokens[..n + 1];
      assert prefix[..n] == tokens[..n] && Last(prefix) == tokens[n];
      RunNumbering(tokens[..n], decoders);
      RunSnoc(prefix, decoders);
      StepNumbering(Run(Initial(), tokens[..n], decoders), tokens[n], decoders, tokens[..n]);
    }
  }

  // ---------------------------------------------------------------------
  // Single callbacks

  /** A `trkpt` closed inside a segment adds one point exactly when `lat`
      and `lon` are present and numeric, and nothing otherwise; the point
      state closes either way. */
  lemma ClosePointAddsParsablePoint(s: ParserState, decoders: Decoders)
    requires s.segmentState.Some? && s.pointState.Some?
    ensures var r := EndElement(s, "trkpt", decoders);
      var p := FlushPoint(s.pointState.value, decoders);
      && r.pointState.None? && r.events == s.events && r.segmentState.Some?
      && (p.Build(decoders).Some? ==> r.segmentState.value.points == s.segmentState.value.points + [p.Build(decoders).value])
      && (p.Build(decoders).None? ==> r.segmentState.value.points == s.segmentState.value.points)
  {
  }

  /** An unknown element closed in a segment (outside a point) becomes a
      sibling of the segment's nodes, leading while no point has been built
      and trailing after. */
  lemma UnknownUnderSegmentBecomesSibling(s: ParserState, name: string, decoders: Decoders)
    requires Inv(s)
    requires name !in {"metadata", "wpt", "rte", "trk", "trkseg", "trkpt"}
    requires s.pointState.None? && s.segmentState.Some? && |s.segmentState.value.builderStack| > 0
    ensures var g := s.segmentState.value;
      var r := EndElement(s, name, decoders).segmentState.value;
      var node := Last(g.builderStack).Build();
      && r.builderStack == g.builderStack[..|g.builderStack| - 1]
      && (|g.points| == 0 ==> r.leadingNodes == g.leadingNodes + [node] && r.trailingNodes == g.trailingNodes)
      && (|g.points| > 0 ==> r.trailingNodes == g.trailingNodes + [node] && r.leadingNodes == g.leadingNodes)
  {
  }

  /** An unknown element closed inside metadata (below its outermost
      element) becomes the last child of the element enclosing it. */
  lemma UnknownUnderMetadataBecomesChild(s: ParserState, name: string, decoders: Decoders)
    requires name !in {"metadata", "wpt", "rte", "trk", "trkseg", "trkpt"}
    requires s.pointState.None? && s.segmentState.None? && s.trackState.None? && |s.metadataStack| > 1
    ensures var m := s.metadataStack;
      var r := EndElement(s, name, decoders).metadataStack;
      && |r| == |m| - 1 && r[..|r| - 1] == m[..|m| - 2]
      && Last(r).children == m[|m| - 2].children + [Last(m).Build()]
  {
  }

  // ---------------------------------------------------------------------
  // Examples

  lemma RunCons(s: ParserState, token: Token, rest: seq<Token>, decoders: Decoders)
    ensures Run(s, [token] + rest, decoders) == Run(Step(s, token, decoders), rest, decoders)
  {
    assert ([token] + rest)[1..] == rest;
  }

  lemma RunAsWrittenCons(s: ParserState, token: Token, rest: seq<Token>, decoders: Decoders)
    ensures RunAsWritten(s, [token] + rest, decoders) == RunAsWritten(StepAsWritten(s, token, decoders), rest, decoders)
  {
    assert ([token] + rest)[1..] == rest;
  }

  lemma {:induction false} RunAppend(s: ParserState, a: seq<Token>, b: seq<Token>, decoders: Decoders)
    ensures Run(s, a + b, decoders) == Run(Run(s, a, decoders), b, decoders)
    decreases |a|
  {
    if |a| > 0 {
      assert (a + b)[0] == a[0] && (a + b)[1..] == a[1..] + b;
      RunAppend(Step(s, a[0], decoders), a[1..], b, decoders);
    } else {
      assert a + b == b;
    }
  }

  /** The state with track 0 and its segment 0 open, the start yielded. */
  function SegmentOpened(): ParserState {
    Initial().(currentTrackIndex := 0,
      events := [TrackStart(0, TrackMetadata(map[], []))],
      trackState := Some(NewTrackState(0, map[]).(didEmitStart := true, nextSegmentIndex := 1)),
      segmentState := Some(NewSegmentState(0, 0, map[])))
  }

  lemma SegmentOpenedRun(decoders: Decoders)
    ensures Run(Initial(), [Start("trk", map[]), Start("trkseg", map[])], decoders) == SegmentOpened()
  {
    var t := [Start("trk", map[]), Start("trkseg", map[])];
    var s1 := Step(Initial(), t[0], decoders);
    assert s1 == Initial().(currentTrackIndex := 0, trackState := Some(NewTrackState(0, map[])));
    RunCons(Initial(), t[0], t[1..], decoders);
    RunCons(s1, t[1], [], decoders);
    assert t == [t[0]] + t[1..] && t[1..] == [t[1]] + [];
  }

  lemma RunPair(s: ParserState, t0: Token, t1: Token, decoders: Decoders)
    ensures Run(s, [t0, t1], decoders) == Step(Step(s, t0, decoders), t1, decoders)
  {
    RunCons(s, t0, [t1], decoders);
    RunCons(Step(s, t0, decoders), t1, [], decoders);
    assert [t0, t1] == [t0] + [t1] && [t1] == [t1] + [];
  }

  /** Segment 0 with the builders of `extensions` and `x` open. */
  function SegmentNestedOpen(): ParserState {
    SegmentOpened().(segmentState := Some(SegmentState(0, 0, map[], [], [],
      [NewBuilder("extensions", map[]), NewBuilder("x", map[])], [], false)))
  }

  lemma SegmentNestedOpenRun(decoders: Decoders)
    ensures Run(SegmentOpened(), [Start("extensions", map[]), Start("x", map[])], decoders) == SegmentNestedOpen()
  {
    var s2 := SegmentOpened();
    RunPair(s2, Start("extensions", map[]), Start("x", map[]), decoders);
    var s3 := Step(s2, Start("extensions", map[]), decoders);
    assert "extensions" != "gpx" && "extensions" != "trkseg";
    assert s3 == StartUnknown(s2, "extensions", map[]);
    assert s3.segmentState.value.builderStack == [NewBuilder("extensions", map[])];
    var s4 := Step(s3, Start("x", map[]), decoders);
    assert "x" != "gpx" && "x" != "trkseg";
    assert s4 == StartUnknown(s3, "x", map[]);
    assert s4.segmentState.value.builderStack == [NewBuilder("extensions", map[])] + [NewBuilder("x", map[])]
      == [NewBuilder("extensions", map[]), NewBuilder("x", map[])];
  }

  /** Segment 0 holding `x` then `extensions` as leading nodes. */
  function SegmentNestedClosed(): ParserState {
    SegmentOpened().(segmentState := Some(SegmentState(0, 0, map[],
      [XmlNode("x", map[], None, []), XmlNode("extensions", map[], None, [])], [], [], [], false)))
  }

  lemma SegmentNestedCloseRun(decoders: Decoders)
    ensures Run(SegmentNestedOpen(), [End("x"), End("extensions")], decoders) == SegmentNestedClosed()
  {
    var x := XmlNode("x", map[], None, []);
    var ext := XmlNode("extensions", map[], None, []);
    var s4 := SegmentNestedOpen();
    RunPair(s4, End("x"), End("extensions"), decoders);
    var s5 := Step(s4, End("x"), decoders);
    assert "x" != "metadata" && "x" != "trkseg";
    assert s5 == EndUnknown(s4, decoders);
    assert s4.segmentState.value.builderStack[..1] == [NewBuilder("extensions", map[])];
    assert NewBuilder("x", map[]).Build() == x;
    assert s5.segmentState.value.leadingNodes == [] + [x] == [x];
    var s6 := Step(s5, End("extensions"), decoders);
    assert "extensions" != "metadata" && "extensions" != "trkseg";
    assert s6 == EndUnknown(s5, decoders);
    assert NewBuilder("extensions", map[]).Build() == ext;
    assert s6.segmentState.value.leadingNodes == [x] + [ext] == [x, ext];
    assert s6.segmentState.value.builderStack == [];
  }

  /** Nested unknown elements in a segment are flattened: the inner one
      closes first and both end up as leading siblings. */
  lemma SegmentFlatteningExample(decoders: Decoders)
    ensures var tokens := [Start("trk", map[]), Start("trkseg", map[]), Start("extensions", map[]),
        Start("x", map[]), End("x"), End("extensions"), End("trkseg"), End("trk")];
      Run(Initial(), tokens, decoders).events ==
        [TrackStart(0, TrackMetadata(map[], [])),
         TrackSegment(SegmentPayload(0, 0, map[],
           [XmlNode("x", map[], None, []), XmlNode("extensions", map[], None, [])], [], [])),
         TrackEnd(0)]
  {
    var a := [Start("trk", map[]), Start("trkseg", map[])];
    var b := [Start("extensions", map[]), Start("x", map[]), End("x"), End("extensions")];
    var c := [End("trkseg"), End("trk")];
    SegmentFlatteningSplit(a, b, c);
    RunAppend(Initial(), a + b, c, decoders);
    RunAppend(Initial(), a, b, decoders);
    SegmentOpenedRun(decoders);
    SegmentNestedRun(decoders);
    SegmentClosedRun(decoders);
  }

  lemma SegmentFlatteningSplit(a: seq<Token>, b: seq<Token>, c: seq<Token>)
    requires a == [Start("trk", map[]), Start("trkseg", map[])]
    requires b == [Start("extensions", map[]), Start("x", map[]), End("x"), End("extensions")]
    requires c == [End("trkseg"), End("trk")]
    ensures a + b + c == [Start("trk", map[]), Start("trkseg", map[]), Start("extensions", map[]),
        Start("x", map[]), End("x"), End("extensions"), End("trkseg"), End("trk")]
  {
  }

  lemma SegmentNestedRun(decoders: Decoders)
    ensures Run(SegmentOpened(), [Start("extensions", map[]), Start("x", map[]), End("x"), End("extensions")], decoders)
      == SegmentNestedClosed()
  {
    var b := [Start("extensions", map[]), Start("x", map[]), End("x"), End("extensions")];
    RunAppend(SegmentOpened(), b[..2], b[2..], decoders);
    assert b == b[..2] + b[2..] && b[..2] == [Start("extensions", map[]), Start("x", map[])];
    assert b[2..] == [End("x"), End("extensions")];
    SegmentNestedOpenRun(decoders);
    SegmentNestedCloseRun(decoders);
  }

  lemma SegmentClosedRun(decoders: Decoders)
    ensures Run(SegmentNestedClosed(), [End("trkseg"), End("trk")], decoders).events ==
        [TrackStart(0, TrackMetadata(map[], [])),
         TrackSegment(SegmentPayload(0, 0, map[],
           [XmlNode("x", map[], None, []), XmlNode("extensions", map[], None, [])], [], [])),
         TrackEnd(0)]
  {
    var s6 := SegmentNestedClosed();
    RunPair(s6, End("trkseg"), End("trk"), decoders);
    var s7 := Step(s6, End("trkseg"), decoders);
    assert s7.events == [TrackStart(0, TrackMetadata(map[], [])), TrackSegment(SegmentPayload(0, 0, map[],
      [XmlNode("x", map[], None, []), XmlNode("extensions", map[], None, [])], [], []))];
  }

  /** The metadata builder with an open `name` child holding the text "A". */
  function MetadataNamed(): ParserState {
    Initial().(metadataStack := [NewBuilder("metadata", map[]), NewBuilder("name", map[]).AppendText("A")])
  }

  lemma MetadataNamedRun(decoders: Decoders)
    ensures Run(Initial(), [Start("metadata", map[]), Start("name", map[]), Text("A")], decoders) == MetadataNamed()
  {
    var a := [Start("metadata", map[]), Start("name", map[])];
    RunAppend(Initial(), a, [Text("A")], decoders);
    assert a + [Text("A")] == [Start("metadata", map[]), Start("name", map[]), Text("A")];
    RunPair(Initial(), a[0], a[1], decoders);
    var s1 := Step(Initial(), a[0], decoders);
    assert s1.metadataStack == [NewBuilder("metadata", map[])];
    var s2 := Step(s1, a[1], decoders);
    assert "name" != "gpx" && "name" != "trkseg" && "name" != "trkpt";
    assert s2 == StartUnknown(s1, "name", map[]);
    assert s2.metadataStack == [NewBuilder("metadata", map[])] + [NewBuilder("name", map[])];
    RunCons(s2, Text("A"), [], decoders);
    assert [Text("A")] == [Text("A")] + [];
    var s3 := Step(s2, Text("A"), decoders);
    assert s3.metadataStack == [NewBuilder("metadata", map[])] + [NewBuilder("name", map[]).AppendText("A")];
  }

  /** Inside metadata the nesting is kept: the inner element becomes a child
      carrying its text. */
  lemma MetadataNestingExample(decoders: Decoders)
    ensures var tokens := [Start("metadata", map[]), Start("name", map[]), Text("A"), End("name"), End("metadata")];
      Run(Initial(), tokens, decoders).events ==
        [Metadata(XmlNode("metadata", map[], None, [XmlNode("name", map[], Some("A"), [])]))]
  {
    var a := [Start("metadata", map[]), Start("name", map[]), Text("A")];
    var b := [End("name"), End("metadata")];
    assert a + b == [Start("metadata", map[]), Start("name", map[]), Text("A"), End("name"), End("metadata")];
    RunAppend(Initial(), a, b, decoders);
    MetadataNamedRun(decoders);
    var s3 := MetadataNamed();
    RunPair(s3, b[0], b[1], decoders);
    var name := XmlNode("name", map[], Some("A"), []);
    assert Concat(["A"]) == "A" by {
      ConcatSnoc([], "A");
    }
    assert NewBuilder("name", map[]).AppendText("A").Build() == name;
    var s4 := Step(s3, b[0], decoders);
    assert "name" != "metadata" && "name" != "trkseg" && "name" != "trkpt";
    assert s4 == EndUnknown(s3, decoders);
    assert s4.metadataStack == [NewBuilder("metadata", map[]).AppendChild(name)];
    var s5 := Step(s4, b[1], decoders);
    assert NewBuilder("metadata", map[]).AppendChild(name).Build() == XmlNode("metadata", map[], None, [name]);
    assert s5.events == [Metadata(NewBuilder("metadata", map[]).AppendChild(name).Build())];
  }

  // ---------------------------------------------------------------------
  // Finding: the track start is yielded again as the source is written

  /** One track with one segment, as the source handles it: the stale copy
      written back at `<trkseg>` unmarks the track start, so `</trk>` yields
      it a second time. */
  lemma TrackStartRepeatedAsWritten(decoders: Decoders)
    ensures var tokens := [Start("trk", map[]), Start("trkseg", map[]), End("trkseg"), End("trk")];
      var events := RunAsWritten(Initial(), tokens, decoders).events;
      && events ==
        [TrackStart(0, TrackMetadata(map[], [])),
         TrackSegment(SegmentPayload(0, 0, map[], [], [], [])),
         TrackStart(0, TrackMetadata(map[], [])),
         TrackEnd(0)]
      && !TrackStartsIncreasing(events)
  {
    var t := [Start("trk", map[]), Start("trkseg", map[]), End("trkseg"), End("trk")];
    var s0 := Initial();
    var s1 := StepAsWritten(s0, t[0], decoders);
    var s2 := StepAsWritten(s1, t[1], decoders);
    var s3 := StepAsWritten(s2, t[2], decoders);
    var s4 := StepAsWritten(s3, t[3], decoders);
    assert s2.trackState == Some(NewTrackState(0, map[]).(nextSegmentIndex := 1));
    RunAsWrittenCons(s0, t[0], t[1..], decoders);
    RunAsWrittenCons(s1, t[1], t[2..], decoders);
    RunAsWrittenCons(s2, t[2], t[3..], decoders);
    RunAsWrittenCons(s3, t[3], [], decoders);
    assert t == [t[0]] + t[1..];
    assert t[1..] == [t[1]] + t[2..];
    assert t[2..] == [t[2]] + t[3..];
    assert t[3..] == [t[3]] + [];
    var events := s4.events;
    assert events[0].TrackStart? && events[2].TrackStart? && events[0].index == events[2].index;
  }

  /** The same document with the corrected `<trkseg>`: one start, one
      segment, one end. */
  lemma TrackStartOnceCorrected(decoders: Decoders)
    ensures var tokens := [Start("trk", map[]), Start("trkseg", map[]), End("trkseg"), End("trk")];
      Run(Initial(), tokens, decoders).events ==
        [TrackStart(0, TrackMetadata(map[], [])),
         TrackSegment(SegmentPayload(0, 0, map[], [], [], [])),
         TrackEnd(0)]
  {
    var t := [Start("trk", map[]), Start("trkseg", map[]), End("trkseg"), End("trk")];
    var s0 := Initial();
    var s1 := Step(s0, t[0], decoders);
    var s2 := Step(s1, t[1], decoders);
    var s3 := Step(s2, t[2], decoders);
    var s4 := Step(s3, t[3], decoders);
    assert s2.trackState == Some(NewTrackState(0, map[]).(didEmitStart := true, nextSegmentIndex := 1));
    RunCons(s0, t[0], t[1..], decoders);
    RunCons(s1, t[1], t[2..], decoders);
    RunCons(s2, t[2], t[3..], decoders);
    RunCons(s3, t[3], [], decoders);
    assert t == [t[0]] + t[1..];
    assert t[1..] == [t[1]] + t[2..];
    assert t[2..] == [t[2]] + t[3..];
    assert t[3..] == [t[3]] + [];
  }
}
