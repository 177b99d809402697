/** `GPXStreamWriter`: serialises the parser's events back into GPX markup.

    The file is replaced by the list of strings handed to it, in order
    (`output`); Swift's `Double` description and the ISO-8601 date formatter
    are the functions of `Formatters`. The writer's own `xmlEscaped` is the
    same five-entity escaping as the XML node's and is `XmlEscaped`. */
module StreamWriter {
  import opened Wrappers
  import opened Seqs
  import opened StringOrder
  import opened XmlNodes
  import opened GpxModel

  /** The description of a `Double` and `iso8601Formatter.string(from:)`. */
  datatype Formatters = Formatters(number: real -> string, date: real -> string)

  /** The writer's fields and everything written so far. */
  datatype WriterState = WriterState(level: nat, output: seq<string>, closed: bool)

  const Declaration: string := "<?xml version=\"1.0\" encoding=\"UTF-8\"?>\n"

  // ---------------------------------------------------------------------
  // What each call writes

  /** One chunk of output: the indentation for `level`, then `body`. */
  function Line(level: nat, body: string): string {
    Indent(level) + body
  }

  /** An element's opening line at `level`: tabs, name, sorted attributes. */
  function OpenLine(level: nat, name: string, attributes: map<string, string>): string {
    Line(level, "<" + name + AttributeText(attributes) + ">\n")
  }

  function CloseLine(level: nat, name: string): string {
    Line(level, "</" + name + ">\n")
  }

  /** A one-line element holding `text`, as `<ele>` and `<time>` are written. */
  function ElementLine(level: nat, name: string, text: string): string {
    Line(level, "<" + name + ">" + text + "</" + name + ">\n")
  }

  /** One chunk per element, in order. */
  function MapChunks<T>(xs: seq<T>, render: T -> string): (r: seq<string>)
    ensures |r| == |xs|
    decreases |xs|
  {
    if |xs| == 0 then [] else MapChunks(xs[..|xs| - 1], render) + [render(Last(xs))]
  }

  /** The chunks of each element, one element after the other. */
  function FlatChunks<T>(xs: seq<T>, chunks: T -> seq<string>): seq<string>
    decreases |xs|
  {
    if |xs| == 0 then [] else FlatChunks(xs[..|xs| - 1], chunks) + chunks(Last(xs))
  }

  /** `write(node:)` for each node in turn. */
  function NodeChunks(nodes: seq<XmlNode>, level: nat): seq<string> {
    MapChunks(nodes, n => Render(n, level))
  }

  /** The attributes of a `trkpt` tag: `lat`, `lon`, then the others by key. */
  function PointAttributes(point: Point, f: Formatters): string {
    Coordinates(point, f) + AttributeText(point.attributes)
  }

  /** The `lat` and `lon` attributes that open every `trkpt` tag. */
  function Coordinates(point: Point, f: Formatters): string {
    " lat=\"" + f.number(point.latitude) + "\" lon=\"" + f.number(point.longitude) + "\""
  }

  function PointOpenLine(level: nat, attributes: string): string {
    Line(level, "<trkpt" + attributes + ">\n")
  }

  /** The `<ele>` line of `write(point:)`, when the point has an elevation. */
  function ElevationChunks(point: Point, level: nat, f: Formatters): seq<string> {
    match point.elevation
    case Some(e) => [ElementLine(level, "ele", f.number(e))]
    case None => []
  }

  /** The `<time>` line of `write(point:)`, when the point has a timestamp. */
  function TimeChunks(point: Point, level: nat, f: Formatters): seq<string> {
    match point.timestamp
    case Some(t) => [ElementLine(level, "time", f.date(t))]
    case None => []
  }

  /** The `ele` and `time` lines, in that order. */
  function MeasurementChunks(point: Point, level: nat, f: Formatters): seq<string> {
    ElevationChunks(point, level, f) + TimeChunks(point, level, f)
  }

  /** What `write(point:)` puts between the point's tags: `ele` and `time`
      when present, then the other children, all one level deeper. */
  function PointInner(point: Point, level: nat, f: Formatters): seq<string> {
    MeasurementChunks(point, level + 1, f) + NodeChunks(point.childNodes, level + 1)
  }

  /** `write(point:)`. */
  function PointChunks(point: Point, level: nat, f: Formatters): seq<string> {
    [PointOpenLine(level, PointAttributes(point, f))] + PointInner(point, level, f) + [CloseLine(level, "trkpt")]
  }

  /** `write(point:)` for each point in turn. */
  function PointsChunks(points: seq<Point>, level: nat, f: Formatters): seq<string> {
    FlatChunks(points, p => PointChunks(p, level, f))
  }

  /** What `writeSegment` puts between the segment's tags, at level `inner`. */
  function SegmentInner(segment: SegmentPayload, inner: nat, f: Formatters): seq<string> {
    NodeChunks(segment.leadingNodes, inner)
      + PointsChunks(segment.points, inner, f)
      + NodeChunks(segment.trailingNodes, inner)
  }

  /** `writeSegment`: open tag, leading nodes, points, trailing nodes, close tag. */
  function SegmentChunks(segment: SegmentPayload, level: nat, f: Formatters): seq<string> {
    [OpenLine(level, "trkseg", segment.attributes)] + SegmentInner(segment, level + 1, f)
      + [CloseLine(level, "trkseg")]
  }

  const GpxClose: string := "</gpx>\n"

  // ---------------------------------------------------------------------
  // The calls as transitions

  function AfterHeader(s: WriterState, header: DocumentHeader): WriterState {
    s.(output := s.output + [Declaration, "<gpx" + AttributeText(header.attributes) + ">\n"], level := 1)
  }

  function AfterNode(s: WriterState, node: XmlNode): WriterState {
    s.(output := s.output + [Render(node, s.level)])
  }

  function AfterBeginTrack(s: WriterState, metadata: TrackMetadata): WriterState {
    s.(output := s.output + [OpenLine(s.level, "trk", metadata.attributes)]
         + NodeChunks(metadata.childNodes, s.level + 1),
       level := s.level + 1)
  }

  function AfterSegment(s: WriterState, segment: SegmentPayload, f: Formatters): WriterState {
    s.(output := s.output + SegmentChunks(segment, s.level, f))
  }

  /** `endTrack`: the level drops first, so the closing tag sits at the
      indentation of the opening one. */
  function AfterEndTrack(s: WriterState): WriterState
    requires s.level >= 1
  {
    s.(level := s.level - 1, output := s.output + [CloseLine(s.level - 1, "trk")])
  }

  function AfterFinish(s: WriterState): WriterState {
    s.(output := s.output + [GpxClose], closed := true)
  }

  /** Several segments written one after the other. */
  function AfterSegments(s: WriterState, segments: seq<SegmentPayload>, f: Formatters): WriterState
    decreases |segments|
  {
    if |segments| == 0 then s
    else AfterSegment(AfterSegments(s, segments[..|segments| - 1], f), Last(segments), f)
  }

  // ---------------------------------------------------------------------
  // Properties of what is written

  predicate EndsWithNewline(c: string) {
    |c| > 0 && c[|c| - 1] == '\n'
  }

  /** Every chunk is one or more whole lines. */
  ghost predicate Lines(chunks: seq<string>) {
    forall i :: 0 <= i < |chunks| ==> EndsWithNewline(chunks[i])
  }

  /** The chunk starts with at least `level` tabs. */
  predicate IndentedBy(c: string, level: nat) {
    |c| >= level && forall i :: 0 <= i < level ==> c[i] == '\t'
  }

  ghost predicate AllIndentedBy(chunks: seq<string>, level: nat) {
    forall i :: 0 <= i < |chunks| ==> IndentedBy(chunks[i], level)
  }

  lemma IndentedAppend(a: string, b: string, level: nat)
    requires IndentedBy(a, level)
    ensures IndentedBy(a + b, level)
  {
    assert forall i :: 0 <= i < level ==> (a + b)[i] == a[i];
  }

  lemma NewlineAppend(a: string, b: string)
    requires EndsWithNewline(b)
    ensures EndsWithNewline(a + b)
  {
    assert (a + b)[|a + b| - 1] == b[|b| - 1];
  }

  /** A line is indented by its level and ends where its body does. */
  lemma LineShape(level: nat, body: string)
    requires EndsWithNewline(body)
    ensures IndentedBy(Line(level, body), level) && EndsWithNewline(Line(level, body))
  {
    IndentedAppend(Indent(level), body, level);
    NewlineAppend(Indent(level), body);
  }

  lemma OpenLineShape(level: nat, name: string, attributes: map<string, string>)
    ensures IndentedBy(OpenLine(level, name, attributes), level) && EndsWithNewline(OpenLine(level, name, attributes))
  {
    NewlineAppend("<" + name + AttributeText(attributes), ">\n");
    LineShape(level, "<" + name + AttributeText(attributes) + ">\n");
  }

  lemma CloseLineShape(level: nat, name: string)
    ensures IndentedBy(CloseLine(level, name), level) && EndsWithNewline(CloseLine(level, name))
  {
    NewlineAppend("</" + name, ">\n");
    LineShape(level, "</" + name + ">\n");
  }

  lemma ElementLineShape(level: nat, name: string, text: string)
    ensures IndentedBy(ElementLine(level, name, text), level) && EndsWithNewline(ElementLine(level, name, text))
  {
    NewlineAppend("<" + name + ">" + text + "</" + name, ">\n");
    LineShape(level, "<" + name + ">" + text + "</" + name + ">\n");
  }

  /** A rendered node starts with its indentation and ends with a newline,
      so the `hasSuffix("\n")` repair in `write(node:)` never applies. */
  lemma RenderLine(node: XmlNode, level: nat)
    ensures IndentedBy(Render(node, level), level) && EndsWithNewline(Render(node, level))
  {
    var open := OpenTag(node, level);
    IndentedAppend(Indent(level), "<", level);
    IndentedAppend(Indent(level) + "<", node.name, level);
    IndentedAppend(Indent(level) + "<" + node.name, AttributeText(node.attributes), level);
    if node.children == [] && (node.text == None || node.text == Some("")) {
      assert Render(node, level) == open + "/>\n";
      IndentedAppend(open, "/>\n", level);
    } else if node.children != [] {
      var a := open + ">\n" + RenderAll(node.children, level + 1);
      IndentedAppend(open, ">\n", level);
      IndentedAppend(open + ">\n", RenderAll(node.children, level + 1), level);
      IndentedAppend(a, Indent(level), level);
      IndentedAppend(a + Indent(level), "</", level);
      IndentedAppend(a + Indent(level) + "</", node.name, level);
      IndentedAppend(a + Indent(level) + "</" + node.name, ">\n", level);
    } else {
      var a := open + ">" + XmlEscaped(node.text.value);
      IndentedAppend(open, ">", level);
      IndentedAppend(open + ">", XmlEscaped(node.text.value), level);
      IndentedAppend(a, "</", level);
      IndentedAppend(a + "</", node.name, level);
      IndentedAppend(a + "</" + node.name, ">\n", level);
    }
  }

  lemma {:induction false} MapChunksAt<T>(xs: seq<T>, render: T -> string, i: nat)
    requires i < |xs|
    ensures MapChunks(xs, render)[i] == render(xs[i])
    decreases |xs|
  {
    var n := |xs| - 1;
    if i < n {
      assert xs[..n][i] == xs[i];
      MapChunksAt(xs[..n], render, i);
    }
  }

  lemma MapChunksSnoc<T>(xs: seq<T>, render: T -> string, i: nat)
    requires i < |xs|
    ensures MapChunks(xs[..i + 1], render) == MapChunks(xs[..i], render) + [render(xs[i])]
  {
    assert xs[..i + 1][..i] == xs[..i];
  }

  lemma FlatChunksSnoc<T>(xs: seq<T>, chunks: T -> seq<string>, i: nat)
    requires i < |xs|
    ensures FlatChunks(xs[..i + 1], chunks) == FlatChunks(xs[..i], chunks) + chunks(xs[i])
  {
    assert xs[..i + 1][..i] == xs[..i];
  }

  lemma NodeChunksSnoc(nodes: seq<XmlNode>, level: nat, i: nat)
    requires i < |nodes|
    ensures NodeChunks(nodes[..i + 1], level) == NodeChunks(nodes[..i], level) + [Render(nodes[i], level)]
  {
    MapChunksSnoc(nodes, n => Render(n, level), i);
  }

  lemma PointsChunksSnoc(points: seq<Point>, level: nat, f: Formatters, i: nat)
    requires i < |points|
    ensures PointsChunks(points[..i + 1], level, f) == PointsChunks(points[..i], level, f) + PointChunks(points[i], level, f)
  {
    FlatChunksSnoc(points, p => PointChunks(p, level, f), i);
  }

  /** `write(node:)` for each node writes exactly the nodes' renderings, in order. */
  lemma NodeChunksAt(nodes: seq<XmlNode>, level: nat, i: nat)
    requires i < |nodes|
    ensures |NodeChunks(nodes, level)| == |nodes| && NodeChunks(nodes, level)[i] == Render(nodes[i], level)
  {
    MapChunksAt(nodes, n => Render(n, level), i);
  }

  lemma NodeChunksLines(nodes: seq<XmlNode>, level: nat)
    ensures Lines(NodeChunks(nodes, level)) && AllIndentedBy(NodeChunks(nodes, level), level)
  {
    forall i | 0 <= i < |nodes|
      ensures EndsWithNewline(NodeChunks(nodes, level)[i]) && IndentedBy(NodeChunks(nodes, level)[i], level)
    {
      NodeChunksAt(nodes, level, i);
      RenderLine(nodes[i], level);
    }
  }

  lemma LinesAppend(a: seq<string>, b: seq<string>, level: nat)
    requires Lines(a) && Lines(b) && AllIndentedBy(a, level) && AllIndentedBy(b, level)
    ensures Lines(a + b) && AllIndentedBy(a + b, level)
  {
    forall i | 0 <= i < |a + b|
      ensures EndsWithNewline((a + b)[i]) && IndentedBy((a + b)[i], level)
    {
      if i >= |a| {
        assert (a + b)[i] == b[i - |a|];
      }
    }
  }

  /** Lines one level deeper are also indented by the shallower level. */
  lemma AllIndentedShallower(chunks: seq<string>, level: nat)
    requires AllIndentedBy(chunks, level + 1)
    ensures AllIndentedBy(chunks, level)
  {
  }

  /** Tags at `level` around lines one level deeper. */
  lemma FramedLayout(open: string, inner: seq<string>, close: string, level: nat)
    requires IndentedBy(open, level) && EndsWithNewline(open)
    requires IndentedBy(close, level) && EndsWithNewline(close)
    requires Lines(inner) && AllIndentedBy(inner, level + 1)
    ensures var r := [open] + inner + [close];
      && Lines(r) && AllIndentedBy(r, level) && r[1..|r| - 1] == inner
  {
    AllIndentedShallower(inner, level);
    LinesAppend([open], inner, level);
    LinesAppend([open] + inner, [close], level);
    assert ([open] + inner + [close])[1..|inner| + 1] == inner;
  }

  /** Exactly one line: the only newline is the last character. */
  predicate OneLine(c: string) {
    EndsWithNewline(c) && '\n' !in c[..|c| - 1]
  }

  /** A node without children is written as one line at its indentation,
      provided no name, attribute or text holds a line break (escaping keeps
      line breaks, so one there would split the element). */
  lemma RenderLeafOneLine(node: XmlNode, level: nat)
    requires node.children == [] && SingleLineContent(node)
    ensures IndentedBy(Render(node, level), level) && OneLine(Render(node, level))
  {
    RenderLine(node, level);
    var body := LeafBody(node, level);
    BodyLine(body);
  }

  /** A leaf's line without its newline, free of line breaks. */
  lemma LeafBody(node: XmlNode, level: nat) returns (body: string)
    requires node.children == [] && SingleLineContent(node)
    ensures Render(node, level) == body + "\n" && '\n' !in body
  {
    AttributeTextNewlines(node.attributes);
    var open := OpenTag(node, level);
    assert '\n' !in Indent(level);
    if node.text == None || node.text == Some("") {
      body := open + "/>";
    } else {
      var t := node.text.value;
      XmlEscapedNewlines(t);
      body := open + ">" + XmlEscaped(t) + "</" + node.name + ">";
    }
  }

  lemma BodyLine(body: string)
    requires '\n' !in body
    ensures OneLine(body + "\n")
  {
    assert (body + "\n")[..|body|] == body;
  }

  /** The children rendered one after another are the chunks `write(node:)`
      would produce for them, joined. */
  lemma {:induction false} RenderAllChunks(children: seq<XmlNode>, level: nat)
    ensures RenderAll(children, level) == Concat(NodeChunks(children, level))
    decreases |children|
  {
    if |children| > 0 {
      var init := children[..|children| - 1];
      RenderAllChunks(init, level);
      assert children == init + [Last(children)];
      RenderAllSnoc(init, Last(children), level);
      ConcatSnoc(NodeChunks(init, level), Render(Last(children), level));
    }
  }

  /** A node with children is written as its opening line at its level, the
      renderings of its children in order, each whole lines one level deeper,
      and its closing line back at its own level. */
  lemma RenderFramed(node: XmlNode, level: nat)
    requires node.children != []
    ensures var inner := NodeChunks(node.children, level + 1);
      var r := [OpenLine(level, node.name, node.attributes)] + inner + [CloseLine(level, node.name)];
      && Render(node, level) == Concat(r)
      && (forall i :: 0 <= i < |node.children| ==> inner[i] == Render(node.children[i], level + 1))
      && Lines(inner) && AllIndentedBy(inner, level + 1)
      && Lines(r) && AllIndentedBy(r, level)
  {
    var inner := NodeChunks(node.children, level + 1);
    var open := OpenLine(level, node.name, node.attributes);
    var close := CloseLine(level, node.name);
    forall i | 0 <= i < |node.children|
      ensures inner[i] == Render(node.children[i], level + 1)
    {
      NodeChunksAt(node.children, level + 1, i);
    }
    NodeChunksLines(node.children, level + 1);
    OpenLineShape(level, node.name, node.attributes);
    CloseLineShape(level, node.name);
    FramedLayout(open, inner, close, level);
    RenderParentText(node, level);
    RenderAllChunks(node.children, level + 1);
    FramedConcat(open, inner, close);
  }

  lemma RenderParentText(node: XmlNode, level: nat)
    requires node.children != []
    ensures Render(node, level)
      == OpenLine(level, node.name, node.attributes) + RenderAll(node.children, level + 1) + CloseLine(level, node.name)
  {
    var tag := "<" + node.name + AttributeText(node.attributes);
    var inner := RenderAll(node.children, level + 1);
    assert OpenTag(node, level) + ">\n" == Indent(level) + (tag + ">\n");
    assert Render(node, level) == (OpenTag(node, level) + ">\n") + inner + (Indent(level) + ("</" + node.name + ">\n"));
  }

  lemma FramedConcat(open: string, inner: seq<string>, close: string)
    ensures Concat([open] + inner + [close]) == open + Concat(inner) + close
  {
    ConcatAppend([open], inner);
    ConcatSnoc([open] + inner, close);
    assert Concat([open]) == open by { assert [open][..0] == []; }
  }

  lemma PointInnerLayout(point: Point, level: nat, f: Formatters)
    ensures Lines(PointInner(point, level, f)) && AllIndentedBy(PointInner(point, level, f), level + 1)
  {
    var ele := ElevationChunks(point, level + 1, f);
    var time := TimeChunks(point, level + 1, f);
    if point.elevation.Some? {
      ElementLineShape(level + 1, "ele", f.number(point.elevation.value));
    }
    if point.timestamp.Some? {
      ElementLineShape(level + 1, "time", f.date(point.timestamp.value));
    }
    NodeChunksLines(point.childNodes, level + 1);
    LinesAppend(ele, time, level + 1);
    LinesAppend(MeasurementChunks(point, level + 1, f), NodeChunks(point.childNodes, level + 1), level + 1);
  }

  /** A point is written as whole lines: its tags at the point's level and
      everything between them one level deeper. */
  lemma PointLayout(point: Point, level: nat, f: Formatters)
    ensures var r := PointChunks(point, level, f);
      && |r| >= 2 && Lines(r) && AllIndentedBy(r, level)
      && r[0] == PointOpenLine(level, PointAttributes(point, f))
      && Last(r) == CloseLine(level, "trkpt")
      && AllIndentedBy(r[1..|r| - 1], level + 1)
  {
    var body := "<trkpt" + PointAttributes(point, f);
    NewlineAppend(body, ">\n");
    LineShape(level, body + ">\n");
    CloseLineShape(level, "trkpt");
    PointInnerLayout(point, level, f);
    FramedLayout(PointOpenLine(level, PointAttributes(point, f)), PointInner(point, level, f), CloseLine(level, "trkpt"), level);
  }

  /** Whole lines at `level` for every element give whole lines at `level`. */
  lemma {:induction false} FlatChunksLayout<T>(xs: seq<T>, chunks: T -> seq<string>, level: nat)
    requires forall x | x in xs :: Lines(chunks(x)) && AllIndentedBy(chunks(x), level)
    ensures Lines(FlatChunks(xs, chunks)) && AllIndentedBy(FlatChunks(xs, chunks), level)
    decreases |xs|
  {
    if |xs| > 0 {
      var n := |xs| - 1;
      assert forall x | x in xs[..n] :: x in xs;
      FlatChunksLayout(xs[..n], chunks, level);
      assert Last(xs) in xs;
      LinesAppend(FlatChunks(xs[..n], chunks), chunks(Last(xs)), level);
    }
  }

  lemma PointsLayout(points: seq<Point>, level: nat, f: Formatters)
    ensures Lines(PointsChunks(points, level, f)) && AllIndentedBy(PointsChunks(points, level, f), level)
  {
    var chunks := p => PointChunks(p, level, f);
    forall p | p in points
      ensures Lines(chunks(p)) && AllIndentedBy(chunks(p), level)
    {
      PointLayout(p, level, f);
    }
    FlatChunksLayout(points, chunks, level);
  }

  lemma SegmentInnerLayout(segment: SegmentPayload, level: nat, f: Formatters)
    ensures Lines(SegmentInner(segment, level + 1, f)) && AllIndentedBy(SegmentInner(segment, level + 1, f), level + 1)
  {
    var leading := NodeChunks(segment.leadingNodes, level + 1);
    var points := PointsChunks(segment.points, level + 1, f);
    NodeChunksLines(segment.leadingNodes, level + 1);
    NodeChunksLines(segment.trailingNodes, level + 1);
    PointsLayout(segment.points, level + 1, f);
    LinesAppend(leading, points, level + 1);
    LinesAppend(leading + points, NodeChunks(segment.trailingNodes, level + 1), level + 1);
  }

  /** A segment is written as whole lines: the `trkseg` tags at the writer's
      level, the closing one last, and every line between them (nodes and
      points) at least one level deeper. */
  lemma SegmentLayout(segment: SegmentPayload, level: nat, f: Formatters)
    ensures var r := SegmentChunks(segment, level, f);
      && |r| >= 2 && Lines(r) && AllIndentedBy(r, level)
      && r[0] == OpenLine(level, "trkseg", segment.attributes)
      && Last(r) == CloseLine(level, "trkseg")
      && AllIndentedBy(r[1..|r| - 1], level + 1)
  {
    OpenLineShape(level, "trkseg", segment.attributes);
    CloseLineShape(level, "trkseg");
    SegmentInnerLayout(segment, level, f);
    FramedLayout(OpenLine(level, "trkseg", segment.attributes), SegmentInner(segment, level + 1, f),
      CloseLine(level, "trkseg"), level);
  }

  /** `longer` starts with `shorter`: later calls only append. */
  ghost predicate Extends<T>(longer: seq<T>, shorter: seq<T>) {
    |longer| >= |shorter| && longer[..|shorter|] == shorter
  }

  lemma ExtendsTransitive<T>(a: seq<T>, b: seq<T>, c: seq<T>)
    requires Extends(a, b) && Extends(b, c)
    ensures Extends(a, c)
  {
    assert a[..|c|] == a[..|b|][..|c|];
  }

  lemma ExtendsAppend<T>(a: seq<T>, b: seq<T>)
    ensures Extends(a + b, a)
  {
    assert (a + b)[..|a|] == a;
  }

  lemma {:induction false} AfterSegmentsKeeps(s: WriterState, segments: seq<SegmentPayload>, f: Formatters)
    ensures AfterSegments(s, segments, f).level == s.level
    ensures AfterSegments(s, segments, f).closed == s.closed
    ensures Extends(AfterSegments(s, segments, f).output, s.output)
    decreases |segments|
  {
    if |segments| > 0 {
      var t := AfterSegments(s, segments[..|segments| - 1], f);
      AfterSegmentsKeeps(s, segments[..|segments| - 1], f);
      ExtendsAppend(t.output, SegmentChunks(Last(segments), t.level, f));
      ExtendsTransitive(AfterSegments(s, segments, f).output, t.output, s.output);
    }
  }

  lemma BeginTrackWrites(s: WriterState, metadata: TrackMetadata)
    ensures var b := AfterBeginTrack(s, metadata);
      && b.level == s.level + 1 && b.closed == s.closed && Extends(b.output, s.output)
      && |b.output| > |s.output| && b.output[|s.output|] == OpenLine(s.level, "trk", metadata.attributes)
  {
    var open := [OpenLine(s.level, "trk", metadata.attributes)];
    ExtendsAppend(s.output + open, NodeChunks(metadata.childNodes, s.level + 1));
    ExtendsAppend(s.output, open);
    ExtendsTransitive(AfterBeginTrack(s, metadata).output, s.output + open, s.output);
  }

  lemma EndTrackWrites(s: WriterState)
    requires s.level >= 1
    ensures var t := AfterEndTrack(s);
      && t.level == s.level - 1 && t.closed == s.closed && Extends(t.output, s.output)
      && Last(t.output) == CloseLine(s.level - 1, "trk")
  {
    ExtendsAppend(s.output, [CloseLine(s.level - 1, "trk")]);
  }

  /** A track written as `beginTrack`, its segments and `endTrack` returns
      the writer to the level it started at, its closing tag at the
      indentation of its opening tag, and only appends to the output. */
  lemma TrackBalanced(s: WriterState, metadata: TrackMetadata, segments: seq<SegmentPayload>, f: Formatters)
    ensures var inside := AfterSegments(AfterBeginTrack(s, metadata), segments, f);
      inside.level >= 1 &&
      var t := AfterEndTrack(inside);
      && t.level == s.level && t.closed == s.closed
      && |t.output| >= |s.output| + 2 && Extends(t.output, s.output)
      && t.output[|s.output|] == OpenLine(s.level, "trk", metadata.attributes)
      && Last(t.output) == CloseLine(s.level, "trk")
  {
    var b := AfterBeginTrack(s, metadata);
    BeginTrackWrites(s, metadata);
    AfterSegmentsKeeps(b, segments, f);
    var inside := AfterSegments(b, segments, f);
    EndTrackWrites(inside);
    var t := AfterEndTrack(inside);
    ExtendsTransitive(t.output, inside.output, b.output);
    ExtendsTransitive(t.output, b.output, s.output);
    assert t.output[|s.output|] == t.output[..|b.output|][|s.output|];
  }

  // ---------------------------------------------------------------------
  // The writer object

  class Writer {
    const formatters: Formatters
    var indentationLevel: nat
    /** The strings handed to the file, in order. */
    var output: seq<string>
    /** Whether `finish` has closed the file. */
    var closed: bool

    function State(): WriterState
      reads this
    {
      WriterState(indentationLevel, output, closed)
    }

    constructor (formatters: Formatters)
      ensures State() == WriterState(0, [], false) && this.formatters == formatters
    {
      this.formatters := formatters;
      indentationLevel := 0;
      output := [];
      closed := false;
    }

    method WriteHeader(header: DocumentHeader)
      modifies this
      ensures State() == AfterHeader(old(State()), header)
    {
      output := output + [Declaration];
      var attributes := AttributeText(header.attributes);
      output := output + ["<gpx" + attributes + ">\n"];
      indentationLevel := 1;
    }

    /** `writeMetadata`, `writeWaypoint`, `writeRoute` and `writeExtensions`
        all come down to `write(node:)`. */
    method WriteNode(node: XmlNode)
      modifies this
      ensures indentationLevel == old(indentationLevel) && closed == old(closed)
      ensures output == old(output) + [Render(node, indentationLevel)]
    {
      var rendered := Render(node, indentationLevel);
      if !(|rendered| > 0 && rendered[|rendered| - 1] == '\n') {
        rendered := rendered + "\n";
      }
      output := output + [rendered];
    }

    /** A `for node in … { write(node:) }` loop. */
    method WriteNodes(nodes: seq<XmlNode>)
      modifies this
      ensures indentationLevel == old(indentationLevel) && closed == old(closed)
      ensures output == old(output) + NodeChunks(nodes, indentationLevel)
    {
      var level := indentationLevel;
      assert nodes[..0] == [];
      for i := 0 to |nodes|
        invariant indentationLevel == level && closed == old(closed)
        invariant output == old(output) + NodeChunks(nodes[..i], level)
      {
        ghost var chunks := NodeChunks(nodes[..i], level);
        NodeChunksSnoc(nodes, level, i);
        WriteNode(nodes[i]);
        AppendAssoc(old(output), chunks, [Render(nodes[i], level)]);
      }
      assert nodes[..|nodes|] == nodes;
    }

    /** The `for point in segment.points` loop of `writeSegment`. */
    method WritePoints(points: seq<Point>)
      modifies this
      ensures indentationLevel == old(indentationLevel) && closed == old(closed)
      ensures output == old(output) + PointsChunks(points, indentationLevel, formatters)
    {
      var level := indentationLevel;
      assert points[..0] == [];
      for i := 0 to |points|
        invariant indentationLevel == level && closed == old(closed)
        invariant output == old(output) + PointsChunks(points[..i], level, formatters)
      {
        ghost var chunks := PointsChunks(points[..i], level, formatters);
        PointsChunksSnoc(points, level, formatters, i);
        WritePoint(points[i]);
        AppendAssoc(old(output), chunks, PointChunks(points[i], level, formatters));
      }
      assert points[..|points|] == points;
    }

    method BeginTrack(metadata: TrackMetadata)
      modifies this
      ensures State() == AfterBeginTrack(old(State()), metadata)
    {
      output := output + [OpenLine(indentationLevel, "trk", metadata.attributes)];
      indentationLevel := indentationLevel + 1;
      WriteNodes(metadata.childNodes);
    }

    method WriteSegment(segment: SegmentPayload)
      modifies this
      ensures State() == AfterSegment(old(State()), segment, formatters)
    {
      var level := indentationLevel;
      output := output + [OpenLine(level, "trkseg", segment.attributes)];
      ghost var started := output;
      indentationLevel := indentationLevel + 1;
      WriteSegmentContent(segment);
      ghost var filled := output;
      indentationLevel := indentationLevel - 1;
      output := output + [CloseLine(level, "trkseg")];
      FramedOneStep(old(output), started, filled, output, OpenLine(level, "trkseg", segment.attributes),
        SegmentInner(segment, level + 1, formatters), CloseLine(level, "trkseg"));
    }

    /** The three loops of `writeSegment`: leading nodes, points, trailing nodes. */
    method WriteSegmentContent(segment: SegmentPayload)
      modifies this
      ensures indentationLevel == old(indentationLevel) && closed == old(closed)
      ensures output == old(output) + SegmentInner(segment, indentationLevel, formatters)
    {
      WriteNodes(segment.leadingNodes);
      ghost var withLeading := output;
      WritePoints(segment.points);
      ghost var withPoints := output;
      WriteNodes(segment.trailingNodes);
      ThreeSteps(old(output), withLeading, withPoints, output, NodeChunks(segment.leadingNodes, indentationLevel),
        PointsChunks(segment.points, indentationLevel, formatters), NodeChunks(segment.trailingNodes, indentationLevel));
    }

    /** `endTrack`: Swift traps on a negative repeat count, so the writer
        must be inside a track. */
    method EndTrack()
      requires indentationLevel >= 1
      modifies this
      ensures State() == AfterEndTrack(old(State()))
    {
      indentationLevel := indentationLevel - 1;
      output := output + [CloseLine(indentationLevel, "trk")];
    }

    method Finish()
      modifies this
      ensures State() == AfterFinish(old(State()))
    {
      output := output + [GpxClose];
      closed := true;
    }

    method WritePoint(point: Point)
      modifies this
      ensures indentationLevel == old(indentationLevel) && closed == old(closed)
      ensures output == old(output) + PointChunks(point, indentationLevel, formatters)
    {
      var level := indentationLevel;
      var attributes := PointAttributeText(point, formatters);
      output := output + [PointOpenLine(level, attributes)];
      ghost var started := output;
      indentationLevel := indentationLevel + 1;
      WriteMeasurements(point);
      ghost var measured := output;
      WriteNodes(point.childNodes);
      ghost var withChildren := output;
      indentationLevel := indentationLevel - 1;
      output := output + [CloseLine(level, "trkpt")];
      FramedTwoSteps(old(output), started, measured, withChildren, output,
        PointOpenLine(level, PointAttributes(point, formatters)), MeasurementChunks(point, level + 1, formatters),
        NodeChunks(point.childNodes, level + 1), CloseLine(level, "trkpt"));
    }

    /** The optional `<ele>` and `<time>` lines of `write(point:)`. */
    method WriteMeasurements(point: Point)
      modifies this
      ensures indentationLevel == old(indentationLevel) && closed == old(closed)
      ensures output == old(output) + MeasurementChunks(point, indentationLevel, formatters)
    {
      if point.elevation.Some? {
        output := output + [ElementLine(indentationLevel, "ele", formatters.number(point.elevation.value))];
      }
      ghost var withElevation := output;
      if point.timestamp.Some? {
        output := output + [ElementLine(indentationLevel, "time", formatters.date(point.timestamp.value))];
      }
      AppendAssoc(old(output), ElevationChunks(point, indentationLevel, formatters),
        TimeChunks(point, indentationLevel, formatters));
    }
  }

  /** Output written between an opening and a closing tag, regrouped. */
  lemma FramedOneStep<T>(o: seq<T>, o1: seq<T>, o2: seq<T>, o3: seq<T>, open: T, a: seq<T>, close: T)
    requires o1 == o + [open] && o2 == o1 + a && o3 == o2 + [close]
    ensures o3 == o + ([open] + a + [close])
  {
  }

  lemma ThreeSteps<T>(o: seq<T>, o1: seq<T>, o2: seq<T>, o3: seq<T>, a: seq<T>, b: seq<T>, c: seq<T>)
    requires o1 == o + a && o2 == o1 + b && o3 == o2 + c
    ensures o3 == o + (a + b + c)
  {
  }

  lemma FramedTwoSteps<T>(o: seq<T>, o1: seq<T>, o2: seq<T>, o3: seq<T>, o4: seq<T>,
                          open: T, a: seq<T>, b: seq<T>, close: T)
    requires o1 == o + [open] && o2 == o1 + a && o3 == o2 + b && o4 == o3 + [close]
    ensures o4 == o + ([open] + (a + b) + [close])
  {
  }

  lemma AppendAssoc<T>(a: seq<T>, b: seq<T>, c: seq<T>)
    ensures a + b + c == a + (b + c)
  {
  }

  lemma TakeSnoc<T>(s: seq<T>, i: nat)
    requires i < |s|
    ensures s[..i + 1] == s[..i] + [s[i]]
  {
  }

  /** The attribute loop of `write(point:)`: `lat` and `lon` first, then one
      entry per remaining attribute by increasing key. */
  method PointAttributeText(point: Point, f: Formatters) returns (attributes: string)
    ensures attributes == PointAttributes(point, f)
  {
    var head := Coordinates(point, f);
    attributes := head;
    var keys := SortedKeys(point.attributes);
    SortedKeysOrders(point.attributes);
    ghost var entries := Entries(keys, point.attributes);
    for i := 0 to |keys|
      invariant attributes == head + Concat(entries[..i])
    {
      var entry := AttributeEntry(keys[i], point.attributes[keys[i]]);
      assert entries[i] == entry;
      TakeSnoc(entries, i);
      ConcatSnoc(entries[..i], entry);
      AppendAssoc(head, Concat(entries[..i]), entry);
      attributes := attributes + entry;
    }
    assert entries[..|keys|] == entries;
  }
}
