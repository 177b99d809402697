# GPX compressor core, modelled in Dafny

This project models the core of a GPX track compressor written in Swift and
proves properties of that model. The compressor streams a GPX file through
an XML parser and compresses every track segment with a chosen strategy:
Ramer-Douglas-Peucker simplification, stripping nearby points, stripping
duplicate coordinates or random removal, followed by an optional
deduplication pass. It then writes the result back out as indented XML and
reports progress snapshots along the way.

The modules follow the source files:

| module | file | models |
|---|---|---|
| `XmlNodes` | `xml_node.dfy` | `GPXXMLNode.render`, its `Builder` (a class over the value `NodeBuilder`) and `xmlEscaped` |
| `StringOrder` | `string_order.dfy` | Swift's `<` on strings and the sorted order of dictionary keys used for attributes |
| `GpxStreamingParser` | `streaming_parser.dfy` | the `XMLParserDelegate` callbacks as pure transitions on `ParserState`, and the class `StreamingParser` whose methods are proved to follow them |
| `ParserProperties` | `parser_properties.dfy` | the parser's invariant, the properties of every event stream it yields, and the finding below |
| `StreamWriter` | `stream_writer.dfy` | `GPXStreamWriter` over an in-memory buffer of written chunks (class `Writer` over the value `WriterState`) |
| `Rdp` | `rdp.dfy` | `RamerDouglasPeucker` |
| `SegmentCompression` | `segment_compressor.dfy` | `SegmentCompressor.compress`, `stripNearby`, `stripDuplicates`, `randomRemoval` |
| `Pipeline` | `pipeline.dfy` | the event loop of `GPXProcessingPipeline.process(job:)`, `TrackSegmentCoordinator` and `SegmentStats` |
| `Progress` | `progress.dfy` | `GPXProcessingProgress.updating` and `fractionCompleted` |
| `Configuration` | `configuration.dfy` | `GPXProcessingConfiguration`: its initialiser, `with(strategy:)`, `makeOutputURL` and `largeFileDefault` |
| `GpxModel` | `gpx_model.dfy` | the plain data types (points, payloads, stream events, errors, jobs) and file URLs as lists of path components |
| `Semaphore` | `semaphore.dfy` | `AsyncSemaphore` as a sequential state machine, and the class `AsyncSemaphore` |
| `Cli` | `cli.dfy` | the argument loop and job construction of the command-line tool |
| `Seqs`, `Wrappers` | `seqs.dfy`, `wrappers.dfy` | order-preserving subsequences, joining strings, `Option` and `Result` |

Where the source changes state step by step (the parser delegate, the
stream writer, the builder, the pipeline loop, the semaphore, the filter
loops, the RDP accumulator and the argument loop), the model has a method
with that loop or those field updates. Each such method is proved equal to a
pure function, and the properties are proved about that function.

Calls into code outside the core become function-typed parameters:
- the haversine distance;
- `Double(String)` and ISO-8601 date parsing;
- number and date formatting;
- `error.localizedDescription`;
- `URL(fileURLWithPath:)`;
- the random draws of random removal;
- the clock reading used for the completion message.

Doubles are modelled as `real`.

## Model

| member | source | states |
|---|---|---|
| StringOrder.LessIrreflexive | Sources/GPXProcessing/Utilities/XMLNode.swift:20 | the key order `<` on strings is irreflexive |
| StringOrder.LessAsymmetric | Sources/GPXProcessing/Utilities/XMLNode.swift:20 | the key order is asymmetric |
| StringOrder.LessTotal | Sources/GPXProcessing/Utilities/XMLNode.swift:20 | any two distinct keys are ordered one way or the other |
| StringOrder.LessTransitive | Sources/GPXProcessing/Utilities/XMLNode.swift:20 | the key order is transitive |
| StringOrder.LeastExists | Sources/GPXProcessing/Utilities/XMLNode.swift:20 | every non-empty key set has a smallest key |
| StringOrder.LeastUnique | Sources/GPXProcessing/Utilities/XMLNode.swift:20 | the smallest key is unique |
| StringOrder.Least | Sources/GPXProcessing/Utilities/XMLNode.swift:20 | the result is in the set and below every other key |
| StringOrder.Sorted | Sources/GPXProcessing/Utilities/XMLNode.swift:20 | one entry per key |
| StringOrder.SortedOrders | Sources/GPXProcessing/Utilities/XMLNode.swift:20 | the sorted list holds exactly the set's keys, in strictly increasing order |
| StringOrder.SortedKeys | Sources/GPXProcessing/Utilities/XMLNode.swift:20 | one entry per dictionary entry |
| StringOrder.SortedKeysOrders | Sources/GPXProcessing/Utilities/XMLNode.swift:20 | every key of the dictionary exactly once, strictly increasing: the order `sorted { $0.key < $1.key }` visits |
| StringOrder.StrictlyIncreasingDistinct | Sources/GPXProcessing/Utilities/XMLNode.swift:20 | a strictly increasing key list repeats no key |
| XmlNodes.Replacements | Sources/GPXProcessing/Utilities/XMLNode.swift:76-80 | one replacement per input character |
| XmlNodes.ReplaceCharAppend | Sources/GPXProcessing/Utilities/XMLNode.swift:76-80 | `replacingOccurrences` of one character distributes over concatenation |
| XmlNodes.XmlEscapedAppend | Sources/GPXProcessing/Utilities/XMLNode.swift:74-82 | escaping distributes over concatenation |
| XmlNodes.ReplaceCharAbsent | Sources/GPXProcessing/Utilities/XMLNode.swift:76-80 | replacing a character that does not occur changes nothing |
| XmlNodes.ReplaceCharOne | Sources/GPXProcessing/Utilities/XMLNode.swift:76-80 | on one character: the replacement when it matches, the character otherwise |
| XmlNodes.XmlEscapedPlain | Sources/GPXProcessing/Utilities/XMLNode.swift:74-82 | text with none of `& " ' < >` is left unchanged |
| XmlNodes.XmlEscapedAmp | Sources/GPXProcessing/Utilities/XMLNode.swift:76 | `&` becomes `&amp;` and later passes do not touch it again |
| XmlNodes.XmlEscapedQuot | Sources/GPXProcessing/Utilities/XMLNode.swift:77 | `"` becomes `&quot;` |
| XmlNodes.XmlEscapedApos | Sources/GPXProcessing/Utilities/XMLNode.swift:78 | `'` becomes `&apos;` |
| XmlNodes.XmlEscapedLt | Sources/GPXProcessing/Utilities/XMLNode.swift:79 | `<` becomes `&lt;` |
| XmlNodes.XmlEscapedGt | Sources/GPXProcessing/Utilities/XMLNode.swift:80 | `>` becomes `&gt;` |
| XmlNodes.XmlEscapedChar | Sources/GPXProcessing/Utilities/XMLNode.swift:74-82 | each character is escaped to its own entity or to itself |
| XmlNodes.XmlEscapedIsSinglePass | Sources/GPXProcessing/Utilities/XMLNode.swift:74-82 | the five passes, `&` first, equal one character-by-character escape: no entity is escaped twice |
| XmlNodes.EscapeEachFreeOfMarkup | Sources/GPXProcessing/Utilities/XMLNode.swift:74-82 | the single-pass escape leaves none of `< > " '` |
| XmlNodes.XmlEscapedFreeOfMarkup | Sources/GPXProcessing/Utilities/XMLNode.swift:74-82 | escaped text contains no `<`, `>`, `"` or `'` |
| XmlNodes.UnescapeAmp | Sources/GPXProcessing/Utilities/XMLNode.swift:76 | an XML reader reads `&amp;` back as `&` |
| XmlNodes.UnescapeQuot | Sources/GPXProcessing/Utilities/XMLNode.swift:77 | `&quot;` reads back as `"` |
| XmlNodes.UnescapeApos | Sources/GPXProcessing/Utilities/XMLNode.swift:78 | `&apos;` reads back as `'` |
| XmlNodes.UnescapeLt | Sources/GPXProcessing/Utilities/XMLNode.swift:79 | `&lt;` reads back as `<` |
| XmlNodes.UnescapeGt | Sources/GPXProcessing/Utilities/XMLNode.swift:80 | `&gt;` reads back as `>` |
| XmlNodes.UnescapeEscapeChar | Sources/GPXProcessing/Utilities/XMLNode.swift:74-82 | one escaped character reads back as itself, whatever follows |
| XmlNodes.UnescapeXmlEscaped | Sources/GPXProcessing/Utilities/XMLNode.swift:74-82 | round trip: unescaping escaped text gives the original text |
| XmlNodes.UnescapeEscapeEach | Sources/GPXProcessing/Utilities/XMLNode.swift:74-82 | round trip for the single-pass escape |
| XmlNodes.AttributeTextSorted | Sources/GPXProcessing/Utilities/XMLNode.swift:20-22 | the attribute text is one escaped ` key="value"` entry per attribute, every key exactly once, keys strictly increasing |
| XmlNodes.Indent | Sources/GPXProcessing/Utilities/XMLNode.swift:19 | `indentation` tab characters and nothing else |
| XmlNodes.Render | Sources/GPXProcessing/Utilities/XMLNode.swift:18-42 | every rendering ends with a newline |
| XmlNodes.RenderAllSnoc | Sources/GPXProcessing/Utilities/XMLNode.swift:31-33 | rendering the children one after another grows by exactly the next child's rendering |
| XmlNodes.XmlEscapedNewlines | Sources/GPXProcessing/Utilities/XMLNode.swift:74-82 | escaping leaves line breaks alone: the escaped text holds a newline exactly when the original does |
| XmlNodes.AttributeTextNewlines | Sources/GPXProcessing/Utilities/XMLNode.swift:20-22 | the attribute text holds no line break when no key and no value holds one |
| XmlNodes.NodeBuilder.AppendText | Sources/GPXProcessing/Utilities/XMLNode.swift:56-60 | an empty fragment is ignored, any other is appended; nothing else changes |
| XmlNodes.NodeBuilder.AppendChild | Sources/GPXProcessing/Utilities/XMLNode.swift:62-64 | the child goes at the end; nothing else changes |
| XmlNodes.NodeBuilder.Build | Sources/GPXProcessing/Utilities/XMLNode.swift:66-69 | the text is the joined fragments, nil exactly when no fragment was kept |
| XmlNodes.AppendTextsConcat | Sources/GPXProcessing/Utilities/XMLNode.swift:56-60 | after any run of text appends, the joined fragments are the old ones followed by all the pieces |
| XmlNodes.BuildConcatenatesText | Sources/GPXProcessing/Utilities/XMLNode.swift:51-69 | a fresh builder fed text pieces builds a node whose text is their concatenation, nil when that is empty |
| XmlNodes.Builder.constructor | Sources/GPXProcessing/Utilities/XMLNode.swift:51-54 | a builder starts with the given name and attributes, no text and no children |
| XmlNodes.Builder.AppendText | Sources/GPXProcessing/Utilities/XMLNode.swift:56-60 | the class's state moves as `NodeBuilder.AppendText` says |
| XmlNodes.Builder.AppendChild | Sources/GPXProcessing/Utilities/XMLNode.swift:62-64 | the class's state moves as `NodeBuilder.AppendChild` says |
| XmlNodes.Builder.Build | Sources/GPXProcessing/Utilities/XMLNode.swift:66-69 | the class builds what `NodeBuilder.Build` specifies |
| StreamWriter.MapChunks | Sources/GPXProcessing/Pipeline/GPXStreamWriter.swift:40-42 | one chunk per element |
| StreamWriter.LineShape | Sources/GPXProcessing/Pipeline/GPXStreamWriter.swift:109 | a line written at a level starts with that many tabs and ends with a newline |
| StreamWriter.OpenLineShape | Sources/GPXProcessing/Pipeline/GPXStreamWriter.swift:34-38 | an opening tag line is indented by its level and is one whole line |
| StreamWriter.CloseLineShape | Sources/GPXProcessing/Pipeline/GPXStreamWriter.swift:62 | a closing tag line is indented by its level and is one whole line |
| StreamWriter.ElementLineShape | Sources/GPXProcessing/Pipeline/GPXStreamWriter.swift:88-93 | the `<ele>` and `<time>` lines are indented by their level and are whole lines |
| StreamWriter.RenderLine | Sources/GPXProcessing/Pipeline/GPXStreamWriter.swift:101-107 | a rendered node is indented by the current level and already ends with a newline, so `write(node:)` adds none |
| StreamWriter.RenderLeafOneLine | Sources/GPXProcessing/Utilities/XMLNode.swift:24-40 | a node without children whose name, attribute keys and values and text hold no line break is written as exactly one line: it starts with its indentation and its only newline is its last character |
| StreamWriter.RenderAllChunks | Sources/GPXProcessing/Utilities/XMLNode.swift:31-33 | the children's renderings joined one after another are the chunks `write(node:)` produces for them, joined |
| StreamWriter.RenderFramed | Sources/GPXProcessing/Utilities/XMLNode.swift:28-34 | a node with children is its opening line at its level, then the rendering of each child in order, all whole lines indented one level deeper, then its closing line back at its own level |
| StreamWriter.MapChunksAt | Sources/GPXProcessing/Pipeline/GPXStreamWriter.swift:40-42 | the i-th chunk renders the i-th element |
| StreamWriter.NodeChunksAt | Sources/GPXProcessing/Pipeline/GPXStreamWriter.swift:40-42 | `write(node:)` over a node list writes exactly the renderings, in order |
| StreamWriter.NodeChunksLines | Sources/GPXProcessing/Pipeline/GPXStreamWriter.swift:101-107 | written nodes are whole lines at the current level |
| StreamWriter.FramedLayout | Sources/GPXProcessing/Pipeline/GPXStreamWriter.swift:45-63 | tags at one level around lines one level deeper form whole lines at that level |
| StreamWriter.PointInnerLayout | Sources/GPXProcessing/Pipeline/GPXStreamWriter.swift:87-97 | everything inside a `<trkpt>` is whole lines one level deeper |
| StreamWriter.PointLayout | Sources/GPXProcessing/Pipeline/GPXStreamWriter.swift:80-99 | a point is written as its opening line (lat, lon, then sorted attributes), a body one level deeper and `</trkpt>` at its own level |
| StreamWriter.FlatChunksLayout | Sources/GPXProcessing/Pipeline/GPXStreamWriter.swift:55-57 | whole lines per element give whole lines overall |
| StreamWriter.PointsLayout | Sources/GPXProcessing/Pipeline/GPXStreamWriter.swift:55-57 | all points of a segment are whole lines at the segment body's level |
| StreamWriter.SegmentInnerLayout | Sources/GPXProcessing/Pipeline/GPXStreamWriter.swift:51-61 | leading nodes, points and trailing nodes are whole lines one level deeper |
| StreamWriter.SegmentLayout | Sources/GPXProcessing/Pipeline/GPXStreamWriter.swift:45-63 | a segment is its `<trkseg>` line, a body one level deeper and `</trkseg>` at the same indentation as the opening |
| StreamWriter.AfterSegmentsKeeps | Sources/GPXProcessing/Pipeline/GPXStreamWriter.swift:45-63 | writing segments only appends output and restores the indentation level |
| StreamWriter.BeginTrackWrites | Sources/GPXProcessing/Pipeline/GPXStreamWriter.swift:33-43 | `beginTrack` appends the `<trk>` line at the current level and goes one level deeper |
| StreamWriter.EndTrackWrites | Sources/GPXProcessing/Pipeline/GPXStreamWriter.swift:65-69 | `endTrack` goes one level up and appends `</trk>` there |
| StreamWriter.TrackBalanced | Sources/GPXProcessing/Pipeline/GPXStreamWriter.swift:33-69 | begin, any segments, end: the level comes back to where it was and the output is framed by `<trk>` and `</trk>` at that level |
| StreamWriter.Writer.constructor | Sources/GPXProcessing/Pipeline/GPXStreamWriter.swift:6-10 | a new writer is at level 0 with nothing written |
| StreamWriter.Writer.WriteHeader | Sources/GPXProcessing/Pipeline/GPXStreamWriter.swift:12-19 | the XML declaration and `<gpx …>` line with sorted attributes are written and the level becomes 1 |
| StreamWriter.Writer.WriteNode | Sources/GPXProcessing/Pipeline/GPXStreamWriter.swift:101-107 | one rendering at the current level is appended; level unchanged |
| StreamWriter.Writer.WriteNodes | Sources/GPXProcessing/Pipeline/GPXStreamWriter.swift:21-31 | the nodes' renderings are appended in order; level unchanged |
| StreamWriter.Writer.WritePoints | Sources/GPXProcessing/Pipeline/GPXStreamWriter.swift:55-57 | each point's chunks are appended in order; level unchanged |
| StreamWriter.Writer.BeginTrack | Sources/GPXProcessing/Pipeline/GPXStreamWriter.swift:33-43 | the state becomes `AfterBeginTrack` of the old state |
| StreamWriter.Writer.WriteSegment | Sources/GPXProcessing/Pipeline/GPXStreamWriter.swift:45-63 | the state becomes `AfterSegment` of the old state |
| StreamWriter.Writer.WriteSegmentContent | Sources/GPXProcessing/Pipeline/GPXStreamWriter.swift:52-60 | leading nodes, points and trailing nodes are appended in that order |
| StreamWriter.Writer.EndTrack | Sources/GPXProcessing/Pipeline/GPXStreamWriter.swift:65-69 | the state becomes `AfterEndTrack` of the old state |
| StreamWriter.Writer.Finish | Sources/GPXProcessing/Pipeline/GPXStreamWriter.swift:75-78 | `</gpx>` is appended and the writer is closed |
| StreamWriter.Writer.WritePoint | Sources/GPXProcessing/Pipeline/GPXStreamWriter.swift:80-99 | exactly the point's chunks are appended; level restored |
| StreamWriter.Writer.WriteMeasurements | Sources/GPXProcessing/Pipeline/GPXStreamWriter.swift:88-93 | the `<ele>` line when there is an elevation, then the `<time>` line when there is a timestamp |
| StreamWriter.PointAttributeText | Sources/GPXProcessing/Pipeline/GPXStreamWriter.swift:82-85 | the loop builds ` lat=".." lon=".."` followed by one escaped entry per attribute in key order |
| GpxStreamingParser.SegmentState.AppendSegmentNode | Sources/GPXProcessing/Pipeline/GPXStreamingParser.swift:226-232 | before the first point a node is leading, after it trailing |
| GpxStreamingParser.SegmentState.MakePayload | Sources/GPXProcessing/Pipeline/GPXStreamingParser.swift:284-293 | the payload carries the segment's indices, attributes, nodes and points unchanged |
| GpxStreamingParser.PointState.Append | Sources/GPXProcessing/Pipeline/GPXStreamingParser.swift:303-312 | `ele` sets the elevation (nil when the text is not a number), `time` with text sets the timestamp, any other node is kept as a child |
| GpxStreamingParser.PointState.Build | Sources/GPXProcessing/Pipeline/GPXStreamingParser.swift:314-325 | a point exists exactly when `lat` and `lon` are present and numeric; it keeps the elevation, time and children, and every other attribute but `lat` and `lon` |
| GpxStreamingParser.AppendTextToTop | Sources/GPXProcessing/Pipeline/GPXStreamingParser.swift:116-133 | text goes to the innermost open builder; the rest of the stack is untouched |
| GpxStreamingParser.PopNode | Sources/GPXProcessing/Pipeline/GPXStreamingParser.swift:234-242 | the top builder is built and handed to its parent, or returned when it is the outermost |
| GpxStreamingParser.MergeTopNode | Sources/GPXProcessing/Pipeline/GPXStreamingParser.swift:244-250 | with a parent the top node becomes its last child; a lone builder is dropped |
| GpxStreamingParser.FlushSegment | Sources/GPXProcessing/Pipeline/GPXStreamingParser.swift:159-161 | every open builder of a segment is closed into the segment's nodes; indices, attributes and points unchanged |
| GpxStreamingParser.FlushPoint | Sources/GPXProcessing/Pipeline/GPXStreamingParser.swift:167-169 | every open builder of a point is closed into the point; its attributes unchanged |
| GpxStreamingParser.HeaderIfNeeded | Sources/GPXProcessing/Pipeline/GPXStreamingParser.swift:211-215 | the recorded header is yielded once and only once |
| GpxStreamingParser.TrackStartIfNeeded | Sources/GPXProcessing/Pipeline/GPXStreamingParser.swift:217-224 | the current track's start is yielded when it has not been, and the track is marked started |
| GpxStreamingParser.Parse | Sources/GPXProcessing/Pipeline/GPXStreamingParser.swift:36-68 | the stream ends with the reader's error when there is one |
| GpxStreamingParser.StreamingParser.constructor | Sources/GPXProcessing/Pipeline/GPXStreamingParser.swift:13-34 | a delegate starts with no track (index -1), no state, empty stacks and no header |
| GpxStreamingParser.StreamingParser.EmitHeaderIfNeeded | Sources/GPXProcessing/Pipeline/GPXStreamingParser.swift:211-215 | the delegate's state moves as `HeaderIfNeeded` says |
| GpxStreamingParser.StreamingParser.EnsureTrackStartEmitted | Sources/GPXProcessing/Pipeline/GPXStreamingParser.swift:217-224 | the delegate's state moves as `TrackStartIfNeeded` says |
| GpxStreamingParser.StreamingParser.DidStartElement | Sources/GPXProcessing/Pipeline/GPXStreamingParser.swift:74-112 | the delegate's state moves as the (corrected) start-element transition says |
| GpxStreamingParser.StreamingParser.DidFindCharacters | Sources/GPXProcessing/Pipeline/GPXStreamingParser.swift:114-135 | the delegate's state moves as the characters transition says |
| GpxStreamingParser.StreamingParser.DidEndElement | Sources/GPXProcessing/Pipeline/GPXStreamingParser.swift:137-201 | the delegate's state moves as the end-element transition says |
| GpxStreamingParser.StreamingParser.DidEndSegment | Sources/GPXProcessing/Pipeline/GPXStreamingParser.swift:157-164 | at `</trkseg>` the open builders are flushed and the payload is yielded |
| GpxStreamingParser.StreamingParser.DidEndPoint | Sources/GPXProcessing/Pipeline/GPXStreamingParser.swift:165-175 | at `</trkpt>` the point is flushed and appended when it parses |
| GpxStreamingParser.StreamingParser.DidEndOther | Sources/GPXProcessing/Pipeline/GPXStreamingParser.swift:176-200 | any other closing tag closes the innermost builder of the innermost open context |
| GpxStreamingParser.ParseDocument | Sources/GPXProcessing/Pipeline/GPXStreamingParser.swift:36-68 | driving a fresh delegate through the callbacks yields what `Parse` specifies |
| ParserProperties.InitialInv | Sources/GPXProcessing/Pipeline/GPXStreamingParser.swift:13-23 | the delegate's invariant holds at the start |
| ParserProperties.AppendEvent | Sources/GPXProcessing/Pipeline/GPXStreamingParser.swift:137-224 | how yielding one event affects each event-sequence property |
| ParserProperties.HeaderIfNeededInv | Sources/GPXProcessing/Pipeline/GPXStreamingParser.swift:211-215 | yielding the header keeps the invariant and changes no track state |
| ParserProperties.TrackStartIfNeededInv | Sources/GPXProcessing/Pipeline/GPXStreamingParser.swift:217-224 | yielding the track start keeps the invariant and records the track as started |
| ParserProperties.OpenSegmentInv | Sources/GPXProcessing/Pipeline/GPXStreamingParser.swift:89-94 | opening a segment keeps the invariant |
| ParserProperties.OpenTrackInv | Sources/GPXProcessing/Pipeline/GPXStreamingParser.swift:85-88 | opening a track keeps the invariant (indices grow) |
| ParserProperties.StartElementInv | Sources/GPXProcessing/Pipeline/GPXStreamingParser.swift:74-112 | every start-element callback keeps the invariant |
| ParserProperties.StartUnknownInv | Sources/GPXProcessing/Pipeline/GPXStreamingParser.swift:97-110 | pushing a builder for an unknown element keeps the invariant |
| ParserProperties.FoundCharactersInv | Sources/GPXProcessing/Pipeline/GPXStreamingParser.swift:114-135 | every characters callback keeps the invariant |
| ParserProperties.CloseTrackInv | Sources/GPXProcessing/Pipeline/GPXStreamingParser.swift:151-156 | closing a track keeps the invariant |
| ParserProperties.CloseSegmentInv | Sources/GPXProcessing/Pipeline/GPXStreamingParser.swift:157-164 | closing a segment keeps the invariant |
| ParserProperties.ClosePointInv | Sources/GPXProcessing/Pipeline/GPXStreamingParser.swift:165-175 | closing a point keeps the invariant |
| ParserProperties.EndUnknownInv | Sources/GPXProcessing/Pipeline/GPXStreamingParser.swift:176-200 | closing an unknown element keeps the invariant |
| ParserProperties.EmitContainerInv | Sources/GPXProcessing/Pipeline/GPXStreamingParser.swift:139-150 | yielding metadata, a waypoint or a route keeps the invariant |
| ParserProperties.EndElementInv | Sources/GPXProcessing/Pipeline/GPXStreamingParser.swift:137-201 | every end-element callback keeps the invariant |
| ParserProperties.StepInv | Sources/GPXProcessing/Pipeline/GPXStreamingParser.swift:74-201 | every callback keeps the invariant |
| ParserProperties.RunInv | Sources/GPXProcessing/Pipeline/GPXStreamingParser.swift:74-201 | every sequence of callbacks keeps the invariant |
| ParserProperties.ParseEvents | Sources/GPXProcessing/Pipeline/GPXStreamingParser.swift:36-224 | for every callback sequence: at most one header; each track started once, in increasing order; segments and track ends only after their start; segment indices increasing per track; every track index between 0 and the number of `<trk>` callbacks less one and every segment index at least 0; no `lat`/`lon` attribute left on a point; no `extensions` event; `documentEnd` once, last, exactly when there is no error |
| ParserProperties.RunNumbering | Sources/GPXProcessing/Pipeline/GPXStreamingParser.swift:85-94 | after any callbacks, the current track index is the number of `<trk>` callbacks less one, a track is open exactly when the last `<trk>` or `</trk>` was a `<trk>`, its next segment index is the number of `<trkseg>` callbacks since that `<trk>`, and the open segment carries the numbers of the last `<trkseg>` inside an open track |
| ParserProperties.EventNumbers | Sources/GPXProcessing/Pipeline/GPXStreamingParser.swift:74-224 | each callback only appends events; a track start or end carries the number of `<trk>` callbacks so far less one; a payload carries the numbers of the `<trkseg>` that opened it (the `<trk>`s before it less one, the `<trkseg>`s since that `<trk>`); the header comes only at `<gpx>` or `<trk>`, a track start only at `<trkseg>` or `</trk>`, a track end only at `</trk>`, a payload only at `</trkseg>`, a container only at its own closing tag |
| ParserProperties.ClosePointAddsParsablePoint | Sources/GPXProcessing/Pipeline/GPXStreamingParser.swift:165-175 | `</trkpt>` appends the built point when it parses and drops it otherwise, yielding nothing |
| ParserProperties.UnknownUnderSegmentBecomesSibling | Sources/GPXProcessing/Pipeline/GPXStreamingParser.swift:183-187 | an element closed directly inside a segment becomes, through `append(segmentNode:)`, a leading node before the first point and a trailing node after |
| ParserProperties.UnknownUnderMetadataBecomesChild | Sources/GPXProcessing/Pipeline/GPXStreamingParser.swift:193-194 | an element closed inside metadata becomes, through `mergeTopNode`, the last child of its parent |
| ParserProperties.RunAppend | Sources/GPXProcessing/Pipeline/GPXStreamingParser.swift:74-201 | callbacks compose: running `a + b` is running `b` after `a` |
| ParserProperties.SegmentFlatteningExample | Sources/GPXProcessing/Pipeline/GPXStreamingParser.swift:157-187 | a segment's nested `extensions/x` comes out flattened: `x` then `extensions`, both as leading nodes |
| ParserProperties.MetadataNestingExample | Sources/GPXProcessing/Pipeline/GPXStreamingParser.swift:79-142 | nested metadata is yielded once as one tree with its text |
| ParserProperties.TrackStartRepeatedAsWritten | Sources/GPXProcessing/Pipeline/GPXStreamingParser.swift:89-94 | with the struct copy written back, a one-segment track yields its start twice |
| ParserProperties.TrackStartOnceCorrected | Sources/GPXProcessing/Pipeline/GPXStreamingParser.swift:89-94 | with the start flag kept, the same track yields start, segment, end |
| Pipeline.NatToStringValue | Sources/GPXProcessing/Pipeline/GPXProcessingPipeline.swift:79 | the decimal digits written for a count read back as that count |
| Pipeline.IntToStringRoundTrip | Sources/GPXProcessing/Pipeline/GPXProcessingPipeline.swift:79-96 | every track number interpolated into a progress message parses back to itself, negative ones included |
| Pipeline.Throughput | Sources/GPXProcessing/Pipeline/GPXProcessingPipeline.swift:133-136 | no bytes or no elapsed time (zero or negative) give zero; otherwise the rate times the elapsed time is the byte count |
| Pipeline.HandlerHandles | Sources/GPXProcessing/Pipeline/GPXProcessingPipeline.swift:44-101 | the loop body used by the methods is the event handler |
| Pipeline.FoldSnoc | Sources/GPXProcessing/Pipeline/GPXProcessingPipeline.swift:44-102 | the loop over one more event is one more step of the loop (checking cancellation first) |
| Pipeline.FoldStopped | Sources/GPXProcessing/Pipeline/GPXProcessingPipeline.swift:120-127 | once the loop has thrown, later events change nothing |
| Pipeline.FoldInduction | Sources/GPXProcessing/Pipeline/GPXProcessingPipeline.swift:44-102 | a property every step keeps holds wherever the loop stops |
| Pipeline.InitialInv | Sources/GPXProcessing/Pipeline/GPXProcessingPipeline.swift:15-30 | the first snapshot satisfies the loop's invariant |
| Pipeline.HeaderInv | Sources/GPXProcessing/Pipeline/GPXProcessingPipeline.swift:47-50 | the header step keeps the invariant and only extends the snapshots |
| Pipeline.SegmentInv | Sources/GPXProcessing/Pipeline/GPXProcessingPipeline.swift:65-81 | a segment keeps the invariant: written points never exceed processed points |
| Pipeline.TrackEndInv | Sources/GPXProcessing/Pipeline/GPXProcessingPipeline.swift:82-98 | a track end keeps the invariant |
| Pipeline.HandleInv | Sources/GPXProcessing/Pipeline/GPXProcessingPipeline.swift:46-101 | every event keeps the invariant, only appends snapshots and never closes the writer |
| Pipeline.LoopInv | Sources/GPXProcessing/Pipeline/GPXProcessingPipeline.swift:44-102 | the whole loop keeps the invariant |
| Pipeline.RunSnapshots | Sources/GPXProcessing/Pipeline/GPXProcessingPipeline.swift:10-131 | the first snapshot is `reading`/"Preparing"; every snapshot carries the job's id and the file size, with written points within processed points; a run finishes exactly when the last snapshot is `completed` (all bytes processed, the writer closed on `</gpx>`, no error and no cancellation requested) and throws exactly when it is `failed` with that error and "Failed: " message, the file left unclosed |
| Pipeline.OpenFailureReported | Sources/GPXProcessing/Pipeline/GPXProcessingPipeline.swift:120-127 | when the output cannot be opened the stream is the first snapshot and the failure, and nothing is written |
| Pipeline.CancelledAtOnce | Sources/GPXProcessing/Pipeline/GPXProcessingPipeline.swift:44-45 | a cancellation before the first event yields only the first snapshot and the cancellation failure |
| Pipeline.CancelledAtFinish | Sources/GPXProcessing/Pipeline/GPXStreamWriter.swift:136-139 | a cancellation after the last event is seen by the write of `</gpx>`: the run fails with the cancellation error, the output stays as the loop left it and is not closed |
| Pipeline.SegmentHandled | Sources/GPXProcessing/Pipeline/GPXProcessingPipeline.swift:65-81 | a segment of an unknown track is skipped; otherwise the counters grow by the segment's stats, the compressed points are a subsequence of the original, the compressed segment is written and a `compressing` snapshot names the track |
| Pipeline.TrackEndHandled | Sources/GPXProcessing/Pipeline/GPXProcessingPipeline.swift:82-98 | a track end drops its coordinator, leaves the counters, closes `</trk>` and yields a `writing` snapshot naming the track; it traps exactly at indentation 0 |
| Pipeline.NodeForwarded | Sources/GPXProcessing/Pipeline/GPXProcessingPipeline.swift:51-58 | metadata, waypoints, routes and extensions are written as rendered and change nothing else |
| Pipeline.HeaderOnLoop | Sources/GPXProcessing/Pipeline/GPXProcessingPipeline.swift:47-50 | on a running loop the header sets indentation 1 and yields a `parsing` snapshot |
| Pipeline.TrackStartOnLoop | Sources/GPXProcessing/Pipeline/GPXProcessingPipeline.swift:59-64 | a track start registers a coordinator, indents and yields nothing |
| Pipeline.SegmentOnLoop | Sources/GPXProcessing/Pipeline/GPXProcessingPipeline.swift:65-81 | a segment of a started track counts one segment and its points |
| Pipeline.TrackEndOnLoop | Sources/GPXProcessing/Pipeline/GPXProcessingPipeline.swift:82-98 | a track end removes the coordinator and dedents |
| Pipeline.DocumentEndOnLoop | Sources/GPXProcessing/Pipeline/GPXProcessingPipeline.swift:99-100 | the document end changes nothing |
| Pipeline.OneTrackOpened | Sources/GPXProcessing/Pipeline/GPXProcessingPipeline.swift:47-64 | a header and a track start leave indentation 2 and a `parsing` snapshot |
| Pipeline.OneTrackLoop | Sources/GPXProcessing/Pipeline/GPXProcessingPipeline.swift:44-102 | a one-track document yields `parsing`, `compressing`, `writing` |
| Pipeline.OneTrackCompletes | Sources/GPXProcessing/Pipeline/GPXProcessingPipeline.swift:10-119 | a one-track document completes with five snapshots, one segment, all its points counted and the file closed |
| Pipeline.Enqueue | Sources/GPXProcessing/Pipeline/GPXProcessingPipeline.swift:154-162 | the compressed segment is written and the stats count the original points, the written points and one segment |
| Pipeline.FinishStats | Sources/GPXProcessing/Pipeline/GPXProcessingPipeline.swift:164-166 | finishing a coordinator adds nothing |
| Pipeline.HandleSegment | Sources/GPXProcessing/Pipeline/GPXProcessingPipeline.swift:65-81 | the writer and the loop state move as the segment step says |
| Pipeline.HandleTrackEnd | Sources/GPXProcessing/Pipeline/GPXProcessingPipeline.swift:82-98 | the writer and the loop state move as the track-end step says; no step where the writer traps |
| Pipeline.HandleEvent | Sources/GPXProcessing/Pipeline/GPXProcessingPipeline.swift:46-101 | one pass of the loop body on the writer object agrees with the handler |
| Pipeline.Advance | Sources/GPXProcessing/Pipeline/GPXProcessingPipeline.swift:44-46 | checking cancellation and handling one event agrees with one step of the loop |
| Pipeline.RunLoop | Sources/GPXProcessing/Pipeline/GPXProcessingPipeline.swift:44-102 | the `for try await` loop on the writer object agrees with the loop over the events |
| Pipeline.Process | Sources/GPXProcessing/Pipeline/GPXProcessingPipeline.swift:10-131 | `process(job:)` yields what `Run` specifies |
| Progress.Progress.FractionCompleted | Sources/GPXProcessing/Model/GPXProcessingProgress.swift:62-65 | zero without a positive total; otherwise the processed share, capped at 1 |
| Progress.Progress.Updating | Sources/GPXProcessing/Model/GPXProcessingProgress.swift:67-94 | every field given replaces the old one and every field left out is kept; id, URLs and total bytes never change |
| Progress.UpdatingLaws | Sources/GPXProcessing/Model/GPXProcessingProgress.swift:67-94 | updating with nothing is the identity, a later stage overrides an earlier one, and an explicit nil message clears it |
| Rdp.Clamp01 | Sources/GPXProcessing/Compression/RamerDouglasPeucker.swift:53 | the projection factor is clamped into [0, 1]: below 0 gives 0, above 1 gives 1, and a value inside is kept |
| Rdp.PerpendicularDistanceSquared | Sources/GPXProcessing/Compression/RamerDouglasPeucker.swift:36-60 | never negative; a degenerate chord gives the squared distance to its start |
| Rdp.ChordDistances | Sources/GPXProcessing/Compression/RamerDouglasPeucker.swift:16-17 | each point's distance from the chord joining the first and last points |
| Rdp.Scan | Sources/GPXProcessing/Compression/RamerDouglasPeucker.swift:13-22 | the index found is 0 with distance 0, or a position whose distance is the one reported |
| Rdp.ScanFindsFirstMaximum | Sources/GPXProcessing/Compression/RamerDouglasPeucker.swift:13-22 | the scan reports the first strictly largest distance, and a non-zero index exactly when some distance is positive |
| Rdp.FindFarthest | Sources/GPXProcessing/Compression/RamerDouglasPeucker.swift:13-22 | the loop finds the index and distance `Farthest` specifies |
| Rdp.Farthest | Sources/GPXProcessing/Compression/RamerDouglasPeucker.swift:13-22 | the split index is an interior point or 0 |
| Rdp.Simplified | Sources/GPXProcessing/Compression/RamerDouglasPeucker.swift:11-34 | at least two and at most all points; the first and last points are kept |
| Rdp.SimplifiedSplit | Sources/GPXProcessing/Compression/RamerDouglasPeucker.swift:24-29 | beyond the tolerance the result is the prefix's result without its pivot, then the suffix's result |
| Rdp.SimplifyInto | Sources/GPXProcessing/Compression/RamerDouglasPeucker.swift:11-34 | the recursive helper appends `Simplified` to what `result` held |
| Rdp.Simplify | Sources/GPXProcessing/Compression/RamerDouglasPeucker.swift:4-9 | `simplify(points:epsilon:)` returns `Simplification` |
| Rdp.Simplification | Sources/GPXProcessing/Compression/RamerDouglasPeucker.swift:4-9 | two points or fewer come back unchanged; otherwise the recursion with the squared tolerance |
| Rdp.CollapseWithinTolerance | Sources/GPXProcessing/Compression/RamerDouglasPeucker.swift:30-33 | when no interior point is beyond the tolerance only the two ends are kept |
| Rdp.SimplifiedEmbeds | Sources/GPXProcessing/Compression/RamerDouglasPeucker.swift:11-34 | the result is an order-preserving subsequence from the first to the last point, and every point left out lies within the tolerance of the chord between the kept points around it |
| Rdp.SimplificationProperties | Sources/GPXProcessing/Compression/RamerDouglasPeucker.swift:4-34 | a subsequence no longer than the input, with its first and last points, and every dropped point within tolerance of its chord |
| SegmentCompression.PointGap | Sources/GPXProcessing/Compression/SegmentCompressor.swift:55 | the gap between two points is the haversine distance of their coordinates |
| SegmentCompression.StripNearby | Sources/GPXProcessing/Compression/SegmentCompressor.swift:43-65 | the loop computes `NearbyStripped` |
| SegmentCompression.NearbyKeptSpaced | Sources/GPXProcessing/Compression/SegmentCompressor.swift:49-60 | every point kept by the loop is at least `radius` from the one kept before it |
| SegmentCompression.NearbyKeptEmbeds | Sources/GPXProcessing/Compression/SegmentCompressor.swift:49-60 | the loop keeps an order-preserving subsequence starting at the first point, and drops only points closer than `radius` to the last kept point |
| SegmentCompression.StripNearbyProperties | Sources/GPXProcessing/Compression/SegmentCompressor.swift:43-65 | one point or none comes back unchanged; otherwise the first and last points are kept, kept neighbours are `radius` apart except possibly the appended last point, and every dropped point was near the point kept before it |
| SegmentCompression.StripDuplicates | Sources/GPXProcessing/Compression/SegmentCompressor.swift:73-86 | the loop computes `DistinctKept` |
| SegmentCompression.DistinctKeptEmbeds | Sources/GPXProcessing/Compression/SegmentCompressor.swift:73-86 | an order-preserving subsequence from the first point, without neighbours at the same coordinates, dropping only points at the coordinates of the point kept before them |
| SegmentCompression.DistinctKeptFixed | Sources/GPXProcessing/Compression/SegmentCompressor.swift:73-86 | a sequence without neighbouring duplicates passes unchanged |
| SegmentCompression.StripDuplicatesIdempotent | Sources/GPXProcessing/Compression/SegmentCompressor.swift:73-86 | stripping duplicates twice is stripping them once |
| SegmentCompression.KeepDrawn | Sources/GPXProcessing/Compression/SegmentCompressor.swift:70 | the filter never adds points |
| SegmentCompression.KeepDrawnEmbeds | Sources/GPXProcessing/Compression/SegmentCompressor.swift:70 | exactly the points whose draw is at most the keep probability are kept, in order |
| SegmentCompression.RandomRemovalProperties | Sources/GPXProcessing/Compression/SegmentCompressor.swift:67-71 | a percentage outside (0, 1) keeps every point; otherwise the result is a subsequence |
| SegmentCompression.Compress | Sources/GPXProcessing/Compression/SegmentCompressor.swift:7-41 | cancellation fails with the cancellation error; otherwise the payload keeps its indices, attributes and nodes and its points are the strategy's result, deduplicated when a radius is set |
| SegmentCompression.CompressedSubsequence | Sources/GPXProcessing/Compression/SegmentCompressor.swift:11-31 | every strategy, with or without deduplication, yields a subsequence of the segment's points |
| SegmentCompression.DeduplicationAlwaysApplies | Sources/GPXProcessing/Compression/SegmentCompressor.swift:26-31 | with a deduplication radius, kept neighbours are at least that far apart whatever the strategy (the forced last point aside), and the last point the strategy kept is still the last one written |
| SegmentCompression.DuplicatesExample | Sources/GPXProcessing/Compression/SegmentCompressor.swift:73-86 | a repeated point is dropped, a moved one kept |
| Configuration.Configuration.With | Sources/GPXProcessing/Model/GPXProcessingConfiguration.swift:83-87 | the copy differs from the original in the strategy alone |
| Configuration.Configuration.MakeOutputUrl | Sources/GPXProcessing/Model/GPXProcessingConfiguration.swift:89-95 | the output sits in the override directory, or beside the input |
| Configuration.OutputExtension | Sources/GPXProcessing/Model/GPXProcessingConfiguration.swift:93 | the input's extension, or `gpx` when it has none |
| Configuration.NewConfiguration | Sources/GPXProcessing/Model/GPXProcessingConfiguration.swift:23-40 | every one of the initialiser's seven arguments is stored unchanged; the chunk size must be positive |
| Configuration.DefaultConfiguration | Sources/GPXProcessing/Model/GPXProcessingConfiguration.swift:24-30 | the default arguments: `-compressed`, chunk size 16 384, RDP 5.0, radius 2.5, stable ordering, no random removal, extensions preserved |
| Configuration.LargeFileDefault | Sources/GPXProcessing/Model/GPXProcessingConfiguration.swift:70-80 | `-tahoe`, 32768 points per chunk, RDP 4.0, radius 1.5, stable ordering, no random removal, extensions kept |
| Configuration.OutputNameRoundTrip | Sources/GPXProcessing/Model/GPXProcessingConfiguration.swift:89-95 | the output name splits back into the input's base name plus the suffix, and the output extension |
| Configuration.OutputDiffersFromInput | Sources/GPXProcessing/Model/GPXProcessingConfiguration.swift:89-95 | with a non-empty suffix and no override, the output never overwrites the input |
| GpxModel.ApproxSquared | Sources/GPXProcessing/Compression/GPXDistance.swift:22-25 | the squared haversine distance is never negative |
| GpxModel.DistanceSquared | Sources/GPXProcessing/Model/GPXPointRecord.swift:30-37 | the squared distance between two points is never negative |
| GpxModel.Url.DeletingLastPathComponent | Sources/GPXProcessing/Model/GPXProcessingConfiguration.swift:91 | the parent, to which the last component appends back |
| GpxModel.Url.AppendingPathComponent | Sources/GPXProcessing/Model/GPXProcessingConfiguration.swift:94 | the new last component is the name, and its parent is the original |
| GpxModel.LastDot | Sources/GPXProcessing/Model/GPXProcessingConfiguration.swift:92-93 | the position of the last `.` in a name, or none when it has no `.` |
| GpxModel.PathExtension | Sources/GPXProcessing/Model/GPXProcessingConfiguration.swift:93 | the extension never contains a `.` |
| GpxModel.BaseName | Sources/GPXProcessing/Model/GPXProcessingConfiguration.swift:92 | the base name, a `.` and the extension give the name back |
| Semaphore.WaitStep | Sources/GPXProcessing/Utilities/AsyncChannel.swift:33-41 | the caller goes on exactly when a slot is free, taking it; otherwise it is queued at the back; a healthy counter stays healthy |
| Semaphore.SignalStep | Sources/GPXProcessing/Utilities/AsyncChannel.swift:43-50 | the oldest waiter is resumed exactly when someone waits; otherwise a slot is freed; a healthy counter stays healthy |
| Semaphore.Run | Sources/GPXProcessing/Utilities/AsyncChannel.swift:25-51 | calls applied in order; there are never more signals than calls |
| Semaphore.RunFifo | Sources/GPXProcessing/Utilities/AsyncChannel.swift:38-46 | first in, first out: the waiters resumed, then those still queued, are those queued before, then those suspended since, in order |
| Semaphore.RunHealthy | Sources/GPXProcessing/Utilities/AsyncChannel.swift:33-50 | from a non-negative counter with nobody waiting while slots are free, every sequence of calls keeps it so |
| Semaphore.RunConserves | Sources/GPXProcessing/Utilities/AsyncChannel.swift:33-50 | slots are conserved: free slots plus slots taken plus slots handed to resumed waiters equal the initial free slots plus the signals |
| Semaphore.RunResumedBounded | Sources/GPXProcessing/Utilities/AsyncChannel.swift:43-50 | no more waiters are resumed than ever queued, and no more than signals sent |
| Semaphore.AsyncSemaphore.constructor | Sources/GPXProcessing/Utilities/AsyncChannel.swift:29-31 | the given count, an empty queue and nothing held |
| Semaphore.AsyncSemaphore.Wait | Sources/GPXProcessing/Utilities/AsyncChannel.swift:33-41 | the actor's fields move as `WaitStep` says, and a slot taken is held |
| Semaphore.AsyncSemaphore.Signal | Sources/GPXProcessing/Utilities/AsyncChannel.swift:43-50 | the actor's fields move as `SignalStep` says, and a freed slot is no longer held |
| Cli.Defaults | Sources/GPXCompressorCLI/main.swift:13-16 | no output directory, RDP at 5 metres, deduplication at 1.5 metres, no files |
| Cli.Finish | Sources/GPXCompressorCLI/main.swift:51-53 | the command starts exactly when there is a file; otherwise "No GPX files were provided" |
| Cli.ParseFrom | Sources/GPXCompressorCLI/main.swift:18-53 | whenever the loop starts a command, it has files |
| Cli.Parse | Sources/GPXCompressorCLI/main.swift:7-53 | no arguments show the usage; a started command always has files |
| Cli.ParseArguments | Sources/GPXCompressorCLI/main.swift:7-53 | the `while` loop computes `Parse` |
| Cli.ParseComposes | Sources/GPXCompressorCLI/main.swift:18-49 | reading spelled-out arguments then anything else is reading the rest after applying them, unless one asked for help |
| Cli.AppliedStrategy | Sources/GPXCompressorCLI/main.swift:27-40 | the strategy is the one named by the last strategy flag |
| Cli.AppliedOutput | Sources/GPXCompressorCLI/main.swift:21-26 | the output directory is the last one given |
| Cli.AppliedDedupe | Sources/GPXCompressorCLI/main.swift:41-42 | deduplication is off exactly when `--no-dedupe` appeared |
| Cli.AppliedFiles | Sources/GPXCompressorCLI/main.swift:46-47 | every non-flag argument is a file, in order |
| Cli.ParseMeaning | Sources/GPXCompressorCLI/main.swift:7-53 | for every well-formed command line the loop's result is the independent meaning: usage when help is asked, otherwise the last strategy, last directory, deduplication unless disabled, and the files in order, or the missing-file error |
| Cli.OutputNeedsValue | Sources/GPXCompressorCLI/main.swift:21-24 | `--output` or `-o` last is "Missing value for --output" |
| Cli.NumberFlagNeedsNumber | Sources/GPXCompressorCLI/main.swift:27-36 | `--rdp` or `--strip-nearby` without a number is an error, whatever follows |
| Cli.HelpStops | Sources/GPXCompressorCLI/main.swift:43-45 | `--help` or `-h` shows the usage and ignores everything after it, errors included |
| Cli.CliConfiguration | Sources/GPXCompressorCLI/main.swift:55-57 | `largeFileDefault` with the chosen strategy and radius and nothing else changed |
| Cli.MapIndexedAt | Sources/GPXCompressorCLI/main.swift:59-62 | the job at each position is made from the file at that position |
| Cli.JobsPlaceOutputs | Sources/GPXCompressorCLI/main.swift:59-62 | one job per file, in order, with the command's configuration, writing into `--output` when given and next to its input otherwise, never over its input |
| Cli.Plan | Sources/GPXCompressorCLI/main.swift:7-62 | the usage text gives no jobs; a parsed command line gives one job per file from its settings; a parse error is passed on unchanged; jobs come exactly when the command line parses |
| Cli.MakeJobs | Sources/GPXCompressorCLI/main.swift:59-62 | the `map` computes `Jobs` |
| Cli.Command | Sources/GPXCompressorCLI/main.swift:7-62 | the command line parsed and turned into jobs as `Plan` says |

## Left out

- Foundation's `XMLParser` is replaced by a sequence of start, text and end tokens. Its own errors are a parameter of `Parse`. Malformed XML, namespaces and the byte-progress callback of `CountingInputStream` are not modelled.
- `parser(_:parseErrorOccurred:)` is folded into `Parse`: the stream ends with the reader's error.
- The haversine distance (GPXDistance.swift) is a parameter. The trigonometry is not modelled, and neither are floating-point rounding, NaN or infinities.
- The `AsyncFileWriter` actor and file handles are replaced by an in-memory sequence of chunks. Write errors after opening are not modelled. Failing to open the output is a parameter of `Pipeline.Run`.
- Concurrency is not modelled: actors, `Task`, task groups, `GPXJobScheduler` and the `AsyncChannel` stream wrapper. `AsyncSemaphore` is modelled as the sequential state machine its actor isolation makes it, and its waiters are abstract ids.
- Cancellation (`Task.checkCancellation`) is modelled as an optional event index at which the check throws. An index equal to the number of events is seen by the write of `</gpx>` in `finish`. In `SegmentCompression.Compress` it is a boolean.
- `Pipeline.Run`: cancellation is checked before each event and at the write of `</gpx>`. The checks in every other write (GPXStreamWriter.swift:136-139) and at the start of compression (SegmentCompressor.swift:8) are not modelled separately: a cancellation requested while an event is handled takes effect at the next check, with that event's output written in full.
- Time is not modelled. The throughput during the loop is computed from zero processed bytes, so it is 0. The completion message and throughput are computed from a single elapsed-time parameter, and progress timestamps are left out.
- `Pipeline.Run`: the coordinators dictionary is a set of track indices, because every coordinator wraps the same writer and compressor.
- `StreamWriter`: Swift traps when the indentation level becomes negative. The model returns no next state there, and the pipeline reports that as the outcome `Trapped`.
- Integer overflow of `currentTrackIndex += 1`, of segment indices and of the point counters is not modelled: integers are unbounded.
- The configuration handed to the parser is not used by the parser's callbacks, so the model leaves it out.
- `Cli.Command`: `printUsage`, the progress lines printed for each update and running the jobs through the scheduler are left out. A job's random `UUID` is modelled as the file's position in the list.
- `CompressionStrategy.description` is float formatting for display and is left out. So is `GPXProcessingError.errorDescription`, beyond passing it through as a parameter.
- `SegmentCompression.KeepDrawn`: `Double.random(in: 0...1)` is modelled as a draw function indexed by point position, so the model covers every outcome of the random filter, not its distribution.
- `Rdp.SimplifiedEmbeds` states the tolerance guarantee against the chord between consecutive kept points. It does not state optimality (the fewest points), which the algorithm does not promise.
- `StringOrder.Less` compares keys character by character. Swift's `String <` compares by Unicode canonical equivalence, so the model agrees with it only for keys that are all in one normalisation form (such as NFC). Normalisation is not modelled.
- `Cli.ParseMeaning` covers command lines spelled out as well-formed arguments (every value flag followed by its value, numbers where numbers are expected). The error cases are covered by `Cli.OutputNeedsValue`, `Cli.NumberFlagNeedsNumber` and `Cli.Finish`.

## Findings

| source | as written | input that shows it | evidently intended | confidence | as-written member | corrected member |
|---|---|---|---|---|---|---|
| Sources/GPXProcessing/Pipeline/GPXStreamingParser.swift:90-94 | `guard var trackState` takes a copy of the track state before `ensureTrackStartEmitted()` marks the start as emitted on the stored property; `self.trackState = trackState` then writes the stale copy back, so the track's start is yielded again at the next `<trkseg>` and at `</trk>` | the tokens of `<trk><trkseg></trkseg></trk>` yield `trackStart(0)` twice, once before the segment and again before `trackEnd(0)` | each track's start is yielded once, before its first segment and its end. The model keeps the flag set; `ParserProperties.TrackStartOnceCorrected` shows the same input yielding start, segment, end | not executed | ParserProperties.TrackStartRepeatedAsWritten | ParserProperties.ParseEvents |
