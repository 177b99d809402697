/** `GPXProcessingPipeline.process(job:)`: the loop that forwards each
    parsed event to the stream writer, sends track segments through the
    track's coordinator (compress, then write) and reports progress
    snapshots, followed by the completion or failure snapshot. */
module Pipeline {
  import opened Wrappers
  import opened Seqs
  import opened GpxModel
  import opened Configuration
  import opened Progress
  import opened SegmentCompression
  import opened StreamWriter
  import opened XmlNodes

  // ---------------------------------------------------------------------
  // Decimal rendering of integers (Swift string interpolation of an `Int`)

  function DigitChar(d: nat): (c: char)
    requires d < 10
    ensures '0' <= c <= '9' && c as int - '0' as int == d
  {
    (('0' as int) + d) as char
  }

  predicate IsDigits(s: string) {
    forall k :: 0 <= k < |s| ==> '0' <= s[k] <= '9'
  }

  /** The decimal digits of `n`, most significant first, without leading zeros. */
  function NatToString(n: nat): (r: string)
    ensures |r| > 0 && IsDigits(r)
    ensures r[0] == '0' ==> n == 0 && |r| == 1
    decreases n
  {
    if n < 10 then [DigitChar(n)] else NatToString(n / 10) + [DigitChar(n % 10)]
  }

  /** `"\(i)"`: a minus sign before the digits of a negative number. */
  function IntToString(i: int): (r: string)
    ensures |r| > 0
  {
    if i < 0 then "-" + NatToString(-i) else NatToString(i)
  }

  /** The value of a string of decimal digits. */
  function DigitsValue(s: string): nat
    requires IsDigits(s)
  {
    if |s| == 0 then 0 else DigitsValue(s[..|s| - 1]) * 10 + (s[|s| - 1] as int - '0' as int)
  }

  /** Reading back a rendered integer: an optional minus sign, then digits. */
  function ParseInt(s: string): (r: Option<int>)
  {
    if |s| > 0 && s[0] == '-' then
      (if |s| > 1 && IsDigits(s[1..]) then Some(-(DigitsValue(s[1..]) as int)) else None)
    else if |s| > 0 && IsDigits(s) then Some(DigitsValue(s) as int)
    else None
  }

  lemma {:induction false} NatToStringValue(n: nat)
    ensures DigitsValue(NatToString(n)) == n
    decreases n
  {
    if n >= 10 {
      NatToStringValue(n / 10);
      var r := NatToString(n);
      assert r[..|r| - 1] == NatToString(n / 10);
    }
  }

  lemma NegativeParsed(digits: string)
    requires |digits| > 0 && IsDigits(digits)
    ensures ParseInt("-" + digits) == Some(-(DigitsValue(digits) as int))
  {
    assert ("-" + digits)[1..] == digits;
  }

  /** The track numbers in the progress messages can be read back. */
  lemma IntToStringRoundTrip(i: int)
    ensures ParseInt(IntToString(i)) == Some(i)
  {
    if i < 0 {
      NatToStringValue(-i);
      NegativeParsed(NatToString(-i));
    } else {
      NatToStringValue(i);
    }
  }

  // ---------------------------------------------------------------------
  // Inputs that come from outside the loop

  /** What the loop sees of the world: the compressor's distance, the random
      draws of the segment compressed at each event, the writer's number and
      date formatting, the seconds elapsed when each event is handled and at
      the end, the `%.2f` rendering of those seconds, and the
      `localizedDescription` of a thrown error. */
  datatype Environment = Environment(
    dist: Distance,
    draws: nat -> nat -> real,
    formatters: Formatters,
    clock: nat -> real,
    finalElapsed: real,
    formatSeconds: real -> string,
    describe: Failure -> string)

  /** `throughput(from:bytes:)`: bytes per second, zero when no time has passed. */
  function Throughput(bytes: int, elapsed: real): (r: real)
    ensures bytes == 0 ==> r == 0.0
    ensures elapsed <= 0.0 ==> r == 0.0
    ensures elapsed > 0.0 ==> r * elapsed == bytes as real
  {
    if elapsed > 0.0 then bytes as real / elapsed else 0.0
  }

  /** The snapshot yielded before anything is read. */
  function InitialProgress(job: Job<Configuration>, fileSize: int): Progress {
    Progress(job.id, Reading, job.inputUrl, Some(job.outputUrl), 0, fileSize, 0, None, 0, 0, 0.0, Some("Preparing"), None)
  }

  // ---------------------------------------------------------------------
  // The loop as a fold over the events

  /** The loop's local variables other than the writer. The coordinators
      hold no state of their own (`finish` returns empty stats), so the
      dictionary is modelled by its set of track indices. */
  datatype LoopState = LoopState(
    progress: Progress,
    coordinators: set<int>,
    processedPoints: int,
    writtenPoints: int,
    processedSegments: int,
    snapshots: seq<Progress>)
  {
    /** `progress = p; continuation.yield(progress)`. */
    function Emitting(p: Progress): (r: LoopState)
      ensures r.snapshots == snapshots + [p] && Last(r.snapshots) == r.progress == p
    {
      this.(progress := p, snapshots := snapshots + [p])
    }
  }

  datatype Step = Step(state: LoopState, writer: WriterState)

  /** The message of a segment snapshot. */
  function CompressingMessage(trackIndex: int): string {
    "Compressing track " + IntToString(trackIndex + 1)
  }

  /** The message of a track-end snapshot. */
  function FinalisingMessage(index: int): string {
    "Finalising track " + IntToString(index + 1)
  }

  /** The segment a coordinator writes: the payload with its points compressed. */
  function CompressedSegment(env: Environment, job: Job<Configuration>, i: nat, payload: SegmentPayload): SegmentPayload {
    payload.(points := CompressedPoints(job.configuration, env.dist, env.draws(i), payload.points))
  }

  /** The snapshot after the header is written. */
  function HeaderProgress(p: Progress): Progress {
    p.Updating(stage := Some(Parsing), message := Some(Some("Writing header")))
  }

  /** The snapshot after a segment, from the counters `c` that include it. */
  function CompressingProgress(env: Environment, p: Progress, i: nat, c: LoopState, trackIndex: int): Progress {
    p.Updating(
      stage := Some(Compressing),
      processedBytes := Some(p.processedBytes),
      processedSegments := Some(c.processedSegments),
      processedPoints := Some(c.processedPoints),
      writtenPoints := Some(c.writtenPoints),
      throughput := Some(Throughput(p.processedBytes, env.clock(i))),
      message := Some(Some(CompressingMessage(trackIndex))))
  }

  /** The snapshot after a track end. */
  function WritingProgress(p: Progress, c: LoopState, index: int): Progress {
    p.Updating(
      stage := Some(Writing),
      processedSegments := Some(c.processedSegments),
      processedPoints := Some(c.processedPoints),
      writtenPoints := Some(c.writtenPoints),
      message := Some(Some(FinalisingMessage(index))))
  }

  /** `SegmentStats`. */
  datatype SegmentStats = SegmentStats(originalPoints: int, writtenPoints: int, segments: int)

  /** The stats of one segment added to the loop's counters. */
  function Counting(s: LoopState, stats: SegmentStats): LoopState {
    s.(processedPoints := s.processedPoints + stats.originalPoints,
       writtenPoints := s.writtenPoints + stats.writtenPoints,
       processedSegments := s.processedSegments + stats.segments)
  }

  /** `case .header`: write it, then a `parsing` snapshot. */
  function HeaderStep(s: LoopState, w: WriterState, header: DocumentHeader): Step {
    Step(s.Emitting(HeaderProgress(s.progress)), AfterHeader(w, header))
  }

  /** `case .trackSegment` when the track has a coordinator: `enqueue`
      compresses and writes the segment and returns its stats, which are
      added to the counters before a `compressing` snapshot. */
  function SegmentStep(env: Environment, job: Job<Configuration>, s: LoopState, w: WriterState, i: nat, payload: SegmentPayload): Step {
    var written := CompressedSegment(env, job, i, payload);
    var counted := Counting(s, SegmentStats(|payload.points|, |written.points|, 1));
    Step(counted.Emitting(CompressingProgress(env, s.progress, i, counted, payload.trackIndex)),
      AfterSegment(w, written, env.formatters))
  }

  /** `case .trackEnd`: the coordinator's empty stats leave the counters as
      they are, it is removed, the track is closed and a `writing` snapshot
      follows. */
  function TrackEndStep(s: LoopState, w: WriterState, index: int): Step
    requires w.level >= 1
  {
    var removed := s.(coordinators := s.coordinators - {index});
    Step(removed.Emitting(WritingProgress(s.progress, removed, index)), AfterEndTrack(w))
  }

  /** The body of the `switch` for the event at index `i`. `None` is the
      process trapping: `endTrack` at indentation 0 asks Swift for a
      negative repeat count. */
  function Handle(env: Environment, job: Job<Configuration>, s: LoopState, w: WriterState, i: nat, e: StreamEvent): Option<Step> {
    match e
    case Header(header) => Some(HeaderStep(s, w, header))
    case Metadata(node) => Some(Step(s, AfterNode(w, node)))
    case Waypoint(node) => Some(Step(s, AfterNode(w, node)))
    case Route(node) => Some(Step(s, AfterNode(w, node)))
    case Extensions(node) => Some(Step(s, AfterNode(w, node)))
    case TrackStart(index, metadata) =>
      Some(Step(s.(coordinators := s.coordinators + {index}), AfterBeginTrack(w, metadata)))
    case TrackSegment(payload) =>
      if payload.trackIndex !in s.coordinators then Some(Step(s, w))
      else Some(SegmentStep(env, job, s, w, i, payload))
    case TrackEnd(index) =>
      if w.level == 0 then None else Some(TrackEndStep(s, w, index))
    case DocumentEnd => Some(Step(s, w))
  }

  /** Whether `Task.checkCancellation()` throws before the event at index
      `i`: cancellation, once requested at event `at`, stays requested. */
  predicate Cancelled(cancelAt: Option<nat>, i: nat) {
    cancelAt.Some? && cancelAt.value <= i
  }

  /** How a `for try await` loop stands after some events: still running,
      stopped by a thrown error, or stopped by a trap. */
  datatype Progression<S> = Running(at: S) | Stopped(at: S, error: Failure) | Crashed(at: S)

  /** One more turn of the loop: the cancellation check, then the body
      (`None` where the body traps). */
  function Advanced<S>(step: (S, nat, StreamEvent) -> Option<S>, before: Progression<S>, i: nat, e: StreamEvent,
                       cancelAt: Option<nat>): Progression<S>
  {
    if !before.Running? then before
    else if Cancelled(cancelAt, i) then Stopped(before.at, CancellationError)
    else match step(before.at, i, e)
      case None => Crashed(before.at)
      case Some(next) => Running(next)
  }

  /** The loop over `events` with body `step`, from `s0`. */
  function Fold<S>(step: (S, nat, StreamEvent) -> Option<S>, events: seq<StreamEvent>, cancelAt: Option<nat>, s0: S): Progression<S>
    decreases |events|
  {
    if |events| == 0 then Running(s0)
    else Advanced(step, Fold(step, events[..|events| - 1], cancelAt, s0), |events| - 1, events[|events| - 1], cancelAt)
  }

  /** The body of the pipeline's loop. */
  function Handler(env: Environment, job: Job<Configuration>): (Step, nat, StreamEvent) -> Option<Step> {
    (st: Step, i: nat, e: StreamEvent) => Handle(env, job, st.state, st.writer, i, e)
  }

  /** `body` agrees with the pipeline's loop body wherever `Handle` is
      applied; the methods are proved against such a `body`, which keeps
      the cases of `Handle` out of the loop's reasoning. */
  ghost predicate Handles(body: (Step, nat, StreamEvent) -> Option<Step>, env: Environment, job: Job<Configuration>) {
    forall s, w, i, e {:trigger Handle(env, job, s, w, i, e)} :: body(Step(s, w), i, e) == Handle(env, job, s, w, i, e)
  }

  lemma HandlerHandles(env: Environment, job: Job<Configuration>)
    ensures Handles(Handler(env, job), env, job)
  {
  }

  /** The pipeline's loop from `start`. */
  function Loop(env: Environment, job: Job<Configuration>, events: seq<StreamEvent>, cancelAt: Option<nat>, start: Step): Progression<Step> {
    Fold(Handler(env, job), events, cancelAt, start)
  }

  /** The loop over one more event. */
  lemma FoldSnoc<S>(step: (S, nat, StreamEvent) -> Option<S>, events: seq<StreamEvent>, e: StreamEvent, cancelAt: Option<nat>, s0: S)
    ensures Fold(step, events + [e], cancelAt, s0) == Advanced(step, Fold(step, events, cancelAt, s0), |events|, e, cancelAt)
  {
    assert (events + [e])[..|events|] == events;
  }

  /** The loop over a prefix one event longer. */
  lemma FoldPrefix<S>(step: (S, nat, StreamEvent) -> Option<S>, events: seq<StreamEvent>, cancelAt: Option<nat>, s0: S, i: nat)
    requires i < |events|
    ensures Fold(step, events[..i + 1], cancelAt, s0) == Advanced(step, Fold(step, events[..i], cancelAt, s0), i, events[i], cancelAt)
  {
    assert events[..i + 1][..i] == events[..i];
  }

  /** Once the loop has stopped, later events change nothing. */
  lemma {:induction false} FoldStopped<S>(step: (S, nat, StreamEvent) -> Option<S>, events: seq<StreamEvent>, cancelAt: Option<nat>, s0: S, j: nat)
    requires j <= |events|
    requires !Fold(step, events[..j], cancelAt, s0).Running?
    ensures Fold(step, events, cancelAt, s0) == Fold(step, events[..j], cancelAt, s0)
    decreases |events|
  {
    if j < |events| {
      var i := |events| - 1;
      assert events[..i][..j] == events[..j];
      FoldStopped(step, events[..i], cancelAt, s0, j);
    } else {
      assert events[..j] == events;
    }
  }

  /** A property the body keeps holds wherever the loop stops. */
  lemma {:induction false} FoldInduction<S>(step: (S, nat, StreamEvent) -> Option<S>, events: seq<StreamEvent>, cancelAt: Option<nat>, s0: S,
                                            P: S -> bool)
    requires P(s0)
    requires forall s, i, e :: P(s) && step(s, i, e).Some? ==> P(step(s, i, e).value)
    ensures P(Fold(step, events, cancelAt, s0).at)
    decreases |events|
  {
    if |events| > 0 {
      FoldInduction(step, events[..|events| - 1], cancelAt, s0, P);
    }
  }

  // ---------------------------------------------------------------------
  // The whole run

  datatype Outcome = Finished | Threw(error: Failure) | Trapped

  /** The snapshots yielded, what was written, and how the stream ended. */
  datatype RunResult = RunResult(snapshots: seq<Progress>, writer: WriterState, outcome: Outcome)

  /** The `catch` block: one `failed` snapshot carrying the error, then the
      stream finishes throwing it. */
  function Failing(env: Environment, p: Progress, snapshots: seq<Progress>, w: WriterState, e: Failure): RunResult {
    var failed := p.Updating(stage := Some(Failed), message := Some(Some("Failed: " + env.describe(e))), error := Some(Some(e)));
    RunResult(snapshots + [failed], w, Threw(e))
  }

  /** After the loop: `finish`, then the `completed` snapshot. The `error:
      nil` argument is the outer `nil` of `Error??`, which keeps the error. */
  function Completion(env: Environment, fileSize: int, s: LoopState, w: WriterState): RunResult {
    var total := if fileSize > 0 then fileSize else s.progress.processedBytes;
    var done := s.progress.Updating(
      stage := Some(Completed),
      processedBytes := Some(total),
      processedSegments := Some(s.processedSegments),
      processedPoints := Some(s.processedPoints),
      writtenPoints := Some(s.writtenPoints),
      throughput := Some(Throughput(total, env.finalElapsed)),
      message := Some(Some("Completed in " + env.formatSeconds(env.finalElapsed) + "s")),
      error := None);
    RunResult(s.snapshots + [done], AfterFinish(w), Finished)
  }

  function InitialState(job: Job<Configuration>, fileSize: int): LoopState {
    LoopState(InitialProgress(job, fileSize), {}, 0, 0, 0, [InitialProgress(job, fileSize)])
  }

  const EmptyWriter: WriterState := WriterState(0, [], false)

  /** `process(job:)` given the file size, the parser's events and the
      error its stream ends with (if any), the event before which the running `Task`
      is cancelled (if any), and the error opening the output throws (if any).
      A cancellation requested after the last event is seen by the write of
      `</gpx>` in `finish`, which then throws before writing. */
  function Run(env: Environment, job: Job<Configuration>, fileSize: int, events: seq<StreamEvent>,
               streamFailure: Option<Failure>, cancelAt: Option<nat>, openFailure: Option<Failure>): RunResult
  {
    var initial := InitialProgress(job, fileSize);
    if openFailure.Some? then Failing(env, initial, [initial], EmptyWriter, openFailure.value)
    else
      match Loop(env, job, events, cancelAt, Step(InitialState(job, fileSize), EmptyWriter))
      case Stopped(st, e) => Failing(env, st.state.progress, st.state.snapshots, st.writer, e)
      case Crashed(st) => RunResult(st.state.snapshots, st.writer, Trapped)
      case Running(st) =>
        if streamFailure.Some? then Failing(env, st.state.progress, st.state.snapshots, st.writer, streamFailure.value)
        else if Cancelled(cancelAt, |events|) then
          Failing(env, st.state.progress, st.state.snapshots, st.writer, CancellationError)
        else Completion(env, fileSize, st.state, st.writer)
  }

  // ---------------------------------------------------------------------
  // What the loop keeps

  /** A snapshot the loop may yield: same identity, locations and size as
      the first, no bytes counted, zero throughput, not final, and never
      more points written than read. */
  predicate Steady(p: Progress, initial: Progress) {
    && p.id == initial.id && p.inputUrl == initial.inputUrl
    && p.outputUrl == initial.outputUrl && p.totalBytes == initial.totalBytes
    && p.processedBytes == 0 && p.throughput == 0.0
    && p.stage != Completed && p.stage != Failed
    && 0 <= p.writtenPoints <= p.processedPoints
  }

  /** The snapshots yielded so far: the first one first, then only steady ones. */
  ghost predicate SteadySnapshots(snapshots: seq<Progress>, initial: Progress) {
    && |snapshots| > 0 && snapshots[0] == initial
    && forall k :: 0 <= k < |snapshots| ==> Steady(snapshots[k], initial)
  }

  /** The last snapshot agrees with the loop's counters. */
  predicate Counted(p: Progress, s: LoopState) {
    && p.processedPoints == s.processedPoints
    && p.writtenPoints == s.writtenPoints
    && p.processedSegments == s.processedSegments
    && 0 <= s.processedSegments
  }

  ghost predicate Inv(s: LoopState, initial: Progress) {
    SteadySnapshots(s.snapshots, initial) && s.progress == Last(s.snapshots) && Counted(s.progress, s)
  }

  lemma InitialInv(job: Job<Configuration>, fileSize: int)
    ensures Inv(InitialState(job, fileSize), InitialProgress(job, fileSize))
  {
  }

  lemma SteadySnoc(snapshots: seq<Progress>, p: Progress, initial: Progress)
    requires SteadySnapshots(snapshots, initial) && Steady(p, initial)
    ensures SteadySnapshots(snapshots + [p], initial) && Extends(snapshots + [p], snapshots)
  {
    ExtendsAppend(snapshots, [p]);
    var t := snapshots + [p];
    forall k | 0 <= k < |t|
      ensures Steady(t[k], initial)
    {
      if k < |snapshots| {
        assert t[k] == snapshots[k];
      }
    }
  }

  lemma HeaderInv(s: LoopState, w: WriterState, header: DocumentHeader, initial: Progress)
    requires Inv(s, initial)
    ensures var r := HeaderStep(s, w, header);
      Inv(r.state, initial) && Extends(r.state.snapshots, s.snapshots) && r.writer.closed == w.closed
  {
    SteadySnoc(s.snapshots, HeaderStep(s, w, header).state.progress, initial);
  }

  lemma SegmentInv(env: Environment, job: Job<Configuration>, s: LoopState, w: WriterState, i: nat, payload: SegmentPayload, initial: Progress)
    requires Inv(s, initial)
    ensures var r := SegmentStep(env, job, s, w, i, payload);
      Inv(r.state, initial) && Extends(r.state.snapshots, s.snapshots) && r.writer.closed == w.closed
  {
    CompressedSubsequence(job.configuration, env.dist, env.draws(i), payload.points);
    SteadySnoc(s.snapshots, SegmentStep(env, job, s, w, i, payload).state.progress, initial);
  }

  lemma TrackEndInv(s: LoopState, w: WriterState, index: int, initial: Progress)
    requires Inv(s, initial) && w.level >= 1
    ensures var r := TrackEndStep(s, w, index);
      Inv(r.state, initial) && Extends(r.state.snapshots, s.snapshots) && r.writer.closed == w.closed
  {
    SteadySnoc(s.snapshots, TrackEndStep(s, w, index).state.progress, initial);
  }

  /** `r`, the loop's body applied at `Step(s, w)`, keeps the invariant,
      only adds snapshots and leaves the file as open as it was. */
  ghost predicate KeptBy(s: LoopState, w: WriterState, r: Option<Step>, initial: Progress) {
    r.Some? ==> Inv(r.value.state, initial) && Extends(r.value.state.snapshots, s.snapshots) && r.value.writer.closed == w.closed
  }

  lemma HeaderKept(env: Environment, job: Job<Configuration>, body: (Step, nat, StreamEvent) -> Option<Step>,
                   s: LoopState, w: WriterState, i: nat, header: DocumentHeader, initial: Progress)
    requires Handles(body, env, job) && Inv(s, initial)
    ensures KeptBy(s, w, body(Step(s, w), i, Header(header)), initial)
  {
    assert Handle(env, job, s, w, i, Header(header)) == Some(HeaderStep(s, w, header));
    HeaderInv(s, w, header, initial);
  }

  lemma SegmentKept(env: Environment, job: Job<Configuration>, body: (Step, nat, StreamEvent) -> Option<Step>,
                    s: LoopState, w: WriterState, i: nat, payload: SegmentPayload, initial: Progress)
    requires Handles(body, env, job) && Inv(s, initial)
    ensures KeptBy(s, w, body(Step(s, w), i, TrackSegment(payload)), initial)
  {
    if payload.trackIndex in s.coordinators {
      assert Handle(env, job, s, w, i, TrackSegment(payload)) == Some(SegmentStep(env, job, s, w, i, payload));
      SegmentInv(env, job, s, w, i, payload, initial);
    } else {
      assert Handle(env, job, s, w, i, TrackSegment(payload)) == Some(Step(s, w));
      assert Extends(s.snapshots, s.snapshots);
    }
  }

  lemma TrackEndKept(env: Environment, job: Job<Configuration>, body: (Step, nat, StreamEvent) -> Option<Step>,
                     s: LoopState, w: WriterState, i: nat, index: int, initial: Progress)
    requires Handles(body, env, job) && Inv(s, initial)
    ensures KeptBy(s, w, body(Step(s, w), i, TrackEnd(index)), initial)
  {
    if w.level > 0 {
      assert Handle(env, job, s, w, i, TrackEnd(index)) == Some(TrackEndStep(s, w, index));
      TrackEndInv(s, w, index, initial);
    } else {
      assert Handle(env, job, s, w, i, TrackEnd(index)) == None;
    }
  }

  /** The events that yield no snapshot leave the snapshots and counters alone. */
  lemma QuietKept(env: Environment, job: Job<Configuration>, body: (Step, nat, StreamEvent) -> Option<Step>,
                  s: LoopState, w: WriterState, i: nat, e: StreamEvent, initial: Progress)
    requires Handles(body, env, job) && Inv(s, initial)
    requires !e.Header? && !e.TrackSegment? && !e.TrackEnd?
    ensures KeptBy(s, w, body(Step(s, w), i, e), initial)
  {
    assert Extends(s.snapshots, s.snapshots);
    match e {
      case Metadata(node) =>
        assert Handle(env, job, s, w, i, Metadata(node)) == Some(Step(s, AfterNode(w, node)));
      case Waypoint(node) =>
        assert Handle(env, job, s, w, i, Waypoint(node)) == Some(Step(s, AfterNode(w, node)));
      case Route(node) =>
        assert Handle(env, job, s, w, i, Route(node)) == Some(Step(s, AfterNode(w, node)));
      case Extensions(node) =>
        assert Handle(env, job, s, w, i, Extensions(node)) == Some(Step(s, AfterNode(w, node)));
      case TrackStart(index, metadata) =>
        assert Handle(env, job, s, w, i, TrackStart(index, metadata))
            == Some(Step(s.(coordinators := s.coordinators + {index}), AfterBeginTrack(w, metadata)));
      case DocumentEnd =>
        assert Handle(env, job, s, w, i, DocumentEnd) == Some(Step(s, w));
    }
  }

  /** Each event keeps the invariant, adds to the snapshots without
      changing earlier ones, and never closes the file. */
  lemma HandleInv(env: Environment, job: Job<Configuration>, body: (Step, nat, StreamEvent) -> Option<Step>,
                  s: LoopState, w: WriterState, i: nat, e: StreamEvent, initial: Progress)
    requires Handles(body, env, job) && Inv(s, initial)
    ensures var r := body(Step(s, w), i, e);
      r.Some? ==> Inv(r.value.state, initial) && Extends(r.value.state.snapshots, s.snapshots) && r.value.writer.closed == w.closed
  {
    match e {
      case Header(header) => HeaderKept(env, job, body, s, w, i, header, initial);
      case TrackSegment(payload) => SegmentKept(env, job, body, s, w, i, payload, initial);
      case TrackEnd(index) => TrackEndKept(env, job, body, s, w, i, index, initial);
      case _ => QuietKept(env, job, body, s, w, i, e, initial);
    }
  }

  /** What the loop keeps relative to where it started. */
  ghost predicate Kept(initial: Progress, start: Step, st: Step) {
    Inv(st.state, initial) && Extends(st.state.snapshots, start.state.snapshots) && st.writer.closed == start.writer.closed
  }

  lemma LoopInv(env: Environment, job: Job<Configuration>, body: (Step, nat, StreamEvent) -> Option<Step>,
                events: seq<StreamEvent>, cancelAt: Option<nat>, start: Step, initial: Progress)
    requires Handles(body, env, job) && Inv(start.state, initial)
    ensures var r := Fold(body, events, cancelAt, start).at;
      Inv(r.state, initial) && Extends(r.state.snapshots, start.state.snapshots) && r.writer.closed == start.writer.closed
  {
    assert Extends(start.state.snapshots, start.state.snapshots);
    forall st: Step, i: nat, e: StreamEvent | Kept(initial, start, st) && body(st, i, e).Some?
      ensures Kept(initial, start, body(st, i, e).value)
    {
      HandleInv(env, job, body, st.state, st.writer, i, e, initial);
      assert st == Step(st.state, st.writer);
      ExtendsTransitive(body(st, i, e).value.state.snapshots, st.state.snapshots, start.state.snapshots);
    }
    FoldInduction(body, events, cancelAt, start, st => Kept(initial, start, st));
  }

  // ---------------------------------------------------------------------
  // Properties of a run

  /** What every run yields: the `reading` snapshot first; only snapshots
      with the same identity and size; before the last one, none failed or
      completed, no bytes counted, zero throughput; never more points
      written than read. The last snapshot tells how the run ended: a
      completion (with the file size, or the processed bytes when the size
      is unknown) after `</gpx>` closed the file, or one `failed` snapshot
      carrying the error that ends the stream, with the file left open. */
  lemma RunSnapshots(env: Environment, job: Job<Configuration>, fileSize: int, events: seq<StreamEvent>,
                     streamFailure: Option<Failure>, cancelAt: Option<nat>, openFailure: Option<Failure>)
    ensures var r := Run(env, job, fileSize, events, streamFailure, cancelAt, openFailure);
      && |r.snapshots| >= 1
      && r.snapshots[0] == InitialProgress(job, fileSize)
      && r.snapshots[0].stage == Reading && r.snapshots[0].message == Some("Preparing")
      && (forall k :: 0 <= k < |r.snapshots| - 1 ==> Steady(r.snapshots[k], r.snapshots[0]))
      && (forall k :: 0 <= k < |r.snapshots| ==>
            && r.snapshots[k].id == job.id && r.snapshots[k].totalBytes == fileSize
            && 0 <= r.snapshots[k].writtenPoints <= r.snapshots[k].processedPoints)
      && (r.outcome.Finished? <==> Last(r.snapshots).stage == Completed)
      && (r.outcome.Threw? <==> Last(r.snapshots).stage == Failed)
      && (r.outcome.Trapped? ==> Steady(Last(r.snapshots), r.snapshots[0]) && !r.writer.closed)
      && (r.outcome.Finished? ==>
            && Last(r.snapshots).processedBytes == (if fileSize > 0 then fileSize else 0)
            && r.writer.closed && |r.writer.output| > 0 && Last(r.writer.output) == GpxClose
            && streamFailure.None? && openFailure.None? && !Cancelled(cancelAt, |events|))
      && (r.outcome.Threw? ==>
            && Last(r.snapshots).error == Some(r.outcome.error)
            && Last(r.snapshots).message == Some("Failed: " + env.describe(r.outcome.error))
            && !r.writer.closed)
  {
    var initial := InitialProgress(job, fileSize);
    InitialInv(job, fileSize);
    if openFailure.None? {
      var start := Step(InitialState(job, fileSize), EmptyWriter);
      HandlerHandles(env, job);
      LoopInv(env, job, Handler(env, job), events, cancelAt, start, initial);
      var end := Loop(env, job, events, cancelAt, start).at;
      assert end.state.snapshots[0] == initial by {
        assert end.state.snapshots[..1] == [initial];
      }
    }
  }

  /** Opening the output fails: only the first snapshot and the failure. */
  lemma OpenFailureReported(env: Environment, job: Job<Configuration>, fileSize: int, events: seq<StreamEvent>,
                            streamFailure: Option<Failure>, cancelAt: Option<nat>, e: Failure)
    ensures var r := Run(env, job, fileSize, events, streamFailure, cancelAt, Some(e));
      && r.outcome == Threw(e) && |r.snapshots| == 2 && r.writer.output == []
      && r.snapshots[1].stage == Failed && r.snapshots[1].error == Some(e)
  {
  }

  /** Cancelled before the first event: nothing is written and the run
      fails with the cancellation error. */
  lemma CancelledAtOnce(env: Environment, job: Job<Configuration>, fileSize: int, events: seq<StreamEvent>,
                        streamFailure: Option<Failure>)
    requires |events| > 0
    ensures var r := Run(env, job, fileSize, events, streamFailure, Some(0), None);
      && r.outcome == Threw(CancellationError) && |r.snapshots| == 2 && r.writer.output == []
  {
    FoldStopped(Handler(env, job), events, Some(0), Step(InitialState(job, fileSize), EmptyWriter), 1);
  }

  /** Cancelled after the last event: the loop runs to its end, but the
      write of `</gpx>` throws, so the file is neither completed nor closed
      and the run fails with the cancellation error. */
  lemma CancelledAtFinish(env: Environment, job: Job<Configuration>, fileSize: int, events: seq<StreamEvent>)
    requires Loop(env, job, events, Some(|events|), Step(InitialState(job, fileSize), EmptyWriter)).Running?
    ensures var r := Run(env, job, fileSize, events, None, Some(|events|), None);
      var end := Loop(env, job, events, Some(|events|), Step(InitialState(job, fileSize), EmptyWriter)).at;
      && r.outcome == Threw(CancellationError) && Last(r.snapshots).stage == Failed
      && r.writer == end.writer && !r.writer.closed
      && r.snapshots == end.state.snapshots + [Last(r.snapshots)]
  {
    InitialInv(job, fileSize);
    HandlerHandles(env, job);
    LoopInv(env, job, Handler(env, job), events, Some(|events|), Step(InitialState(job, fileSize), EmptyWriter),
      InitialProgress(job, fileSize));
  }

  /** A segment of a track with a coordinator adds its point count, its
      compressed point count and one segment to the counters, writes the
      compressed segment and yields a `compressing` snapshot naming the
      track (counted from 1); one without a coordinator changes nothing. */
  lemma SegmentHandled(env: Environment, job: Job<Configuration>, s: LoopState, w: WriterState, i: nat, payload: SegmentPayload)
    ensures var r := Handle(env, job, s, w, i, TrackSegment(payload));
      && r.Some?
      && (payload.trackIndex !in s.coordinators ==> r.value == Step(s, w))
      && (payload.trackIndex in s.coordinators ==>
            && r.value.state.processedPoints == s.processedPoints + |payload.points|
            && s.writtenPoints <= r.value.state.writtenPoints <= s.writtenPoints + |payload.points|
            && r.value.state.processedSegments == s.processedSegments + 1
            && r.value.state.coordinators == s.coordinators
            && r.value.state.snapshots == s.snapshots + [r.value.state.progress]
            && r.value.state.progress.stage == Compressing
            && ParseInt(r.value.state.progress.message.value[|"Compressing track "|..]) == Some(payload.trackIndex + 1)
            && IsSubsequence(CompressedSegment(env, job, i, payload).points, payload.points)
            && r.value.writer.level == w.level
            && r.value.writer.output == w.output + SegmentChunks(CompressedSegment(env, job, i, payload), w.level, env.formatters))
  {
    if payload.trackIndex in s.coordinators {
      CompressedSubsequence(job.configuration, env.dist, env.draws(i), payload.points);
      IntToStringRoundTrip(payload.trackIndex + 1);
    }
  }

  /** A track end closes the track when the writer is inside one (and
      traps otherwise), removes the track's coordinator, leaves the counters
      as they are and yields a `writing` snapshot naming the track. */
  lemma TrackEndHandled(env: Environment, job: Job<Configuration>, s: LoopState, w: WriterState, i: nat, index: int)
    ensures var r := Handle(env, job, s, w, i, TrackEnd(index));
      && (r.None? <==> w.level == 0)
      && (r.Some? ==>
            && r.value.state.coordinators == s.coordinators - {index}
            && index !in r.value.state.coordinators
            && r.value.state.processedPoints == s.processedPoints
            && r.value.state.writtenPoints == s.writtenPoints
            && r.value.state.processedSegments == s.processedSegments
            && r.value.state.snapshots == s.snapshots + [r.value.state.progress]
            && r.value.state.progress.stage == Writing
            && ParseInt(r.value.state.progress.message.value[|"Finalising track "|..]) == Some(index + 1)
            && r.value.writer.level == w.level - 1
            && r.value.writer.output == w.output + [CloseLine(w.level - 1, "trk")])
  {
    if w.level > 0 {
      IntToStringRoundTrip(index + 1);
    }
  }

  /** Metadata, waypoints, routes and extensions go to the writer at the
      current indentation; no counter changes and no snapshot is yielded. */
  lemma NodeForwarded(env: Environment, job: Job<Configuration>, s: LoopState, w: WriterState, i: nat, e: StreamEvent)
    requires e.Metadata? || e.Waypoint? || e.Route? || e.Extensions?
    ensures var r := Handle(env, job, s, w, i, e);
      && r.Some? && r.value.state == s
      && r.value.writer.level == w.level && r.value.writer.closed == w.closed
      && r.value.writer.output == w.output + [Render(e.node, w.level)]
  {
  }

  /** The header on a running loop: indentation 1 and a `parsing` snapshot. */
  lemma HeaderOnLoop(env: Environment, job: Job<Configuration>, events: seq<StreamEvent>, start: Step,
                     body: (Step, nat, StreamEvent) -> Option<Step>,
                     s: LoopState, w: WriterState, header: DocumentHeader) returns (t: LoopState, v: WriterState)
    requires Handles(body, env, job) && Fold(body, events, None, start) == Running(Step(s, w))
    ensures Fold(body, events + [Header(header)], None, start) == Running(Step(t, v))
    ensures v.level == 1 && t.coordinators == s.coordinators && t.processedSegments == s.processedSegments
    ensures t.processedPoints == s.processedPoints
    ensures t.snapshots == s.snapshots + [t.progress] && t.progress.stage == Parsing
  {
    assert Handle(env, job, s, w, |events|, Header(header)) == Some(HeaderStep(s, w, header));
    FoldSnoc(body, events, Header(header), None, start);
    t, v := HeaderStep(s, w, header).state, HeaderStep(s, w, header).writer;
  }

  /** A track start on a running loop: a coordinator for the track, one
      more level of indentation, no snapshot. */
  lemma TrackStartOnLoop(env: Environment, job: Job<Configuration>, events: seq<StreamEvent>, start: Step,
                     body: (Step, nat, StreamEvent) -> Option<Step>,
                     s: LoopState, w: WriterState, index: int, metadata: TrackMetadata) returns (t: LoopState, v: WriterState)
    requires Handles(body, env, job) && Fold(body, events, None, start) == Running(Step(s, w))
    ensures Fold(body, events + [TrackStart(index, metadata)], None, start) == Running(Step(t, v))
    ensures v.level == w.level + 1 && index in t.coordinators && t.processedSegments == s.processedSegments
    ensures t.processedPoints == s.processedPoints && t.snapshots == s.snapshots && t.progress == s.progress
  {
    assert Handle(env, job, s, w, |events|, TrackStart(index, metadata))
        == Some(Step(s.(coordinators := s.coordinators + {index}), AfterBeginTrack(w, metadata)));
    FoldSnoc(body, events, TrackStart(index, metadata), None, start);
    t, v := s.(coordinators := s.coordinators + {index}), AfterBeginTrack(w, metadata);
  }

  /** A segment of a track with a coordinator on a running loop. */
  lemma SegmentOnLoop(env: Environment, job: Job<Configuration>, events: seq<StreamEvent>, start: Step,
                     body: (Step, nat, StreamEvent) -> Option<Step>,
                     s: LoopState, w: WriterState, payload: SegmentPayload) returns (t: LoopState, v: WriterState)
    requires Handles(body, env, job) && Fold(body, events, None, start) == Running(Step(s, w))
    requires payload.trackIndex in s.coordinators
    ensures Fold(body, events + [TrackSegment(payload)], None, start) == Running(Step(t, v))
    ensures v.level == w.level && t.coordinators == s.coordinators && t.processedSegments == s.processedSegments + 1
    ensures t.processedPoints == s.processedPoints + |payload.points|
    ensures t.snapshots == s.snapshots + [t.progress] && t.progress.stage == Compressing
  {
    var step := SegmentStep(env, job, s, w, |events|, payload);
    assert Handle(env, job, s, w, |events|, TrackSegment(payload)) == Some(step);
    FoldSnoc(body, events, TrackSegment(payload), None, start);
    t, v := step.state, step.writer;
  }

  /** A track end inside a track on a running loop. */
  lemma TrackEndOnLoop(env: Environment, job: Job<Configuration>, events: seq<StreamEvent>, start: Step,
                     body: (Step, nat, StreamEvent) -> Option<Step>,
                     s: LoopState, w: WriterState, index: int) returns (t: LoopState, v: WriterState)
    requires Handles(body, env, job) && Fold(body, events, None, start) == Running(Step(s, w))
    requires w.level >= 1
    ensures Fold(body, events + [TrackEnd(index)], None, start) == Running(Step(t, v))
    ensures v.level == w.level - 1 && index !in t.coordinators && t.processedSegments == s.processedSegments
    ensures t.processedPoints == s.processedPoints
    ensures t.snapshots == s.snapshots + [t.progress] && t.progress.stage == Writing
  {
    var step := TrackEndStep(s, w, index);
    assert Handle(env, job, s, w, |events|, TrackEnd(index)) == Some(step);
    FoldSnoc(body, events, TrackEnd(index), None, start);
    t, v := step.state, step.writer;
  }

  /** The document end on a running loop changes nothing. */
  lemma DocumentEndOnLoop(env: Environment, job: Job<Configuration>, events: seq<StreamEvent>, start: Step,
                     body: (Step, nat, StreamEvent) -> Option<Step>,
                     s: LoopState, w: WriterState)
    requires Handles(body, env, job) && Fold(body, events, None, start) == Running(Step(s, w))
    ensures Fold(body, events + [DocumentEnd], None, start) == Running(Step(s, w))
  {
    assert Handle(env, job, s, w, |events|, DocumentEnd) == Some(Step(s, w));
    FoldSnoc(body, events, DocumentEnd, None, start);
  }

  /** The events of a small one-track document. */
  function OneTrackDocument(header: DocumentHeader, metadata: TrackMetadata, payload: SegmentPayload): seq<StreamEvent> {
    [Header(header), TrackStart(0, metadata), TrackSegment(payload), TrackEnd(0), DocumentEnd]
  }

  /** The header and the track start of the one-track document. */
  lemma OneTrackOpened(env: Environment, job: Job<Configuration>, fileSize: int, header: DocumentHeader,
                       metadata: TrackMetadata, body: (Step, nat, StreamEvent) -> Option<Step>) returns (s: LoopState, w: WriterState)
    requires Handles(body, env, job)
    ensures Fold(body, [Header(header), TrackStart(0, metadata)], None, Step(InitialState(job, fileSize), EmptyWriter)) == Running(Step(s, w))
    ensures w.level == 2 && 0 in s.coordinators && s.processedSegments == 0 && s.processedPoints == 0
    ensures |s.snapshots| == 2 && s.snapshots[1].stage == Parsing && s.progress == s.snapshots[1]
  {
    var s0 := InitialState(job, fileSize);
    var start := Step(s0, EmptyWriter);
    assert Fold(body, [], None, start) == Running(start);
    var s1, w1 := HeaderOnLoop(env, job, [], start, body, s0, EmptyWriter, header);
    var e1 := [Header(header)];
    assert [] + [Header(header)] == e1;
    s, w := TrackStartOnLoop(env, job, e1, start, body, s1, w1, 0, metadata);
    assert e1 + [TrackStart(0, metadata)] == [Header(header), TrackStart(0, metadata)];
  }

  /** The loop over a small one-track document runs to its end, yielding
      the `parsing`, `compressing` and `writing` snapshots in order and
      leaving the writer inside `<gpx>`. */
  lemma OneTrackLoop(env: Environment, job: Job<Configuration>, fileSize: int, header: DocumentHeader,
                     metadata: TrackMetadata, payload: SegmentPayload, body: (Step, nat, StreamEvent) -> Option<Step>)
    requires payload.trackIndex == 0 && Handles(body, env, job)
    ensures var end := Fold(body, OneTrackDocument(header, metadata, payload), None, Step(InitialState(job, fileSize), EmptyWriter));
      && end.Running?
      && |end.at.state.snapshots| == 4
      && end.at.state.snapshots[1].stage == Parsing
      && end.at.state.snapshots[2].stage == Compressing
      && end.at.state.snapshots[3].stage == Writing
      && end.at.state.processedSegments == 1 && end.at.state.processedPoints == |payload.points|
      && end.at.writer.level == 1
  {
    var start := Step(InitialState(job, fileSize), EmptyWriter);
    var s2, w2 := OneTrackOpened(env, job, fileSize, header, metadata, body);
    var e2 := [Header(header), TrackStart(0, metadata)];
    var s3, w3 := SegmentOnLoop(env, job, e2, start, body, s2, w2, payload);
    var e3 := [Header(header), TrackStart(0, metadata), TrackSegment(payload)];
    assert e2 + [TrackSegment(payload)] == e3;
    var s4, w4 := TrackEndOnLoop(env, job, e3, start, body, s3, w3, 0);
    var e4 := [Header(header), TrackStart(0, metadata), TrackSegment(payload), TrackEnd(0)];
    assert e3 + [TrackEnd(0)] == e4;
    DocumentEndOnLoop(env, job, e4, start, body, s4, w4);
    assert e4 + [DocumentEnd] == OneTrackDocument(header, metadata, payload);
  }

  /** A small one-track document: header, track start, one segment of the
      track, track end, document end. The run completes, yielding one
      snapshot per stage in order, and counts the segment. */
  lemma OneTrackCompletes(env: Environment, job: Job<Configuration>, fileSize: int, header: DocumentHeader,
                          metadata: TrackMetadata, payload: SegmentPayload)
    requires payload.trackIndex == 0
    ensures var r := Run(env, job, fileSize, OneTrackDocument(header, metadata, payload), None, None, None);
      && r.outcome == Finished
      && |r.snapshots| == 5
      && r.snapshots[0].stage == Reading && r.snapshots[1].stage == Parsing
      && r.snapshots[2].stage == Compressing && r.snapshots[3].stage == Writing
      && r.snapshots[4].stage == Completed
      && r.snapshots[4].processedSegments == 1
      && r.snapshots[4].processedPoints == |payload.points|
      && r.writer.level == 1 && r.writer.closed
  {
    HandlerHandles(env, job);
    OneTrackLoop(env, job, fileSize, header, metadata, payload, Handler(env, job));
    InitialInv(job, fileSize);
    LoopInv(env, job, Handler(env, job), OneTrackDocument(header, metadata, payload), None, Step(InitialState(job, fileSize), EmptyWriter), InitialProgress(job, fileSize));
  }

  // ---------------------------------------------------------------------
  // The loop on the writer object

  /** `TrackSegmentCoordinator.enqueue(segment:)`: compress (the running `Task` is not
      cancelled here: the loop has just checked), write, report the counts. */
  method Enqueue(env: Environment, job: Job<Configuration>, writer: Writer, i: nat, segment: SegmentPayload)
    returns (stats: SegmentStats)
    requires writer.formatters == env.formatters
    modifies writer
    ensures writer.State() == AfterSegment(old(writer.State()), CompressedSegment(env, job, i, segment), env.formatters)
    ensures stats == SegmentStats(|segment.points|, |CompressedSegment(env, job, i, segment).points|, 1)
    ensures 0 <= stats.writtenPoints <= stats.originalPoints
  {
    var compressed := Compress(job.configuration, env.dist, env.draws(i), false, segment);
    CompressedSubsequence(job.configuration, env.dist, env.draws(i), segment.points);
    assert compressed.value == CompressedSegment(env, job, i, segment);
    writer.WriteSegment(compressed.value);
    stats := SegmentStats(|segment.points|, |compressed.value.points|, 1);
  }

  /** `TrackSegmentCoordinator.finish()`. */
  function FinishStats(): (stats: SegmentStats)
    ensures stats.originalPoints == stats.writtenPoints == stats.segments == 0
  {
    SegmentStats(0, 0, 0)
  }

  /** `case .trackSegment` with a coordinator, on the writer object. */
  method HandleSegment(env: Environment, job: Job<Configuration>, writer: Writer, s: LoopState, i: nat, payload: SegmentPayload)
    returns (r: LoopState)
    requires writer.formatters == env.formatters
    modifies writer
    ensures SegmentStep(env, job, s, old(writer.State()), i, payload) == Step(r, writer.State())
  {
    var stats := Enqueue(env, job, writer, i, payload);
    var counted := Counting(s, stats);
    r := counted.Emitting(CompressingProgress(env, s.progress, i, counted, payload.trackIndex));
  }

  /** `case .trackEnd`, on the writer object; `None` where Swift traps. */
  method HandleTrackEnd(writer: Writer, s: LoopState, index: int) returns (r: Option<LoopState>)
    modifies writer
    ensures old(writer.indentationLevel) == 0 <==> r.None?
    ensures r.None? ==> writer.State() == old(writer.State())
    ensures r.Some? ==> old(writer.indentationLevel) >= 1 && TrackEndStep(s, old(writer.State()), index) == Step(r.value, writer.State())
  {
    var counted := s;
    if index in s.coordinators {
      counted := Counting(s, FinishStats());
    }
    counted := counted.(coordinators := s.coordinators - {index});
    if writer.indentationLevel == 0 {
      return None;
    }
    writer.EndTrack();
    r := Some(counted.Emitting(WritingProgress(s.progress, counted, index)));
  }

  /** The body of the loop for the event at index `i`. */
  method HandleEvent(env: Environment, job: Job<Configuration>, writer: Writer, s: LoopState, i: nat, e: StreamEvent,
                     ghost body: (Step, nat, StreamEvent) -> Option<Step>)
    returns (r: Option<LoopState>)
    requires writer.formatters == env.formatters && Handles(body, env, job)
    modifies writer
    ensures body(Step(s, old(writer.State())), i, e) == (if r.Some? then Some(Step(r.value, writer.State())) else None)
    ensures r.None? ==> writer.State() == old(writer.State())
  {
    ghost var w := writer.State();
    match e {
      case Header(header) =>
        writer.WriteHeader(header);
        r := Some(s.Emitting(HeaderProgress(s.progress)));
        assert Handle(env, job, s, w, i, Header(header)) == Some(HeaderStep(s, w, header));
      case Metadata(node) =>
        writer.WriteNode(node);
        r := Some(s);
        assert Handle(env, job, s, w, i, Metadata(node)) == Some(Step(s, AfterNode(w, node)));
      case Waypoint(node) =>
        writer.WriteNode(node);
        r := Some(s);
        assert Handle(env, job, s, w, i, Waypoint(node)) == Some(Step(s, AfterNode(w, node)));
      case Route(node) =>
        writer.WriteNode(node);
        r := Some(s);
        assert Handle(env, job, s, w, i, Route(node)) == Some(Step(s, AfterNode(w, node)));
      case Extensions(node) =>
        writer.WriteNode(node);
        r := Some(s);
        assert Handle(env, job, s, w, i, Extensions(node)) == Some(Step(s, AfterNode(w, node)));
      case TrackStart(index, metadata) =>
        var coordinators := s.coordinators + {index};
        writer.BeginTrack(metadata);
        r := Some(s.(coordinators := coordinators));
        assert Handle(env, job, s, w, i, TrackStart(index, metadata)) == Some(Step(r.value, AfterBeginTrack(w, metadata)));
      case TrackSegment(payload) =>
        if payload.trackIndex !in s.coordinators {
          r := Some(s);
          assert Handle(env, job, s, w, i, TrackSegment(payload)) == Some(Step(s, w));
        } else {
          var next := HandleSegment(env, job, writer, s, i, payload);
          r := Some(next);
          assert Handle(env, job, s, w, i, TrackSegment(payload)) == Some(SegmentStep(env, job, s, w, i, payload));
        }
      case TrackEnd(index) =>
        r := HandleTrackEnd(writer, s, index);
        if r.Some? {
          assert Handle(env, job, s, w, i, TrackEnd(index)) == Some(TrackEndStep(s, w, index));
        } else {
          assert Handle(env, job, s, w, i, TrackEnd(index)) == None;
        }
      case DocumentEnd =>
        r := Some(s);
        assert Handle(env, job, s, w, i, DocumentEnd) == Some(Step(s, w));
    }
  }


  /** One turn of the loop on the writer object: the cancellation check,
      then the body. */
  method Advance(env: Environment, job: Job<Configuration>, writer: Writer, s: LoopState, i: nat, e: StreamEvent, cancelAt: Option<nat>,
                 ghost body: (Step, nat, StreamEvent) -> Option<Step>)
    returns (end: Progression<Step>)
    requires writer.formatters == env.formatters && Handles(body, env, job)
    modifies writer
    ensures end == Advanced(body, Running(Step(s, old(writer.State()))), i, e, cancelAt)
    ensures end.at.writer == writer.State()
  {
    if Cancelled(cancelAt, i) {
      return Stopped(Step(s, writer.State()), CancellationError);
    }
    var next := HandleEvent(env, job, writer, s, i, e, body);
    if next.None? {
      return Crashed(Step(s, writer.State()));
    }
    end := Running(Step(next.value, writer.State()));
  }

  /** The `for try await` loop over the events, on the writer object; a
      thrown error or a trap leaves the loop. */
  method RunLoop(env: Environment, job: Job<Configuration>, writer: Writer, s0: LoopState, events: seq<StreamEvent>, cancelAt: Option<nat>,
                 ghost body: (Step, nat, StreamEvent) -> Option<Step>)
    returns (end: Progression<Step>)
    requires writer.formatters == env.formatters && Handles(body, env, job)
    modifies writer
    ensures end == Fold(body, events, cancelAt, Step(s0, old(writer.State()))) && end.at.writer == writer.State()
  {
    ghost var start := Step(s0, writer.State());
    end := Running(Step(s0, writer.State()));
    var i := 0;
    while i < |events| && end.Running?
      invariant 0 <= i <= |events|
      invariant writer.formatters == env.formatters
      invariant end == Fold(body, events[..i], cancelAt, start) && end.at.writer == writer.State()
    {
      FoldPrefix(body, events, cancelAt, start, i);
      end := Advance(env, job, writer, end.at.state, i, events[i], cancelAt, body);
      i := i + 1;
    }
    if i < |events| {
      FoldStopped(body, events, cancelAt, start, i);
    } else {
      assert events[..i] == events;
    }
  }

  /** `process(job:)`: the first snapshot, the loop on a fresh writer, then
      completion; every thrown error goes to the failure snapshot. */
  method Process(env: Environment, job: Job<Configuration>, fileSize: int, events: seq<StreamEvent>,
                 streamFailure: Option<Failure>, cancelAt: Option<nat>, openFailure: Option<Failure>)
    returns (r: RunResult)
    ensures r == Run(env, job, fileSize, events, streamFailure, cancelAt, openFailure)
  {
    var progress := InitialProgress(job, fileSize);
    if openFailure.Some? {
      r := Failing(env, progress, [progress], EmptyWriter, openFailure.value);
      return;
    }
    var writer := new Writer(env.formatters);
    HandlerHandles(env, job);
    var end := RunLoop(env, job, writer, InitialState(job, fileSize), events, cancelAt, Handler(env, job));
    match end {
      case Stopped(Step(state, w), e) =>
        r := Failing(env, state.progress, state.snapshots, w, e);
      case Crashed(Step(state, w)) =>
        r := RunResult(state.snapshots, w, Trapped);
      case Running(Step(state, w)) =>
        if streamFailure.Some? {
          r := Failing(env, state.progress, state.snapshots, w, streamFailure.value);
        } else if Cancelled(cancelAt, |events|) {
          r := Failing(env, state.progress, state.snapshots, w, CancellationError);
        } else {
          writer.Finish();
          var total := if fileSize > 0 then fileSize else state.progress.processedBytes;
          var done := state.progress.Updating(
            stage := Some(Completed),
            processedBytes := Some(total),
            processedSegments := Some(state.processedSegments),
            processedPoints := Some(state.processedPoints),
            writtenPoints := Some(state.writtenPoints),
            throughput := Some(Throughput(total, env.finalElapsed)),
            message := Some(Some("Completed in " + env.formatSeconds(env.finalElapsed) + "s")),
            error := None);
          r := RunResult(state.snapshots + [done], writer.State(), Finished);
        }
    }
  }
}
