/** `GPXProcessingConfiguration`: the knobs of one compression run, the
    derived copy with another strategy and the rule that names output files. */
module Configuration {
  import opened Wrappers
  import opened GpxModel

  /** Lossy compression strategies. */
  datatype CompressionStrategy =
    | RamerDouglasPeucker(tolerance: real)
    | StripNearby(distance: real)
    | Random(percent: real)
    | StripDuplicates

  datatype Configuration = Configuration(
    outputSuffix: string,
    segmentChunkSize: int,
    compressionStrategy: CompressionStrategy,
    deduplicationRadius: Option<real>,
    enforceStableOrdering: bool,
    enableRandomRemoval: bool,
    preserveExtensions: bool)
  {
    /** What the initialiser's precondition guarantees. */
    predicate Valid() {
      segmentChunkSize > 0
    }

    /** `with(strategy:)`: a copy that differs in the strategy alone. */
    function With(strategy: CompressionStrategy): (c: Configuration)
      ensures c.compressionStrategy == strategy
      ensures c.(compressionStrategy := compressionStrategy) == this
      ensures Valid() <==> c.Valid()
    {
      this.(compressionStrategy := strategy)
    }

    /** `makeOutputURL(for:overrideDirectory:)`: the override directory or
        the input's own directory, holding the input's base name followed by
        the suffix and the input's extension (`gpx` when it has none). */
    function MakeOutputUrl(input: Url, overrideDirectory: Option<Url>): (r: Url)
      ensures r.DeletingLastPathComponent() == overrideDirectory.GetOr(input.DeletingLastPathComponent())
    {
      var parent := overrideDirectory.GetOr(input.DeletingLastPathComponent());
      var name := input.LastPathComponent();
      parent.AppendingPathComponent(BaseName(name) + outputSuffix + "." + OutputExtension(name))
    }
  }

  /** The extension an output file gets: the input's, or `gpx`. */
  function OutputExtension(name: string): (r: string)
    ensures r != "" && '.' !in r
    ensures PathExtension(name) != "" ==> r == PathExtension(name)
  {
    var ext := PathExtension(name);
    if ext == "" then "gpx" else ext
  }

  /** The initialiser: every knob given, the chunk size positive. */
  function NewConfiguration(
    outputSuffix: string,
    segmentChunkSize: int,
    compressionStrategy: CompressionStrategy,
    deduplicationRadius: Option<real>,
    enforceStableOrdering: bool,
    enableRandomRemoval: bool,
    preserveExtensions: bool): (c: Configuration)
    requires segmentChunkSize > 0
    ensures c.Valid()
    ensures c.outputSuffix == outputSuffix && c.compressionStrategy == compressionStrategy
    ensures c.deduplicationRadius == deduplicationRadius && c.enableRandomRemoval == enableRandomRemoval
    ensures c.segmentChunkSize == segmentChunkSize && c.enforceStableOrdering == enforceStableOrdering
    ensures c.preserveExtensions == preserveExtensions
  {
    Configuration(outputSuffix, segmentChunkSize, compressionStrategy, deduplicationRadius,
      enforceStableOrdering, enableRandomRemoval, preserveExtensions)
  }

  /** The initialiser's default arguments. */
  function DefaultConfiguration(): (c: Configuration)
    ensures c.Valid() && c.outputSuffix == "-compressed"
    ensures c.compressionStrategy == RamerDouglasPeucker(5.0) && c.deduplicationRadius == Some(2.5)
    ensures c.segmentChunkSize == 16384 && c.enforceStableOrdering
    ensures !c.enableRandomRemoval && c.preserveExtensions
  {
    NewConfiguration("-compressed", 16384, RamerDouglasPeucker(5.0), Some(2.5), true, false, true)
  }

  /** `largeFileDefault`, the configuration for very large files. */
  function LargeFileDefault(): (c: Configuration)
    ensures c.Valid()
    ensures c.outputSuffix == "-tahoe" && c.segmentChunkSize == 32768
    ensures c.compressionStrategy == RamerDouglasPeucker(4.0) && c.deduplicationRadius == Some(1.5)
    ensures c.enforceStableOrdering && !c.enableRandomRemoval && c.preserveExtensions
  {
    NewConfiguration("-tahoe", 32768, RamerDouglasPeucker(4.0), Some(1.5), true, false, true)
  }

  lemma {:induction false} LastDotOfExtended(prefix: string, ext: string)
    requires '.' !in ext
    ensures LastDot(prefix + "." + ext) == Some(|prefix|)
    decreases |ext|
  {
    var s := prefix + "." + ext;
    if |ext| == 0 {
      assert s[|s| - 1] == '.';
    } else {
      assert s[|s| - 1] == ext[|ext| - 1];
      assert s[..|s| - 1] == prefix + "." + ext[..|ext| - 1];
      LastDotOfExtended(prefix, ext[..|ext| - 1]);
    }
  }

  /** Reading the output file name back gives the input's base name with the
      suffix, and the input's extension (or `gpx`): the name round-trips as
      long as the suffix holds no dot. */
  lemma OutputNameRoundTrip(c: Configuration, input: Url, overrideDirectory: Option<Url>)
    requires '.' !in c.outputSuffix
    ensures var name := c.MakeOutputUrl(input, overrideDirectory).LastPathComponent();
      var inName := input.LastPathComponent();
      BaseName(inName) + c.outputSuffix != "" ==>
        && PathExtension(name) == OutputExtension(inName)
        && BaseName(name) == BaseName(inName) + c.outputSuffix
  {
    var inName := input.LastPathComponent();
    var prefix := BaseName(inName) + c.outputSuffix;
    var ext := OutputExtension(inName);
    var name := prefix + "." + ext;
    assert c.MakeOutputUrl(input, overrideDirectory).LastPathComponent() == name;
    LastDotOfExtended(prefix, ext);
  }

  /** With a non-empty suffix and no override directory, the output never
      names the input file itself (the output file is deleted and recreated
      before writing). */
  lemma OutputDiffersFromInput(c: Configuration, input: Url)
    requires c.outputSuffix != ""
    ensures c.MakeOutputUrl(input, None) != input
  {
    var inName := input.LastPathComponent();
    var out := c.MakeOutputUrl(input, None);
    if input.components != [] {
      var outName := BaseName(inName) + c.outputSuffix + "." + OutputExtension(inName);
      assert out.LastPathComponent() == outName;
      if PathExtension(inName) != "" {
        assert |outName| == |inName| + |c.outputSuffix|;
      } else {
        assert |outName| > |inName|;
      }
    } else {
      assert |out.components| == 1;
    }
  }
}
