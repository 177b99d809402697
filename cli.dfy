/** The command-line front end: the loop that reads the arguments left to
    right, the checks around it and the jobs it builds. Turning a string into
    a number (`Double(_:)`) and into a file or directory URL are parameters:
    `number`, `fileUrl` and `directoryUrl`. */
module Cli {
  import opened Wrappers
  import opened GpxModel
  import opened Configuration

  /** What the loop has gathered so far. */
  datatype Settings = Settings(
    outputDirectory: Option<string>,
    strategy: CompressionStrategy,
    dedupeRadius: Option<real>,
    files: seq<string>)

  /** How the command ends when no error is thrown: printing the usage text,
      or starting jobs with the gathered settings. */
  datatype Outcome = ShowUsage | Start(settings: Settings)

  datatype CliError = InvalidArgument(message: string)

  /** The values before any argument is read: RDP at 5 metres, duplicates
      within 1.5 metres removed afterwards, no override directory, no files. */
  function Defaults(): (s: Settings)
    ensures s.outputDirectory == None && s.files == []
    ensures s.strategy == RamerDouglasPeucker(5.0) && s.dedupeRadius == Some(1.5)
  {
    Settings(None, RamerDouglasPeucker(5.0), Some(1.5), [])
  }

  /** The arguments the loop recognises; every other one names a file. */
  predicate IsFlag(a: string) {
    a == "--output" || a == "-o" || a == "--rdp" || a == "--strip-nearby"
    || a == "--strip-duplicates" || a == "--no-dedupe" || a == "--help" || a == "-h"
  }

  /** The guard after the loop: at least one file is needed. */
  function Finish(s: Settings): (r: Result<Outcome, CliError>)
    ensures r.Success? <==> s.files != []
    ensures r.Success? ==> r.value == Start(s)
  {
    if s.files == [] then Failure(InvalidArgument("No GPX files were provided"))
    else Success(Start(s))
  }

  /** The loop, from the arguments not yet consumed and the settings so far. */
  function ParseFrom(args: seq<string>, s: Settings, number: string -> Option<real>): (r: Result<Outcome, CliError>)
    ensures r.Success? && r.value.Start? ==> r.value.settings.files != []
    decreases |args|
  {
    if args == [] then Finish(s)
    else
      var argument, rest := args[0], args[1..];
      if argument == "--output" || argument == "-o" then
        if rest == [] then Failure(InvalidArgument("Missing value for --output"))
        else ParseFrom(rest[1..], s.(outputDirectory := Some(rest[0])), number)
      else if argument == "--rdp" then
        if rest == [] || number(rest[0]).None? then Failure(InvalidArgument("Invalid tolerance for --rdp"))
        else ParseFrom(rest[1..], s.(strategy := RamerDouglasPeucker(number(rest[0]).value)), number)
      else if argument == "--strip-nearby" then
        if rest == [] || number(rest[0]).None? then Failure(InvalidArgument("Invalid radius for --strip-nearby"))
        else ParseFrom(rest[1..], s.(strategy := StripNearby(number(rest[0]).value)), number)
      else if argument == "--strip-duplicates" then
        ParseFrom(rest, s.(strategy := StripDuplicates), number)
      else if argument == "--no-dedupe" then
        ParseFrom(rest, s.(dedupeRadius := None), number)
      else if argument == "--help" || argument == "-h" then
        Success(ShowUsage)
      else
        ParseFrom(rest, s.(files := s.files + [argument]), number)
  }

  /** The whole command line: no arguments at all shows the usage. */
  function Parse(args: seq<string>, number: string -> Option<real>): (r: Result<Outcome, CliError>)
    ensures args == [] ==> r == Success(ShowUsage)
    ensures r.Success? && r.value.Start? ==> r.value.settings.files != []
  {
    if args == [] then Success(ShowUsage) else ParseFrom(args, Defaults(), number)
  }

  /** The argument loop as the command runs it: consume the first argument,
      and its value when the flag takes one, until none is left. */
  method ParseArguments(arguments: seq<string>, number: string -> Option<real>) returns (r: Result<Outcome, CliError>)
    ensures r == Parse(arguments, number)
  {
    if arguments == [] {
      return Success(ShowUsage);
    }
    var args := arguments;
    var outputDirectory: Option<string> := None;
    var strategy := RamerDouglasPeucker(5.0);
    var dedupeRadius: Option<real> := Some(1.5);
    var files: seq<string> := [];
    while args != []
      invariant ParseFrom(args, Settings(outputDirectory, strategy, dedupeRadius, files), number) == Parse(arguments, number)
      decreases |args|
    {
      var argument := args[0];
      args := args[1..];
      if argument == "--output" || argument == "-o" {
        if args == [] {
          return Failure(InvalidArgument("Missing value for --output"));
        }
        outputDirectory := Some(args[0]);
        args := args[1..];
      } else if argument == "--rdp" {
        if args == [] || number(args[0]).None? {
          return Failure(InvalidArgument("Invalid tolerance for --rdp"));
        }
        strategy := RamerDouglasPeucker(number(args[0]).value);
        args := args[1..];
      } else if argument == "--strip-nearby" {
        if args == [] || number(args[0]).None? {
          return Failure(InvalidArgument("Invalid radius for --strip-nearby"));
        }
        strategy := StripNearby(number(args[0]).value);
        args := args[1..];
      } else if argument == "--strip-duplicates" {
        strategy := StripDuplicates;
      } else if argument == "--no-dedupe" {
        dedupeRadius := None;
      } else if argument == "--help" || argument == "-h" {
        return Success(ShowUsage);
      } else {
        files := files + [argument];
      }
    }
    if files == [] {
      return Failure(InvalidArgument("No GPX files were provided"));
    }
    return Success(Start(Settings(outputDirectory, strategy, dedupeRadius, files)));
  }

  // ---------------------------------------------------------------------
  // What the loop means: arguments as flags

  /** One argument, or one flag with its value, as a user writes it. */
  datatype Argument =
    | OutputFlag(directory: string, short: bool)
    | RdpFlag(tolerance: string)
    | StripNearbyFlag(radius: string)
    | StripDuplicatesFlag
    | NoDedupeFlag
    | HelpFlag(short: bool)
    | FileArgument(path: string)

  function Words(a: Argument): (r: seq<string>)
    ensures |r| > 0
  {
    match a
    case OutputFlag(d, short) => [if short then "-o" else "--output", d]
    case RdpFlag(t) => ["--rdp", t]
    case StripNearbyFlag(t) => ["--strip-nearby", t]
    case StripDuplicatesFlag => ["--strip-duplicates"]
    case NoDedupeFlag => ["--no-dedupe"]
    case HelpFlag(short) => [if short then "-h" else "--help"]
    case FileArgument(p) => [p]
  }

  /** The command line that spells out a list of arguments. */
  function Encode(ts: seq<Argument>): (r: seq<string>)
    ensures r == [] <==> ts == []
  {
    if ts == [] then [] else Words(ts[0]) + Encode(ts[1..])
  }

  /** Numbers that parse, and file names that are not flags. */
  predicate WellFormed(ts: seq<Argument>, number: string -> Option<real>) {
    forall t :: t in ts ==>
      && (t.RdpFlag? ==> number(t.tolerance).Some?)
      && (t.StripNearbyFlag? ==> number(t.radius).Some?)
      && (t.FileArgument? ==> !IsFlag(t.path))
  }

  predicate HasHelp(ts: seq<Argument>) {
    exists t :: t in ts && t.HelpFlag?
  }

  predicate HasNoDedupe(ts: seq<Argument>) {
    exists t :: t in ts && t.NoDedupeFlag?
  }

  /** What one argument other than help does to the settings. */
  function Apply(t: Argument, s: Settings, number: string -> Option<real>): Settings
    requires WellFormed([t], number)
  {
    match t
    case OutputFlag(d, _) => s.(outputDirectory := Some(d))
    case RdpFlag(x) => s.(strategy := RamerDouglasPeucker(number(x).value))
    case StripNearbyFlag(x) => s.(strategy := StripNearby(number(x).value))
    case StripDuplicatesFlag => s.(strategy := StripDuplicates)
    case NoDedupeFlag => s.(dedupeRadius := None)
    case HelpFlag(_) => s
    case FileArgument(p) => s.(files := s.files + [p])
  }

  /** The arguments applied left to right. */
  function Applied(ts: seq<Argument>, s: Settings, number: string -> Option<real>): Settings
    requires WellFormed(ts, number)
  {
    if ts == [] then s
    else
      assert ts[0] in ts;
      Applied(ts[1..], Apply(ts[0], s, number), number)
  }

  /** The strategy flag furthest to the right, if any. */
  function LastStrategy(ts: seq<Argument>, number: string -> Option<real>): Option<CompressionStrategy>
    requires WellFormed(ts, number)
  {
    if ts == [] then None
    else
      var later := LastStrategy(ts[1..], number);
      if later.Some? then later
      else
        assert ts[0] in ts;
        match ts[0]
        case RdpFlag(x) => Some(RamerDouglasPeucker(number(x).value))
        case StripNearbyFlag(x) => Some(StripNearby(number(x).value))
        case StripDuplicatesFlag => Some(StripDuplicates)
        case _ => None
  }

  /** The `--output` value furthest to the right, if any. */
  function LastOutput(ts: seq<Argument>): Option<string> {
    if ts == [] then None
    else
      var later := LastOutput(ts[1..]);
      if later.Some? then later
      else if ts[0].OutputFlag? then Some(ts[0].directory) else None
  }

  /** The file arguments, in order. */
  function Files(ts: seq<Argument>): seq<string> {
    if ts == [] then []
    else (if ts[0].FileArgument? then [ts[0].path] else []) + Files(ts[1..])
  }

  /** What a command line means, stated without the loop: usage when it is
      empty or asks for help; otherwise the last strategy given (RDP at 5
      metres by default), the last output directory, deduplication unless
      switched off, and the files in the order given, of which there must
      be one at least. */
  function Interpret(ts: seq<Argument>, number: string -> Option<real>): Result<Outcome, CliError>
    requires WellFormed(ts, number)
  {
    if ts == [] || HasHelp(ts) then Success(ShowUsage)
    else if Files(ts) == [] then Failure(InvalidArgument("No GPX files were provided"))
    else Success(Start(Settings(
      LastOutput(ts),
      LastStrategy(ts, number).GetOr(RamerDouglasPeucker(5.0)),
      if HasNoDedupe(ts) then None else Some(1.5),
      Files(ts))))
  }

  lemma WellFormedTail(ts: seq<Argument>, number: string -> Option<real>)
    requires ts != [] && WellFormed(ts, number)
    ensures WellFormed([ts[0]], number) && WellFormed(ts[1..], number)
  {
    assert ts[0] in ts;
    forall t | t in ts[1..] ensures t in ts { }
  }

  /** One spelled-out argument, then anything else: help ends the loop,
      every other argument is applied and the loop reads on. */
  lemma ParseStep(t: Argument, more: seq<string>, s: Settings, number: string -> Option<real>)
    requires WellFormed([t], number)
    ensures ParseFrom(Words(t) + more, s, number)
      == if t.HelpFlag? then Success(ShowUsage) else ParseFrom(more, Apply(t, s, number), number)
  {
    assert t in [t];
    var args := Words(t) + more;
    match t
    case OutputFlag(d, short) =>
      assert args[0] == (if short then "-o" else "--output") && args[1..][0] == d && args[1..][1..] == more;
    case RdpFlag(x) =>
      assert args[0] == "--rdp" && args[1..][0] == x && args[1..][1..] == more;
    case StripNearbyFlag(x) =>
      assert args[0] == "--strip-nearby" && args[1..][0] == x && args[1..][1..] == more;
    case StripDuplicatesFlag =>
      assert args[0] == "--strip-duplicates" && args[1..] == more;
    case NoDedupeFlag =>
      assert args[0] == "--no-dedupe" && args[1..] == more;
    case HelpFlag(short) =>
      assert args[0] == (if short then "-h" else "--help");
    case FileArgument(p) =>
      assert args[0] == p && args[1..] == more;
  }

  lemma HasHelpCons(ts: seq<Argument>)
    requires ts != []
    ensures HasHelp(ts) <==> ts[0].HelpFlag? || HasHelp(ts[1..])
  {
    if HasHelp(ts[1..]) {
      var h :| h in ts[1..] && h.HelpFlag?;
      assert h in ts;
    }
    if HasHelp(ts) && !ts[0].HelpFlag? {
      var h :| h in ts && h.HelpFlag?;
      var i :| 0 <= i < |ts| && ts[i] == h;
      assert ts[1..][i - 1] == h;
    }
  }

  lemma HasNoDedupeCons(ts: seq<Argument>)
    requires ts != []
    ensures HasNoDedupe(ts) <==> ts[0].NoDedupeFlag? || HasNoDedupe(ts[1..])
  {
    if HasNoDedupe(ts[1..]) {
      var h :| h in ts[1..] && h.NoDedupeFlag?;
      assert h in ts;
    }
    if HasNoDedupe(ts) && !ts[0].NoDedupeFlag? {
      var h :| h in ts && h.NoDedupeFlag?;
      var i :| 0 <= i < |ts| && ts[i] == h;
      assert ts[1..][i - 1] == h;
    }
  }

  /** Reading the spelled-out arguments and then anything else is reading
      the rest after the arguments have been applied, unless one of them
      asks for help, which ends the loop there. */
  lemma {:induction false} ParseComposes(ts: seq<Argument>, rest: seq<string>, s: Settings, number: string -> Option<real>)
    requires WellFormed(ts, number)
    ensures ParseFrom(Encode(ts) + rest, s, number)
      == if HasHelp(ts) then Success(ShowUsage) else ParseFrom(rest, Applied(ts, s, number), number)
  {
    if ts == [] {
      assert Encode(ts) + rest == rest;
      assert !HasHelp(ts);
    } else {
      var t := ts[0];
      WellFormedTail(ts, number);
      HasHelpCons(ts);
      assert Encode(ts) + rest == Words(t) + (Encode(ts[1..]) + rest);
      ParseStep(t, Encode(ts[1..]) + rest, s, number);
      if !t.HelpFlag? {
        ParseComposes(ts[1..], rest, Apply(t, s, number), number);
      }
    }
  }

  /** Applying the arguments leaves the strategy of the last strategy flag,
      or the one before when there is none. */
  lemma {:induction false} AppliedStrategy(ts: seq<Argument>, s: Settings, number: string -> Option<real>)
    requires WellFormed(ts, number)
    ensures Applied(ts, s, number).strategy == LastStrategy(ts, number).GetOr(s.strategy)
  {
    if ts != [] {
      WellFormedTail(ts, number);
      AppliedStrategy(ts[1..], Apply(ts[0], s, number), number);
    }
  }

  /** The directory of the last `--output` wins. */
  lemma {:induction false} AppliedOutput(ts: seq<Argument>, s: Settings, number: string -> Option<real>)
    requires WellFormed(ts, number)
    ensures Applied(ts, s, number).outputDirectory == (if LastOutput(ts).Some? then LastOutput(ts) else s.outputDirectory)
  {
    if ts != [] {
      WellFormedTail(ts, number);
      AppliedOutput(ts[1..], Apply(ts[0], s, number), number);
    }
  }

  /** `--no-dedupe` anywhere clears the radius. */
  lemma {:induction false} AppliedDedupe(ts: seq<Argument>, s: Settings, number: string -> Option<real>)
    requires WellFormed(ts, number)
    ensures Applied(ts, s, number).dedupeRadius == (if HasNoDedupe(ts) then None else s.dedupeRadius)
  {
    if ts != [] {
      WellFormedTail(ts, number);
      AppliedDedupe(ts[1..], Apply(ts[0], s, number), number);
      HasNoDedupeCons(ts);
    } else {
      assert !HasNoDedupe(ts);
    }
  }

  /** The files are appended in the order given. */
  lemma {:induction false} AppliedFiles(ts: seq<Argument>, s: Settings, number: string -> Option<real>)
    requires WellFormed(ts, number)
    ensures Applied(ts, s, number).files == s.files + Files(ts)
  {
    if ts != [] {
      var t, more := ts[0], Files(ts[1..]);
      WellFormedTail(ts, number);
      AppliedFiles(ts[1..], Apply(t, s, number), number);
      if t.FileArgument? {
        assert Files(ts) == [t.path] + more;
        assert Apply(t, s, number).files == s.files + [t.path];
        assert s.files + ([t.path] + more) == (s.files + [t.path]) + more;
      } else {
        assert Files(ts) == more;
        assert Apply(t, s, number).files == s.files;
      }
    } else {
      assert s.files + [] == s.files;
    }
  }

  /** The loop means what `Interpret` says, for every well-formed command
      line. */
  lemma ParseMeaning(ts: seq<Argument>, number: string -> Option<real>)
    requires WellFormed(ts, number)
    ensures Parse(Encode(ts), number) == Interpret(ts, number)
  {
    if ts != [] {
      ParseComposes(ts, [], Defaults(), number);
      assert Encode(ts) + [] == Encode(ts);
      if !HasHelp(ts) {
        AppliedStrategy(ts, Defaults(), number);
        AppliedOutput(ts, Defaults(), number);
        AppliedDedupe(ts, Defaults(), number);
        AppliedFiles(ts, Defaults(), number);
        var a := Applied(ts, Defaults(), number);
        assert a.files == Files(ts) by {
          assert [] + Files(ts) == Files(ts);
        }
        assert a == Settings(LastOutput(ts), LastStrategy(ts, number).GetOr(RamerDouglasPeucker(5.0)),
          if HasNoDedupe(ts) then None else Some(1.5), Files(ts));
        assert Parse(Encode(ts), number) == Finish(a);
      }
    }
  }

  /** `--output` or `-o` as the last argument is an error. */
  lemma OutputNeedsValue(ts: seq<Argument>, flag: string, number: string -> Option<real>)
    requires WellFormed(ts, number) && !HasHelp(ts)
    requires flag == "--output" || flag == "-o"
    ensures Parse(Encode(ts) + [flag], number) == Failure(InvalidArgument("Missing value for --output"))
  {
    ParseComposes(ts, [flag], Defaults(), number);
  }

  /** `--rdp` and `--strip-nearby` without a value that reads as a number
      are errors, whatever follows. */
  lemma NumberFlagNeedsNumber(ts: seq<Argument>, flag: string, rest: seq<string>, number: string -> Option<real>)
    requires WellFormed(ts, number) && !HasHelp(ts)
    requires flag == "--rdp" || flag == "--strip-nearby"
    requires rest == [] || number(rest[0]).None?
    ensures Parse(Encode(ts) + [flag] + rest, number).Failure?
  {
    assert Encode(ts) + [flag] + rest == Encode(ts) + ([flag] + rest);
    ParseComposes(ts, [flag] + rest, Defaults(), number);
    assert ([flag] + rest)[1..] == rest;
  }

  /** `--help` or `-h` ends the loop: whatever follows is not read, errors
      included. */
  lemma HelpStops(ts: seq<Argument>, flag: string, rest: seq<string>, number: string -> Option<real>)
    requires WellFormed(ts, number)
    requires flag == "--help" || flag == "-h"
    ensures Parse(Encode(ts) + [flag] + rest, number) == Success(ShowUsage)
  {
    assert Encode(ts) + [flag] + rest == Encode(ts) + ([flag] + rest);
    ParseComposes(ts, [flag] + rest, Defaults(), number);
  }

  // ---------------------------------------------------------------------
  // Jobs

  /** `largeFileDefault` with the chosen strategy and radius. */
  function CliConfiguration(s: Settings): (c: Configuration)
    ensures c.Valid() && c.outputSuffix == "-tahoe" && c.segmentChunkSize == 32768
    ensures c.compressionStrategy == s.strategy && c.deduplicationRadius == s.dedupeRadius
    ensures c.(compressionStrategy := LargeFileDefault().compressionStrategy,
               deduplicationRadius := LargeFileDefault().deduplicationRadius) == LargeFileDefault()
  {
    LargeFileDefault().(compressionStrategy := s.strategy, deduplicationRadius := s.dedupeRadius)
  }

  function OverrideDirectory(s: Settings, directoryUrl: string -> Url): Option<Url> {
    if s.outputDirectory.Some? then Some(directoryUrl(s.outputDirectory.value)) else None
  }

  /** The job for the file at position `id`. */
  function JobFor(s: Settings, id: nat, file: string, fileUrl: string -> Url, directoryUrl: string -> Url): Job<Configuration> {
    var input := fileUrl(file);
    Job(id, input, CliConfiguration(s).MakeOutputUrl(input, OverrideDirectory(s, directoryUrl)), CliConfiguration(s))
  }

  function JobMaker(s: Settings, fileUrl: string -> Url, directoryUrl: string -> Url): (nat, string) -> Job<Configuration> {
    (id: nat, file: string) => JobFor(s, id, file, fileUrl, directoryUrl)
  }

  /** `make` applied to every element and its position, in order. */
  function MapIndexed<T>(xs: seq<string>, make: (nat, string) -> T): (r: seq<T>)
    ensures |r| == |xs|
  {
    if xs == [] then [] else MapIndexed(xs[..|xs| - 1], make) + [make(|xs| - 1, xs[|xs| - 1])]
  }

  lemma {:induction false} MapIndexedAt<T>(xs: seq<string>, make: (nat, string) -> T, i: nat)
    requires i < |xs|
    ensures MapIndexed(xs, make)[i] == make(i, xs[i])
  {
    if i < |xs| - 1 {
      MapIndexedAt(xs[..|xs| - 1], make, i);
    }
  }

  /** One job per file, in order; the file's position stands for the
      job's random identifier. */
  function Jobs(s: Settings, fileUrl: string -> Url, directoryUrl: string -> Url): (jobs: seq<Job<Configuration>>)
    ensures |jobs| == |s.files|
  {
    MapIndexed(s.files, JobMaker(s, fileUrl, directoryUrl))
  }

  /** Each job reads its own file with the command's configuration and
      writes into the `--output` directory when one was given, else next to
      its input; without `--output` it never overwrites its input. */
  lemma JobsPlaceOutputs(s: Settings, fileUrl: string -> Url, directoryUrl: string -> Url)
    ensures var jobs := Jobs(s, fileUrl, directoryUrl);
      forall i :: 0 <= i < |jobs| ==>
        && jobs[i].id == i
        && jobs[i].inputUrl == fileUrl(s.files[i])
        && jobs[i].configuration == CliConfiguration(s)
        && jobs[i].outputUrl.DeletingLastPathComponent()
             == (if s.outputDirectory.Some? then directoryUrl(s.outputDirectory.value)
                 else fileUrl(s.files[i]).DeletingLastPathComponent())
        && (s.outputDirectory.None? ==> jobs[i].outputUrl != jobs[i].inputUrl)
  {
    var jobs := Jobs(s, fileUrl, directoryUrl);
    forall i | 0 <= i < |jobs|
      ensures jobs[i].id == i && jobs[i].inputUrl == fileUrl(s.files[i])
      ensures jobs[i].configuration == CliConfiguration(s)
      ensures jobs[i].outputUrl.DeletingLastPathComponent()
             == (if s.outputDirectory.Some? then directoryUrl(s.outputDirectory.value)
                 else fileUrl(s.files[i]).DeletingLastPathComponent())
      ensures s.outputDirectory.None? ==> jobs[i].outputUrl != jobs[i].inputUrl
    {
      MapIndexedAt(s.files, JobMaker(s, fileUrl, directoryUrl), i);
      assert jobs[i] == JobFor(s, i, s.files[i], fileUrl, directoryUrl);
      OutputDiffersFromInput(CliConfiguration(s), fileUrl(s.files[i]));
    }
  }

  /** What the command starts: no jobs for the usage text, one job per
      file otherwise, or the error. */
  function Plan(args: seq<string>, number: string -> Option<real>, fileUrl: string -> Url, directoryUrl: string -> Url)
    : (r: Result<seq<Job<Configuration>>, CliError>)
    ensures r.Success? <==> Parse(args, number).Success?
    ensures Parse(args, number) == Success(ShowUsage) ==> r == Success([])
    ensures Parse(args, number).Success? && Parse(args, number).value.Start? ==>
      r == Success(Jobs(Parse(args, number).value.settings, fileUrl, directoryUrl))
    ensures Parse(args, number).Failure? ==> r == Failure(Parse(args, number).error)
  {
    match Parse(args, number)
    case Success(ShowUsage) => Success([])
    case Success(Start(s)) => Success(Jobs(s, fileUrl, directoryUrl))
    case Failure(e) => Failure(e)
  }

  /** `files.map { … }`: one job per file. */
  method MakeJobs(s: Settings, fileUrl: string -> Url, directoryUrl: string -> Url)
    returns (jobs: seq<Job<Configuration>>)
    ensures jobs == Jobs(s, fileUrl, directoryUrl)
  {
    jobs := [];
    for i := 0 to |s.files|
      invariant jobs == MapIndexed(s.files[..i], JobMaker(s, fileUrl, directoryUrl))
    {
      assert s.files[..i + 1][..i] == s.files[..i];
      jobs := jobs + [JobFor(s, i, s.files[i], fileUrl, directoryUrl)];
    }
    assert s.files[..|s.files|] == s.files;
  }

  /** The command up to handing the jobs to the scheduler. */
  method Command(args: seq<string>, number: string -> Option<real>, fileUrl: string -> Url, directoryUrl: string -> Url)
    returns (r: Result<seq<Job<Configuration>>, CliError>)
    ensures r == Plan(args, number, fileUrl, directoryUrl)
  {
    var outcome := ParseArguments(args, number);
    match outcome
    case Success(ShowUsage) =>
      return Success([]);
    case Success(Start(s)) =>
      var jobs := MakeJobs(s, fileUrl, directoryUrl);
      return Success(jobs);
    case Failure(e) =>
      return Failure(e);
  }
}
