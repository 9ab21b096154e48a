/** `main` of skeinsum: validate the options, prepare and initialise the Skein
    context, give up in check mode, otherwise print the sum of every source. */
module SkeinSum {
  import opened Machine
  import Hex
  import Skein
  import opened Options
  import opened Streaming
  import opened Producer

  /** How a run ends. */
  datatype RunResult =
    | ConfigRejected(reason: StopReason)
    | PrepareFailed(size: int)
    | InitFailed(size: int, bitlen: SizeT)
    | CheckNotDone
    | Produced(stdout: seq<string>, stderr: seq<Diag>)

  function ExitStatus(r: RunResult): int {
    match r
    case ConfigRejected(reason) => ExitStatusOf(reason)
    case Produced(_, _) => EXIT_SUCCESS
    case _ => EXIT_FAILURE
  }

  /** The run on options `opts` and operands `operands` (what getopt_long leaves
      in argv[optind..argc-1]), with file system `fs`, standard input `stdin`
      and the Skein library `api`. */
  function RunSpec(opts: seq<Opt>, operands: seq<string>, fs: FileSystem, stdin: Stream, api: Skein.Api): RunResult {
    match Validate(opts)
    case Exit(reason) => ConfigRejected(reason)
    case Proceed(s) =>
      if !api.prepareOk(s.size) then PrepareFailed(s.size)
      else if !api.initOk(s.size, s.bitlen) then InitFailed(s.size, s.bitlen)
      else if s.check then CheckNotDone
      else
        var d := ProduceFrom(Driver([], stdin, [], []), Sources(operands), fs,
                             Engine(s.size, s.bitlen, api.hash, api.finalCode));
        Produced(d.stdout, d.stderr)
  }

  /** `main`. */
  method Run(opts: seq<Opt>, operands: seq<string>, fs: FileSystem, stdin: Stream, api: Skein.Api)
    returns (r: RunResult)
    ensures r == RunSpec(opts, operands, fs, stdin, api)
  {
    var v := ParseOptions(opts);
    if v.Exit? {
      return ConfigRejected(v.reason);
    }
    var s := v.settings;
    ValidateSound(opts);
    if !api.prepareOk(s.size) {
      return PrepareFailed(s.size);
    }
    if !api.initOk(s.size, s.bitlen) {
      return InitFailed(s.size, s.bitlen);
    }
    var skein := new Skein.Context(s.size, s.bitlen, api.hash, api.finalCode);
    if s.check {
      return CheckNotDone;
    }
    var input := new InputFile(stdin);
    var stdout, stderr := ProduceSums(skein, input, Sources(operands), fs);
    return Produced(stdout, stderr);
  }

  // ---------------------------------------------------------------------
  // Properties of a whole run.

  /** The run exits with status 0 exactly when help or version is asked for,
      or when valid options without `-c` are accepted by `skeinCtxPrepare`
      and `skeinInit`: what happens to the sources never changes it. */
  lemma ExitStatusOfRun(opts: seq<Opt>, operands: seq<string>, fs: FileSystem, stdin: Stream, api: Skein.Api)
    ensures ExitStatus(RunSpec(opts, operands, fs, stdin, api)) == EXIT_SUCCESS <==>
      || Validate(opts) == Exit(HelpRequested)
      || Validate(opts) == Exit(VersionRequested)
      || (&& Validate(opts).Proceed?
          && var s := Validate(opts).settings;
             api.prepareOk(s.size) && api.initOk(s.size, s.bitlen) && !s.check)
  {
  }

  /** The exit status depends on the options and the library alone, not on
      the operands, the files or standard input. */
  lemma ExitStatusIgnoresSources(opts: seq<Opt>, api: Skein.Api,
                                 operands1: seq<string>, fs1: FileSystem, stdin1: Stream,
                                 operands2: seq<string>, fs2: FileSystem, stdin2: Stream)
    ensures ExitStatus(RunSpec(opts, operands1, fs1, stdin1, api))
         == ExitStatus(RunSpec(opts, operands2, fs2, stdin2, api))
  {
    ExitStatusOfRun(opts, operands1, fs1, stdin1, api);
    ExitStatusOfRun(opts, operands2, fs2, stdin2, api);
  }

  /** Produce mode is reached only with a state size of 256, 512 or 1024, an
      output length of at most 1024 and at most the state size, and with no
      check flag; invalid options end the run before any source is touched. */
  lemma ProducedOnlyWhenValid(opts: seq<Opt>, operands: seq<string>, fs: FileSystem, stdin: Stream, api: Skein.Api)
    ensures RunSpec(opts, operands, fs, stdin, api).Produced? ==>
      && Validate(opts).Proceed?
      && var s := Validate(opts).settings;
         IsStateSize(s.size) && s.bitlen <= MAX_BITLEN && s.bitlen <= s.size && !s.check
    ensures !Validate(opts).Proceed? ==> RunSpec(opts, operands, fs, stdin, api).ConfigRejected?
  {
    ValidateSound(opts);
  }

  /** In produce mode every source yields one line or one diagnostic, and with
      no operands exactly one source, standard input, is read. */
  lemma OneResultPerOperand(opts: seq<Opt>, operands: seq<string>, fs: FileSystem, stdin: Stream, api: Skein.Api)
    requires RunSpec(opts, operands, fs, stdin, api).Produced?
    ensures var r := RunSpec(opts, operands, fs, stdin, api);
      |r.stdout| + |r.stderr| == if operands == [] then 1 else |operands|
  {
    var s := Validate(opts).settings;
    ResultCount(Driver([], stdin, [], []), Sources(operands), fs,
                Engine(s.size, s.bitlen, api.hash, api.finalCode));
  }

  /** With no operands, a successful read of standard input prints one line:
      the digest of everything on standard input, under the name "-". */
  lemma StdinWhenNoOperands(opts: seq<Opt>, fs: FileSystem, stdin: Stream, api: Skein.Api)
    requires RunSpec(opts, [], fs, stdin, api).Produced?
    requires !stdin.fails && api.finalCode == Skein.SKEIN_SUCCESS
    ensures var s := Validate(opts).settings;
      RunSpec(opts, [], fs, stdin, api).stdout
        == [SumLine(DigestHex(Engine(s.size, s.bitlen, api.hash, api.finalCode), stdin.data), STDIN_NAME)]
      && RunSpec(opts, [], fs, stdin, api).stderr == []
  {
    var s := Validate(opts).settings;
    var e := Engine(s.size, s.bitlen, api.hash, api.finalCode);
    var d := Driver([], stdin, [], []);
    assert [] + stdin.data == stdin.data;
    assert Sources([]) == [STDIN_NAME];
    assert ProduceFrom(d, [STDIN_NAME], fs, e) == SourceStep(d, STDIN_NAME, fs, e);
  }

  /** When every operand names a file that opens and reads without error,
      the run prints, in operand order, one line per operand carrying the
      hex digest (2 * BITS_TO_BYTES(bitlen) characters) of that file's own
      bytes, and no diagnostic. */
  lemma HealthyRun(opts: seq<Opt>, operands: seq<string>, fs: FileSystem, stdin: Stream, api: Skein.Api)
    requires RunSpec(opts, operands, fs, stdin, api).Produced?
    requires api.finalCode == Skein.SKEIN_SUCCESS && operands != []
    requires forall i :: 0 <= i < |operands| ==>
      operands[i] != STDIN_NAME && operands[i] in fs && fs[operands[i]].Opens? && !fs[operands[i]].stream.fails
    ensures var r := RunSpec(opts, operands, fs, stdin, api);
      var s := Validate(opts).settings;
      var e := Engine(s.size, s.bitlen, api.hash, api.finalCode);
      && r.stderr == [] && |r.stdout| == |operands|
      && forall i :: 0 <= i < |operands| ==>
           && r.stdout[i] == SumLine(DigestHex(e, fs[operands[i]].stream.data), operands[i])
           && |DigestHex(e, fs[operands[i]].stream.data)| == 2 * Hex.BitsToBytes(s.bitlen)
  {
    var s := Validate(opts).settings;
    ValidateSound(opts);
    HealthySourcesDigestedIndependently(Driver([], stdin, [], []), operands, fs,
                                        Engine(s.size, s.bitlen, api.hash, api.finalCode));
  }
}
