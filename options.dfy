/** The option loop of `main` and the check that follows it, over the option
    values `getopt_long` and `atoi` deliver (their text handling is not part
    of this model). */
module Options {
  import opened Machine

  const SKEIN_256: int := 256
  const SKEIN_512: int := 512
  const SKEIN_1024: int := 1024

  /** The largest output length accepted by `-l`. */
  const MAX_BITLEN: int := 1024

  const EXIT_SUCCESS: int := 0
  const EXIT_FAILURE: int := 1

  /** One option as `getopt_long` reports it; `StateSize` and `Length` carry
      the value `atoi` made of the argument, `Unrecognized` is the '?' case. */
  datatype Opt =
    | StateSize(arg: Int32)
    | Length(arg: Int32)
    | Binary
    | Check
    | Text
    | Quiet
    | Status
    | Warn
    | Help
    | Version
    | Unrecognized

  /** The `fopen` mode string: "r" (text) or "rb" (binary). */
  datatype ReadMode = TextMode | BinaryMode

  /** The variables the option loop updates: size, bitlen, mode, check, quiet,
      status and warn_lines. */
  datatype Settings = Settings(
    size: int,
    bitlen: SizeT,
    mode: ReadMode,
    check: bool,
    quiet: bool,
    status: bool,
    warnLines: bool)

  const DEFAULTS: Settings := Settings(SKEIN_512, 512, TextMode, false, false, false, false)

  /** Why the program exits while validating its options. */
  datatype StopReason =
    | BadStateSize(given: Int32)
    | BadBitLength(bitlen: SizeT)
    | UnknownOption
    | HelpRequested
    | VersionRequested

  function ExitStatusOf(r: StopReason): int {
    if r.HelpRequested? || r.VersionRequested? then EXIT_SUCCESS else EXIT_FAILURE
  }

  datatype Step = Continue(settings: Settings) | Stop(reason: StopReason)

  datatype Validation = Proceed(settings: Settings) | Exit(reason: StopReason)

  predicate IsStateSize(x: int) {
    x == SKEIN_256 || x == SKEIN_512 || x == SKEIN_1024
  }

  /** One turn of the `switch` in the option loop. */
  function ApplyOption(s: Settings, o: Opt): Step {
    match o
    case StateSize(x) =>
      if !IsStateSize(x) then Stop(BadStateSize(x)) else Continue(s.(size := x))
    case Length(x) =>
      // `bitlen < 0` can never hold for a size_t; a negative x has wrapped
      var b := ToSizeT(x);
      if b > MAX_BITLEN then Stop(BadBitLength(b)) else Continue(s.(bitlen := b))
    case Binary => Continue(s.(mode := BinaryMode))
    case Check => Continue(s.(check := true))
    case Text => Continue(s.(mode := TextMode))
    case Quiet => Continue(s.(quiet := true))
    case Status => Continue(s.(status := true))
    case Warn => Continue(s.(warnLines := true))
    case Help => Stop(HelpRequested)
    case Version => Stop(VersionRequested)
    case Unrecognized => Stop(UnknownOption)
  }

  /** The option loop, left to right, stopping at the first option that exits. */
  function ScanOptions(s: Settings, opts: seq<Opt>): Step
    decreases |opts|
  {
    if opts == [] then Continue(s)
    else match ApplyOption(s, opts[0])
      case Stop(r) => Stop(r)
      case Continue(s') => ScanOptions(s', opts[1..])
  }

  /** The option loop from the defaults, then the `bitlen > size` test. */
  function Validate(opts: seq<Opt>): Validation {
    match ScanOptions(DEFAULTS, opts)
    case Stop(r) => Exit(r)
    case Continue(s) => if s.bitlen > s.size then Exit(BadBitLength(s.bitlen)) else Proceed(s)
  }

  /** `main`'s option loop and the test after it, updating the local
      variables in place. */
  method ParseOptions(opts: seq<Opt>) returns (v: Validation)
    ensures v == Validate(opts)
  {
    var size, bitlen, mode := SKEIN_512, 512 as SizeT, TextMode;
    var check, quiet, status, warnLines := false, false, false, false;
    var i := 0;
    while i < |opts|
      invariant 0 <= i <= |opts|
      invariant ScanOptions(DEFAULTS, opts)
             == ScanOptions(Settings(size, bitlen, mode, check, quiet, status, warnLines), opts[i..])
    {
      assert opts[i..][1..] == opts[i + 1..];
      match opts[i] {
        case StateSize(x) =>
          if !IsStateSize(x) {
            return Exit(BadStateSize(x));
          }
          size := x;
        case Length(x) =>
          bitlen := ToSizeT(x);
          if bitlen > MAX_BITLEN {
            return Exit(BadBitLength(bitlen));
          }
        case Binary => mode := BinaryMode;
        case Check => check := true;
        case Text => mode := TextMode;
        case Quiet => quiet := true;
        case Status => status := true;
        case Warn => warnLines := true;
        case Help => return Exit(HelpRequested);
        case Version => return Exit(VersionRequested);
        case Unrecognized => return Exit(UnknownOption);
      }
      i := i + 1;
    }
    if bitlen > size {
      return Exit(BadBitLength(bitlen));
    }
    return Proceed(Settings(size, bitlen, mode, check, quiet, status, warnLines));
  }

  // ---------------------------------------------------------------------
  // A reference description: which options pass, and "the last one wins".

  /** An option the loop accepts without exiting. */
  predicate Accepted(o: Opt) {
    match o
    case StateSize(x) => IsStateSize(x)
    case Length(x) => ToSizeT(x) <= MAX_BITLEN
    case Help => false
    case Version => false
    case Unrecognized => false
    case _ => true
  }

  /** The exit an unaccepted option causes. */
  function Rejection(o: Opt): StopReason
    requires !Accepted(o)
  {
    match o
    case StateSize(x) => BadStateSize(x)
    case Length(x) => BadBitLength(ToSizeT(x))
    case Help => HelpRequested
    case Version => VersionRequested
    case Unrecognized => UnknownOption
  }

  datatype Option<T> = None | Some(value: T)

  /** The value the last option that `pick` selects supplies, or `dflt`. */
  function Latest<T>(opts: seq<Opt>, pick: Opt -> Option<T>, dflt: T): T
    decreases |opts|
  {
    if opts == [] then dflt
    else match pick(opts[|opts| - 1])
      case Some(v) => v
      case None => Latest(opts[..|opts| - 1], pick, dflt)
  }

  function PickSize(o: Opt): Option<int> {
    if o.StateSize? then Some(o.arg as int) else None
  }

  function PickLength(o: Opt): Option<SizeT> {
    if o.Length? then Some(ToSizeT(o.arg)) else None
  }

  function PickMode(o: Opt): Option<ReadMode> {
    if o == Binary then Some(BinaryMode) else if o == Text then Some(TextMode) else None
  }

  /** Settings on top of `s` when every option of `opts` is accepted. */
  function Settled(s: Settings, opts: seq<Opt>): Settings {
    Settings(
      Latest(opts, PickSize, s.size),
      Latest(opts, PickLength, s.bitlen),
      Latest(opts, PickMode, s.mode),
      s.check || Check in opts,
      s.quiet || Quiet in opts,
      s.status || Status in opts,
      s.warnLines || Warn in opts)
  }

  lemma {:induction false} LatestCons<T>(o: Opt, opts: seq<Opt>, pick: Opt -> Option<T>, dflt: T)
    ensures Latest([o] + opts, pick, dflt)
         == Latest(opts, pick, match pick(o) case Some(v) => v case None => dflt)
    decreases |opts|
  {
    var whole := [o] + opts;
    if opts != [] {
      assert whole[|whole| - 1] == opts[|opts| - 1];
      assert whole[..|whole| - 1] == [o] + opts[..|opts| - 1];
      LatestCons(o, opts[..|opts| - 1], pick, dflt);
    } else {
      assert whole[..|whole| - 1] == [];
    }
  }

  /** When every option is accepted, the loop runs to the end and each
      variable holds the value of the last option that set it. */
  lemma {:induction false} ScanAccepted(s: Settings, opts: seq<Opt>)
    requires forall i :: 0 <= i < |opts| ==> Accepted(opts[i])
    ensures ScanOptions(s, opts) == Continue(Settled(s, opts))
    decreases |opts|
  {
    if opts != [] {
      var o, rest := opts[0], opts[1..];
      assert opts == [o] + rest;
      assert Accepted(o);
      var s' := ApplyOption(s, o).settings;
      ScanAccepted(s', rest);
      LatestCons(o, rest, PickSize, s.size);
      LatestCons(o, rest, PickLength, s.bitlen);
      LatestCons(o, rest, PickMode, s.mode);
      assert Check in opts <==> o == Check || Check in rest;
      assert Quiet in opts <==> o == Quiet || Quiet in rest;
      assert Status in opts <==> o == Status || Status in rest;
      assert Warn in opts <==> o == Warn || Warn in rest;
    }
  }

  /** The first unaccepted option decides how the loop exits. */
  lemma {:induction false} ScanStopsAtFirstRejection(s: Settings, opts: seq<Opt>, k: nat)
    requires k < |opts| && !Accepted(opts[k])
    requires forall i :: 0 <= i < k ==> Accepted(opts[i])
    ensures ScanOptions(s, opts) == Stop(Rejection(opts[k]))
    decreases k
  {
    if k > 0 {
      assert Accepted(opts[0]);
      ScanStopsAtFirstRejection(ApplyOption(s, opts[0]).settings, opts[1..], k - 1);
    }
  }

  lemma {:induction false} ExistsFirstRejection(opts: seq<Opt>, j: nat) returns (k: nat)
    requires j < |opts| && !Accepted(opts[j])
    ensures k <= j && !Accepted(opts[k])
    ensures forall i :: 0 <= i < k ==> Accepted(opts[i])
    decreases j
  {
    if exists i :: 0 <= i < j && !Accepted(opts[i]) {
      var i :| 0 <= i < j && !Accepted(opts[i]);
      k := ExistsFirstRejection(opts, i);
    } else {
      k := j;
    }
  }

  /** Validation passes exactly when every option is accepted and the final
      output length does not exceed the final state size; the settings are
      then the defaults overridden by the last value given for each. */
  lemma ValidateExactly(opts: seq<Opt>)
    ensures Validate(opts).Proceed? <==>
      && (forall i :: 0 <= i < |opts| ==> Accepted(opts[i]))
      && Latest(opts, PickLength, 512) <= Latest(opts, PickSize, SKEIN_512)
    ensures Validate(opts).Proceed? ==> Validate(opts).settings == Settled(DEFAULTS, opts)
    ensures && (forall i :: 0 <= i < |opts| ==> Accepted(opts[i]))
            && Latest(opts, PickLength, 512) > Latest(opts, PickSize, SKEIN_512)
            ==> Validate(opts) == Exit(BadBitLength(Latest(opts, PickLength, 512)))
  {
    if forall i :: 0 <= i < |opts| ==> Accepted(opts[i]) {
      ScanAccepted(DEFAULTS, opts);
    } else {
      var j :| 0 <= j < |opts| && !Accepted(opts[j]);
      var k := ExistsFirstRejection(opts, j);
      ScanStopsAtFirstRejection(DEFAULTS, opts, k);
    }
  }

  /** The option that exits first determines the exit reason. */
  lemma ValidateRejects(opts: seq<Opt>, k: nat)
    requires k < |opts| && !Accepted(opts[k])
    requires forall i :: 0 <= i < k ==> Accepted(opts[i])
    ensures Validate(opts) == Exit(Rejection(opts[k]))
  {
    ScanStopsAtFirstRejection(DEFAULTS, opts, k);
  }

  ghost predicate Configured(s: Settings) {
    IsStateSize(s.size) && s.bitlen <= MAX_BITLEN
  }

  lemma {:induction false} ScanKeepsConfigured(s: Settings, opts: seq<Opt>)
    requires Configured(s)
    ensures ScanOptions(s, opts).Continue? ==> Configured(ScanOptions(s, opts).settings)
    decreases |opts|
  {
    if opts != [] && ApplyOption(s, opts[0]).Continue? {
      ScanKeepsConfigured(ApplyOption(s, opts[0]).settings, opts[1..]);
    }
  }

  /** A run that gets past option validation has a state size of 256, 512 or
      1024 and an output length of at most 1024 and at most the state size. */
  lemma ValidateSound(opts: seq<Opt>)
    ensures Validate(opts).Proceed? ==>
      var s := Validate(opts).settings;
      IsStateSize(s.size) && s.bitlen <= MAX_BITLEN && s.bitlen <= s.size
  {
    ScanKeepsConfigured(DEFAULTS, opts);
  }

  /** `-l` with a negative value wraps to a huge size_t and is rejected. */
  lemma NegativeLengthRejected(x: Int32, rest: seq<Opt>)
    requires x < 0
    ensures Validate([Length(x)] + rest) == Exit(BadBitLength(SIZE_T_MODULUS + x))
  {
  }

  /** `-s 512 -l 513` is rejected after the loop, by the `bitlen > size` test. */
  lemma LengthAboveStateSizeRejected()
    ensures Validate([StateSize(512), Length(513)]) == Exit(BadBitLength(513))
  {
  }

  /** The output length defaults to 512 whatever the state size, so `-s 256`
      without `-l` is rejected (the usage text describes the default as
      equal to the state size). */
  lemma SmallStateSizeNeedsLength()
    ensures Validate([StateSize(256)]) == Exit(BadBitLength(512))
    ensures Validate([StateSize(256), Length(256)]).Proceed?
  {
  }

  /** `--help` exits successfully even when the options before it would fail
      the test that follows the loop. */
  lemma HelpBeforeLengthCheck()
    ensures Validate([Length(1024), Help]) == Exit(HelpRequested)
    ensures Validate([Length(1024)]) == Exit(BadBitLength(1024))
  {
  }
}
