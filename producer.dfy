/** Produce mode: the `for` loop of `main` over the sources. Each source is
    opened (or is standard input), drained into the Skein context, finalised,
    printed as "<hex>  <name>\n" and the context reset; an unopenable source
    or a read error is reported and produces no line. */
module Producer {
  import opened Machine
  import Hex
  import Skein
  import opened Streaming

  /** What `fopen(name, mode)` finds under a name. */
  datatype File = Unopenable | Opens(stream: Stream)

  /** The file system: a name that is not a key cannot be opened either. */
  type FileSystem = map<string, File>

  /** A diagnostic written to standard error (message texts and `strerror`
      are not modelled). */
  datatype Diag =
    | OpenFailed(name: string)
    | ReadFailed(name: string)
    | FinalFailed(name: string, code: int)

  /** The configuration of the Skein context as a value. */
  datatype Engine = Engine(size: int, bitlen: SizeT, hash: Skein.HashFn, finalCode: int)

  /** The state carried from one source to the next: the context's absorbed
      bytes, what standard input still holds, and the output so far. */
  datatype Driver = Driver(absorbed: seq<Byte>, stdin: Stream, stdout: seq<string>, stderr: seq<Diag>)

  /** The conventional name of standard input. */
  const STDIN_NAME: string := "-"

  /** Sources are the operands, or "-" alone when there are none. */
  function Sources(operands: seq<string>): seq<string> {
    if operands == [] then [STDIN_NAME] else operands
  }

  /** `printf("%s  %s\n", hex, name)`. */
  function SumLine(hex: string, name: string): string {
    hex + "  " + name + "\n"
  }

  /** The hex text printed for a message. */
  function DigestHex(e: Engine, msg: seq<Byte>): string {
    Hex.HexString(Skein.Digest(e.hash, e.size, e.bitlen, msg), e.bitlen)
  }

  /** Reading, finalising and resetting for one opened source yielding `s`. */
  function Consume(d: Driver, name: string, s: Stream, e: Engine): Driver {
    var msg := d.absorbed + s.data;
    if s.fails then
      // `continue` before `skeinReset`: the absorbed bytes stay
      d.(absorbed := msg, stderr := d.stderr + [ReadFailed(name)])
    else if e.finalCode != Skein.SKEIN_SUCCESS then
      d.(absorbed := [], stderr := d.stderr + [FinalFailed(name, e.finalCode)])
    else
      d.(absorbed := [], stdout := d.stdout + [SumLine(DigestHex(e, msg), name)])
  }

  /** One turn of the loop over the sources. */
  function SourceStep(d: Driver, name: string, fs: FileSystem, e: Engine): Driver {
    if name == STDIN_NAME then
      Consume(d.(stdin := Stream([], d.stdin.fails)), name, d.stdin, e)
    else if name in fs && fs[name].Opens? then
      Consume(d, name, fs[name].stream, e)
    else
      d.(stderr := d.stderr + [OpenFailed(name)])
  }

  /** The loop over all sources, in argument order. */
  function ProduceFrom(d: Driver, files: seq<string>, fs: FileSystem, e: Engine): Driver
    decreases |files|
  {
    if files == [] then d else ProduceFrom(SourceStep(d, files[0], fs, e), files[1..], fs, e)
  }

  function EngineOf(ctx: Skein.Context): Engine {
    Engine(ctx.size, ctx.bitlen, ctx.hash, ctx.finalCode)
  }

  /** The loop over the sources, on the Skein context `ctx` and the standard
      input `stdin`: open, drain, check the error indicator, finalise, print
      and reset, in argument order. */
  method ProduceSums(ctx: Skein.Context, stdin: InputFile, files: seq<string>, fs: FileSystem)
    returns (stdout: seq<string>, stderr: seq<Diag>)
    requires stdin.Valid() && ctx.bitlen <= 1024
    modifies ctx, stdin
    ensures stdin.Valid()
    ensures Driver(ctx.absorbed, Stream(stdin.remaining, stdin.fails), stdout, stderr)
         == ProduceFrom(Driver(old(ctx.absorbed), Stream(old(stdin.remaining), stdin.fails), [], []),
                        files, fs, EngineOf(ctx))
  {
    var digest := new Byte[Hex.MAX_DIGEST_BYTES];
    var buffer := new Byte[BUFFER_SIZE];
    var hexBuffer := new char[Hex.HEX_BUFFER_SIZE];
    stdout, stderr := [], [];
    ghost var e := EngineOf(ctx);
    ghost var start := Driver(ctx.absorbed, Stream(stdin.remaining, stdin.fails), [], []);
    for i := 0 to |files|
      invariant stdin.Valid()
      invariant ProduceFrom(Driver(ctx.absorbed, Stream(stdin.remaining, stdin.fails), stdout, stderr),
                            files[i..], fs, e)
             == ProduceFrom(start, files, fs, e)
    {
      assert files[i..][1..] == files[i + 1..];
      var name := files[i];
      var input: InputFile;
      if name == STDIN_NAME {
        input := stdin;
      } else if name in fs && fs[name].Opens? {
        input := new InputFile(fs[name].stream);
      } else {
        stderr := stderr + [OpenFailed(name)];
        continue;
      }
      ghost var msg := ctx.absorbed + input.remaining;
      AbsorbStream(ctx, input, buffer);
      if input.err {
        stderr := stderr + [ReadFailed(name)];
        continue;
      }
      var code := ctx.Final(digest);
      if code != Skein.SKEIN_SUCCESS {
        stderr := stderr + [FinalFailed(name, code)];
      } else {
        Hex.ToHex(digest, ctx.bitlen, hexBuffer);
        var k := Hex.HexBytes(ctx.bitlen);
        assert digest[..][..k] == digest[..k];
        Hex.HexHasNoNul(digest[..k]);
        assert hexBuffer[..][..2 * k] == hexBuffer[..2 * k];
        CStringTerminated(hexBuffer[..], 2 * k);
        var hex := CString(hexBuffer[..]);
        ghost var expected := Skein.Digest(e.hash, e.size, e.bitlen, msg);
        assert expected[..k] == expected == digest[..k];
        assert hex == DigestHex(e, msg);
        stdout := stdout + [SumLine(hex, name)];
      }
      ctx.Reset();
    }
  }

  // ---------------------------------------------------------------------
  // Properties of the loop over sources.

  /** Processing a list of sources is processing its first part, then the rest. */
  lemma {:induction false} ProduceAppend(d: Driver, a: seq<string>, b: seq<string>, fs: FileSystem, e: Engine)
    ensures ProduceFrom(d, a + b, fs, e) == ProduceFrom(ProduceFrom(d, a, fs, e), b, fs, e)
    decreases |a|
  {
    if a != [] {
      assert (a + b)[0] == a[0] && (a + b)[1..] == a[1..] + b;
      ProduceAppend(SourceStep(d, a[0], fs, e), a[1..], b, fs, e);
    } else {
      assert a + b == b;
    }
  }

  /** Each source appends either exactly one output line or exactly one
      diagnostic naming it, after everything earlier sources produced. */
  lemma OneResultPerSource(d: Driver, name: string, fs: FileSystem, e: Engine)
    ensures var d' := SourceStep(d, name, fs, e);
      || (d'.stderr == d.stderr && exists h :: d'.stdout == d.stdout + [SumLine(h, name)])
      || (d'.stdout == d.stdout && |d'.stderr| == |d.stderr| + 1 &&
          d'.stderr[..|d.stderr|] == d.stderr && d'.stderr[|d.stderr|].name == name)
  {
  }

  /** N sources give N results: output lines plus diagnostics. */
  lemma {:induction false} ResultCount(d: Driver, files: seq<string>, fs: FileSystem, e: Engine)
    ensures var d' := ProduceFrom(d, files, fs, e);
      |d'.stdout| + |d'.stderr| == |d.stdout| + |d.stderr| + |files|
    ensures d.stdout <= ProduceFrom(d, files, fs, e).stdout
    ensures d.stderr <= ProduceFrom(d, files, fs, e).stderr
    decreases |files|
  {
    if files != [] {
      OneResultPerSource(d, files[0], fs, e);
      ResultCount(SourceStep(d, files[0], fs, e), files[1..], fs, e);
    }
  }

  /** An unopenable source gives a diagnostic and nothing else: no line, and
      neither the context nor standard input changes. */
  lemma UnopenableSkipped(d: Driver, name: string, fs: FileSystem, e: Engine)
    requires name != STDIN_NAME && (name !in fs || fs[name] == Unopenable)
    ensures SourceStep(d, name, fs, e) == d.(stderr := d.stderr + [OpenFailed(name)])
  {
  }

  /** A read error gives a diagnostic and no line, and what was read stays in
      the context: it is prepended to whatever the next source feeds. */
  lemma ReadErrorCarriesOver(d: Driver, name: string, fs: FileSystem, e: Engine, prefix: seq<Byte>)
    requires name != STDIN_NAME && name in fs && fs[name] == Opens(Stream(prefix, true))
    ensures SourceStep(d, name, fs, e)
         == d.(absorbed := d.absorbed + prefix, stderr := d.stderr + [ReadFailed(name)])
  {
  }

  /** A successful source prints the digest of its own bytes when the
      context starts clean, and leaves the context clean. */
  lemma CleanStartDigestsOwnBytes(d: Driver, name: string, fs: FileSystem, e: Engine, data: seq<Byte>)
    requires name != STDIN_NAME && name in fs && fs[name] == Opens(Stream(data, false))
    requires d.absorbed == [] && e.finalCode == Skein.SKEIN_SUCCESS
    ensures SourceStep(d, name, fs, e)
         == d.(stdout := d.stdout + [SumLine(DigestHex(e, data), name)])
  {
    assert d.absorbed + data == data;
  }

  /** A source that reads without error leaves the context clean, whatever
      earlier sources left in it. If `skeinFinal` fails, the source gives
      one diagnostic and no line; otherwise it prints the digest of what the
      context held followed by the source's own bytes. */
  lemma CleanReadResets(d: Driver, name: string, fs: FileSystem, e: Engine)
    requires || (name == STDIN_NAME && !d.stdin.fails)
             || (name != STDIN_NAME && name in fs && fs[name].Opens? && !fs[name].stream.fails)
    ensures var d' := SourceStep(d, name, fs, e);
      var data := if name == STDIN_NAME then d.stdin.data else fs[name].stream.data;
      && d'.absorbed == []
      && (e.finalCode != Skein.SKEIN_SUCCESS ==>
            d'.stdout == d.stdout && d'.stderr == d.stderr + [FinalFailed(name, e.finalCode)])
      && (e.finalCode == Skein.SKEIN_SUCCESS ==>
            d'.stdout == d.stdout + [SumLine(DigestHex(e, d.absorbed + data), name)] && d'.stderr == d.stderr)
  {
  }

  /** A source the previous one fails to read is digested together with what
      was read of it: with `a` failing after `p` and `b` holding `q`, the only
      line printed is that of `p + q`, under `b`'s name. */
  lemma ReadErrorLeaksIntoNext(d: Driver, a: string, b: string, p: seq<Byte>, q: seq<Byte>,
                               fs: FileSystem, e: Engine)
    requires a != STDIN_NAME && b != STDIN_NAME && a != b
    requires a in fs && fs[a] == Opens(Stream(p, true))
    requires b in fs && fs[b] == Opens(Stream(q, false))
    requires d.absorbed == [] && e.finalCode == Skein.SKEIN_SUCCESS
    ensures ProduceFrom(d, [a, b], fs, e).stdout == d.stdout + [SumLine(DigestHex(e, p + q), b)]
    ensures ProduceFrom(d, [a, b], fs, e).stderr == d.stderr + [ReadFailed(a)]
  {
    assert [a, b][1..] == [b];
    assert d.absorbed + p == p;
    var d1 := SourceStep(d, a, fs, e);
    assert ProduceFrom(d, [a, b], fs, e) == ProduceFrom(d1, [b], fs, e);
    assert ProduceFrom(d1, [b], fs, e) == SourceStep(d1, b, fs, e);
  }

  /** The leak stops at the first source that reads cleanly: with `a`
      failing after `p`, `b` holding `q` and `c` holding `r`, `b` prints the
      digest of `p + q` and `c` the digest of `r` alone. */
  lemma LeakStopsAtCleanRead(d: Driver, a: string, b: string, c: string, p: seq<Byte>, q: seq<Byte>,
                             r: seq<Byte>, fs: FileSystem, e: Engine)
    requires a != STDIN_NAME && b != STDIN_NAME && c != STDIN_NAME
    requires a in fs && fs[a] == Opens(Stream(p, true))
    requires b in fs && fs[b] == Opens(Stream(q, false))
    requires c in fs && fs[c] == Opens(Stream(r, false))
    requires d.absorbed == [] && e.finalCode == Skein.SKEIN_SUCCESS
    ensures ProduceFrom(d, [a, b, c], fs, e).stdout
         == d.stdout + [SumLine(DigestHex(e, p + q), b), SumLine(DigestHex(e, r), c)]
    ensures ProduceFrom(d, [a, b, c], fs, e).stderr == d.stderr + [ReadFailed(a)]
  {
    assert [a, b, c] == [a, b] + [c];
    ProduceAppend(d, [a, b], [c], fs, e);
    ReadErrorLeaksIntoNext(d, a, b, p, q, fs, e);
    var d1 := SourceStep(d, a, fs, e);
    assert [a, b][1..] == [b];
    var d2 := ProduceFrom(d, [a, b], fs, e);
    assert d2 == ProduceFrom(d1, [b], fs, e) == SourceStep(d1, b, fs, e);
    CleanReadResets(d1, b, fs, e);
    CleanStartDigestsOwnBytes(d2, c, fs, e, r);
    assert ProduceFrom(d2, [c], fs, e) == SourceStep(d2, c, fs, e);
  }

  /** Sources that all open and read without error, none of them standard
      input, each print one line, in argument order, with the digest of that
      source's own bytes. */
  lemma {:induction false} HealthySourcesDigestedIndependently(d: Driver, files: seq<string>, fs: FileSystem, e: Engine)
    requires d.absorbed == [] && e.finalCode == Skein.SKEIN_SUCCESS
    requires forall i :: 0 <= i < |files| ==>
      files[i] != STDIN_NAME && files[i] in fs && fs[files[i]].Opens? && !fs[files[i]].stream.fails
    ensures var d' := ProduceFrom(d, files, fs, e);
      && d'.absorbed == [] && d'.stderr == d.stderr && d'.stdin == d.stdin
      && |d'.stdout| == |d.stdout| + |files|
      && d'.stdout[..|d.stdout|] == d.stdout
      && forall i :: 0 <= i < |files| ==>
           d'.stdout[|d.stdout| + i] == SumLine(DigestHex(e, fs[files[i]].stream.data), files[i])
    decreases |files|
  {
    if files != [] {
      var name := files[0];
      CleanStartDigestsOwnBytes(d, name, fs, e, fs[name].stream.data);
      var d1 := SourceStep(d, name, fs, e);
      HealthySourcesDigestedIndependently(d1, files[1..], fs, e);
      var d' := ProduceFrom(d1, files[1..], fs, e);
      forall i | 0 <= i < |files|
        ensures d'.stdout[|d.stdout| + i] == SumLine(DigestHex(e, fs[files[i]].stream.data), files[i])
      {
        if i > 0 {
          assert files[1..][i - 1] == files[i];
          assert |d1.stdout| + (i - 1) == |d.stdout| + i;
        }
      }
      assert d'.stdout[..|d.stdout|] == d'.stdout[..|d1.stdout|][..|d.stdout|];
    }
  }

  /** Standard input is drained by the first "-": a later "-" reads nothing,
      so when the first read succeeded it prints the digest of no bytes. */
  lemma SecondStdinReadsNothing(d: Driver, fs: FileSystem, e: Engine)
    requires !d.stdin.fails && d.absorbed == [] && e.finalCode == Skein.SKEIN_SUCCESS
    ensures var d' := ProduceFrom(d, [STDIN_NAME, STDIN_NAME], fs, e);
      d'.stdout == d.stdout + [SumLine(DigestHex(e, d.stdin.data), STDIN_NAME),
                               SumLine(DigestHex(e, []), STDIN_NAME)]
  {
    assert [STDIN_NAME, STDIN_NAME][1..] == [STDIN_NAME];
    assert d.absorbed + d.stdin.data == d.stdin.data;
    var d1 := SourceStep(d, STDIN_NAME, fs, e);
    assert ProduceFrom(d, [STDIN_NAME, STDIN_NAME], fs, e) == ProduceFrom(d1, [STDIN_NAME], fs, e);
    assert ProduceFrom(d1, [STDIN_NAME], fs, e) == SourceStep(d1, STDIN_NAME, fs, e);
    assert d1.absorbed + d1.stdin.data == [];
  }
}
