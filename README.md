# skeinsum in Dafny

A model of `skeinsum`, the command-line driver that prints Skein checksums of
files (produce mode). The model covers:

- digest sizing (`BITS_TO_BYTES`) and `to_hex`, which writes two lowercase
  hex digits per digest byte, with a terminating NUL, into a static
  257-character buffer (module `Hex`, with C widths and the `%s` view of a
  buffer in `Machine`);
- the option loop of `main` and the `bitlen > size` test after it, over the
  integer values of the options (module `Options`);
- the Skein context as an object that records the bytes absorbed since
  initialisation or the last reset; `skeinFinal` yields an opaque function of
  the state size, the output length and those bytes (module `Skein`);
- the `fread` / `skeinUpdate` loop over one stream with its 4096-byte buffer
  (module `Streaming`);
- the loop over the sources: open, drain, finalise, print
  `"<hex>  <name>\n"`, reset; diagnostics for unopenable sources, read
  errors and finalisation errors (module `Producer`);
- `main` as a whole: options, `skeinCtxPrepare`/`skeinInit`, the check-mode
  stub, produce mode, and the exit status (module `SkeinSum`).

Each imperative part of the C code is a method with loops and in-place
updates. Each is proved equal to a pure function: `ParseOptions` to
`Validate`, `AbsorbStream` to `Chunks`, `ProduceSums` to `ProduceFrom`,
and `Run` to `RunSpec`. The lemmas state what those functions guarantee.

Modelling choices:

- `size_t` is 64 bits and `int` is 32 bits. `atoi`'s result is an `Int32`,
  and assigning it to `bitlen` reduces it modulo 2^64, so `-l -1` becomes
  2^64 - 1 and is rejected by the `> 1024` test. The `bitlen < 0` test can
  never hold.
- A file is `Unopenable` (or absent from the map), or it opens onto a
  `Stream`: bytes followed by end of file, or bytes followed by a read error.
- Standard input is one stream object shared by every `"-"` source. A later
  `"-"` reads nothing, and its error indicator stays set.
- The Skein library is a value `Api`. It holds whether `skeinCtxPrepare`
  and `skeinInit` accept a configuration, the digest function, and the code
  `skeinFinal` returns.

Notes on the code's behaviour:

- The output length defaults to 512 whatever the state size, so `-s 256`
  alone is rejected (`Options.SmallStateSizeNeedsLength`). The program's own
  usage text (`show_help`, skeinsum.c:226-227) says the default output
  length equals the state size; the model follows the code.

## Model

| member | source | states |
|---|---|---|
| Hex.BitsToBytes | skeinsum.c:21 | `BITS_TO_BYTES(n)` is the least k with 8k >= n |
| Hex.SizeTBitsToBytes | skeinsum.c:21 | on a size_t argument the macro equals ceil(n/8) up to SIZE_MAX - 7; past that, `n + 7` wraps and the result is 0 |
| Hex.HexBytes | skeinsum.c:254 | `to_hex`'s loop covers min(BITS_TO_BYTES(n), 128) bytes. Two digits per byte plus the NUL always fit the 257-character buffer. For n <= 1024 it is exactly BITS_TO_BYTES(n), and for n = 0 it is 0 |
| Hex.HexDigit | skeinsum.c:256 | each digit is lowercase 0-9/a-f and decodes back to its value |
| Hex.HexByte | skeinsum.c:256 | `%02x` of a byte is two lowercase digits, high nibble first, that decode back to the byte |
| Hex.HexString | skeinsum.c:249-259 | `to_hex`'s result has 2 * min(ceil(n/8), 128) characters (2 * ceil(n/8) for n <= 1024, empty for n = 0) |
| Hex.HexAt | skeinsum.c:254-257 | characters 2i and 2i+1 are `%02x` of `digest[i]`, byte 0 first |
| Hex.HexIsLowercase | skeinsum.c:256 | every character of the hex text is a lowercase hex digit |
| Hex.HexInjective | skeinsum.c:254-257 | the hex text determines the bytes it encodes |
| Hex.HexStringDetermines | skeinsum.c:249-259 | two digests print alike exactly when the bytes `to_hex` reads agree |
| Hex.FormatByte | skeinsum.c:256 | `sprintf(b, "%02x", v)` writes two digits and a NUL and nothing else |
| Hex.ToHex | skeinsum.c:247-259 | `to_hex` fills `hex_buffer` with the hex text of the first min(BITS_TO_BYTES(n), 128) digest bytes and a NUL after it; nothing past the NUL changes; every write is inside the buffer |
| Machine.CString | skeinsum.c:204 | `%s` prints the NUL-free prefix of the buffer up to its first NUL |
| Machine.CStringTerminated | skeinsum.c:204 | a buffer with NUL-free text followed by a NUL prints as that text |
| Machine.ToSizeT | skeinsum.c:76 | assigning `atoi`'s int to `bitlen` keeps non-negative values and maps a negative x to 2^64 + x |
| Options.ApplyOption | skeinsum.c:58-121 | definition of one turn of the `switch`; its properties are stated by `ScanAccepted`, `ValidateRejects` and `ValidateSound` |
| Options.ScanOptions | skeinsum.c:56-122 | definition of the option loop from left to right, stopping at the first option that exits; `ScanAccepted` and `ValidateRejects` state what it computes |
| Options.Validate | skeinsum.c:47-129 | definition of the loop from the defaults followed by the `bitlen > size` test; `ValidateExactly` ties it to the reference `Accepted`/`Latest`/`Settled` |
| Options.ParseOptions | skeinsum.c:47-129 | the option loop, which mutates size/bitlen/mode/check/quiet/status/warn_lines, followed by the `bitlen > size` test, equals `Validate` |
| Options.ValidateExactly | skeinsum.c:52-129 | parsing proceeds iff every option is accepted (state size in {256, 512, 1024}, length <= 1024 after wrap, no help/version/unknown option) and the last length <= the last state size. The settings are then the defaults overridden by the last value of each option (`-b`/`-t`: last one wins). When every option is accepted but the last length exceeds the last state size, the exit reason is that length |
| Options.ValidateRejects | skeinsum.c:56-121 | the first option that is not accepted decides the exit reason |
| Options.ScanAccepted | skeinsum.c:56-122 | on accepted options the loop runs to the end and each variable holds the last value given |
| Options.ValidateSound | skeinsum.c:60-84 | after validation, size is 256, 512 or 1024, bitlen <= 1024 and bitlen <= size |
| Options.NegativeLengthRejected | skeinsum.c:76-82 | a negative `-l` value wraps to 2^64 + x and is rejected |
| Options.LengthAboveStateSizeRejected | skeinsum.c:124-129 | `-s 512 -l 513` is rejected by the test after the loop |
| Options.HelpBeforeLengthCheck | skeinsum.c:110-112 | `--help` exits successfully before the `bitlen > size` test is reached |
| Options.SmallStateSizeNeedsLength | skeinsum.c:52-53 | with the default length of 512, `-s 256` alone is rejected and `-s 256 -l 256` passes |
| Skein.Digest | skeinsum.c:151 | the digest of a message has BITS_TO_BYTES(bitlen) bytes, which fit the 128-byte `digest` array for bitlen <= 1024 |
| Skein.Context.constructor | skeinsum.c:131-140 | a context prepared for `size` and initialised for `bitlen` keeps that configuration and has absorbed nothing |
| Skein.Context.Update | skeinsum.c:183 | `skeinUpdate` appends the chunk to the absorbed bytes |
| Skein.Context.Final | skeinsum.c:198 | on success `skeinFinal` writes the BITS_TO_BYTES(bitlen) digest bytes of the absorbed input and nothing else |
| Skein.Context.Reset | skeinsum.c:211 | `skeinReset` empties the absorbed bytes |
| Streaming.Chunks | skeinsum.c:181-188 | definition of the pieces the read loop passes to `skeinUpdate`; `ChunksConcat` and `ChunksShape` state its properties, and `AbsorbStream` is proved against it |
| Streaming.ChunksConcat | skeinsum.c:181-188 | the chunks concatenate to exactly the bytes read, whatever the chunk size |
| Streaming.ChunksShape | skeinsum.c:181-188 | every chunk but the last has BUFFER_SIZE bytes and the last has 1 to BUFFER_SIZE bytes. An empty stream gives no chunk |
| Streaming.InputFile.Read | skeinsum.c:181 | `fread` delivers up to n bytes in order and sets the error indicator when it stops short on a failing stream |
| Streaming.AbsorbStream | skeinsum.c:181-188 | the read loop feeds `skeinUpdate` the whole stream, in the chunks `Chunks(_, 4096)` describes, and leaves the error indicator as the stream's failure flag |
| Producer.SumLine | skeinsum.c:204 | definition of the output line `"%s  %s\n"`: hex text, two spaces, name, newline |
| Producer.Consume | skeinsum.c:181-211 | definition of one opened source: read error (no reset), `skeinFinal` error (diagnostic, reset) or a line (reset); stated by `ReadErrorCarriesOver` and `CleanReadResets` |
| Producer.SourceStep | skeinsum.c:164-212 | definition of one turn of the loop: `"-"` reads the shared standard input, an unopenable name gives a diagnostic; stated by `OneResultPerSource`, `UnopenableSkipped` and `CleanReadResets` |
| Producer.ProduceFrom | skeinsum.c:163-212 | definition of the loop over all sources in argument order; `ProduceAppend`, `ResultCount` and `HealthySourcesDigestedIndependently` state its properties |
| Producer.ProduceSums | skeinsum.c:163-212 | the loop over sources (open, read, `ferror`, final, `to_hex` + printf, reset) equals `ProduceFrom` |
| Producer.ProduceAppend | skeinsum.c:163-212 | sources are processed in argument order: the loop over a + b is the loop over a, then over b |
| Producer.ResultCount | skeinsum.c:173-205 | N sources give exactly N results, counting output lines and diagnostics; earlier output is kept as a prefix |
| Producer.UnopenableSkipped | skeinsum.c:173-178 | an unopenable source adds one diagnostic and leaves the context, standard input and stdout unchanged |
| Producer.ReadErrorCarriesOver | skeinsum.c:189-197 | a read error adds one diagnostic and no line and does not reset the context: the bytes read stay absorbed |
| Producer.ReadErrorLeaksIntoNext | skeinsum.c:189-211 | after source a fails having read p, the next source b holding q prints the digest of p + q |
| Producer.CleanReadResets | skeinsum.c:181-211 | a source (`"-"` or a named file) that reads without error leaves the context empty, whatever it held before; if `skeinFinal` fails it adds one `FinalFailed` diagnostic and no line, otherwise one line with the digest of the held bytes followed by its own |
| Producer.LeakStopsAtCleanRead | skeinsum.c:189-211 | after `a` fails having read p, `b` holding q prints the digest of p + q and the next `c` holding r prints the digest of r alone |
| Producer.CleanStartDigestsOwnBytes | skeinsum.c:198-211 | from a clean context a readable source prints the digest of its own bytes and leaves the context clean |
| Producer.HealthySourcesDigestedIndependently | skeinsum.c:163-212 | from a clean context, when every source is a named file (none is `"-"`) that opens and reads, each prints one line. The lines come in argument order, and each carries the digest of that source's own bytes only |
| Producer.SecondStdinReadsNothing | skeinsum.c:166-170 | standard input is drained by the first `"-"`; a second `"-"` prints the digest of no bytes |
| SkeinSum.ExitStatus | skeinsum.c:110-215 | definition of the exit status of each way a run ends; `ExitStatusOfRun` states when it is 0 |
| SkeinSum.RunSpec | skeinsum.c:29-216 | definition of `main` on option values, operands, files, standard input and the library; `Run` is proved equal to it |
| SkeinSum.Run | skeinsum.c:29-216 | `main` equals `RunSpec`: validate options, prepare and initialise, fail in check mode, otherwise produce |
| SkeinSum.ExitStatusOfRun | skeinsum.c:110-146 | the exit status is 0 exactly when the options ask for help or version, or when they are valid, have no `-c`, and `skeinCtxPrepare` and `skeinInit` succeed; the condition mentions no operand, file or standard input |
| SkeinSum.ExitStatusIgnoresSources | skeinsum.c:163-215 | produce mode exits 0 whatever happens to the sources: two runs with the same options and library exit alike, whatever their operands, files and standard input |
| SkeinSum.ProducedOnlyWhenValid | skeinsum.c:124-146 | produce mode runs only on validated settings without `-c`. Invalid options end the run before any source is opened |
| SkeinSum.OneResultPerOperand | skeinsum.c:149-212 | in produce mode each operand, or the single `"-"` when there are none, gives one line or one diagnostic |
| SkeinSum.StdinWhenNoOperands | skeinsum.c:157-162 | with no operands and a clean read, the only output is the digest of standard input under the name `"-"` |
| SkeinSum.HealthyRun | skeinsum.c:163-212 | when every operand is a named file (none is `"-"`) that opens and reads, one line per operand is printed in order. Each has 2 * BITS_TO_BYTES(bitlen) hex characters of that file's own digest, and no diagnostic is printed |

## Left out

- The Skein hash itself and the internals of `skeinCtxPrepare`, `skeinInit`, `skeinUpdate`, `skeinFinal` and `skeinReset`: they are foreign calls, represented by the absorbed bytes and an opaque digest function. Whether prepare and init fail, and the code final returns, are inputs of the model.
- Skein.Context.Final: does not model the context's finalised state, because `skeinReset` follows it on every path of the driver.
- `getopt_long` and `atoi` text handling, including argument permutation: the model takes the options as integer values and the operands as a list.
- The text of `show_help`, `show_version` and every diagnostic, including `strerror` and `errno`: only which message is given is modelled.
- `fclose` and `setvbuf`: they have no effect on what is digested or printed.
- The difference between the `"r"` and `"rb"` modes: only the chosen mode is recorded. Line-ending translation is platform I/O.
- Check mode (skeinsum.c:142-146): it is a stub that reports "not done yet" and fails, `--quiet`, `--status` and `--warn` are only recorded.
- The interleaving of standard output and standard error: each is kept as its own ordered list.
