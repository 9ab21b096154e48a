/** The buffered read loop that feeds one input stream to the Skein context:
    `fread` into a 4096-byte buffer, `skeinUpdate` on every full buffer, then
    at most one `skeinUpdate` on the short remainder. */
module Streaming {
  import opened Machine
  import Skein

  /** BUFFER_SIZE: 4 * 1024. */
  const BUFFER_SIZE: nat := 4096

  /** What a source yields: `data`, then end of file, or a read error if
      `fails` holds. */
  datatype Stream = Stream(data: seq<Byte>, fails: bool)

  /** The pieces a buffer of `size` bytes cuts `d` into: full pieces while at
      least `size` bytes remain, then one short piece if any bytes are left. */
  function Chunks(d: seq<Byte>, size: nat): seq<seq<Byte>>
    requires size > 0
    decreases |d|
  {
    if |d| == 0 then []
    else if |d| < size then [d]
    else [d[..size]] + Chunks(d[size..], size)
  }

  function Concat(cs: seq<seq<Byte>>): seq<Byte> {
    if cs == [] then [] else cs[0] + Concat(cs[1..])
  }

  /** Chunking loses and reorders nothing: the pieces concatenate to the input,
      whatever the buffer size. */
  lemma {:induction false} ChunksConcat(d: seq<Byte>, size: nat)
    requires size > 0
    ensures Concat(Chunks(d, size)) == d
    decreases |d|
  {
    if |d| >= size {
      var cs := Chunks(d, size);
      assert cs[0] == d[..size] && cs[1..] == Chunks(d[size..], size);
      ChunksConcat(d[size..], size);
    }
  }

  /** Every piece but the last is a full buffer, the last holds 1 to `size`
      bytes, and an empty input gives no piece at all. */
  lemma {:induction false} ChunksShape(d: seq<Byte>, size: nat)
    requires size > 0
    ensures Chunks(d, size) == [] <==> d == []
    ensures forall i :: 0 <= i < |Chunks(d, size)| - 1 ==> |Chunks(d, size)[i]| == size
    ensures Chunks(d, size) != [] ==> 0 < |Chunks(d, size)[|Chunks(d, size)| - 1]| <= size
    decreases |d|
  {
    if |d| >= size {
      var cs, rest := Chunks(d, size), Chunks(d[size..], size);
      assert cs == [d[..size]] + rest;
      ChunksShape(d[size..], size);
      forall i | 0 <= i < |cs| - 1
        ensures |cs[i]| == size
      {
        if i > 0 {
          assert cs[i] == rest[i - 1];
        }
      }
    }
  }

  /** An open `FILE *` being read. */
  class InputFile {
    /** Bytes not yet read. */
    var remaining: seq<Byte>
    /** Whether reading past `remaining` raises an error rather than end of file. */
    const fails: bool
    /** The stream's error indicator, as `ferror` reports it. */
    var err: bool

    ghost predicate Valid()
      reads this
    {
      err ==> fails && remaining == []
    }

    /** The stream `fopen` returns for a source yielding `s`. */
    constructor (s: Stream)
      ensures Valid() && remaining == s.data && fails == s.fails && !err
    {
      remaining := s.data;
      fails := s.fails;
      err := false;
    }

    /** `fread(buf, 1, n, input)`: up to `n` bytes, fewer only at end of file
        or at the read error, which then raises the error indicator. */
    method Read(buf: array<Byte>, n: nat) returns (got: nat)
      requires Valid() && n <= buf.Length
      modifies this, buf
      ensures Valid()
      ensures got == Min(n, |old(remaining)|)
      ensures buf[..got] == old(remaining)[..got] && remaining == old(remaining)[got..]
      ensures err == (old(err) || (got < n && fails))
    {
      got := Min(n, |remaining|);
      forall k | 0 <= k < got {
        buf[k] := remaining[k];
      }
      remaining := remaining[got..];
      err := err || (got < n && fails);
    }
  }

  lemma ChunksFull(buf: seq<Byte>, rest: seq<Byte>)
    requires |buf| == BUFFER_SIZE
    ensures Chunks(buf + rest, BUFFER_SIZE) == [buf] + Chunks(rest, BUFFER_SIZE)
  {
  }

  /** The read loop for one source: the stream is read to its end (or to its
      read error) and every byte read goes to `skeinUpdate`, in order, in
      the chunks Chunks(_, BUFFER_SIZE) describes. */
  method AbsorbStream(ctx: Skein.Context, input: InputFile, buffer: array<Byte>)
    requires input.Valid() && buffer.Length == BUFFER_SIZE
    modifies ctx, input, buffer
    ensures input.Valid() && input.remaining == [] && input.err == input.fails
    ensures ctx.absorbed == old(ctx.absorbed) + old(input.remaining)
    ensures ctx.updates == old(ctx.updates) + Chunks(old(input.remaining), BUFFER_SIZE)
  {
    ghost var whole := input.remaining;
    var readsize := input.Read(buffer, BUFFER_SIZE);
    assert whole == buffer[..readsize] + input.remaining;
    while readsize == BUFFER_SIZE
      invariant input.Valid() && readsize <= BUFFER_SIZE
      invariant readsize < BUFFER_SIZE ==> input.remaining == []
      invariant input.err == (old(input.err) || (readsize < BUFFER_SIZE && input.fails))
      invariant ctx.absorbed + buffer[..readsize] + input.remaining == old(ctx.absorbed) + whole
      invariant ctx.updates + Chunks(buffer[..readsize] + input.remaining, BUFFER_SIZE)
             == old(ctx.updates) + Chunks(whole, BUFFER_SIZE)
      decreases |input.remaining| + readsize
    {
      ghost var full, rest := buffer[..readsize], input.remaining;
      ChunksFull(full, rest);
      ctx.Update(buffer, readsize);
      readsize := input.Read(buffer, BUFFER_SIZE);
      assert rest == buffer[..readsize] + input.remaining;
    }
    assert buffer[..readsize] + input.remaining == buffer[..readsize];
    if readsize > 0 {
      ctx.Update(buffer, readsize);
    }
  }
}
