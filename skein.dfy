/** The Skein context as the driver sees it. The hash itself is an external
    collaborator: it is represented by an opaque function, and the context
    keeps only the bytes absorbed since initialisation or the last reset. */
module Skein {
  import opened Machine
  import Hex

  const SKEIN_SUCCESS: int := 0

  /** Byte i of the Skein digest, for a state size, an output length in bits
      and a message. */
  type HashFn = (int, SizeT, seq<Byte>, nat) -> Byte

  /** What the Skein library does, as far as the driver can observe it:
      whether `skeinCtxPrepare` and `skeinInit` accept a configuration, the
      digest `skeinFinal` produces and the code it returns. */
  datatype Api = Api(
    prepareOk: int -> bool,
    initOk: (int, SizeT) -> bool,
    hash: HashFn,
    finalCode: int)

  /** The BITS_TO_BYTES(bitlen) digest bytes of `msg`. */
  function Digest(hash: HashFn, size: int, bitlen: SizeT, msg: seq<Byte>): (d: seq<Byte>)
    ensures |d| == Hex.BitsToBytes(bitlen)
  {
    seq(Hex.BitsToBytes(bitlen), (i: int) requires 0 <= i => hash(size, bitlen, msg, i))
  }

  /** A prepared and initialised `SkeinCtx_t`. */
  class Context {
    const size: int
    const bitlen: SizeT
    const hash: HashFn
    const finalCode: int

    /** Bytes passed to `skeinUpdate` since `skeinInit` or the last `skeinReset`. */
    var absorbed: seq<Byte>

    /** Every chunk ever passed to `skeinUpdate`, in order. */
    ghost var updates: seq<seq<Byte>>

    /** `skeinCtxPrepare(&skein, size)` followed by `skeinInit(&skein, bitlen)`,
        both succeeding. */
    constructor (size: int, bitlen: SizeT, hash: HashFn, finalCode: int)
      ensures this.size == size && this.bitlen == bitlen
      ensures this.hash == hash && this.finalCode == finalCode
      ensures absorbed == [] && updates == []
    {
      this.size := size;
      this.bitlen := bitlen;
      this.hash := hash;
      this.finalCode := finalCode;
      absorbed := [];
      updates := [];
    }

    /** `skeinUpdate(&skein, buf, len)`. */
    method Update(buf: array<Byte>, len: nat)
      requires len <= buf.Length
      modifies this`absorbed, this`updates
      ensures absorbed == old(absorbed) + buf[..len]
      ensures updates == old(updates) + [buf[..len]]
    {
      absorbed := absorbed + buf[..len];
      updates := updates + [buf[..len]];
    }

    /** `skeinFinal(&skein, digest)`: on success the first BITS_TO_BYTES(bitlen)
        bytes of `digest` become the digest of the absorbed bytes. */
    method Final(digest: array<Byte>) returns (code: int)
      requires Hex.BitsToBytes(bitlen) <= digest.Length
      modifies digest
      ensures code == finalCode
      ensures code == SKEIN_SUCCESS ==>
        digest[..Hex.BitsToBytes(bitlen)] == Digest(hash, size, bitlen, absorbed)
      ensures forall k ::
        0 <= k < digest.Length && (code != SKEIN_SUCCESS || Hex.BitsToBytes(bitlen) <= k) ==>
        digest[k] == old(digest[k])
    {
      code := finalCode;
      if code == SKEIN_SUCCESS {
        var d := Digest(hash, size, bitlen, absorbed);
        forall k | 0 <= k < |d| {
          digest[k] := d[k];
        }
      }
    }

    /** `skeinReset(&skein)`: back to the state right after `skeinInit`. */
    method Reset()
      modifies this`absorbed
      ensures absorbed == []
    {
      absorbed := [];
    }
  }
}
