/** Digest sizing (BITS_TO_BYTES) and the lowercase hex rendering of a digest
    done by `to_hex` into the static 257-character `hex_buffer`. */
module Hex {
  import opened Machine

  /** BITS_TO_BYTES on unbounded integers: the least k with 8k >= nbits. */
  function BitsToBytes(nbits: nat): (k: nat)
    ensures 8 * k >= nbits
    ensures k > 0 ==> 8 * (k - 1) < nbits
  {
    (nbits + 7) / 8
  }

  /** BITS_TO_BYTES applied to a `size_t`: the addition `nbits + 7` wraps
      modulo 2^64, so the seven largest values give 0. */
  function SizeTBitsToBytes(nbits: SizeT): (k: nat)
    ensures nbits <= SIZE_MAX - 7 ==> k == BitsToBytes(nbits)
    ensures nbits > SIZE_MAX - 7 ==> k == 0
  {
    ((nbits + 7) % SIZE_T_MODULUS) / 8
  }

  /** Capacity of the digest buffer in bytes: BITS_TO_BYTES(1024). */
  const MAX_DIGEST_BYTES: nat := 128

  /** Size of `hex_buffer`: BITS_TO_BYTES(1024) * 2 + 1. */
  const HEX_BUFFER_SIZE: nat := 2 * MAX_DIGEST_BYTES + 1

  /** Number of digest bytes `to_hex(digest, digestlen)` encodes: the loop
      stops at BITS_TO_BYTES(digestlen) and at BITS_TO_BYTES(1024). */
  function HexBytes(digestlen: SizeT): (k: nat)
    ensures k <= MAX_DIGEST_BYTES && 2 * k + 1 <= HEX_BUFFER_SIZE
    ensures digestlen <= SIZE_MAX - 7 ==> k == Min(BitsToBytes(digestlen), MAX_DIGEST_BYTES)
    ensures digestlen > SIZE_MAX - 7 ==> k == 0
    ensures digestlen <= 1024 ==> k == BitsToBytes(digestlen)
    ensures digestlen == 0 ==> k == 0
  {
    Min(SizeTBitsToBytes(digestlen), BitsToBytes(1024))
  }

  predicate IsLowerHexDigit(c: char) {
    '0' <= c <= '9' || 'a' <= c <= 'f'
  }

  /** Value of a hex digit character; the inverse of HexDigit. */
  function DigitValue(c: char): nat {
    if '0' <= c <= '9' then c as int - '0' as int
    else if 'a' <= c <= 'f' then c as int - 'a' as int + 10
    else 0
  }

  /** One lowercase hex digit, as `%x` prints it. */
  function HexDigit(v: nat): (c: char)
    requires v < 16
    ensures IsLowerHexDigit(c) && DigitValue(c) == v
  {
    if v < 10 then ('0' as int + v) as char else ('a' as int + v - 10) as char
  }

  /** `%02x` of one byte: the high nibble, then the low nibble. */
  function HexByte(b: Byte): (s: string)
    ensures |s| == 2 && IsLowerHexDigit(s[0]) && IsLowerHexDigit(s[1])
    ensures 16 * DigitValue(s[0]) + DigitValue(s[1]) == b
  {
    [HexDigit(b / 16), HexDigit(b % 16)]
  }

  /** Hex text of a byte sequence, byte 0 first. */
  function Hex(d: seq<Byte>): (s: string)
    ensures |s| == 2 * |d|
  {
    if d == [] then "" else HexByte(d[0]) + Hex(d[1..])
  }

  /** The string `to_hex(digest, digestlen)` returns. */
  function HexString(digest: seq<Byte>, digestlen: SizeT): (s: string)
    requires HexBytes(digestlen) <= |digest|
    ensures |s| == 2 * HexBytes(digestlen) && |s| < HEX_BUFFER_SIZE
    ensures digestlen <= 1024 ==> |s| == 2 * BitsToBytes(digestlen)
    ensures digestlen == 0 ==> s == ""
  {
    Hex(digest[..HexBytes(digestlen)])
  }

  lemma {:induction false} HexAppend(a: seq<Byte>, b: seq<Byte>)
    ensures Hex(a + b) == Hex(a) + Hex(b)
  {
    if a != [] {
      assert (a + b)[0] == a[0];
      assert (a + b)[1..] == a[1..] + b;
      HexAppend(a[1..], b);
    } else {
      assert a + b == b;
    }
  }

  /** Characters 2i and 2i+1 of the hex text are `%02x` of byte i. */
  lemma {:induction false} HexAt(d: seq<Byte>, i: nat)
    requires i < |d|
    ensures Hex(d)[2 * i] == HexByte(d[i])[0]
    ensures Hex(d)[2 * i + 1] == HexByte(d[i])[1]
  {
    if i > 0 {
      HexAt(d[1..], i - 1);
    }
  }

  /** Every character of the hex text is a lowercase hex digit (so none is NUL). */
  lemma {:induction false} HexIsLowercase(d: seq<Byte>, k: nat)
    requires k < |Hex(d)|
    ensures IsLowerHexDigit(Hex(d)[k])
  {
    HexAt(d, k / 2);
    if k % 2 == 0 {
      assert k == 2 * (k / 2);
    } else {
      assert k == 2 * (k / 2) + 1;
    }
  }

  /** The hex text holds no NUL, so `%s` prints all of it. */
  lemma HexHasNoNul(d: seq<Byte>)
    ensures '\0' !in Hex(d)
  {
  }

  /** The hex text determines the bytes it encodes. */
  lemma {:induction false} HexInjective(a: seq<Byte>, b: seq<Byte>)
    requires Hex(a) == Hex(b)
    ensures a == b
  {
    if a != [] {
      assert |b| == |a|;
      var ha, hb := HexByte(a[0]), HexByte(b[0]);
      assert ha == Hex(a)[..2] && hb == Hex(b)[..2];
      assert a[0] == 16 * DigitValue(ha[0]) + DigitValue(ha[1]);
      assert Hex(a[1..]) == Hex(a)[2..] == Hex(b)[2..] == Hex(b[1..]);
      HexInjective(a[1..], b[1..]);
      assert a == [a[0]] + a[1..] && b == [b[0]] + b[1..];
    }
  }

  /** Two digests render alike exactly when the bytes `to_hex` reads agree. */
  lemma HexStringDetermines(d1: seq<Byte>, d2: seq<Byte>, digestlen: SizeT)
    requires HexBytes(digestlen) <= |d1| && HexBytes(digestlen) <= |d2|
    ensures HexString(d1, digestlen) == HexString(d2, digestlen)
        <==> d1[..HexBytes(digestlen)] == d2[..HexBytes(digestlen)]
  {
    if HexString(d1, digestlen) == HexString(d2, digestlen) {
      HexInjective(d1[..HexBytes(digestlen)], d2[..HexBytes(digestlen)]);
    }
  }

  /** `sprintf(buf + at, "%02x", b)`: two digits and a terminating NUL. */
  method FormatByte(buf: array<char>, at: nat, b: Byte)
    requires at + 2 < buf.Length
    modifies buf
    ensures buf[at] == HexByte(b)[0] && buf[at + 1] == HexByte(b)[1] && buf[at + 2] == '\0'
    ensures forall k :: 0 <= k < buf.Length && (k < at || at + 2 < k) ==> buf[k] == old(buf[k])
  {
    var s := HexByte(b);
    buf[at] := s[0];
    buf[at + 1] := s[1];
    buf[at + 2] := '\0';
  }

  /** `to_hex`: writes the hex text of the first HexBytes(digestlen) bytes of
      `digest` into `hexBuffer`, followed by a NUL; nothing past that NUL
      changes. Every write lands inside the 257-character buffer. */
  method ToHex(digest: array<Byte>, digestlen: SizeT, hexBuffer: array<char>)
    requires hexBuffer.Length == HEX_BUFFER_SIZE
    requires HexBytes(digestlen) <= digest.Length
    modifies hexBuffer
    ensures hexBuffer[..2 * HexBytes(digestlen)] == HexString(digest[..], digestlen)
    ensures hexBuffer[2 * HexBytes(digestlen)] == '\0'
    ensures forall k :: 2 * HexBytes(digestlen) < k < hexBuffer.Length ==> hexBuffer[k] == old(hexBuffer[k])
  {
    var b := 0;
    hexBuffer[b] := '\0';
    var i := 0;
    while i < SizeTBitsToBytes(digestlen) && i < BitsToBytes(1024)
      invariant 0 <= i <= HexBytes(digestlen) && b == 2 * i
      invariant hexBuffer[..b] == Hex(digest[..i])
      invariant hexBuffer[b] == '\0'
      invariant forall k :: b < k < hexBuffer.Length ==> hexBuffer[k] == old(hexBuffer[k])
    {
      ghost var before := hexBuffer[..b];
      FormatByte(hexBuffer, b, digest[i]);
      assert hexBuffer[..b] == before;
      assert hexBuffer[..b + 2] == before + HexByte(digest[i]);
      assert Hex([digest[i]]) == HexByte(digest[i]);
      assert digest[..i + 1] == digest[..i] + [digest[i]];
      HexAppend(digest[..i], [digest[i]]);
      b := b + 2;
      i := i + 1;
    }
    assert digest[..][..HexBytes(digestlen)] == digest[..i];
  }
}
