/** C-level types used by skeinsum: octets, a 64-bit size_t, a 32-bit int,
    and the view a "%s" conversion has of a character buffer. */
module Machine {

  type Byte = x: int | 0 <= x < 0x100

  const SIZE_T_MODULUS: int := 0x1_0000_0000_0000_0000
  const SIZE_MAX: int := SIZE_T_MODULUS - 1

  /** An unsigned 64-bit `size_t`. */
  type SizeT = x: int | 0 <= x < SIZE_T_MODULUS

  /** A signed 32-bit `int`, the type `atoi` returns. */
  type Int32 = x: int | -0x8000_0000 <= x < 0x8000_0000

  /** Conversion of an `int` to `size_t`: reduction modulo 2^64, so a negative
      value becomes a huge one. */
  function ToSizeT(x: Int32): (r: SizeT)
    ensures 0 <= x ==> r == x
    ensures x < 0 ==> r == SIZE_T_MODULUS + x
  {
    x % SIZE_T_MODULUS
  }

  function Min(a: int, b: int): int {
    if a <= b then a else b
  }

  /** What a C string function reading `buf` sees: the characters before the
      first NUL (all of `buf` if there is none). */
  function CString(buf: seq<char>): (s: string)
    ensures |s| <= |buf| && s == buf[..|s|]
    ensures '\0' !in s
    ensures |s| < |buf| ==> buf[|s|] == '\0'
  {
    if buf == [] || buf[0] == '\0' then "" else [buf[0]] + CString(buf[1..])
  }

  /** A buffer holding NUL-free text followed by a NUL reads as that text. */
  lemma CStringTerminated(buf: seq<char>, len: nat)
    requires len < |buf| && buf[len] == '\0'
    requires '\0' !in buf[..len]
    ensures CString(buf) == buf[..len]
  {
  }
}
