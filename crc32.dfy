/** CRC-32 as computed by zlib's `crc32()` (the reflected polynomial
    0xEDB88320 of APPNOTE section 4.4.7, with pre- and post-inversion),
    specified bit by bit. */
module Crc32 {
  import opened Bytes

  const POLYNOMIAL: bv32 := 0xEDB8_8320
  const BITS_PER_BYTE: nat := 8

  /** One shift of the reflected CRC register: shift right, and xor in the
      polynomial when the bit shifted out was set (`0 - 1` is all ones). */
  function Shift(c: bv32): bv32
  {
    (c >> 1) ^ (POLYNOMIAL & (0 - (c & 1)))
  }

  /** The bit pattern of a byte, built from its binary digits. */
  function Bits(b: uint8): bv8
    decreases b
  {
    if b == 0 then 0 else (Bits(b / 2) << 1) | (if b % 2 == 1 then 1 else 0)
  }

  /** `n` shifts of the register. */
  function Shifts(c: bv32, n: nat): bv32
    decreases n
  {
    if n == 0 then c else Shifts(Shift(c), n - 1)
  }

  /** Feeding one byte into the register: xor into the low byte, eight shifts. */
  function Feed(c: bv32, b: uint8): bv32
  {
    Shifts(c ^ (Bits(b) as bv32), BITS_PER_BYTE)
  }

  /** The register after feeding all of `s`, without the inversions. */
  function Register(c: bv32, s: bytes): bv32
    decreases |s|
  {
    if |s| == 0 then c else Register(Feed(c, s[0]), s[1..])
  }

  /** `crc32(crc, buf, len)`: continue the checksum `crc` over `buf`. */
  function Crc(crc: bv32, s: bytes): bv32
  {
    !Register(!crc, s)
  }

  /** `crc32(0, nullptr, 0)`, the starting value, is 0, and so is the
      checksum of nothing. */
  lemma CrcOfNothing(crc: bv32)
    ensures Crc(crc, []) == crc
  {
  }

  lemma {:induction false} RegisterAppend(c: bv32, a: bytes, b: bytes)
    ensures Register(c, a + b) == Register(Register(c, a), b)
    decreases |a|
  {
    if |a| == 0 {
      assert a + b == b;
    } else {
      assert (a + b)[0] == a[0];
      assert (a + b)[1..] == a[1..] + b;
      RegisterAppend(Feed(c, a[0]), a[1..], b);
    }
  }

  /** The chaining law zlib documents: checksumming `a` and then continuing
      over `b` gives the checksum of `a + b`, however the data is split. */
  lemma {:induction false} CrcAppend(crc: bv32, a: bytes, b: bytes)
    ensures Crc(Crc(crc, a), b) == Crc(crc, a + b)
  {
    var r := Register(!crc, a);
    RegisterAppend(!crc, a, b);
    ContinueFrom(r, b);
  }

  lemma {:induction false} ContinueFrom(r: bv32, b: bytes)
    ensures Crc(!r, b) == !Register(r, b)
  {
  }
}
