/** The `LE16` and `LE32` wrappers: integers stored as plain byte arrays,
    least significant byte first, so that a packed record has the same
    layout on every host. */
module LittleEndian {
  import opened Bytes

  /** `struct LE16 { uint8_t bytes[2]; }` */
  datatype LE16 = LE16(b0: uint8, b1: uint8) {

    /** The in-memory image of the struct: exactly its two bytes. */
    function Bytes(): (s: bytes)
      ensures |s| == 2 && s[0] == b0 && s[1] == b1
    {
      [b0, b1]
    }

    /** `operator uint16_t()`: the two byte lanes do not overlap, so the
        C `|` of the shifted bytes is their sum. */
    function Value(): uint16
    {
      b0 + 0x100 * b1
    }
  }

  /** `struct LE32 { uint8_t bytes[4]; }` */
  datatype LE32 = LE32(b0: uint8, b1: uint8, b2: uint8, b3: uint8) {

    function Bytes(): (s: bytes)
      ensures |s| == 4 && s[0] == b0 && s[1] == b1 && s[2] == b2 && s[3] == b3
    {
      [b0, b1, b2, b3]
    }

    /** `operator uint32_t()`: the OR of four non-overlapping byte lanes. */
    function Value(): uint32
    {
      b0 + 0x100 * b1 + 0x1_0000 * b2 + 0x100_0000 * b3
    }
  }

  /** `constexpr LE16(uint16_t value)`: `uint8_t(value)`, `uint8_t(value >> 8)`. */
  function FromU16(value: uint16): LE16
  {
    LE16(value % 0x100, (value / 0x100) % 0x100)
  }

  /** `constexpr LE32(uint32_t value)`: each byte is `uint8_t(value >> 8k)`. */
  function FromU32(value: uint32): (r: LE32)
  {
    LE32(value % 0x100, (value / 0x100) % 0x100,
         (value / 0x1_0000) % 0x100, (value / 0x100_0000) % 0x100)
  }

  /** Reading a packed `LE16` out of memory at `off`. */
  function ReadLE16(s: bytes, off: nat): LE16
    requires off + 2 <= |s|
  {
    LE16(s[off], s[off + 1])
  }

  /** Reading a packed `LE32` out of memory at `off`. */
  function ReadLE32(s: bytes, off: nat): LE32
    requires off + 4 <= |s|
  {
    LE32(s[off], s[off + 1], s[off + 2], s[off + 3])
  }

  /** Reading a packed field gives back exactly the bytes it covers. */
  lemma ReadLE16Bytes(s: bytes, off: nat)
    requires off + 2 <= |s|
    ensures ReadLE16(s, off).Bytes() == s[off..off + 2]
  {
  }

  lemma ReadLE32Bytes(s: bytes, off: nat)
    requires off + 4 <= |s|
    ensures ReadLE32(s, off).Bytes() == s[off..off + 4]
  {
  }

  /** `LE16(v)` stores the low byte first and the high byte second. */
  lemma FromU16Bytes(value: uint16)
    ensures FromU16(value).Bytes() == [value % 0x100, value / 0x100]
  {
  }

  /** Encoding then decoding gives the value back. */
  lemma FromU16Value(value: uint16)
    ensures FromU16(value).Value() == value
  {
  }

  /** Decoding then encoding gives the bytes back: together with
      FromU16Value, LE16 is a bijection between uint16 and two bytes. */
  lemma ValueFromU16(x: LE16)
    ensures FromU16(x.Value()) == x
  {
  }

  /** `LE32(v)` stores the bytes least significant first, and decoding
      gives the value back. */
  lemma FromU32Bytes(value: uint32)
    ensures FromU32(value).Bytes()[0] == value % 0x100
    ensures FromU32(value).Value() == value
  {
    var q1 := value / 0x100;
    var q2 := value / 0x1_0000;
    var q3 := value / 0x100_0000;
    assert q2 == q1 / 0x100;
    assert q3 == q2 / 0x100;
  }

  /** Decoding then encoding any four bytes gives them back: LE32 is a
      bijection between uint32 and four bytes. */
  lemma ValueFromU32(x: LE32)
    ensures FromU32(x.Value()) == x
  {
    var v := x.Value();
    var w2 := x.b2 + 0x100 * x.b3;
    var w1 := x.b1 + 0x100 * w2;
    assert v == x.b0 + 0x100 * w1;
    assert v / 0x100 == w1 && v % 0x100 == x.b0;
    assert w1 / 0x100 == w2 && w1 % 0x100 == x.b1;
    assert w2 / 0x100 == x.b3 && w2 % 0x100 == x.b2;
    assert v / 0x1_0000 == w1 / 0x100;
    assert v / 0x100_0000 == w2 / 0x100;
  }
}
