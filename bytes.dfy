/** Fixed-width unsigned integers as used by the C and C++ sources, and
    little-endian decoding of byte strings of any width. */
module Bytes {

  type uint8 = x: int | 0 <= x < 0x100
  type uint16 = x: int | 0 <= x < 0x1_0000
  type uint32 = x: int | 0 <= x < 0x1_0000_0000
  type uint64 = x: int | 0 <= x < 0x1_0000_0000_0000_0000

  /** A byte string: file contents, mapped memory, C strings without their NUL. */
  type bytes = seq<uint8>

  /** Unsigned little-endian value of `s` (first byte least significant),
      the way x86-64 reads a `size_t` or `uint32_t` field out of memory. */
  function UintLE(s: bytes): (v: nat)
    ensures |s| == 0 ==> v == 0
    ensures |s| > 0 ==> v % 0x100 == s[0]
  {
    if |s| == 0 then 0 else s[0] + 0x100 * UintLE(s[1..])
  }

  /** Truncation to a fixed width, as an assignment to a narrower unsigned
      C type does. */
  function Truncate16(x: nat): (r: uint16)
    ensures x < 0x1_0000 ==> r == x
  {
    x % 0x1_0000
  }

  function Truncate32(x: nat): (r: uint32)
    ensures x < 0x1_0000_0000 ==> r == x
  {
    x % 0x1_0000_0000
  }

  /** The byte strings `parts` written one after another. */
  function Concat(parts: seq<bytes>): (r: bytes)
  {
    if |parts| == 0 then [] else Concat(parts[..|parts| - 1]) + parts[|parts| - 1]
  }

  lemma ConcatAppend(parts: seq<bytes>, p: bytes)
    ensures Concat(parts + [p]) == Concat(parts) + p
  {
    assert (parts + [p])[..|parts|] == parts;
  }

  /** The concatenation of one more part. */
  lemma ConcatStep(parts: seq<bytes>, i: nat)
    requires i < |parts|
    ensures Concat(parts[..i + 1]) == Concat(parts[..i]) + parts[i]
  {
    assert parts[..i + 1] == parts[..i] + [parts[i]];
    ConcatAppend(parts[..i], parts[i]);
  }

  /** Writing fewer parts writes a prefix. */
  lemma {:induction false} ConcatPrefix(parts: seq<bytes>, i: nat)
    requires i <= |parts|
    ensures |Concat(parts[..i])| <= |Concat(parts)|
    ensures Concat(parts[..i]) == Concat(parts)[..|Concat(parts[..i])|]
    decreases |parts|
  {
    if i == |parts| {
      assert parts[..i] == parts;
    } else {
      var init := parts[..|parts| - 1];
      assert init[..i] == parts[..i];
      ConcatPrefix(init, i);
    }
  }

  /** Part `i` sits right after the parts before it. */
  lemma ConcatPart(parts: seq<bytes>, i: nat)
    requires i < |parts|
    ensures |Concat(parts[..i + 1])| == |Concat(parts[..i])| + |parts[i]|
    ensures |Concat(parts[..i])| + |parts[i]| <= |Concat(parts)|
    ensures Concat(parts)[|Concat(parts[..i])|..|Concat(parts[..i])| + |parts[i]|] == parts[i]
  {
    assert parts[..i + 1] == parts[..i] + [parts[i]];
    ConcatAppend(parts[..i], parts[i]);
    ConcatPrefix(parts, i + 1);
  }

  /** Appending the two halves of part `k` to a prefix holding the parts
      before it gives the prefix holding part `k` too. */
  lemma AppendPart(start: bytes, parts: seq<bytes>, k: nat, a: bytes, b: bytes)
    requires k < |parts| && parts[k] == a + b
    ensures start + Concat(parts[..k]) + a + b == start + Concat(parts[..k + 1])
  {
    ConcatStep(parts, k);
    AppendAssociates(start, Concat(parts[..k]), parts[k]);
    assert start + Concat(parts[..k]) + a + b == start + Concat(parts[..k]) + (a + b);
  }

  /** The three parts of a slice that is a concatenation of three. */
  lemma SliceOfThree(m: bytes, at: nat, a: bytes, b: bytes, c: bytes)
    requires at + |a| + |b| + |c| <= |m| && m[at..at + |a| + |b| + |c|] == a + b + c
    ensures m[at..at + |a|] == a
    ensures m[at + |a|..at + |a| + |b|] == b
    ensures m[at + |a| + |b|..at + |a| + |b| + |c|] == c
  {
    var whole := m[at..at + |a| + |b| + |c|];
    forall i | 0 <= i < |a| + |b| + |c|
      ensures m[at + i] == whole[i]
    {
    }
    assert m[at..at + |a|] == whole[..|a|];
    assert m[at + |a|..at + |a| + |b|] == whole[|a|..|a| + |b|];
    assert m[at + |a| + |b|..at + |a| + |b| + |c|] == whole[|a| + |b|..];
  }

  lemma AppendAssociates(a: bytes, b: bytes, c: bytes)
    ensures (a + b) + c == a + (b + c)
  {
  }

  /** Copies `src` into `buf` at `at` and returns the position after it
      (`std::copy`, `mempcpy`). */
  method CopyInto(buf: array<uint8>, at: nat, src: bytes) returns (next: nat)
    requires at + |src| <= buf.Length
    modifies buf
    ensures next == at + |src|
    ensures buf[..next] == old(buf[..at]) + src
  {
    var i := 0;
    while i < |src|
      invariant 0 <= i <= |src|
      invariant buf[..at + i] == old(buf[..at]) + src[..i]
    {
      buf[at + i] := src[i];
      assert buf[..at + i + 1] == buf[..at + i] + [src[i]];
      assert src[..i + 1] == src[..i] + [src[i]];
      i := i + 1;
    }
    assert src[..i] == src;
    return at + |src|;
  }

  /** A byte string a C string can hold. */
  predicate NoNul(s: bytes)
  {
    forall i :: 0 <= i < |s| ==> s[i] != 0
  }

  lemma NoNulJoin(a: bytes, b: bytes)
    requires NoNul(a) && NoNul(b)
    ensures NoNul(a + b)
  {
  }
}
