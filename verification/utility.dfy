/** Big-endian integer readers over the raw class-file buffer
    (Sources/jacobin/Utility.swift and the reader helpers its callers use).

    `Int16FromBytes` is `Utility.getInt16fromBytes` exactly: Swift computes
    `Int16(msb) * 256 + Int16(lsb)` in checked 16-bit arithmetic, so the
    product overflows and traps once `msb >= 128`.  The other readers the
    decoder calls (`getInt16from2Bytes`, `getIntFrom2Bytes`,
    `getIntfrom4Bytes`) are not part of this model's sources; they are
    modelled as the unsigned big-endian u2 and u4 reads of chapter 4 of the
    Java Virtual Machine Specification, which trap only when they index past
    the end of the buffer. */
module Utility {
  import opened Exceptions

  type byte = b: int | 0 <= b < 256

  const MaxInt16: int := 0x7FFF

  /** getInt16fromBytes: the Int16 built from a most- and a least-significant byte. */
  function Int16FromBytes(msb: byte, lsb: byte): (r: Result<int>)
    ensures r.Ok? <==> msb < 128
    ensures r.Err? ==> r.fault == Trap(ArithmeticOverflow)
    ensures r.Ok? ==> 0 <= r.value <= MaxInt16 && r.value / 256 == msb && r.value % 256 == lsb
  {
    // Int16(msb) * 256 is the only operation that can leave the Int16 range:
    // when it does not, adding Int16(lsb) stays at or below 127 * 256 + 255.
    if msb * 256 > MaxInt16 then Err(Trap(ArithmeticOverflow))
    else Ok(msb * 256 + lsb)
  }

  /** On its domain, getInt16fromBytes loses no information. */
  lemma Int16FromBytesInjective(m1: byte, l1: byte, m2: byte, l2: byte)
    requires Int16FromBytes(m1, l1).Ok? && Int16FromBytes(m2, l2).Ok?
    requires Int16FromBytes(m1, l1).value == Int16FromBytes(m2, l2).value
    ensures m1 == m2 && l1 == l2
  {
  }

  /** `getInt16fromBytes(msb: bytes[i], lsb: bytes[i + 1])`: both subscripts are
      evaluated (and may trap) before the arithmetic. */
  function Int16At(bytes: seq<byte>, i: int): (r: Result<int>)
    ensures r.Ok? <==> 0 <= i && i + 1 < |bytes| && bytes[i] < 128
    ensures !(0 <= i && i + 1 < |bytes|) ==> r == Err(Trap(IndexOutOfRange))
    ensures r.Ok? ==> r == U16At(bytes, i)
  {
    if !(0 <= i && i + 1 < |bytes|) then Err(Trap(IndexOutOfRange))
    else Int16FromBytes(bytes[i], bytes[i + 1])
  }

  /** Unsigned big-endian u2 at bytes[i], bytes[i + 1]. */
  function U16At(bytes: seq<byte>, i: int): (r: Result<int>)
    ensures r.Ok? <==> 0 <= i && i + 1 < |bytes|
    ensures r.Err? ==> r.fault == Trap(IndexOutOfRange)
    ensures r.Ok? ==> 0 <= r.value < 0x1_0000
  {
    if !(0 <= i && i + 1 < |bytes|) then Err(Trap(IndexOutOfRange))
    else Ok(bytes[i] as int * 256 + bytes[i + 1])
  }

  /** A u2 keeps both of its bytes: the high one as quotient, the low one as remainder. */
  lemma U16AtDigits(bytes: seq<byte>, i: int)
    requires 0 <= i && i + 1 < |bytes|
    ensures U16At(bytes, i).value / 256 == bytes[i] && U16At(bytes, i).value % 256 == bytes[i + 1]
  {
  }

  /** Unsigned big-endian u4 at bytes[i .. i + 4]: two u2 reads. */
  function U32At(bytes: seq<byte>, i: int): (r: Result<int>)
    ensures r.Ok? <==> 0 <= i && i + 3 < |bytes|
    ensures r.Err? ==> r.fault == Trap(IndexOutOfRange)
    ensures r.Ok? ==> 0 <= r.value < 0x1_0000_0000
  {
    if !(0 <= i && i + 3 < |bytes|) then Err(Trap(IndexOutOfRange))
    else Ok(U16At(bytes, i).value * 0x1_0000 + U16At(bytes, i + 2).value)
  }

  /** The two bytes a u2 is written as. */
  function U16Bytes(v: int): (s: seq<byte>)
    requires 0 <= v < 0x1_0000
    ensures |s| == 2
  {
    [v / 256, v % 256]
  }

  /** The four bytes a u4 is written as. */
  function U32Bytes(v: int): (s: seq<byte>)
    requires 0 <= v < 0x1_0000_0000
    ensures |s| == 4
  {
    U16Bytes(v / 0x1_0000) + U16Bytes(v % 0x1_0000)
  }

  /** Reading a u2 back from where it was written gives the value written. */
  lemma U16RoundTrip(pre: seq<byte>, v: int, post: seq<byte>)
    requires 0 <= v < 0x1_0000
    ensures U16At(pre + U16Bytes(v) + post, |pre|) == Ok(v)
  {
    var s := pre + U16Bytes(v) + post;
    assert s[|pre|] == v / 256 && s[|pre| + 1] == v % 256;
  }

  /** Reading a u4 back from where it was written gives the value written. */
  lemma U32RoundTrip(pre: seq<byte>, v: int, post: seq<byte>)
    requires 0 <= v < 0x1_0000_0000
    ensures U32At(pre + U32Bytes(v) + post, |pre|) == Ok(v)
  {
    var s := pre + U32Bytes(v) + post;
    U16RoundTrip(pre, v / 0x1_0000, U16Bytes(v % 0x1_0000) + post);
    assert s == pre + U16Bytes(v / 0x1_0000) + (U16Bytes(v % 0x1_0000) + post);
    U16RoundTrip(pre + U16Bytes(v / 0x1_0000), v % 0x1_0000, post);
    assert s == (pre + U16Bytes(v / 0x1_0000)) + U16Bytes(v % 0x1_0000) + post;
  }

  /** The bytes from offset i on begin with w.  Stated element by element,
      recursively, so that a proof unfolds only the positions it needs. */
  predicate HoldsAt(bytes: seq<byte>, i: int, w: seq<byte>)
    decreases |w|
  {
    w == [] || (0 <= i < |bytes| && bytes[i] == w[0] && HoldsAt(bytes, i + 1, w[1..]))
  }

  lemma {:induction false} HoldsAtIndex(bytes: seq<byte>, i: int, w: seq<byte>, j: int)
    requires HoldsAt(bytes, i, w) && 0 <= j < |w|
    ensures 0 <= i + j < |bytes| && bytes[i + j] == w[j]
    decreases |w|
  {
    if j > 0 {
      HoldsAtIndex(bytes, i + 1, w[1..], j - 1);
    }
  }

  /** What holds at i for a + b is a at i, then b right after it. */
  lemma {:induction false} HoldsAtSplit(bytes: seq<byte>, i: int, a: seq<byte>, b: seq<byte>)
    requires HoldsAt(bytes, i, a + b)
    ensures HoldsAt(bytes, i, a) && HoldsAt(bytes, i + |a|, b)
    decreases |a|
  {
    if a != [] {
      assert (a + b)[1..] == a[1..] + b;
      HoldsAtSplit(bytes, i + 1, a[1..], b);
    } else {
      assert a + b == b;
    }
  }

  /** A byte string written between two others holds where it was written. */
  lemma {:induction false} HoldsAtConcat(pre: seq<byte>, w: seq<byte>, post: seq<byte>)
    ensures HoldsAt(pre + w + post, |pre|, w)
    decreases |w|
  {
    if w != [] {
      assert pre + w + post == (pre + [w[0]]) + w[1..] + post;
      HoldsAtConcat(pre + [w[0]], w[1..], post);
    }
  }

  /** A u2 read where its two bytes were written. */
  lemma U16Holds(bytes: seq<byte>, i: int, v: int)
    requires 0 <= v < 0x1_0000 && HoldsAt(bytes, i, U16Bytes(v))
    ensures U16At(bytes, i) == Ok(v)
  {
    HoldsAtIndex(bytes, i, U16Bytes(v), 0);
    HoldsAtIndex(bytes, i, U16Bytes(v), 1);
  }

  /** A u4 read where its four bytes were written. */
  lemma U32Holds(bytes: seq<byte>, i: int, v: int)
    requires 0 <= v < 0x1_0000_0000 && HoldsAt(bytes, i, U32Bytes(v))
    ensures U32At(bytes, i) == Ok(v)
  {
    HoldsAtSplit(bytes, i, U16Bytes(v / 0x1_0000), U16Bytes(v % 0x1_0000));
    U16Holds(bytes, i, v / 0x1_0000);
    U16Holds(bytes, i + 2, v % 0x1_0000);
    HoldsAtIndex(bytes, i + 2, U16Bytes(v % 0x1_0000), 1);
  }
}
