/** The constant-pool decoder and its cross-reference validator
    (Sources/jacobin/Classfile/ConstantPool.swift; JVMS section 4.4).

    Offsets follow the decoder's convention: a position names the LAST byte
    already consumed, and the next read is at position + 1.  The pool
    starts after the count field, whose last byte is at offset 9. */
module ConstantPool {
  import opened Exceptions
  import opened Utility
  import opened Klass

  /** Foundation's `String(bytes:encoding: .utf8)`, which is not part of this
      model: a partial decoder from bytes to a string, given as a parameter. */
  type Utf8Decoder = seq<byte> -> Option<string>

  /** Offset of the last byte of the constant_pool_count field. */
  const PoolStart: int := 9

  /** What decoding consumed: the slots it appended, and the offset of the
      last byte it read. */
  datatype Step = Step(entries: seq<CpEntry>, next: int)

  /** Bytes after the tag taken by an entry of fixed size (JVMS 4.4); 0 for
      a tag the decoder does not handle. */
  function FixedPayload(tag: int): int {
    match tag
    case 3 => 4
    case 5 => 8
    case 7 => 2
    case 8 => 2
    case 9 => 4
    case 10 => 4
    case 12 => 4
    case _ => 0
  }

  predicate IsHandledTag(tag: int) {
    tag == 1 || tag == 3 || tag == 5 || tag == 7 || tag == 8 || tag == 9 || tag == 10 || tag == 12
  }

  /** Pool slots appended for one tag: a long takes two, an unknown tag none. */
  function SlotsAppended(tag: int): nat {
    if tag == 5 then 2 else if IsHandledTag(tag) then 1 else 0
  }

  /** `Int64((high << 32) + low)` on Swift's 64-bit Int: the shift drops the
      bits above 64, and the result is read as a two's-complement value. */
  function LongValue(high: int, low: int): (r: int)
    requires 0 <= high < 0x1_0000_0000 && 0 <= low < 0x1_0000_0000
    ensures -0x8000_0000_0000_0000 <= r < 0x8000_0000_0000_0000
    ensures r < 0 <==> high >= 0x8000_0000
    ensures (high * 0x1_0000_0000 + low - r) % 0x1_0000_0000_0000_0000 == 0
  {
    var u := high * 0x1_0000_0000 + low;
    if u < 0x8000_0000_0000_0000 then u else u - 0x1_0000_0000_0000_0000
  }

  /** One iteration of `load`: `at` is the last byte consumed before it.
      The tag byte selects one of the per-kind decoders below. */
  function DecodeEntry(bytes: seq<byte>, at: int, decode: Utf8Decoder): (r: Result<Step>)
    ensures r.Ok? ==> 0 <= at + 1 <= r.value.next < |bytes|
    ensures r.Ok? ==> |r.value.entries| == SlotsAppended(bytes[at + 1])
    ensures r.Ok? && IsHandledTag(bytes[at + 1]) ==> r.value.entries[0].Tag() == bytes[at + 1]
    ensures r.Ok? && bytes[at + 1] != 1 ==> r.value.next == at + 1 + FixedPayload(bytes[at + 1])
    ensures r.Ok? && bytes[at + 1] == 1 ==>
              U16At(bytes, at + 2).Ok? && r.value.next == at + 1 + 2 + U16At(bytes, at + 2).value
    ensures r.Err? ==> r.fault.Trap?
  {
    var c := at + 1;
    if !(0 <= c < |bytes|) then Err(Trap(IndexOutOfRange))
    else
      match bytes[c]
      case 1 => DecodeUtf8(bytes, c, decode)
      case 3 => DecodeInteger(bytes, c)
      case 5 => DecodeLong(bytes, c)
      case 7 => DecodeIndex(bytes, c, 7)
      case 8 => DecodeIndex(bytes, c, 8)
      case 9 => DecodeIndexPair(bytes, c, 9)
      case 10 => DecodeIndexPair(bytes, c, 10)
      case 12 => DecodeIndexPair(bytes, c, 12)
      case _ => Ok(Step([], c))
  }

  /** A Utf8 entry whose tag is at offset c: a u2 length, then that many
      bytes copied into a buffer and handed to the string decoder; a buffer
      that does not decode leaves the empty string. */
  function DecodeUtf8(bytes: seq<byte>, c: int, decode: Utf8Decoder): (r: Result<Step>)
    requires 0 <= c
    ensures r.Ok? <==> U16At(bytes, c + 1).Ok? && 1 <= U16At(bytes, c + 1).value && c + 2 + U16At(bytes, c + 1).value < |bytes|
    ensures r.Ok? ==> r.value.next == c + 2 + U16At(bytes, c + 1).value
    ensures r.Ok? ==> |r.value.entries| == 1 && r.value.entries[0].Utf8?
  {
    var length :- U16At(bytes, c + 1);
    // `for n in 0...Int(length-1)` cannot be built for an empty string
    if length - 1 < 0 then Err(Trap(EmptyRange))
    else if c + 2 + length >= |bytes| then Err(Trap(IndexOutOfRange))
    else
      var s := match decode(CopyBytes(bytes, c + 3, length)) case Some(t) => t case None => "";
      Ok(Step([Utf8(s)], c + 2 + length))
  }

  /** An Integer entry whose tag is at offset c: a u4. */
  function DecodeInteger(bytes: seq<byte>, c: int): (r: Result<Step>)
    requires 0 <= c
    ensures r.Ok? <==> c + 4 < |bytes|
    ensures r.Ok? ==> r.value == Step([IntegerConst(U32At(bytes, c + 1).value)], c + 4)
  {
    var v :- U32At(bytes, c + 1);
    Ok(Step([IntegerConst(v)], c + 4))
  }

  /** A Long entry whose tag is at offset c: a high and a low u4, filling
      two slots, the second of them never used. */
  function DecodeLong(bytes: seq<byte>, c: int): (r: Result<Step>)
    requires 0 <= c
    ensures r.Ok? <==> c + 8 < |bytes|
    ensures r.Ok? ==> |r.value.entries| == 2 && r.value.next == c + 8
    ensures r.Ok? ==> r.value.entries[0].LongConst? && r.value.entries[1] == Placeholder
  {
    var high :- U32At(bytes, c + 1);
    var low :- U32At(bytes, c + 5);
    Ok(Step([LongConst(LongValue(high, low)), Placeholder], c + 8))
  }

  /** A Class (tag 7) or String (tag 8) entry whose tag is at offset c: one u2 index. */
  function DecodeIndex(bytes: seq<byte>, c: int, tag: int): (r: Result<Step>)
    requires 0 <= c && (tag == 7 || tag == 8)
    ensures r.Ok? <==> c + 2 < |bytes|
    ensures r.Ok? ==> |r.value.entries| == 1 && r.value.entries[0].Tag() == tag && r.value.next == c + 2
  {
    var i :- U16At(bytes, c + 1);
    Ok(Step([if tag == 7 then ClassRef(i) else StringRef(i)], c + 2))
  }

  /** A Fieldref (9), Methodref (10) or NameAndType (12) entry whose tag is
      at offset c: two u2 indices. */
  function DecodeIndexPair(bytes: seq<byte>, c: int, tag: int): (r: Result<Step>)
    requires 0 <= c && (tag == 9 || tag == 10 || tag == 12)
    ensures r.Ok? <==> c + 4 < |bytes|
    ensures r.Ok? ==> |r.value.entries| == 1 && r.value.entries[0].Tag() == tag && r.value.next == c + 4
  {
    var first :- U16At(bytes, c + 1);
    var second :- U16At(bytes, c + 3);
    Ok(Step([if tag == 9 then FieldRef(first, second)
             else if tag == 10 then MethodRef(first, second)
             else NameAndType(first, second)], c + 4))
  }

  /** bytes[from], ..., bytes[from + n - 1], appended one at a time to an
      empty buffer. */
  function CopyBytes(bytes: seq<byte>, from: nat, n: nat): seq<byte>
    requires from + n <= |bytes|
  {
    if n == 0 then [] else CopyBytes(bytes, from, n - 1) + [bytes[from + n - 1]]
  }

  /** The copy holds exactly the bytes it was taken from. */
  lemma {:induction false} CopyBytesIsSlice(bytes: seq<byte>, from: nat, n: nat)
    requires from + n <= |bytes|
    ensures CopyBytes(bytes, from, n) == bytes[from .. from + n]
  {
    if n > 0 {
      CopyBytesIsSlice(bytes, from, n - 1);
    }
  }

  /** The first n iterations of `load`, from offset PoolStart.  Every
      iteration moves past at least its tag byte and appends at most two
      slots, and the offset returned names a byte of the buffer: the last
      one read. */
  function DecodeEntries(bytes: seq<byte>, n: nat, decode: Utf8Decoder): (r: Result<Step>)
    ensures r.Ok? ==> PoolStart + n <= r.value.next
    ensures r.Ok? && n > 0 ==> r.value.next < |bytes|
    ensures r.Ok? ==> |r.value.entries| <= 2 * n
    ensures r.Err? ==> r.fault.Trap?
  {
    if n == 0 then Ok(Step([], PoolStart))
    else
      var prev :- DecodeEntries(bytes, n - 1, decode);
      var step :- DecodeEntry(bytes, prev.next, decode);
      Ok(Step(prev.entries + step.entries, step.next))
  }

  /** All of `load`: slot 0, then `count - 1` iterations.  It fails only
      by trapping, a count below 2 on the empty range. */
  function DecodePool(bytes: seq<byte>, count: int, decode: Utf8Decoder): (r: Result<Step>)
    ensures count < 2 ==> r == Err(Trap(EmptyRange))
    ensures r.Err? ==> r.fault.Trap?
    ensures r.Ok? ==> && 1 <= |r.value.entries| <= 2 * count - 1 && r.value.entries[0] == Placeholder
                      && PoolStart + count - 1 <= r.value.next < |bytes|
  {
    // `for _ in 1...count - 1` cannot be built when count < 2
    if count - 1 < 1 then Err(Trap(EmptyRange))
    else
      var s :- DecodeEntries(bytes, count - 1, decode);
      Ok(Step([Placeholder] + s.entries, s.next))
  }

  /** Once an iteration traps, the whole loop ends with that trap. */
  lemma {:induction false} DecodeEntriesFailurePersists(bytes: seq<byte>, k: nat, m: nat, decode: Utf8Decoder)
    requires k <= m && DecodeEntries(bytes, k, decode).Err?
    ensures DecodeEntries(bytes, m, decode) == DecodeEntries(bytes, k, decode)
    decreases m
  {
    if k < m {
      DecodeEntriesFailurePersists(bytes, k, m - 1, decode);
    }
  }

  /** One iteration of the loop in `load`, as straight-line code. */
  method LoadEntry(bytes: seq<byte>, at: int, decode: Utf8Decoder) returns (r: Result<Step>)
    ensures r == DecodeEntry(bytes, at, decode)
  {
    var byteCounter := at + 1;
    if !(0 <= byteCounter < |bytes|) {
      return Err(Trap(IndexOutOfRange));
    }
    var cpeType := bytes[byteCounter];
    if cpeType == 1 {
      var length :- U16At(bytes, byteCounter + 1);
      byteCounter := byteCounter + 2;
      if length - 1 < 0 {
        return Err(Trap(EmptyRange));
      }
      var buffer: seq<byte> := [];
      for n := 0 to length
        invariant byteCounter + n < |bytes|
        invariant buffer == CopyBytes(bytes, byteCounter + 1, n)
      {
        if byteCounter + n + 1 >= |bytes| {
          return Err(Trap(IndexOutOfRange));
        }
        buffer := buffer + [bytes[byteCounter + n + 1]];
      }
      var utf8String := match decode(buffer) case Some(t) => t case None => "";
      byteCounter := byteCounter + length;
      return Ok(Step([Utf8(utf8String)], byteCounter));
    } else if cpeType == 3 {
      var value :- U32At(bytes, byteCounter + 1);
      return Ok(Step([IntegerConst(value)], byteCounter + 4));
    } else if cpeType == 5 {
      var highBytes :- U32At(bytes, byteCounter + 1);
      var lowBytes :- U32At(bytes, byteCounter + 5);
      // the second slot of a long is never accessed: a placeholder fills it
      return Ok(Step([LongConst(LongValue(highBytes, lowBytes)), Placeholder], byteCounter + 8));
    } else if cpeType == 7 || cpeType == 8 {
      var index :- U16At(bytes, byteCounter + 1);
      var entry := if cpeType == 7 then ClassRef(index) else StringRef(index);
      return Ok(Step([entry], byteCounter + 2));
    } else if cpeType == 9 || cpeType == 10 || cpeType == 12 {
      var first :- U16At(bytes, byteCounter + 1);
      var second :- U16At(bytes, byteCounter + 3);
      var entry := if cpeType == 9 then FieldRef(first, second)
                   else if cpeType == 10 then MethodRef(first, second)
                   else NameAndType(first, second);
      return Ok(Step([entry], byteCounter + 4));
    }
    // an unhandled tag is reported and skipped: nothing appended, no payload consumed
    return Ok(Step([], byteCounter));
  }

  /** ConstantPool.load: appends slot 0 and the decoded entries to klass.cp
      and returns the offset of the last byte of the pool. */
  method Load(klass: LoadedClass, decode: Utf8Decoder) returns (r: Result<int>)
    modifies klass`cp
    ensures var p := DecodePool(klass.rawBytes, klass.constantPoolCount, decode);
              && (r.Ok? <==> p.Ok?)
              && (r.Err? ==> r.fault == p.fault)
              && (r.Ok? ==> r.value == p.value.next && klass.cp == old(klass.cp) + p.value.entries)
  {
    var bytes, count := klass.rawBytes, klass.constantPoolCount;
    var byteCounter := PoolStart;
    klass.cp := klass.cp + [Placeholder];  // entry 0 is never used
    if count - 1 < 1 {
      return Err(Trap(EmptyRange));
    }
    ghost var decoded: seq<CpEntry> := [];
    var i := 1;
    while i <= count - 1
      invariant 1 <= i <= count
      invariant klass.cp == old(klass.cp) + [Placeholder] + decoded
      invariant DecodeEntries(bytes, i - 1, decode) == Ok(Step(decoded, byteCounter))
    {
      var step := LoadEntry(bytes, byteCounter, decode);
      if step.Err? {
        DecodeEntriesFailurePersists(bytes, i, count - 1, decode);
        return Err(step.fault);
      }
      DecodeEntriesSnoc(bytes, i, decode, Step(decoded, byteCounter), step.value);
      klass.cp := klass.cp + step.value.entries;
      decoded := decoded + step.value.entries;
      byteCounter := step.value.next;
      i := i + 1;
    }
    assert klass.cp == old(klass.cp) + ([Placeholder] + decoded);
    return Ok(byteCounter);
  }

  // ---------------------------------------------------------------------
  // Properties of the decoder

  /** A long constant is always followed by the placeholder filling its
      second slot. */
  predicate LongsPaired(entries: seq<CpEntry>) {
    forall k :: 0 <= k < |entries| && entries[k].LongConst? ==>
      k + 1 < |entries| && entries[k + 1] == Placeholder
  }

  lemma {:induction false} DecodeEntriesPairsLongs(bytes: seq<byte>, n: nat, decode: Utf8Decoder)
    requires DecodeEntries(bytes, n, decode).Ok?
    ensures LongsPaired(DecodeEntries(bytes, n, decode).value.entries)
  {
    if n > 0 {
      DecodeEntriesPairsLongs(bytes, n - 1, decode);
      var prev := DecodeEntries(bytes, n - 1, decode).value;
      var step := DecodeEntry(bytes, prev.next, decode).value;
      var all := prev.entries + step.entries;
      forall k | 0 <= k < |all| && all[k].LongConst?
        ensures k + 1 < |all| && all[k + 1] == Placeholder
      {
        if k >= |prev.entries| {
          assert step.entries[k - |prev.entries|].LongConst?;
        }
      }
    }
  }

  /** The start of a class file whose pool count is 3 and whose pool is
      one long constant, which takes slots 1 and 2 (JVMS 4.4.5); the pool
      ends at offset 18 and access_flags (0x0021) follows at 19-20. */
  const OneLongClass: seq<byte> :=
    [0xCA, 0xFE, 0xBA, 0xBE, 0x00, 0x00, 0x00, 0x34, 0x00, 0x03,
     0x05, 0x00, 0x00, 0x00, 0x00, 0x00, 0x00, 0x00, 0x01,
     0x00, 0x21, 0x00, 0x02, 0x00, 0x04]

  /** The first iteration over OneLongClass decodes the long 1. */
  lemma OneLongFirstEntry(decode: Utf8Decoder)
    ensures DecodeEntry(OneLongClass, PoolStart, decode) == Ok(Step([LongConst(1), Placeholder], 18))
  {
    assert U32At(OneLongClass, 11) == Ok(0) && U32At(OneLongClass, 15) == Ok(1);
  }

  /** The second iteration over OneLongClass meets byte 19, 0x00, which is
      no tag the decoder handles. */
  lemma OneLongSecondEntry(decode: Utf8Decoder)
    ensures DecodeEntry(OneLongClass, 18, decode) == Ok(Step([], 19))
  {
    assert OneLongClass[19] == 0;
  }

  /** access_flags of OneLongClass is 0x0021 at offsets 19-20; the pair at
      20-21 reads 0x2100. */
  lemma OneLongAccessFlags()
    ensures U16At(OneLongClass, 19) == Ok(0x0021) && U16At(OneLongClass, 20) == Ok(0x2100)
  {
    assert OneLongClass[19] == 0x00 && OneLongClass[20] == 0x21 && OneLongClass[21] == 0x00;
  }

  /** Two iterations over OneLongClass: the long, then the stray byte. */
  lemma OneLongEntries(decode: Utf8Decoder)
    ensures DecodeEntries(OneLongClass, 2, decode) == Ok(Step([LongConst(1), Placeholder], 19))
  {
    var long: seq<CpEntry> := [LongConst(1), Placeholder];
    OneLongFirstEntry(decode);
    OneLongSecondEntry(decode);
    assert DecodeEntries(OneLongClass, 0, decode) == Ok(Step([], PoolStart));
    assert [] + long == long && long + [] == long;
    assert DecodeEntries(OneLongClass, 1, decode) == Ok(Step(long, 18));
  }

  /** `load` runs count - 1 iterations whatever the entries fill, so after
      a long it runs one iteration too many: here it takes the high byte of
      access_flags as an unhandled tag and the pool ends at 19, one byte
      late, so the access flags are then read from offsets 20-21. */
  lemma LongOverrunsPool(decode: Utf8Decoder)
    ensures DecodePool(OneLongClass, 3, decode) == Ok(Step([Placeholder, LongConst(1), Placeholder], 19))
    ensures U16At(OneLongClass, 19) == Ok(0x0021) && U16At(OneLongClass, 20) == Ok(0x2100)
  {
    OneLongEntries(decode);
    OneLongAccessFlags();
    assert [Placeholder] + [LongConst(1), Placeholder] == [Placeholder, LongConst(1), Placeholder];
  }

  /** The two's-complement pattern of a 64-bit value, as an unsigned number. */
  function Unsigned64(v: int): (u: int)
    requires -0x8000_0000_0000_0000 <= v < 0x8000_0000_0000_0000
    ensures 0 <= u < 0x1_0000_0000_0000_0000
  {
    if v >= 0 then v else v + 0x1_0000_0000_0000_0000
  }

  /** The high and low words of a long are recovered exactly from its value. */
  lemma LongValueRoundTrip(v: int)
    requires -0x8000_0000_0000_0000 <= v < 0x8000_0000_0000_0000
    ensures LongValue(Unsigned64(v) / 0x1_0000_0000, Unsigned64(v) % 0x1_0000_0000) == v
  {
    var u := Unsigned64(v);
    assert u == (u / 0x1_0000_0000) * 0x1_0000_0000 + u % 0x1_0000_0000;
  }

  /** Entries that have a byte encoding the decoder reads back. */
  predicate Encodable(e: CpEntry) {
    match e
    case IntegerConst(v) => 0 <= v < 0x1_0000_0000
    case LongConst(v) => -0x8000_0000_0000_0000 <= v < 0x8000_0000_0000_0000
    case ClassRef(i) => 0 <= i < 0x1_0000
    case StringRef(i) => 0 <= i < 0x1_0000
    case FieldRef(c, nt) => 0 <= c < 0x1_0000 && 0 <= nt < 0x1_0000
    case MethodRef(c, nt) => 0 <= c < 0x1_0000 && 0 <= nt < 0x1_0000
    case NameAndType(n, d) => 0 <= n < 0x1_0000 && 0 <= d < 0x1_0000
    case _ => false
  }

  /** The JVMS 4.4 byte layout of an entry: tag byte, then its fields. */
  function EncodeEntry(e: CpEntry): (s: seq<byte>)
    requires Encodable(e)
    ensures |s| == 1 + FixedPayload(e.Tag())
  {
    [e.Tag()] + EncodeFields(e)
  }

  /** The fields that follow the tag byte, each big-endian. */
  function EncodeFields(e: CpEntry): (s: seq<byte>)
    requires Encodable(e)
    ensures |s| == FixedPayload(e.Tag())
  {
    match e
    case IntegerConst(v) => U32Bytes(v)
    case LongConst(v) => U32Bytes(Unsigned64(v) / 0x1_0000_0000) + U32Bytes(Unsigned64(v) % 0x1_0000_0000)
    case ClassRef(i) => U16Bytes(i)
    case StringRef(i) => U16Bytes(i)
    case FieldRef(c, nt) => U16Bytes(c) + U16Bytes(nt)
    case MethodRef(c, nt) => U16Bytes(c) + U16Bytes(nt)
    case NameAndType(n, d) => U16Bytes(n) + U16Bytes(d)
  }

  /** The pool slots an entry occupies once decoded. */
  function Slots(e: CpEntry): seq<CpEntry> {
    if e.LongConst? then [e, Placeholder] else [e]
  }

  /** The encoding of e occupies the bytes after offset at. */
  predicate EncodedAt(bytes: seq<byte>, at: int, e: CpEntry)
    requires Encodable(e)
  {
    HoldsAt(bytes, at + 1, EncodeEntry(e))
  }

  /** Decoding an encoded entry gives back its slots and stops on its last byte. */
  lemma EntryReadBack(bytes: seq<byte>, at: int, e: CpEntry, decode: Utf8Decoder)
    requires Encodable(e) && EncodedAt(bytes, at, e)
    ensures DecodeEntry(bytes, at, decode) == Ok(Step(Slots(e), at + |EncodeEntry(e)|))
  {
    var c := at + 1;
    HoldsAtSplit(bytes, c, [e.Tag()], EncodeFields(e));
    HoldsAtIndex(bytes, c, [e.Tag()], 0);
    match e
    case IntegerConst(v) =>
      IntegerReadBack(bytes, c, v);
    case LongConst(v) =>
      LongReadBack(bytes, c, v);
    case ClassRef(i) =>
      IndexReadBack(bytes, c, 7, i);
    case StringRef(i) =>
      IndexReadBack(bytes, c, 8, i);
    case FieldRef(ci, nt) =>
      IndexPairReadBack(bytes, c, 9, ci, nt);
    case MethodRef(ci, nt) =>
      IndexPairReadBack(bytes, c, 10, ci, nt);
    case NameAndType(ni, di) =>
      IndexPairReadBack(bytes, c, 12, ni, di);
  }

  /** The word after the tag of an encoded integer reads back as the integer. */
  lemma IntegerReadBack(bytes: seq<byte>, c: int, v: int)
    requires 0 <= c && 0 <= v < 0x1_0000_0000 && HoldsAt(bytes, c + 1, U32Bytes(v))
    ensures DecodeInteger(bytes, c) == Ok(Step([IntegerConst(v)], c + 4))
  {
    U32Holds(bytes, c + 1, v);
  }

  /** The u2 after the tag of a Class or String entry reads back as its index. */
  lemma IndexReadBack(bytes: seq<byte>, c: int, tag: int, i: int)
    requires 0 <= c && (tag == 7 || tag == 8) && 0 <= i < 0x1_0000
    requires HoldsAt(bytes, c + 1, U16Bytes(i))
    ensures DecodeIndex(bytes, c, tag) == Ok(Step([if tag == 7 then ClassRef(i) else StringRef(i)], c + 2))
  {
    U16Holds(bytes, c + 1, i);
  }

  /** The two words of an encoded long read back as the long. */
  lemma LongReadBack(bytes: seq<byte>, c: int, v: int)
    requires 0 <= c && -0x8000_0000_0000_0000 <= v < 0x8000_0000_0000_0000
    requires HoldsAt(bytes, c + 1, U32Bytes(Unsigned64(v) / 0x1_0000_0000) + U32Bytes(Unsigned64(v) % 0x1_0000_0000))
    ensures DecodeLong(bytes, c) == Ok(Step([LongConst(v), Placeholder], c + 8))
  {
    var hi, lo := Unsigned64(v) / 0x1_0000_0000, Unsigned64(v) % 0x1_0000_0000;
    HoldsAtSplit(bytes, c + 1, U32Bytes(hi), U32Bytes(lo));
    U32Holds(bytes, c + 1, hi);
    U32Holds(bytes, c + 5, lo);
    LongValueRoundTrip(v);
  }

  /** The two u2 fields after the tag of a reference pair read back as written. */
  lemma IndexPairReadBack(bytes: seq<byte>, c: int, tag: int, a: int, b: int)
    requires 0 <= c && (tag == 9 || tag == 10 || tag == 12)
    requires 0 <= a < 0x1_0000 && 0 <= b < 0x1_0000
    requires HoldsAt(bytes, c + 1, U16Bytes(a) + U16Bytes(b))
    ensures DecodeIndexPair(bytes, c, tag)
            == Ok(Step([if tag == 9 then FieldRef(a, b) else if tag == 10 then MethodRef(a, b) else NameAndType(a, b)], c + 4))
  {
    HoldsAtSplit(bytes, c + 1, U16Bytes(a), U16Bytes(b));
    U16Holds(bytes, c + 1, a);
    U16Holds(bytes, c + 3, b);
  }

  /** Decoding an entry written between any two byte strings gives back its slots. */
  lemma EntryRoundTrip(pre: seq<byte>, e: CpEntry, post: seq<byte>, decode: Utf8Decoder)
    requires Encodable(e)
    ensures DecodeEntry(pre + EncodeEntry(e) + post, |pre| - 1, decode)
            == Ok(Step(Slots(e), |pre| + |EncodeEntry(e)| - 1))
  {
    HoldsAtConcat(pre, EncodeEntry(e), post);
    EntryReadBack(pre + EncodeEntry(e) + post, |pre| - 1, e, decode);
  }

  /** A Utf8 entry: tag 1, a u2 length, then that many bytes. */
  function EncodeUtf8(raw: seq<byte>): seq<byte>
    requires |raw| < 0x1_0000
  {
    [1] + U16Bytes(|raw|) + raw
  }

  /** A non-empty Utf8 entry decodes to the decoder's string for its bytes,
      or to "" when they do not decode; an empty one traps. */
  lemma Utf8RoundTrip(pre: seq<byte>, raw: seq<byte>, post: seq<byte>, decode: Utf8Decoder)
    requires |raw| < 0x1_0000
    ensures var r := DecodeEntry(pre + EncodeUtf8(raw) + post, |pre| - 1, decode);
            && (|raw| == 0 ==> r == Err(Trap(EmptyRange)))
            && (|raw| > 0 ==> r == Ok(Step([Utf8(match decode(raw) case Some(t) => t case None => "")],
                                          |pre| + 2 + |raw|)))
  {
    var bytes := pre + EncodeUtf8(raw) + post;
    assert bytes == (pre + [1]) + U16Bytes(|raw|) + (raw + post);
    U16RoundTrip(pre + [1], |raw|, raw + post);
    var c := |pre|;
    assert bytes[c + 3 .. c + 3 + |raw|] == raw;
    CopyBytesIsSlice(bytes, c + 3, |raw|);
  }

  /** One more iteration of the loop appends what it decodes. */
  lemma DecodeEntriesSnoc(bytes: seq<byte>, n: nat, decode: Utf8Decoder, prev: Step, step: Step)
    requires n > 0
    requires DecodeEntries(bytes, n - 1, decode) == Ok(prev)
    requires DecodeEntry(bytes, prev.next, decode) == Ok(step)
    ensures DecodeEntries(bytes, n, decode) == Ok(Step(prev.entries + step.entries, step.next))
  {
  }

  // ---------------------------------------------------------------------
  // The validator

  /** `klass.cp[i].type`, trapping when i is not an index of the pool. */
  function TagAt(cp: seq<CpEntry>, i: int): Result<int> {
    if 0 <= i < |cp| then Ok(cp[i].Tag()) else Err(Trap(IndexOutOfRange))
  }

  /** Scalars the validator refuses in a Utf8 entry: U+0000 and U+00F0..U+00FF.
      This tests the decoded characters, not the encoded bytes that JVMS
      section 4.4.7 forbids (0x00 and 0xF0..0xFF), so a name holding, say,
      U+00F1 is refused although its encoding C3 B1 is legal. */
  predicate HasForbiddenChar(s: string) {
    exists k :: 0 <= k < |s| && (s[k] == 0 as char || 0xF0 <= s[k] as int <= 0xFF)
  }

  predicate StartsWith(s: string, prefix: string) {
    |prefix| <= |s| && s[..|prefix|] == prefix
  }

  /** A method name the validator refuses: it begins with '<' but not with "<init>". */
  predicate BadMethodName(s: string) {
    StartsWith(s, "<") && !StartsWith(s, "<init>")
  }

  /** One iteration of `verify`: whether slot n is reported.  Only a
      subscript outside the pool traps, and only the six kinds of entry
      with something to check are ever reported. */
  function EntryCheck(cp: seq<CpEntry>, n: int): (r: Result<bool>)
    ensures !(0 <= n < |cp|) ==> r == Err(Trap(IndexOutOfRange))
    ensures r.Err? ==> r.fault == Trap(IndexOutOfRange)
    ensures r == Ok(true) ==> cp[n].Utf8? || cp[n].ClassRef? || cp[n].StringRef? || cp[n].FieldRef?
                              || cp[n].MethodRef? || cp[n].NameAndType?
  {
    if !(0 <= n < |cp|) then Err(Trap(IndexOutOfRange))
    else
      match cp[n]
      case Utf8(s) => Ok(HasForbiddenChar(s))
      case ClassRef(i) =>
        var t :- TagAt(cp, i);
        Ok(t != TagUtf8)
      case StringRef(i) =>
        var t :- TagAt(cp, i);
        Ok(t != TagUtf8)
      case FieldRef(ci, nt) =>
        var classTag :- TagAt(cp, ci);
        var natTag :- TagAt(cp, nt);
        Ok(classTag != TagClassRef || natTag != TagNameAndType)
      case MethodRef(ci, nt) =>
        var classTag :- TagAt(cp, ci);
        var natTag :- TagAt(cp, nt);
        if natTag != TagNameAndType then Ok(true)
        else
          var namePointer := cp[nt].nameIndex;
          var nameTag :- TagAt(cp, namePointer);
          if nameTag != TagUtf8 then Ok(true)
          else Ok(classTag != TagClassRef || BadMethodName(cp[namePointer].contents))
      case NameAndType(ni, di) =>
        var nameTag :- TagAt(cp, ni);
        var descTag :- TagAt(cp, di);
        Ok(nameTag != TagUtf8 || descTag != TagUtf8)
      case _ => Ok(false)
  }

  /** Iterations 1..m of `verify`: the slots reported, in scan order. */
  function VerifyUpTo(cp: seq<CpEntry>, m: nat): (r: Result<seq<int>>)
    ensures r.Err? ==> r.fault == Trap(IndexOutOfRange)
    ensures r.Ok? ==> forall k :: 0 <= k < |r.value| ==> 1 <= r.value[k] <= m
    ensures r.Ok? ==> forall i, j :: 0 <= i < j < |r.value| ==> r.value[i] < r.value[j]
  {
    if m == 0 then Ok([])
    else
      var prev :- VerifyUpTo(cp, m - 1);
      var bad :- EntryCheck(cp, m);
      Ok(if bad then prev + [m] else prev)
  }

  /** ConstantPool.verify: the slots 1..count-1 it reports.  It reads the
      pool only, and a report does not stop the scan. */
  function Verify(cp: seq<CpEntry>, count: int): (r: Result<seq<int>>)
    ensures count < 2 ==> r == Err(Trap(EmptyRange))
    ensures r.Err? ==> r.fault.Trap?
    ensures r.Ok? ==> forall k :: 0 <= k < |r.value| ==> 1 <= r.value[k] < count
    ensures r.Ok? ==> forall i, j :: 0 <= i < j < |r.value| ==> r.value[i] < r.value[j]
  {
    if count - 1 < 1 then Err(Trap(EmptyRange)) else VerifyUpTo(cp, count - 1)
  }

  /** The index fields JVMS 4.4 constrains, for the entries the validator
      checks, each with the tag it must reach. */
  function References(e: CpEntry): seq<(int, int)> {
    match e
    case ClassRef(i) => [(i, TagUtf8)]
    case StringRef(i) => [(i, TagUtf8)]
    case FieldRef(c, nt) => [(c, TagClassRef), (nt, TagNameAndType)]
    case MethodRef(c, nt) => [(c, TagClassRef), (nt, TagNameAndType)]
    case NameAndType(n, d) => [(n, TagUtf8), (d, TagUtf8)]
    case _ => []
  }

  predicate ReferencesInRange(cp: seq<CpEntry>, e: CpEntry) {
    forall k :: 0 <= k < |References(e)| ==> 0 <= References(e)[k].0 < |cp|
  }

  predicate ReferencesWellTyped(cp: seq<CpEntry>, e: CpEntry)
    requires ReferencesInRange(cp, e)
  {
    forall k :: 0 <= k < |References(e)| ==> cp[References(e)[k].0].Tag() == References(e)[k].1
  }

  /** Everything an entry points to, including the name a method
      reference reaches through its NameAndType, lies inside the pool. */
  predicate Dereferenceable(cp: seq<CpEntry>, e: CpEntry) {
    && ReferencesInRange(cp, e)
    && (e.MethodRef? ==>
          && 0 <= e.nameAndTypeIndex < |cp|
          && (cp[e.nameAndTypeIndex].NameAndType? ==> 0 <= cp[e.nameAndTypeIndex].nameIndex < |cp|))
  }

  /** The validator's own rules for an entry: the reference kinds of JVMS
      section 4.4, a method name starting with '<' only for `<init>`, and a
      character test on Utf8 entries in place of the byte rule of JVMS
      section 4.4.7. */
  predicate Acceptable(cp: seq<CpEntry>, e: CpEntry)
    requires Dereferenceable(cp, e)
  {
    && ReferencesWellTyped(cp, e)
    && (e.Utf8? ==> !HasForbiddenChar(e.contents))
    && (e.MethodRef? && cp[e.nameAndTypeIndex].NameAndType? ==>
          var name := cp[cp[e.nameAndTypeIndex].nameIndex];
          name.Utf8? && !BadMethodName(name.contents))
  }

  /** The character test reports a legal name: "niño" (ñ is U+00F1,
      encoded as the legal bytes C3 B1) is flagged. */
  lemma LegalNameReported()
    ensures EntryCheck([Placeholder, Utf8("ni\U{F1}o")], 1) == Ok(true)
  {
    var s := "ni\U{F1}o";
    assert s[2] as int == 0xF1;
  }

  /** A slot whose references all lie inside the pool is reported exactly
      when it is not acceptable. */
  lemma EntryCheckMeaning(cp: seq<CpEntry>, n: int)
    requires 0 <= n < |cp| && Dereferenceable(cp, cp[n])
    ensures EntryCheck(cp, n).Ok?
    ensures EntryCheck(cp, n).value <==> !Acceptable(cp, cp[n])
  {
    var refs := References(cp[n]);
    match cp[n]
    case ClassRef(i) => assert refs[0] == (i, TagUtf8);
    case StringRef(i) => assert refs[0] == (i, TagUtf8);
    case FieldRef(c, nt) => assert refs[0] == (c, TagClassRef) && refs[1] == (nt, TagNameAndType);
    case MethodRef(c, nt) => assert refs[0] == (c, TagClassRef) && refs[1] == (nt, TagNameAndType);
    case NameAndType(ni, di) => assert refs[0] == (ni, TagUtf8) && refs[1] == (di, TagUtf8);
    case _ =>
  }

  /** A slot with a reference outside the pool makes `verify` trap. */
  lemma EntryCheckTraps(cp: seq<CpEntry>, n: int)
    requires 0 <= n < |cp| && !ReferencesInRange(cp, cp[n])
    ensures EntryCheck(cp, n) == Err(Trap(IndexOutOfRange))
  {
    var refs := References(cp[n]);
    var k :| 0 <= k < |refs| && !(0 <= refs[k].0 < |cp|);
    match cp[n]
    case ClassRef(i) => assert refs[0] == (i, TagUtf8);
    case StringRef(i) => assert refs[0] == (i, TagUtf8);
    case FieldRef(c, nt) => assert refs[0] == (c, TagClassRef) && refs[1] == (nt, TagNameAndType);
    case MethodRef(c, nt) => assert refs[0] == (c, TagClassRef) && refs[1] == (nt, TagNameAndType);
    case NameAndType(ni, di) => assert refs[0] == (ni, TagUtf8) && refs[1] == (di, TagUtf8);
  }

  /** The scan reports exactly the slots whose check fires, and keeps
      going after a report. */
  lemma {:induction false} VerifyUpToReports(cp: seq<CpEntry>, m: nat)
    requires forall n :: 1 <= n <= m ==> EntryCheck(cp, n).Ok?
    ensures VerifyUpTo(cp, m).Ok?
    ensures forall n :: n in VerifyUpTo(cp, m).value <==> 1 <= n <= m && EntryCheck(cp, n).value
  {
    if m > 0 {
      VerifyUpToReports(cp, m - 1);
    }
  }

  /** For a pool whose references all lie inside it, `verify` completes and
      reports exactly the slots that are not acceptable. */
  lemma VerifyReportsExactly(cp: seq<CpEntry>, count: int)
    requires 2 <= count <= |cp|
    requires forall n :: 1 <= n < count ==> Dereferenceable(cp, cp[n])
    ensures Verify(cp, count).Ok?
    ensures forall n :: n in Verify(cp, count).value <==> 1 <= n < count && !Acceptable(cp, cp[n])
  {
    forall n | 1 <= n <= count - 1
      ensures EntryCheck(cp, n).Ok? && (EntryCheck(cp, n).value <==> !Acceptable(cp, cp[n]))
    {
      EntryCheckMeaning(cp, n);
    }
    VerifyUpToReports(cp, count - 1);
  }

  // ---------------------------------------------------------------------
  // Lookups used by the rest of the decoder

  /** The name of the class a ClassRef slot names, through the two forced
      casts `as! CpEntryClassRef` and `as! CpEntryUTF8`. */
  function ClassNameAt(cp: seq<CpEntry>, ref: int): (r: Result<string>)
    ensures r.Ok? <==> 0 <= ref < |cp| && cp[ref].ClassRef? && 0 <= cp[ref].classNameIndex < |cp|
                       && cp[cp[ref].classNameIndex].Utf8?
    ensures r.Ok? ==> r.value == cp[cp[ref].classNameIndex].contents
  {
    if !(0 <= ref < |cp|) then Err(Trap(IndexOutOfRange))
    else if !cp[ref].ClassRef? then Err(Trap(FailedCast))
    else
      var pointerToName := cp[ref].classNameIndex;
      if !(0 <= pointerToName < |cp|) then Err(Trap(IndexOutOfRange))
      else if !cp[pointerToName].Utf8? then Err(Trap(FailedCast))
      else Ok(cp[pointerToName].contents)
  }

  /** A ClassRef slot that `verify` passes resolves to a name without trapping. */
  lemma CheckedClassRefResolves(cp: seq<CpEntry>, ref: int)
    requires 0 <= ref < |cp| && cp[ref].ClassRef?
    requires EntryCheck(cp, ref) == Ok(false)
    ensures ClassNameAt(cp, ref).Ok?
  {
  }

  /** `Utility.getUTF8stringFromConstantPoolIndex`, which is not part of this
      model: taken to be the same forced Utf8 lookup the name readers make. */
  function Utf8At(cp: seq<CpEntry>, i: int): (r: Result<string>)
    ensures r.Ok? <==> 0 <= i < |cp| && cp[i].Utf8?
    ensures r.Ok? ==> r.value == cp[i].contents
  {
    if !(0 <= i < |cp|) then Err(Trap(IndexOutOfRange))
    else if !cp[i].Utf8? then Err(Trap(FailedCast))
    else Ok(cp[i].contents)
  }
}
