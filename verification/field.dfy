/** One field_info record (Sources/jacobin/Classfile/Field.swift, JVMS
    section 4.5): four u2 header items, then the attributes, of which only
    ConstantValue (JVMS section 4.7.2) is looked at and none is kept. */
module Fields {
  import opened Exceptions
  import opened Utility
  import opened Klass
  import opened ConstantPool

  const ConstantValueName: string := "ConstantValue"

  /** The four header items of a field_info, as the decoder resolves them. */
  datatype FieldHeader = FieldHeader(accessFlags: int, name: string, description: string, attrCount: int)

  /** The header of the field_info after `location`: access flags at
      location + 1, then the name index, the descriptor index and the
      attribute count, 2 bytes apart; both indices go through the forced
      Utf8 lookup. */
  function ReadFieldHeader(bytes: seq<byte>, cp: seq<CpEntry>, location: int): (r: Result<FieldHeader>)
    ensures r.Ok? <==> U16At(bytes, location + 1).Ok? && U16At(bytes, location + 7).Ok?
                       && Utf8At(cp, U16At(bytes, location + 3).value).Ok?
                       && Utf8At(cp, U16At(bytes, location + 5).value).Ok?
    ensures r.Ok? ==> r.value == FieldHeader(U16At(bytes, location + 1).value,
                                             cp[U16At(bytes, location + 3).value].contents,
                                             cp[U16At(bytes, location + 5).value].contents,
                                             U16At(bytes, location + 7).value)
  {
    var accessFlags :- U16At(bytes, location + 1);
    var nameIndex :- U16At(bytes, location + 3);
    var name :- Utf8At(cp, nameIndex);
    var descIndex :- U16At(bytes, location + 5);
    var description :- Utf8At(cp, descIndex);
    var attrCount :- U16At(bytes, location + 7);
    Ok(FieldHeader(accessFlags, name, description, attrCount))
  }

  /** One turn of the attribute loop from offset loc: the offset after the
      attribute.  A name index that does not reach a Utf8 slot skips a
      fixed 8 bytes; otherwise the attribute takes 6 + attribute_length
      bytes.  A ConstantValue pointer is dereferenced (and may trap) only
      when it lies strictly between 0 and cpCount. */
  function AttributeStep(bytes: seq<byte>, cp: seq<CpEntry>, cpCount: int, loc: int): (r: Result<int>)
    ensures r.Ok? ==> r.value >= loc + 6
  {
    var attrNameIndex :- U16At(bytes, loc + 1);
    if !(0 <= attrNameIndex < |cp|) then Err(Trap(IndexOutOfRange))
    else if cp[attrNameIndex].Tag() != TagUtf8 then Ok(loc + 8)
    else
      var attrLen :- U32At(bytes, loc + 3);
      if cp[attrNameIndex].contents == ConstantValueName then
        var cpPointer :- U16At(bytes, loc + 7);
        if !(cpPointer > 0 && cpPointer < cpCount) then Ok(loc + 6 + attrLen)
        else if cpPointer >= |cp| then Err(Trap(IndexOutOfRange))
        else Ok(loc + 6 + attrLen)
      else Ok(loc + 6 + attrLen)
  }

  /** The offset after n attributes read from loc on.  Each attribute
      consumes at least its 6-byte header, so n attributes end at least
      6 * n bytes further on; the walk fails only by trapping. */
  function AttributesFrom(bytes: seq<byte>, cp: seq<CpEntry>, cpCount: int, loc: int, n: nat): (r: Result<int>)
    ensures r.Ok? ==> r.value >= loc + 6 * n
    ensures r.Err? ==> r.fault.Trap?
    decreases n
  {
    if n == 0 then Ok(loc)
    else
      var next :- AttributeStep(bytes, cp, cpCount, loc);
      AttributesFrom(bytes, cp, cpCount, next, n - 1)
  }

  /** The offset of the last byte of the field_info after `location`: past
      the 8 header bytes and at least 6 bytes per attribute the header
      counts.  A field fails only by trapping. */
  function FieldEnd(bytes: seq<byte>, cp: seq<CpEntry>, cpCount: int, location: int): (r: Result<int>)
    ensures r.Ok? ==> ReadFieldHeader(bytes, cp, location).Ok?
                      && r.value >= location + 8 + 6 * ReadFieldHeader(bytes, cp, location).value.attrCount
    ensures r.Err? ==> r.fault.Trap?
  {
    var header :- ReadFieldHeader(bytes, cp, location);
    AttributesFrom(bytes, cp, cpCount, location + 8, header.attrCount)
  }

  /** One turn of the attribute loop of Field.load: reads the attribute
      after loc and returns the offset of its last byte.  It advances a
      running offset field by field, as the loop body does, and is what
      Field.Load runs; AttributeStep is its specification, and the lemmas
      about an attribute turn are stated on that function. */
  method SkipAttribute(bytes: seq<byte>, cp: seq<CpEntry>, cpCount: int, location: int) returns (r: Result<int>)
    ensures r == AttributeStep(bytes, cp, cpCount, location)
  {
    var loc := location;
    var attrNameIndex :- U16At(bytes, loc + 1);
    if !(0 <= attrNameIndex < |cp|) {
      return Err(Trap(IndexOutOfRange));
    }
    if cp[attrNameIndex].Tag() != TagUtf8 {
      // logged as an invalid attribute pointer and skipped
      return Ok(loc + 8);
    }
    loc := loc + 2;
    var attrLen :- U32At(bytes, loc + 1);
    loc := loc + 4;
    // the Utf8 lookup cannot fail: the slot's tag was just checked
    var attrName := cp[attrNameIndex].contents;
    if attrName == ConstantValueName {
      var cpPointer :- U16At(bytes, loc + 1);
      if !(cpPointer > 0 && cpPointer < cpCount) {
        // logged as an invalid constant value pointer
        return Ok(loc + attrLen);
      }
      if cpPointer >= |cp| {
        return Err(Trap(IndexOutOfRange));
      }
      // the constant is only printed
    }
    return Ok(loc + attrLen);
  }

  /** A field as the class decoder records it. */
  class Field {
    var accessFlags: int
    var name: string
    var description: string
    var attributes: seq<Attribute>

    constructor ()
      ensures accessFlags == 0 && name == "" && description == "" && attributes == []
    {
      accessFlags := 0;
      name, description := "", "";
      attributes := [];
    }

    /** Field.load: fills in the header items and walks past the
        attributes, returning the offset of the last byte consumed. */
    method Load(klass: LoadedClass, location: int) returns (r: Result<int>)
      modifies this`accessFlags, this`name, this`description
      ensures r == FieldEnd(klass.rawBytes, klass.cp, klass.constantPoolCount, location)
      ensures r.Ok? ==> var h := ReadFieldHeader(klass.rawBytes, klass.cp, location).value;
                        accessFlags == h.accessFlags && name == h.name && description == h.description
      ensures attributes == old(attributes)
    {
      var bytes, cp, cpCount := klass.rawBytes, klass.cp, klass.constantPoolCount;
      var loc := location;
      var flags :- U16At(bytes, loc + 1);
      accessFlags := flags;
      loc := loc + 2;

      var nameIndex :- U16At(bytes, loc + 1);
      loc := loc + 2;
      var n :- Utf8At(cp, nameIndex);
      name := n;

      var descIndex :- U16At(bytes, loc + 1);
      loc := loc + 2;
      var d :- Utf8At(cp, descIndex);
      description := d;

      var attrCount :- U16At(bytes, loc + 1);
      loc := loc + 2;
      ghost var total := AttributesFrom(bytes, cp, cpCount, loc, attrCount);

      if attrCount > 0 {
        var i := 1;
        while i <= attrCount
          invariant 1 <= i <= attrCount + 1
          invariant AttributesFrom(bytes, cp, cpCount, loc, attrCount + 1 - i) == total
          invariant accessFlags == flags && name == n && description == d
        {
          loc :- SkipAttribute(bytes, cp, cpCount, loc);
          i := i + 1;
        }
      }
      return Ok(loc);
    }
  }

  /** A field without attributes ends 8 bytes after `location`. */
  lemma NoAttributesEndsAtEight(bytes: seq<byte>, cp: seq<CpEntry>, cpCount: int, location: int)
    requires ReadFieldHeader(bytes, cp, location).Ok? && ReadFieldHeader(bytes, cp, location).value.attrCount == 0
    ensures FieldEnd(bytes, cp, cpCount, location) == Ok(location + 8)
  {
  }

  /** An attribute whose name index reaches a Utf8 slot advances the offset
      by 6 + attribute_length, ConstantValue or not. */
  lemma NamedAttributeAdvance(bytes: seq<byte>, cp: seq<CpEntry>, cpCount: int, loc: int)
    requires AttributeStep(bytes, cp, cpCount, loc).Ok?
    requires cp[U16At(bytes, loc + 1).value].Utf8?
    ensures U32At(bytes, loc + 3).Ok?
    ensures AttributeStep(bytes, cp, cpCount, loc).value == loc + 6 + U32At(bytes, loc + 3).value
  {
  }

  /** An attribute whose name index reaches a slot of another kind advances
      the offset by 8 whatever its length, and never reads that length. */
  lemma UnnamedAttributeAdvance(bytes: seq<byte>, cp: seq<CpEntry>, cpCount: int, loc: int)
    requires U16At(bytes, loc + 1).Ok?
    requires 0 <= U16At(bytes, loc + 1).value < |cp| && !cp[U16At(bytes, loc + 1).value].Utf8?
    ensures AttributeStep(bytes, cp, cpCount, loc) == Ok(loc + 8)
  {
  }

  /** A ConstantValue pointer outside 1 .. cpCount - 1 is skipped without
      failing; inside that range it fails only when it is past the end of
      the decoded pool. */
  lemma ConstantValueGuard(bytes: seq<byte>, cp: seq<CpEntry>, cpCount: int, loc: int)
    requires U16At(bytes, loc + 1).Ok? && U32At(bytes, loc + 3).Ok? && U16At(bytes, loc + 7).Ok?
    requires 0 <= U16At(bytes, loc + 1).value < |cp|
    requires cp[U16At(bytes, loc + 1).value] == Utf8(ConstantValueName)
    ensures var p := U16At(bytes, loc + 7).value;
            AttributeStep(bytes, cp, cpCount, loc).Err? <==> 0 < p < cpCount && p >= |cp|
  {
  }

  /** Walking a + b attributes is walking a of them, then b more from there. */
  lemma {:induction false} AttributesCompose(bytes: seq<byte>, cp: seq<CpEntry>, cpCount: int, loc: int, a: nat, b: nat)
    requires AttributesFrom(bytes, cp, cpCount, loc, a).Ok?
    ensures AttributesFrom(bytes, cp, cpCount, loc, a + b)
            == AttributesFrom(bytes, cp, cpCount, AttributesFrom(bytes, cp, cpCount, loc, a).value, b)
    decreases a
  {
    if a > 0 {
      var next := AttributeStep(bytes, cp, cpCount, loc).value;
      AttributesCompose(bytes, cp, cpCount, next, a - 1, b);
    }
  }

  /** The bytes of an attribute with name index i, length n and body w. */
  function EncodeAttribute(i: int, w: seq<byte>): (s: seq<byte>)
    requires 0 <= i < 0x1_0000 && |w| < 0x1_0000_0000
    ensures |s| == 6 + |w|
  {
    U16Bytes(i) + U32Bytes(|w|) + w
  }

  /** An attribute written after loc with a Utf8 name other than
      ConstantValue is read back as exactly its own bytes. */
  lemma AttributeReadBack(pre: seq<byte>, i: int, w: seq<byte>, post: seq<byte>, cp: seq<CpEntry>, cpCount: int)
    requires 0 <= i < |cp| && i < 0x1_0000 && |w| < 0x1_0000_0000
    requires cp[i].Utf8? && cp[i].contents != ConstantValueName
    ensures AttributeStep(pre + EncodeAttribute(i, w) + post, cp, cpCount, |pre| - 1)
            == Ok(|pre| - 1 + |EncodeAttribute(i, w)|)
  {
    var bytes := pre + EncodeAttribute(i, w) + post;
    U16RoundTrip(pre, i, U32Bytes(|w|) + w + post);
    assert bytes == pre + U16Bytes(i) + (U32Bytes(|w|) + w + post);
    U32RoundTrip(pre + U16Bytes(i), |w|, w + post);
    assert bytes == (pre + U16Bytes(i)) + U32Bytes(|w|) + (w + post);
  }
}
