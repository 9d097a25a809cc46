/** One method_info record (Sources/jacobin/Classfile/MethodInfo.swift,
    JVMS section 4.6): four header items read with the checked Int16 reader,
    then one 6-byte attribute header per attribute.  Attribute bodies are
    not skipped. */
module Methods {
  import opened Exceptions
  import opened Utility
  import opened Klass
  import opened ConstantPool

  /** getMethodAccessFlags: the Int16 at location + 1. */
  function GetMethodAccessFlags(bytes: seq<byte>, location: int): (r: Result<int>)
    ensures r.Ok? <==> 0 <= location + 1 && location + 2 < |bytes| && bytes[location + 1] < 128
    ensures r.Ok? ==> r.value == (bytes[location + 1] as int) * 256 + bytes[location + 2] as int
  {
    Int16At(bytes, location + 1)
  }

  /** The attribute length fillInAttribute computes from its two 16-bit
      halves: the high half is scaled by 65535, not 65536. */
  function AttributeLength(first: int, second: int): (r: int)
    ensures r == first * 0x1_0000 + second <==> first == 0
    ensures first > 0 ==> r < first * 0x1_0000 + second
    ensures 0 <= first && 0 <= second ==> 0 <= r
  {
    first * 65535 + second
  }

  /** fillInAttribute, as a value: the attribute whose header follows
      `location`, and the offset after that 6-byte header. */
  function AttributeAt(bytes: seq<byte>, cp: seq<CpEntry>, location: int): (r: Result<(Attribute, int)>)
    ensures r.Ok? <==> Int16At(bytes, location + 1).Ok? && Utf8At(cp, Int16At(bytes, location + 1).value).Ok?
                       && Int16At(bytes, location + 3).Ok? && Int16At(bytes, location + 5).Ok?
    ensures r.Ok? ==> r.value.1 == location + 6
    ensures r.Ok? ==> r.value.0.attrName == cp[Int16At(bytes, location + 1).value].contents
    ensures r.Err? ==> r.fault.Trap?
  {
    var attrNameIdx :- Int16At(bytes, location + 1);
    var attrName :- Utf8At(cp, attrNameIdx);
    var first :- Int16At(bytes, location + 3);
    var second :- Int16At(bytes, location + 5);
    Ok((Attribute(attrName, AttributeLength(first, second)), location + 6))
  }

  /** The first n attribute headers after `start`, in file order.  They sit
      6 bytes apart because no attribute body is skipped. */
  function AttributesAt(bytes: seq<byte>, cp: seq<CpEntry>, start: int, n: nat): (r: Result<seq<Attribute>>)
    ensures r.Ok? ==> |r.value| == n
    ensures r.Err? ==> r.fault.Trap?
    decreases n
  {
    if n == 0 then Ok([])
    else
      var prev :- AttributesAt(bytes, cp, start, n - 1);
      var a :- AttributeAt(bytes, cp, start + 6 * (n - 1));
      Ok(prev + [a.0])
  }

  /** Attribute k of a successful read is the header 6 * k bytes after
      start: the headers are appended in file order. */
  lemma {:induction false} AttributesInOrder(bytes: seq<byte>, cp: seq<CpEntry>, start: int, n: nat, k: nat)
    requires AttributesAt(bytes, cp, start, n).Ok? && k < n
    ensures AttributeAt(bytes, cp, start + 6 * k).Ok?
    ensures AttributesAt(bytes, cp, start, n).value[k] == AttributeAt(bytes, cp, start + 6 * k).value.0
    decreases n
  {
    if k < n - 1 {
      AttributesInOrder(bytes, cp, start, n - 1, k);
    }
  }

  /** Reading one more attribute header appends it. */
  lemma AttributesSnoc(bytes: seq<byte>, cp: seq<CpEntry>, start: int, n: nat)
    requires AttributesAt(bytes, cp, start, n).Ok? && AttributeAt(bytes, cp, start + 6 * n).Ok?
    ensures AttributesAt(bytes, cp, start, n + 1)
            == Ok(AttributesAt(bytes, cp, start, n).value + [AttributeAt(bytes, cp, start + 6 * n).value.0])
  {
  }

  /** Once reading the first k attribute headers fails, reading more fails
      the same way: the loop stops at its first fault. */
  lemma {:induction false} AttributesFailurePersist(bytes: seq<byte>, cp: seq<CpEntry>, start: int, k: nat, n: nat)
    requires k <= n && AttributesAt(bytes, cp, start, k).Err?
    ensures AttributesAt(bytes, cp, start, n) == AttributesAt(bytes, cp, start, k)
    decreases n - k
  {
    if k < n {
      AttributesFailurePersist(bytes, cp, start, k, n - 1);
    }
  }

  /** The four header items of a method_info. */
  datatype MethodHeader = MethodHeader(accessFlags: int, name: string, descriptor: string, attrCount: int)

  /** The header after `location`: access flags, name index, descriptor
      index and attribute count at location + 1, + 3, + 5 and + 7; both
      indices go through a forced cast to a Utf8 slot. */
  function MethodHeaderAt(bytes: seq<byte>, cp: seq<CpEntry>, location: int): (r: Result<MethodHeader>)
    ensures r.Ok? <==> Int16At(bytes, location + 1).Ok? && Int16At(bytes, location + 7).Ok?
                       && Int16At(bytes, location + 3).Ok? && Int16At(bytes, location + 5).Ok?
                       && Utf8At(cp, Int16At(bytes, location + 3).value).Ok?
                       && Utf8At(cp, Int16At(bytes, location + 5).value).Ok?
    ensures r.Ok? ==> r.value == MethodHeader(Int16At(bytes, location + 1).value,
                                              cp[Int16At(bytes, location + 3).value].contents,
                                              cp[Int16At(bytes, location + 5).value].contents,
                                              Int16At(bytes, location + 7).value)
    ensures r.Err? ==> r.fault.Trap?
  {
    var accessFlags :- GetMethodAccessFlags(bytes, location);
    var nameIndex :- Int16At(bytes, location + 3);
    var name :- Utf8At(cp, nameIndex);
    var descIndex :- Int16At(bytes, location + 5);
    var descriptor :- Utf8At(cp, descIndex);
    var attrCount :- Int16At(bytes, location + 7);
    Ok(MethodHeader(accessFlags, name, descriptor, attrCount))
  }

  /** A decoded method_info: its header, its attribute headers, and the
      offset of the last byte read. */
  datatype MethodRecord = MethodRecord(header: MethodHeader, attributes: seq<Attribute>, end: int)

  /** MethodInfo.read, as a value: the `0...attrCount-1` loop traps on a
      count of 0. */
  function MethodAt(bytes: seq<byte>, cp: seq<CpEntry>, location: int): (r: Result<MethodRecord>)
    ensures r.Ok? ==> MethodHeaderAt(bytes, cp, location) == Ok(r.value.header)
    ensures r.Ok? ==> r.value.header.attrCount >= 1 && |r.value.attributes| == r.value.header.attrCount
    ensures r.Ok? ==> r.value.end == location + 8 + 6 * r.value.header.attrCount
    ensures r.Err? ==> r.fault.Trap?
  {
    var header :- MethodHeaderAt(bytes, cp, location);
    if header.attrCount - 1 < 0 then Err(Trap(EmptyRange))
    else
      var attributes :- AttributesAt(bytes, cp, location + 8, header.attrCount);
      Ok(MethodRecord(header, attributes, location + 8 + 6 * header.attrCount))
  }

  /** The reader of one method_info, holding the method it fills in. */
  class MethodInfo {
    var methodData: Method

    constructor ()
      ensures fresh(methodData)
      ensures methodData.name == "" && methodData.descriptor == "" && methodData.attributes == []
    {
      methodData := new Method();
    }

    /** fillInAttribute: fills in one attribute header after location and
        returns the offset of its last byte.  It advances currLocation
        step by step as the source does, and is what ReadAttributes runs;
        AttributeAt is its specification, and the lemmas about an
        attribute header are stated on that function. */
    method FillInAttribute(klass: LoadedClass, location: int) returns (r: Result<(Attribute, int)>)
      ensures r == AttributeAt(klass.rawBytes, klass.cp, location)
    {
      var currLocation := location;
      var attrNameIdx :- Int16At(klass.rawBytes, location + 1);
      var attrName :- Utf8At(klass.cp, attrNameIdx);
      currLocation := currLocation + 2;
      var first2bytesInLen :- Int16At(klass.rawBytes, currLocation + 1);
      var second2bytesInLen :- Int16At(klass.rawBytes, currLocation + 3);
      var length := first2bytesInLen * 65535 + second2bytesInLen;
      currLocation := currLocation + 4;
      return Ok((Attribute(attrName, length), currLocation));
    }

    /** The `for i in 0...attrCount-1` loop of read: appends the n
        attribute headers after start to methodData.attributes. */
    method ReadAttributes(klass: LoadedClass, start: int, n: nat) returns (r: Status)
      modifies methodData`attributes
      ensures var a := AttributesAt(klass.rawBytes, klass.cp, start, n);
              && (r.Ok? <==> a.Ok?)
              && (r.Err? ==> r.fault == a.fault)
              && (r.Ok? ==> methodData.attributes == old(methodData.attributes) + a.value)
    {
      var bytes, cp := klass.rawBytes, klass.cp;
      var presentLocation := start;
      ghost var before := methodData.attributes;
      var i := 0;
      while i < n
        invariant 0 <= i <= n
        invariant presentLocation == start + 6 * i
        invariant AttributesAt(bytes, cp, start, i).Ok?
        invariant methodData.attributes == before + AttributesAt(bytes, cp, start, i).value
      {
        var step := FillInAttribute(klass, presentLocation);
        if step.Err? {
          AttributesFailurePersist(bytes, cp, start, i + 1, n);
          return Err(step.fault);
        }
        AttributesSnoc(bytes, cp, start, i);
        presentLocation := step.value.1;
        methodData.attributes := methodData.attributes + [step.value.0];
        i := i + 1;
      }
      return Ok(());
    }

    /** read: fills in methodData's header items and appends its attribute
        headers; returns the offset of the last byte read. */
    method Read(klass: LoadedClass, location: int) returns (r: Result<int>)
      modifies methodData`accessFlags, methodData`name, methodData`descriptor
      modifies methodData`attributeCount, methodData`attributes
      ensures var m := MethodAt(klass.rawBytes, klass.cp, location);
              && (r.Ok? <==> m.Ok?)
              && (r.Err? ==> r.fault == m.fault)
              && (r.Ok? ==> r.value == m.value.end)
      ensures r.Ok? ==> var m := MethodAt(klass.rawBytes, klass.cp, location).value;
                        && methodData.accessFlags == m.header.accessFlags
                        && methodData.name == m.header.name
                        && methodData.descriptor == m.header.descriptor
                        && methodData.attributeCount == m.header.attrCount
                        && methodData.attributes == old(methodData.attributes) + m.attributes
    {
      var bytes, cp := klass.rawBytes, klass.cp;
      var flags :- GetMethodAccessFlags(bytes, location);
      methodData.accessFlags := flags;
      var presentLocation := location + 2;

      // a name index that misses a Utf8 slot is only logged; the cast traps
      var nameIndex :- Int16At(bytes, presentLocation + 1);
      var name :- Utf8At(cp, nameIndex);
      methodData.name := name;
      presentLocation := presentLocation + 2;

      var descIndex :- Int16At(bytes, presentLocation + 1);
      var descriptor :- Utf8At(cp, descIndex);
      methodData.descriptor := descriptor;
      presentLocation := presentLocation + 2;

      var attrCount :- Int16At(bytes, presentLocation + 1);
      methodData.attributeCount := attrCount;
      presentLocation := presentLocation + 2;

      if attrCount - 1 < 0 {
        return Err(Trap(EmptyRange));
      }
      var attributesRead := ReadAttributes(klass, presentLocation, attrCount);
      if attributesRead.Err? {
        return Err(attributesRead.fault);
      }
      return Ok(presentLocation + 6 * attrCount);
    }
  }

  /** A method_info with no attributes traps on the empty loop range. */
  lemma NoAttributesTraps(bytes: seq<byte>, cp: seq<CpEntry>, location: int)
    requires MethodHeaderAt(bytes, cp, location).Ok?
    requires MethodHeaderAt(bytes, cp, location).value.attrCount == 0
    ensures MethodAt(bytes, cp, location) == Err(Trap(EmptyRange))
  {
  }

  /** A name index that reaches a slot other than Utf8 is only logged, and
      the forced cast after it traps. */
  lemma NonUtf8NameTraps(bytes: seq<byte>, cp: seq<CpEntry>, location: int)
    requires Int16At(bytes, location + 1).Ok? && Int16At(bytes, location + 3).Ok?
    requires 0 <= Int16At(bytes, location + 3).value < |cp| && !cp[Int16At(bytes, location + 3).value].Utf8?
    ensures MethodAt(bytes, cp, location) == Err(Trap(FailedCast))
  {
  }

  /** The length fillInAttribute computes agrees with the big-endian u4
      attribute_length of JVMS section 4.7 exactly when the high half is 0. */
  lemma AttributeLengthMatchesU4(bytes: seq<byte>, location: int)
    requires Int16At(bytes, location + 3).Ok? && Int16At(bytes, location + 5).Ok?
    ensures U32At(bytes, location + 3).Ok?
    ensures AttributeLength(Int16At(bytes, location + 3).value, Int16At(bytes, location + 5).value)
            == U32At(bytes, location + 3).value
            <==> Int16At(bytes, location + 3).value == 0
  {
  }

  /** An attribute header written with a Utf8 name index below 0x8000 and a
      length below 0x10000 is read back as that name and length. */
  lemma AttributeReadBack(pre: seq<byte>, i: int, len: int, post: seq<byte>, cp: seq<CpEntry>)
    requires 0 <= i < |cp| && i <= MaxInt16 && cp[i].Utf8?
    requires 0 <= len < 0x1_0000 && len / 256 < 128
    ensures AttributeAt(pre + U16Bytes(i) + U32Bytes(len) + post, cp, |pre| - 1)
            == Ok((Attribute(cp[i].contents, len), |pre| + 5))
  {
    var bytes := pre + U16Bytes(i) + U32Bytes(len) + post;
    U16RoundTrip(pre, i, U32Bytes(len) + post);
    assert bytes == pre + U16Bytes(i) + (U32Bytes(len) + post);
    U16RoundTrip(pre + U16Bytes(i), 0, U16Bytes(len) + post);
    assert bytes == (pre + U16Bytes(i)) + U16Bytes(0) + (U16Bytes(len) + post);
    U16RoundTrip(pre + U16Bytes(i) + U16Bytes(0), len, post);
    assert bytes == (pre + U16Bytes(i) + U16Bytes(0)) + U16Bytes(len) + post;
  }

  /** A u4 length of 0x10000 or more is misread: 0x10000, written as the
      halves 1 and 0, comes back as 65535. */
  lemma LongAttributeMisread(pre: seq<byte>, post: seq<byte>, cp: seq<CpEntry>)
    requires |cp| > 1 && cp[1].Utf8?
    ensures AttributeAt(pre + U16Bytes(1) + U32Bytes(0x1_0000) + post, cp, |pre| - 1)
            == Ok((Attribute(cp[1].contents, 65535), |pre| + 5))
  {
    var bytes := pre + U16Bytes(1) + U32Bytes(0x1_0000) + post;
    U16RoundTrip(pre, 1, U32Bytes(0x1_0000) + post);
    assert bytes == pre + U16Bytes(1) + (U32Bytes(0x1_0000) + post);
    U16RoundTrip(pre + U16Bytes(1), 1, U16Bytes(0) + post);
    assert bytes == (pre + U16Bytes(1)) + U16Bytes(1) + (U16Bytes(0) + post);
    U16RoundTrip(pre + U16Bytes(1) + U16Bytes(1), 0, post);
    assert bytes == (pre + U16Bytes(1) + U16Bytes(1)) + U16Bytes(0) + post;
  }
}
