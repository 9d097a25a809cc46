/** The class-file parse pipeline (Sources/jacobin/ClassParser.swift from
    the `do` block on, JVMS section 4.1): the magic number, the version
    ceiling, the constant pool count, the pool itself, then the header
    items after the pool, two bytes each, and one method_info per method. */
module ClassParser {
  import opened Exceptions
  import opened Utility
  import opened Klass
  import opened ConstantPool
  import opened AccessFlags
  import opened ClassName
  import opened FieldCount
  import opened Methods

  /** The newest class-file major version accepted (Java SE 11). */
  const MaxVersion: int := 55

  const CountErrorSuffix: string := " constant pool count."

  /** The magic number test: the four bytes are compared in order and the
      comparison stops at the first mismatch, so a short buffer traps only
      if its bytes so far match. */
  function MagicCheck(bytes: seq<byte>, name: string): (r: Status)
    ensures r.Ok? <==> |bytes| >= 4 && bytes[0] == 0xCA && bytes[1] == 0xFE && bytes[2] == 0xBA && bytes[3] == 0xBE
    ensures r.Err? ==> r.fault == Thrown(ClassFormatError(name)) || r.fault == Trap(IndexOutOfRange)
    ensures |bytes| >= 4 && r.Err? ==> r.fault == Thrown(ClassFormatError(name))
  {
    if |bytes| < 1 then Err(Trap(IndexOutOfRange))
    else if bytes[0] != 0xCA then Err(Thrown(ClassFormatError(name)))
    else if |bytes| < 2 then Err(Trap(IndexOutOfRange))
    else if bytes[1] != 0xFE then Err(Thrown(ClassFormatError(name)))
    else if |bytes| < 3 then Err(Trap(IndexOutOfRange))
    else if bytes[2] != 0xBA then Err(Thrown(ClassFormatError(name)))
    else if |bytes| < 4 then Err(Trap(IndexOutOfRange))
    else if bytes[3] != 0xBE then Err(Thrown(ClassFormatError(name)))
    else Ok(())
  }

  /** The three checks before the pool, in source order: magic, then the
      version at bytes 6-7, then the pool count at bytes 8-9.  Yields the
      version and the count. */
  function Preamble(bytes: seq<byte>, name: string): (r: Result<(int, int)>)
    ensures r.Ok? <==> MagicCheck(bytes, name).Ok? && |bytes| >= 10
                       && U16At(bytes, 6).value <= MaxVersion && U16At(bytes, 8).value >= 2
    ensures r.Ok? ==> U16At(bytes, 6) == Ok(r.value.0) && U16At(bytes, 8) == Ok(r.value.1)
  {
    var _ :- MagicCheck(bytes, name);
    var version :- U16At(bytes, 6);
    if version > MaxVersion then Err(Shutdown)
    else
      var cpCount :- U16At(bytes, 8);
      if cpCount < 2 then Err(Thrown(ClassFormatError(name + CountErrorSuffix)))
      else Ok((version, cpCount))
  }

  /** `catch JVMerror.ClassFormatError(name: klass.path)`: that one error is
      replaced by a ClassFormatError with an empty name; any other fault
      passes through. */
  function Catch(f: Fault, path: string): (r: Fault)
    ensures r.Thrown? <==> f.Thrown?
    ensures f != Thrown(ClassFormatError(path)) ==> r == f
    ensures path != "" ==> r != Thrown(ClassFormatError(path))
  {
    if f == Thrown(ClassFormatError(path)) then Thrown(ClassFormatError("")) else f
  }

  /** InterfaceCount.readInterfaceCount, which is not part of this model:
      taken to store the u2 at location + 1, as FieldCount does. */
  method ReadInterfaceCount(klass: LoadedClass, location: int) returns (r: Status)
    modifies klass`interfaceCount
    ensures var v := U16At(klass.rawBytes, location + 1);
            && (r.Ok? <==> v.Ok?)
            && (r.Err? ==> r.fault == v.fault)
            && (r.Ok? ==> klass.interfaceCount == v.value)
  {
    var interfaceCount :- U16At(klass.rawBytes, location + 1);
    klass.interfaceCount := interfaceCount;
    return Ok(());
  }

  /** MethodCount.readMethodCount, which is not part of this model: taken
      to store the u2 at location + 1, as FieldCount does. */
  method ReadMethodCount(klass: LoadedClass, location: int) returns (r: Status)
    modifies klass`methodCount
    ensures var v := U16At(klass.rawBytes, location + 1);
            && (r.Ok? <==> v.Ok?)
            && (r.Err? ==> r.fault == v.fault)
            && (r.Ok? ==> klass.methodCount == v.value)
  {
    var methodCount :- U16At(klass.rawBytes, location + 1);
    klass.methodCount := methodCount;
    return Ok(());
  }

  /** Lines 33-58: the magic number, version and pool count checks,
      storing the version (with status PRELIM_VERIFIED) and then the count.
      A bad magic number, or a version above 55, leaves the class record as
      it was; a bad count comes after the version is stored. */
  method CheckPreamble(klass: LoadedClass, name: string) returns (r: Status)
    modifies klass`version, klass`status, klass`constantPoolCount
    ensures var p := Preamble(klass.rawBytes, name);
            && (r.Ok? <==> p.Ok?)
            && (r.Err? ==> r.fault == p.fault)
            && (r.Ok? ==> p == Ok((klass.version, klass.constantPoolCount)) && klass.status == PrelimVerified)
    ensures var v := U16At(klass.rawBytes, 6);
            if MagicCheck(klass.rawBytes, name).Ok? && v.Ok? && v.value <= MaxVersion
            then klass.version == v.value && klass.status == PrelimVerified
            else klass.version == old(klass.version) && klass.status == old(klass.status)
    ensures r.Err? ==> klass.constantPoolCount == old(klass.constantPoolCount)
  {
    var magic :- MagicCheck(klass.rawBytes, name);
    var version :- U16At(klass.rawBytes, 6);
    if version > MaxVersion {
      return Err(Shutdown);
    }
    klass.version := version;
    klass.status := PrelimVerified;
    var cpCount :- U16At(klass.rawBytes, 8);
    if cpCount < 2 {
      return Err(Thrown(ClassFormatError(name + CountErrorSuffix)));
    }
    klass.constantPoolCount := cpCount;
    return Ok(());
  }

  /** The access step of lines 66-70 as a value: the mask read after
      `location` and the flags processing leaves on top of `flags0`.  Any
      illegal combination, and a zero mask, ends in a shutdown. */
  function AccessAt(bytes: seq<byte>, flags0: ClassFlags, location: int): (r: Result<(int, ClassFlags)>)
    ensures var v := Int16At(bytes, location + 1);
            && (r.Ok? <==> v.Ok? && LegalFlags(Union(flags0, MaskFlags(v.value))) && v.value != 0)
            && (r.Err? ==> r.fault == if v.Err? then v.fault else Shutdown)
            && (r.Ok? ==> r.value == (v.value, Union(flags0, MaskFlags(v.value))))
  {
    var mask :- Int16At(bytes, location + 1);
    var flags := Union(flags0, MaskFlags(mask));
    VerifyFlagsMeaning(flags, mask);
    var _ :- VerifyFlags(flags, mask);
    Ok((mask, flags))
  }

  /** One name step of lines 73-84 as a value: the reference read after
      `location`, checked to name a ClassRef slot, and the name it resolves
      to.  A reference to a slot of another kind ends in a shutdown; every
      other failure is a trap. */
  function NameAt(bytes: seq<byte>, cp: seq<CpEntry>, location: int): (r: Result<(int, string)>)
    ensures var v := Int16At(bytes, location + 1);
            && (r.Ok? <==> v.Ok? && ClassNameAt(cp, v.value).Ok?)
            && (r.Ok? ==> r.value == (v.value, ClassNameAt(cp, v.value).value))
            && (v.Ok? && 0 <= v.value < |cp| && !cp[v.value].ClassRef? ==> r == Err(Shutdown))
            && (r.Err? ==> r.fault == Shutdown || r.fault.Trap?)
  {
    var ref :- Int16At(bytes, location + 1);
    var _ :- VerifyClassRef(cp, ref);
    var name :- ClassNameAt(cp, ref);
    Ok((ref, name))
  }

  /** Lines 66-70: read, process and verify the access flags. */
  method ReadClassAccess(klass: LoadedClass, location: int) returns (r: Status)
    modifies klass`accessMask, klass`flags
    ensures var a := AccessAt(klass.rawBytes, old(klass.flags), location);
            && (r.Ok? <==> a.Ok?)
            && (r.Err? ==> r.fault == a.fault)
            && (r.Ok? ==> klass.accessMask == a.value.0 && klass.flags == a.value.1)
  {
    var read := ReadAccessFlags(klass, location);
    if read.Err? {
      return read;
    }
    ProcessClassAccessMask(klass);
    r := VerifyFlags(klass.flags, klass.accessMask);
  }

  /** Lines 73-84: the this-class and superclass names, each read, verified
      and resolved; the two reads are 2 bytes apart. */
  method ReadClassNames(klass: LoadedClass, location: int) returns (r: Status)
    modifies klass`thisClassRef, klass`shortName, klass`superClassRef, klass`superClassName
    ensures var t, s := NameAt(klass.rawBytes, klass.cp, location), NameAt(klass.rawBytes, klass.cp, location + 2);
            && (r.Ok? <==> t.Ok? && s.Ok?)
            && (r.Err? ==> r.fault == if t.Err? then t.fault else s.fault)
            && (r.Ok? ==> && klass.thisClassRef == t.value.0 && klass.shortName == t.value.1
                          && klass.superClassRef == s.value.0 && klass.superClassName == s.value.1)
  {
    var s :- ReadThisClassName(klass, location);
    s :- VerifyClassRef(klass.cp, klass.thisClassRef);
    s :- ProcessThisClassName(klass);
    s :- ReadSuperclassName(klass, location + 2);
    s :- VerifyClassRef(klass.cp, klass.superClassRef);
    s :- ProcessSuperclassName(klass);
    return Ok(());
  }

  /** Lines 87-103: the interface, field and method counts, 2 bytes apart.
      Only running off the end of the buffer stops them. */
  method ReadCounts(klass: LoadedClass, location: int) returns (r: Status)
    modifies klass`interfaceCount, klass`fieldCount, klass`methodCount
    ensures var i, f, m := U16At(klass.rawBytes, location + 1), U16At(klass.rawBytes, location + 3),
                           U16At(klass.rawBytes, location + 5);
            && (r.Ok? <==> i.Ok? && f.Ok? && m.Ok?)
            && (r.Err? ==> r.fault == Trap(IndexOutOfRange))
            && (r.Ok? ==> klass.interfaceCount == i.value && klass.fieldCount == f.value && klass.methodCount == m.value)
  {
    var s :- ReadInterfaceCount(klass, location);
    s :- ReadFieldCount(klass, location + 2);
    s :- ReadMethodCount(klass, location + 4);
    return Ok(());
  }

  /** Where the method_info after `records` starts: the end of the last
      one, or `location` before the first. */
  function NextMethodAt(records: seq<MethodRecord>, location: int): int {
    if |records| == 0 then location else records[|records| - 1].end
  }

  /** The first n method_info records after `location`, each starting
      where the previous one ended. */
  function MethodsAt(bytes: seq<byte>, cp: seq<CpEntry>, location: int, n: nat): (r: Result<seq<MethodRecord>>)
    ensures r.Ok? ==> |r.value| == n
    ensures r.Err? ==> r.fault.Trap?
    decreases n
  {
    if n == 0 then Ok([])
    else
      var prev :- MethodsAt(bytes, cp, location, n - 1);
      var m :- MethodAt(bytes, cp, NextMethodAt(prev, location));
      Ok(prev + [m])
  }

  /** A method object holds what a method_info record says, with the
      attribute list it started empty with. */
  predicate Describes(m: Method, rec: MethodRecord)
    reads m
  {
    && m.accessFlags == rec.header.accessFlags && m.name == rec.header.name
    && m.descriptor == rec.header.descriptor && m.attributeCount == rec.header.attrCount
    && m.attributes == rec.attributes
  }

  /** ms is `before` followed by one method object per record, each
      describing the record at the same position. */
  predicate Extends(ms: seq<Method>, before: seq<Method>, recs: seq<MethodRecord>)
    reads set m | m in ms
  {
    && |ms| == |before| + |recs| && ms[..|before|] == before
    && forall k :: 0 <= k < |recs| ==> Describes(ms[|before| + k], recs[k])
  }

  /** Appending a method object that describes the next record keeps Extends. */
  lemma ExtendsSnoc(ms: seq<Method>, before: seq<Method>, recs: seq<MethodRecord>, m: Method, rec: MethodRecord)
    requires Extends(ms, before, recs) && Describes(m, rec)
    ensures Extends(ms + [m], before, recs + [rec])
  {
    assert (ms + [m])[..|before|] == ms[..|before|];
  }

  /** One turn of the method loop: a fresh MethodInfo reads the
      method_info after loc; yields its method and the offset of its last
      byte. */
  method ReadOneMethod(klass: LoadedClass, loc: int) returns (r: Result<(Method, int)>)
    ensures var m := MethodAt(klass.rawBytes, klass.cp, loc);
            && (r.Ok? <==> m.Ok?)
            && (r.Err? ==> r.fault == m.fault)
            && (r.Ok? ==> fresh(r.value.0) && Describes(r.value.0, m.value) && r.value.1 == m.value.end)
  {
    var mi := new MethodInfo();
    var next :- mi.Read(klass, loc);
    return Ok((mi.methodData, next));
  }

  /** Reading one more method_info appends its record. */
  lemma MethodsAtSnoc(bytes: seq<byte>, cp: seq<CpEntry>, location: int, n: nat)
    requires MethodsAt(bytes, cp, location, n).Ok?
    requires MethodAt(bytes, cp, NextMethodAt(MethodsAt(bytes, cp, location, n).value, location)).Ok?
    ensures var prev := MethodsAt(bytes, cp, location, n).value;
            MethodsAt(bytes, cp, location, n + 1)
            == Ok(prev + [MethodAt(bytes, cp, NextMethodAt(prev, location)).value])
  {
  }

  /** Once a method_info fails to read, reading more of them fails the
      same way: the loop stops at the first fault. */
  lemma {:induction false} MethodsAtFailurePersists(bytes: seq<byte>, cp: seq<CpEntry>, location: int, k: nat, n: nat)
    requires k <= n && MethodsAt(bytes, cp, location, k).Err?
    ensures MethodsAt(bytes, cp, location, n) == MethodsAt(bytes, cp, location, k)
    decreases n
  {
    if k < n {
      MethodsAtFailurePersists(bytes, cp, location, k, n - 1);
    }
  }

  /** The first n method_info records after `location` are `records`,
      and the next one starts after loc. */
  predicate Progress(bytes: seq<byte>, cp: seq<CpEntry>, location: int, n: nat, records: seq<MethodRecord>, loc: int) {
    MethodsAt(bytes, cp, location, n) == Ok(records) && loc == NextMethodAt(records, location)
  }

  /** The body of the method loop: reads the n-th method_info, which
      starts after loc, and appends its method object to methodInfo. */
  method AppendMethod(klass: LoadedClass, location: int, loc: int, n: nat, count: nat,
                      ghost before: seq<Method>, ghost records: seq<MethodRecord>)
      returns (r: Result<(Method, int)>, ghost recs: seq<MethodRecord>)
    requires n < count
    requires Progress(klass.rawBytes, klass.cp, location, n, records, loc)
    requires Extends(klass.methodInfo, before, records)
    modifies klass`methodInfo
    ensures r.Ok? <==> MethodsAt(klass.rawBytes, klass.cp, location, n + 1).Ok?
    ensures r.Err? ==> MethodsAt(klass.rawBytes, klass.cp, location, count) == Err(r.fault)
    ensures r.Ok? ==> && fresh(r.value.0) && klass.methodInfo == old(klass.methodInfo) + [r.value.0]
                      && Progress(klass.rawBytes, klass.cp, location, n + 1, recs, r.value.1)
                      && Extends(klass.methodInfo, before, recs)
  {
    r := ReadOneMethod(klass, loc);
    recs := records;
    if r.Ok? {
      var rec := MethodAt(klass.rawBytes, klass.cp, loc).value;
      MethodsAtSnoc(klass.rawBytes, klass.cp, location, n);
      ExtendsSnoc(klass.methodInfo, before, records, r.value.0, rec);
      klass.methodInfo := klass.methodInfo + [r.value.0];
      recs := records + [rec];
    } else {
      MethodsAtFailurePersists(klass.rawBytes, klass.cp, location, n + 1, count);
    }
  }

  /** What the method loop leaves for `count` method_info records after
      `location`: a count below 1 traps on the empty range; otherwise the
      loop fails exactly as MethodsAt does, and on success returns the end
      of the last record, with ms being `before` followed by one method
      object per record. */
  predicate MethodsRead(bytes: seq<byte>, cp: seq<CpEntry>, location: int, count: int,
                        r: Result<int>, ms: seq<Method>, before: seq<Method>)
    reads set m | m in ms
  {
    if count < 1 then r == Err(Trap(EmptyRange))
    else
      var res := MethodsAt(bytes, cp, location, count);
      && (r.Ok? <==> res.Ok?)
      && (r.Err? ==> res == Err(r.fault))
      && (r.Ok? ==> r.value == NextMethodAt(res.value, location) && Extends(ms, before, res.value))
  }

  /** The body of `for i in 0...(count - 1)` for a count of at least 1:
      one fresh method appended per method_info, in file order.  Fails
      exactly as MethodsAt does, and otherwise returns the offset of the
      last byte of the last record. */
  method MethodLoop(klass: LoadedClass, location: int, count: nat) returns (r: Result<int>)
    requires count >= 1
    modifies klass`methodInfo
    ensures MethodsRead(klass.rawBytes, klass.cp, location, count, r, klass.methodInfo, old(klass.methodInfo))
    ensures r.Ok? ==> forall k :: |old(klass.methodInfo)| <= k < |klass.methodInfo| ==> fresh(klass.methodInfo[k])
  {
    var bytes, cp := klass.rawBytes, klass.cp;
    ghost var before := klass.methodInfo;
    ghost var records: seq<MethodRecord> := [];
    var loc := location;
    var i := 0;
    while i <= count - 1
      invariant 0 <= i <= count
      invariant Progress(bytes, cp, location, i, records, loc)
      invariant Extends(klass.methodInfo, before, records)
      invariant forall k :: |before| <= k < |klass.methodInfo| ==> fresh(klass.methodInfo[k])
    {
      var next;
      next, records := AppendMethod(klass, location, loc, i, count, before, records);
      if next.Err? {
        return Err(next.fault);
      }
      loc := next.value.1;
      i := i + 1;
    }
    return Ok(loc);
  }

  /** Lines 105-110: `for i in 0...(methodCount - 1)`, which traps on the
      empty range when the method count is 0. */
  method ReadMethods(klass: LoadedClass, location: int) returns (r: Result<int>)
    modifies klass`methodInfo
    ensures MethodsRead(klass.rawBytes, klass.cp, location, klass.methodCount, r, klass.methodInfo, old(klass.methodInfo))
    ensures r.Ok? ==> forall k :: |old(klass.methodInfo)| <= k < |klass.methodInfo| ==> fresh(klass.methodInfo[k])
  {
    if klass.methodCount - 1 < 0 {
      return Err(Trap(EmptyRange));
    }
    r := MethodLoop(klass, location, klass.methodCount);
  }

  /** Lines 61-63 as a value, for a record whose pool starts as `cp0`:
      the entries the pool loader appends and the offset of the pool's last
      byte, provided the validator then runs over the whole pool without
      trapping. */
  function PoolAt(bytes: seq<byte>, cp0: seq<CpEntry>, count: int, decode: Utf8Decoder): (r: Result<Step>)
    ensures var p := DecodePool(bytes, count, decode);
            && (r.Ok? <==> p.Ok? && Verify(cp0 + p.value.entries, count).Ok?)
            && (r.Err? ==> r.fault.Trap? && r.fault == if p.Err? then p.fault
                                                      else Verify(cp0 + p.value.entries, count).fault)
            && (r.Ok? ==> p == r)
  {
    var pool :- DecodePool(bytes, count, decode);
    var reports :- Verify(cp0 + pool.entries, count);
    Ok(pool)
  }

  /** Lines 61-63: load the pool, then run the validator over it; the
      validator only reports, so only its traps stop the parse.  Returns
      the offset of the last byte of the pool. */
  method ReadPool(klass: LoadedClass, decode: Utf8Decoder) returns (r: Result<int>)
    modifies klass`cp
    ensures var p := PoolAt(klass.rawBytes, old(klass.cp), klass.constantPoolCount, decode);
            && (r.Ok? <==> p.Ok?)
            && (r.Err? ==> r.fault == p.fault)
            && (r.Ok? ==> r.value == p.value.next && klass.cp == old(klass.cp) + p.value.entries)
  {
    var location :- Load(klass, decode);
    var reports :- Verify(klass.cp, klass.constantPoolCount);
    return Ok(location);
  }

  /** The items lines 66-103 store in the class record. */
  datatype Header = Header(accessMask: int, flags: ClassFlags, thisClassRef: int, shortName: string,
                           superClassRef: int, superClassName: string,
                           interfaceCount: int, fieldCount: int, methodCount: int)

  /** Lines 66-103 as a value, for the pool ending at `location`: the
      access step, the two name steps and the three counts, 2 bytes each.
      Every failure is a shutdown or a trap, never a thrown error. */
  function HeaderAt(bytes: seq<byte>, cp: seq<CpEntry>, flags0: ClassFlags, location: int): (r: Result<Header>)
    ensures r.Err? ==> r.fault == Shutdown || r.fault.Trap?
  {
    var access :- AccessAt(bytes, flags0, location);
    var thisName :- NameAt(bytes, cp, location + 2);
    var superName :- NameAt(bytes, cp, location + 4);
    var interfaceCount :- U16At(bytes, location + 7);
    var fieldCount :- U16At(bytes, location + 9);
    var methodCount :- U16At(bytes, location + 11);
    Ok(Header(access.0, access.1, thisName.0, thisName.1, superName.0, superName.1,
              interfaceCount, fieldCount, methodCount))
  }

  /** The header items succeed exactly when each of the six steps does,
      and then hold the signed mask and class references and the unsigned
      counts at offsets 1, 3, 5, 7, 9 and 11 past the pool, the names those
      references resolve to, and legal flags from a non-zero mask. */
  lemma HeaderAtReads(bytes: seq<byte>, cp: seq<CpEntry>, flags0: ClassFlags, location: int)
    ensures var r := HeaderAt(bytes, cp, flags0, location);
            && (r.Ok? <==> && AccessAt(bytes, flags0, location).Ok?
                           && NameAt(bytes, cp, location + 2).Ok? && NameAt(bytes, cp, location + 4).Ok?
                           && U16At(bytes, location + 7).Ok? && U16At(bytes, location + 9).Ok?
                           && U16At(bytes, location + 11).Ok?)
            && (r.Ok? ==> var h := r.value;
                  && Int16At(bytes, location + 1) == Ok(h.accessMask) && h.accessMask != 0
                  && h.flags == Union(flags0, MaskFlags(h.accessMask)) && LegalFlags(h.flags)
                  && Int16At(bytes, location + 3) == Ok(h.thisClassRef) && ClassNameAt(cp, h.thisClassRef) == Ok(h.shortName)
                  && Int16At(bytes, location + 5) == Ok(h.superClassRef) && ClassNameAt(cp, h.superClassRef) == Ok(h.superClassName)
                  && U16At(bytes, location + 7) == Ok(h.interfaceCount) && U16At(bytes, location + 9) == Ok(h.fieldCount)
                  && U16At(bytes, location + 11) == Ok(h.methodCount))
  {
  }

  /** The header items the class record holds. */
  function StoredHeader(klass: LoadedClass): Header
    reads klass
  {
    Header(klass.accessMask, klass.flags, klass.thisClassRef, klass.shortName,
           klass.superClassRef, klass.superClassName,
           klass.interfaceCount, klass.fieldCount, klass.methodCount)
  }

  /** The class record holds the header items h. */
  predicate HoldsHeader(klass: LoadedClass, h: Header)
    reads klass
  {
    StoredHeader(klass) == h
  }

  /** Lines 66-103: access flags, class names and the three counts, the
      offset advancing 2 bytes per item. */
  method ReadHeaderItems(klass: LoadedClass, location: int) returns (r: Status)
    modifies klass`accessMask, klass`flags, klass`thisClassRef, klass`shortName, klass`superClassRef,
             klass`superClassName, klass`interfaceCount, klass`fieldCount, klass`methodCount
    ensures var h := HeaderAt(klass.rawBytes, klass.cp, old(klass.flags), location);
            && (r.Ok? <==> h.Ok?)
            && (r.Err? ==> r.fault == h.fault)
            && (r.Ok? ==> HoldsHeader(klass, h.value))
  {
    var s :- ReadClassAccess(klass, location);
    s :- ReadClassNames(klass, location + 2);
    s :- ReadCounts(klass, location + 6);
    return Ok(());
  }

  /** What lines 66-110 read after the pool: the header items, the
      method_info records, and the offset of the last byte of the last one. */
  datatype Body = Body(header: Header, methods: seq<MethodRecord>, end: int)

  /** Lines 66-110 as a value, for the pool ending at `location`.  It
      succeeds exactly when the header items do, the method count is at
      least 1 and that many method_info records read; a method count of 0
      traps on the empty range. */
  function BodyAt(bytes: seq<byte>, cp: seq<CpEntry>, flags0: ClassFlags, location: int): (r: Result<Body>)
    ensures var h := HeaderAt(bytes, cp, flags0, location);
            && (r.Ok? <==> h.Ok? && h.value.methodCount >= 1
                           && MethodsAt(bytes, cp, location + 12, h.value.methodCount).Ok?)
            && (h.Ok? && h.value.methodCount < 1 ==> r == Err(Trap(EmptyRange)))
            && (r.Err? ==> r.fault == Shutdown || r.fault.Trap?)
  {
    var header :- HeaderAt(bytes, cp, flags0, location);
    if header.methodCount - 1 < 0 then Err(Trap(EmptyRange))
    else
      var methods :- MethodsAt(bytes, cp, location + 12, header.methodCount);
      Ok(Body(header, methods, NextMethodAt(methods, location + 12)))
  }

  /** A body that reads holds the header items, one method_info record per
      method counted, read from offset 12 past the pool on, and ends where
      the last record does. */
  lemma BodyAtReads(bytes: seq<byte>, cp: seq<CpEntry>, flags0: ClassFlags, location: int)
    ensures var r := BodyAt(bytes, cp, flags0, location);
            r.Ok? ==> && HeaderAt(bytes, cp, flags0, location) == Ok(r.value.header)
                      && |r.value.methods| == r.value.header.methodCount >= 1
                      && MethodsAt(bytes, cp, location + 12, r.value.header.methodCount) == Ok(r.value.methods)
                      && r.value.end == r.value.methods[|r.value.methods| - 1].end
  {
  }

  /** Lines 66-110: the header items after the pool, which ends at
      `location`, then the methods. */
  method ReadBody(klass: LoadedClass, location: int) returns (r: Status)
    modifies klass`accessMask, klass`flags, klass`thisClassRef, klass`shortName, klass`superClassRef,
             klass`superClassName, klass`interfaceCount, klass`fieldCount, klass`methodCount, klass`methodInfo
    ensures var b := BodyAt(klass.rawBytes, klass.cp, old(klass.flags), location);
            && (r.Ok? <==> b.Ok?)
            && (r.Err? ==> r.fault == b.fault)
    ensures r.Ok? ==> var b := BodyAt(klass.rawBytes, klass.cp, old(klass.flags), location).value;
              && HoldsHeader(klass, b.header) && Extends(klass.methodInfo, old(klass.methodInfo), b.methods)
              && forall k :: |old(klass.methodInfo)| <= k < |klass.methodInfo| ==> fresh(klass.methodInfo[k])
  {
    var s :- ReadHeaderItems(klass, location);
    var end :- ReadMethods(klass, location + 12);
    return Ok(());
  }

  /** What lines 61-110 read: the pool entries (slot 0 first), the offset
      of the pool's last byte, and everything after the pool. */
  datatype Contents = Contents(entries: seq<CpEntry>, poolEnd: int, body: Body)

  /** Lines 61-110 as a value, for a pool of `count` slots that starts
      as `cp0` and flags that start as `flags0`: the pool, then the items
      after it.  Every failure is a trap or a shutdown. */
  function ContentsAt(bytes: seq<byte>, cp0: seq<CpEntry>, count: int, flags0: ClassFlags, decode: Utf8Decoder)
    : (r: Result<Contents>)
    ensures var p := PoolAt(bytes, cp0, count, decode);
            && (r.Ok? <==> p.Ok? && BodyAt(bytes, cp0 + p.value.entries, flags0, p.value.next).Ok?)
            && (r.Err? ==> r.fault == if p.Err? then p.fault
                                      else BodyAt(bytes, cp0 + p.value.entries, flags0, p.value.next).fault)
            && (r.Err? ==> r.fault == Shutdown || r.fault.Trap?)
  {
    var pool :- PoolAt(bytes, cp0, count, decode);
    var body :- BodyAt(bytes, cp0 + pool.entries, flags0, pool.next);
    Ok(Contents(pool.entries, pool.next, body))
  }

  /** Contents that read hold the entries the pool loader decoded, which
      the validator accepts, and the body read after the pool's last byte. */
  lemma ContentsAtReads(bytes: seq<byte>, cp0: seq<CpEntry>, count: int, flags0: ClassFlags, decode: Utf8Decoder)
    ensures var r := ContentsAt(bytes, cp0, count, flags0, decode);
            r.Ok? ==> && DecodePool(bytes, count, decode) == Ok(Step(r.value.entries, r.value.poolEnd))
                      && Verify(cp0 + r.value.entries, count).Ok?
                      && BodyAt(bytes, cp0 + r.value.entries, flags0, r.value.poolEnd) == Ok(r.value.body)
  {
  }

  /** The class record holds what lines 61-110 read, on top of the pool
      `cp0` and the methods `methods0` it started with. */
  predicate HoldsContents(klass: LoadedClass, c: Contents, cp0: seq<CpEntry>, methods0: seq<Method>)
    reads klass, set m | m in klass.methodInfo
  {
    && klass.cp == cp0 + c.entries
    && HoldsHeader(klass, c.body.header) && Extends(klass.methodInfo, methods0, c.body.methods)
  }

  /** Lines 61-110: the pool, then the items after it. */
  method ReadContents(klass: LoadedClass, decode: Utf8Decoder) returns (r: Status)
    modifies klass`cp
    modifies klass`accessMask, klass`flags, klass`thisClassRef, klass`shortName, klass`superClassRef,
             klass`superClassName, klass`interfaceCount, klass`fieldCount, klass`methodCount, klass`methodInfo
    ensures var c := ContentsAt(klass.rawBytes, old(klass.cp), klass.constantPoolCount, old(klass.flags), decode);
            && (r.Ok? <==> c.Ok?)
            && (r.Err? ==> r.fault == c.fault)
            && (r.Ok? ==> HoldsContents(klass, c.value, old(klass.cp), old(klass.methodInfo)))
    ensures r.Ok? ==> forall k :: |old(klass.methodInfo)| <= k < |klass.methodInfo| ==> fresh(klass.methodInfo[k])
  {
    var location :- ReadPool(klass, decode);
    r := ReadBody(klass, location);
  }

  /** What a whole parse reads: the version and pool count, then lines
      61-110's contents. */
  datatype Parsed = Parsed(version: int, count: int, contents: Contents)

  /** The `do` block of parseClassfile (lines 31-111) as a value, for a
      record whose pool starts as `cp0` and whose flags start as `flags0`.
      Only the checks before the pool throw; every later failure is a
      shutdown or a trap. */
  function ParseAt(bytes: seq<byte>, name: string, cp0: seq<CpEntry>, flags0: ClassFlags, decode: Utf8Decoder)
    : (r: Result<Parsed>)
    ensures var p := Preamble(bytes, name);
            && (r.Ok? <==> p.Ok? && ContentsAt(bytes, cp0, p.value.1, flags0, decode).Ok?)
            && (p.Err? ==> r == Err(p.fault))
            && (r.Err? && p.Ok? ==> r.fault == ContentsAt(bytes, cp0, p.value.1, flags0, decode).fault)
            && (r.Err? && p.Ok? ==> r.fault == Shutdown || r.fault.Trap?)
  {
    var preamble :- Preamble(bytes, name);
    var contents :- ContentsAt(bytes, cp0, preamble.1, flags0, decode);
    Ok(Parsed(preamble.0, preamble.1, contents))
  }

  /** A parse that succeeds holds the version and pool count the checks
      before the pool read, and the contents read after them. */
  lemma ParseAtReads(bytes: seq<byte>, name: string, cp0: seq<CpEntry>, flags0: ClassFlags, decode: Utf8Decoder)
    ensures var r := ParseAt(bytes, name, cp0, flags0, decode);
            r.Ok? ==> && Preamble(bytes, name) == Ok((r.value.version, r.value.count))
                      && ContentsAt(bytes, cp0, r.value.count, flags0, decode) == Ok(r.value.contents)
  {
  }

  /** The class record holds what the parse read, on top of the pool
      `cp0` and the methods `methods0` it started with. */
  predicate HoldsParse(klass: LoadedClass, o: Parsed, cp0: seq<CpEntry>, methods0: seq<Method>)
    reads klass, set m | m in klass.methodInfo
  {
    && klass.version == o.version && klass.status == PrelimVerified && klass.constantPoolCount == o.count
    && HoldsContents(klass, o.contents, cp0, methods0)
  }

  /** ClassParser.parseClassfile from the `do` block on (lines 31-115),
      over the bytes already in klass.rawBytes.  Records the path, then
      runs the steps in order; the first failure ends the parse, and a
      ClassFormatError naming the class is rethrown with an empty name. */
  method ParseClassfile(name: string, klass: LoadedClass, decode: Utf8Decoder) returns (r: Status)
    modifies klass`path, klass`version, klass`status, klass`constantPoolCount, klass`cp
    modifies klass`accessMask, klass`flags, klass`thisClassRef, klass`shortName, klass`superClassRef,
             klass`superClassName, klass`interfaceCount, klass`fieldCount, klass`methodCount, klass`methodInfo
    ensures klass.path == name && klass.rawBytes == old(klass.rawBytes)
    ensures var o := ParseAt(klass.rawBytes, name, old(klass.cp), old(klass.flags), decode);
            && (r.Ok? <==> o.Ok?)
            && (r.Err? ==> r.fault == Catch(o.fault, name))
    ensures Preamble(klass.rawBytes, name).Err? ==>
              && klass.constantPoolCount == old(klass.constantPoolCount) && klass.cp == old(klass.cp)
              && StoredHeader(klass) == old(StoredHeader(klass)) && klass.methodInfo == old(klass.methodInfo)
    ensures var v := U16At(klass.rawBytes, 6);
            if MagicCheck(klass.rawBytes, name).Ok? && v.Ok? && v.value <= MaxVersion
            then klass.version == v.value && klass.status == PrelimVerified
            else klass.version == old(klass.version) && klass.status == old(klass.status)
    ensures r.Err? && name != "" ==> r.fault != Thrown(ClassFormatError(name))
    ensures r.Ok? ==> HoldsParse(klass, ParseAt(klass.rawBytes, name, old(klass.cp), old(klass.flags), decode).value,
                                 old(klass.cp), old(klass.methodInfo))
    ensures r.Ok? ==> forall k :: |old(klass.methodInfo)| <= k < |klass.methodInfo| ==> fresh(klass.methodInfo[k])
  {
    klass.path := name;
    r := ParseSteps(klass, name, decode);
    if r.Err? {
      r := Err(Catch(r.fault, name));
    }
  }

  /** The `do` block itself, before the catch: the checks before the
      pool, then the contents, stated step by step (ParseClassfile states
      the same in terms of ParseAt). */
  method ParseSteps(klass: LoadedClass, name: string, decode: Utf8Decoder) returns (r: Status)
    modifies klass`version, klass`status, klass`constantPoolCount, klass`cp
    modifies klass`accessMask, klass`flags, klass`thisClassRef, klass`shortName, klass`superClassRef,
             klass`superClassName, klass`interfaceCount, klass`fieldCount, klass`methodCount, klass`methodInfo
    ensures var p := Preamble(klass.rawBytes, name);
            p.Err? ==> && r == Err(p.fault) && klass.constantPoolCount == old(klass.constantPoolCount)
                       && klass.cp == old(klass.cp) && StoredHeader(klass) == old(StoredHeader(klass))
                       && klass.methodInfo == old(klass.methodInfo)
    ensures MagicCheck(klass.rawBytes, name).Err? ==> unchanged(klass)
    ensures var v := U16At(klass.rawBytes, 6);
            if MagicCheck(klass.rawBytes, name).Ok? && v.Ok? && v.value <= MaxVersion
            then klass.version == v.value && klass.status == PrelimVerified
            else klass.version == old(klass.version) && klass.status == old(klass.status)
    ensures var p := Preamble(klass.rawBytes, name);
            p.Ok? ==> && klass.version == p.value.0 && klass.status == PrelimVerified
                      && klass.constantPoolCount == p.value.1
                      && var c := ContentsAt(klass.rawBytes, old(klass.cp), p.value.1, old(klass.flags), decode);
                         && (r.Ok? <==> c.Ok?)
                         && (r.Err? ==> r.fault == c.fault)
                         && (r.Ok? ==> HoldsContents(klass, c.value, old(klass.cp), old(klass.methodInfo)))
    ensures r.Ok? ==> forall k :: |old(klass.methodInfo)| <= k < |klass.methodInfo| ==> fresh(klass.methodInfo[k])
  {
    r := CheckPreamble(klass, name);
    if r.Err? {
      return;
    }
    r := ReadContents(klass, decode);
  }

  /** The magic number 0xCAFEBABE, as bytes. */
  const Magic: seq<byte> := [0xCA, 0xFE, 0xBA, 0xBE]

  /** A class file that starts with the magic number, any minor version,
      a major version of at most 55 and a pool count of at least 2 passes
      the checks before the pool, which read back exactly that version and
      count. */
  lemma PreambleRoundTrip(minor: seq<byte>, version: int, count: int, rest: seq<byte>, name: string)
    requires |minor| == 2 && 0 <= version <= MaxVersion && 2 <= count < 0x1_0000
    ensures Preamble(Magic + minor + U16Bytes(version) + U16Bytes(count) + rest, name) == Ok((version, count))
  {
    var bytes := Magic + minor + U16Bytes(version) + U16Bytes(count) + rest;
    U16RoundTrip(Magic + minor, version, U16Bytes(count) + rest);
    assert bytes == (Magic + minor) + U16Bytes(version) + (U16Bytes(count) + rest);
    U16RoundTrip(Magic + minor + U16Bytes(version), count, rest);
    assert bytes[..4] == Magic;
  }

  /** The version is checked before the pool count: a version above 55
      shuts down whatever the count. */
  lemma VersionCheckedFirst(bytes: seq<byte>, name: string)
    requires MagicCheck(bytes, name).Ok? && |bytes| >= 8 && U16At(bytes, 6).value > MaxVersion
    ensures Preamble(bytes, name) == Err(Shutdown)
  {
  }

  /** A wrong magic number in a buffer of at least 4 bytes surfaces from
      parseClassfile as a ClassFormatError with an empty name: the catch
      matches the class's own error. */
  lemma MagicMismatchRethrown(bytes: seq<byte>, name: string)
    requires |bytes| >= 4 && bytes[..4] != Magic
    ensures Preamble(bytes, name).Err?
    ensures Catch(Preamble(bytes, name).fault, name) == Thrown(ClassFormatError(""))
  {
  }

  /** A pool count below 2 is thrown with the suffixed name, which the
      catch does not match: that error leaves parseClassfile as it is. */
  lemma CountErrorNotCaught(bytes: seq<byte>, name: string)
    requires MagicCheck(bytes, name).Ok? && |bytes| >= 10
    requires U16At(bytes, 6).value <= MaxVersion && U16At(bytes, 8).value < 2
    ensures Preamble(bytes, name) == Err(Thrown(ClassFormatError(name + CountErrorSuffix)))
    ensures Catch(Preamble(bytes, name).fault, name) == Thrown(ClassFormatError(name + CountErrorSuffix))
  {
    assert |name + CountErrorSuffix| > |name|;
  }
}
