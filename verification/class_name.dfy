/** The names of this class and of its superclass
    (Sources/jacobin/Classfile/ThisClassName.swift and
    Sources/jacobin/Classfile/SuperclassName.swift, JVMS section 4.1): each
    is a header index that must reach a ClassRef slot, whose name index
    must in turn reach a Utf8 slot. */
module ClassName {
  import opened Exceptions
  import opened Utility
  import opened Klass
  import opened ConstantPool

  /** ThisClassName.readName: stores the Int16 at location + 1 in thisClassRef. */
  method ReadThisClassName(klass: LoadedClass, location: int) returns (r: Status)
    modifies klass`thisClassRef
    ensures var v := Int16At(klass.rawBytes, location + 1);
            && (r.Ok? <==> v.Ok?)
            && (r.Err? ==> r.fault == v.fault && klass.thisClassRef == old(klass.thisClassRef))
            && (r.Ok? ==> klass.thisClassRef == v.value)
  {
    var thisClassEntry :- Int16At(klass.rawBytes, location + 1);
    klass.thisClassRef := thisClassEntry;
    return Ok(());
  }

  /** SuperClassName.readName: stores the Int16 at location + 1 in superClassRef. */
  method ReadSuperclassName(klass: LoadedClass, location: int) returns (r: Status)
    modifies klass`superClassRef
    ensures var v := Int16At(klass.rawBytes, location + 1);
            && (r.Ok? <==> v.Ok?)
            && (r.Err? ==> r.fault == v.fault && klass.superClassRef == old(klass.superClassRef))
            && (r.Ok? ==> klass.superClassRef == v.value)
  {
    var superClassEntry :- Int16At(klass.rawBytes, location + 1);
    klass.superClassRef := superClassEntry;
    return Ok(());
  }

  /** The `verify` of both readers: `cp[ref].type != 7` ends in a shutdown;
      the subscript itself traps when ref is not an index of the pool. */
  function VerifyClassRef(cp: seq<CpEntry>, ref: int): (r: Status)
    ensures r.Ok? <==> 0 <= ref < |cp| && cp[ref].ClassRef?
    ensures !(0 <= ref < |cp|) ==> r == Err(Trap(IndexOutOfRange))
    ensures 0 <= ref < |cp| && !cp[ref].ClassRef? ==> r == Err(Shutdown)
  {
    if !(0 <= ref < |cp|) then Err(Trap(IndexOutOfRange))
    else if cp[ref].Tag() != TagClassRef then Err(Shutdown)
    else Ok(())
  }

  /** ThisClassName.process: shortName becomes the name the ClassRef at
      thisClassRef points to; either forced cast may trap first. */
  method ProcessThisClassName(klass: LoadedClass) returns (r: Status)
    modifies klass`shortName
    ensures var n := ClassNameAt(klass.cp, klass.thisClassRef);
            && (r.Ok? <==> n.Ok?)
            && (r.Err? ==> r.fault == n.fault && klass.shortName == old(klass.shortName))
            && (r.Ok? ==> klass.shortName == n.value)
  {
    var name :- ClassNameAt(klass.cp, klass.thisClassRef);
    klass.shortName := name;
    return Ok(());
  }

  /** SuperClassName.process: superClassName becomes the name the ClassRef
      at superClassRef points to; either forced cast may trap first. */
  method ProcessSuperclassName(klass: LoadedClass) returns (r: Status)
    modifies klass`superClassName
    ensures var n := ClassNameAt(klass.cp, klass.superClassRef);
            && (r.Ok? <==> n.Ok?)
            && (r.Err? ==> r.fault == n.fault && klass.superClassName == old(klass.superClassName))
            && (r.Ok? ==> klass.superClassName == n.value)
  {
    var name :- ClassNameAt(klass.cp, klass.superClassRef);
    klass.superClassName := name;
    return Ok(());
  }

  /** Once verify has passed, the first forced cast of process cannot fail:
      process succeeds exactly when the ClassRef's name index reaches a
      Utf8 slot, and then yields that slot's text. */
  lemma VerifiedRefResolves(cp: seq<CpEntry>, ref: int)
    requires VerifyClassRef(cp, ref).Ok?
    ensures ClassNameAt(cp, ref).Ok? <==> 0 <= cp[ref].classNameIndex < |cp| && cp[cp[ref].classNameIndex].Utf8?
    ensures ClassNameAt(cp, ref).Ok? ==> ClassNameAt(cp, ref).value == cp[cp[ref].classNameIndex].contents
  {
  }

  /** A name process resolves came through a ClassRef slot, so verify
      passes on the same index: process never succeeds where verify fails. */
  lemma ResolvedRefVerifies(cp: seq<CpEntry>, ref: int)
    requires ClassNameAt(cp, ref).Ok?
    ensures VerifyClassRef(cp, ref) == Ok(())
  {
  }

  /** The superclass check has no case for index 0, which JVMS section 4.1
      reserves for java.lang.Object: slot 0 is the placeholder the pool
      decoder puts there, so a super index of 0 ends in a shutdown. */
  lemma ZeroSuperclassRejected(cp: seq<CpEntry>)
    requires |cp| > 0 && cp[0] == Placeholder
    ensures VerifyClassRef(cp, 0) == Err(Shutdown)
  {
  }

  /** Index 0 never names a class either way: process traps on the
      placeholder's forced cast. */
  lemma ZeroSuperclassUnresolved(cp: seq<CpEntry>)
    requires |cp| > 0 && cp[0] == Placeholder
    ensures ClassNameAt(cp, 0) == Err(Trap(FailedCast))
  {
  }
}
