/** The field count of the class header
    (Sources/jacobin/Classfile/FieldCount.swift, JVMS section 4.1). */
module FieldCount {
  import opened Exceptions
  import opened Utility
  import opened Klass

  /** readFieldCount: stores the u2 at location + 1 in fieldCount.  The
      offset is not advanced here; the parser adds 2 itself. */
  method ReadFieldCount(klass: LoadedClass, location: int) returns (r: Status)
    modifies klass`fieldCount
    ensures var v := U16At(klass.rawBytes, location + 1);
            && (r.Ok? <==> v.Ok?)
            && (r.Err? ==> r.fault == v.fault && klass.fieldCount == old(klass.fieldCount))
            && (r.Ok? ==> klass.fieldCount == v.value)
  {
    var fieldCount :- U16At(klass.rawBytes, location + 1);
    klass.fieldCount := fieldCount;
    return Ok(());
  }
}
