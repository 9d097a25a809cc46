/** The records the decoder fills in: the class being loaded
    (Sources/jacobin/LoadedClass.swift), its constant-pool entries, its
    methods (Sources/jacobin/Classfile/Method.swift) and their attributes
    (Sources/jacobin/Classfile/Attribute.swift). */
module Klass {
  import opened Utility

  /** classStatus: the lifecycle of a loaded class. */
  datatype ClassStatus = NotVerified | PrelimVerified | Verified | Linked | Prepared

  /** One constant-pool slot.  The Swift code keeps these as a hierarchy of
      `CpEntry*` classes under `CpEntryTemplate`; here they are one tagged
      variant.  `Placeholder` is a bare `CpEntryTemplate`: slot 0 and the
      unused second slot of a long constant. */
  datatype CpEntry =
    | Placeholder
    | Utf8(contents: string)
    | IntegerConst(intValue: int)
    | LongConst(longValue: int)
    | ClassRef(classNameIndex: int)
    | StringRef(stringIndex: int)
    | FieldRef(classIndex: int, nameAndTypeIndex: int)
    | MethodRef(classIndex: int, nameAndTypeIndex: int)
    | NameAndType(nameIndex: int, descriptorIndex: int)
  {
    /** The `type` of the entry: the tag byte it was decoded from
        (JVMS Table 4.4-B); a placeholder has none of those tags. */
    function Tag(): int {
      match this
      case Placeholder => 0
      case Utf8(_) => 1
      case IntegerConst(_) => 3
      case LongConst(_) => 5
      case ClassRef(_) => 7
      case StringRef(_) => 8
      case FieldRef(_, _) => 9
      case MethodRef(_, _) => 10
      case NameAndType(_, _) => 12
    }
  }

  const TagUtf8: int := 1
  const TagClassRef: int := 7
  const TagNameAndType: int := 12

  /** An attribute header as the method decoder records it.  Each Swift
      `Attribute` object is created fresh, filled in once and then
      appended, so a value stands for it. */
  datatype Attribute = Attribute(attrName: string, attrLength: int)

  /** The nine `classIs*` booleans of a class (JVMS Table 4.1-B), held as
      one record: one field of the class rather than nine. */
  datatype ClassFlags = ClassFlags(
    isPublic: bool, isFinal: bool, isSuper: bool, isInterface: bool, isAbstract: bool,
    isSynthetic: bool, isAnnotation: bool, isEnum: bool, isModule: bool)

  const NoFlags := ClassFlags(false, false, false, false, false, false, false, false, false)

  /** A decoded method: the data shape of Method.swift, plus the attribute
      list that the method decoder appends to. */
  class Method {
    var name: string
    var descriptor: string
    var maxStack: int
    var maxLocals: int
    var attributeCount: int
    var codeLength: int
    var code: seq<byte>
    var exceptionTableLength: int
    var accessFlags: int
    var lineNumTable: seq<seq<int>>
    var deprecated: bool
    var synthetic: bool
    var attributes: seq<Attribute>

    constructor ()
      ensures name == "" && descriptor == "" && attributeCount == 0
      ensures maxStack == 0 && maxLocals == 0 && accessFlags == 0
      ensures code == [] && lineNumTable == [] && attributes == []
    {
      name, descriptor := "", "";
      maxStack, maxLocals, attributeCount, codeLength := 0, 0, 0, 0;
      code := [];
      exceptionTableLength := 0;
      accessFlags := 0;
      lineNumTable := [];
      deprecated, synthetic := false, false;
      attributes := [];
    }
  }

  /** A class as it is parsed and loaded. */
  class LoadedClass {
    var path: string
    var status: ClassStatus
    var rawBytes: seq<byte>
    var version: int
    var constantPoolCount: int
    var cp: seq<CpEntry>
    var accessMask: int
    var thisClassRef: int
    var shortName: string
    var superClassRef: int
    var superClassName: string
    var interfaceCount: int
    var fieldCount: int
    var methodCount: int
    var methodInfo: seq<Method>

    var flags: ClassFlags

    /** A fresh class record holding the bytes read from the class file. */
    constructor (bytes: seq<byte>)
      ensures rawBytes == bytes && path == "" && status == NotVerified
      ensures cp == [] && methodInfo == [] && accessMask == 0
      ensures flags == NoFlags
    {
      path := "";
      status := NotVerified;
      rawBytes := bytes;
      version, constantPoolCount := 0, 0;
      cp := [];
      accessMask, thisClassRef := 0, 0;
      shortName := "";
      superClassRef := 0;
      superClassName := "";
      interfaceCount, fieldCount, methodCount := 0, 0, 0;
      methodInfo := [];
      flags := NoFlags;
    }
  }
}
