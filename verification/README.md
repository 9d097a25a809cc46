# jacobin class-file decoder, modelled in Dafny

This project models the class-file decoder of jacobin, a JVM written in
Swift. The decoder takes the bytes of a `.class` file that are already in
`LoadedClass.rawBytes` and fills in the class record, step by step:

- the magic number `0xCAFEBABE`;
- the major version, at most 55 (Java 11);
- the constant-pool count;
- the constant pool, then a pass over it by the cross-reference
  validator;
- the class access flags: read, expanded into the `classIs*` booleans,
  then checked against the rules of JVMS section 4.1;
- the this-class and superclass references, each resolved to a name;
- the interface, field and method counts;
- one `method_info` per method. Each becomes a fresh `Method` object
  appended to `LoadedClass.methodInfo`.

Two readers sit beside the pipeline and are modelled too: `Field.load`
for one `field_info`, and `CodeAttribute.load` for one `Code` attribute.

The model keeps the decoder's offset convention. A location names the
last byte already consumed, so each read happens at location + 1.

The Swift runtime stops the program in several cases:

- an `Int16` overflow in `Utility.getInt16fromBytes`;
- a subscript out of range;
- a closed range `a...b` with `b < a`;
- a failed `as!` cast.

The model makes each of these an explicit `Trap` outcome. A call to
`shutdown()` becomes a `Shutdown` outcome, and a thrown `JVMerror` becomes
`Thrown`. All three are values of one `Fault` datatype, carried in a
`Result`.

Operations that update an object in place are methods on Dafny classes
(`LoadedClass`, `Method`, `MethodInfo`, `Field`), with `modifies` frames.
Each method is proved against a pure function of the bytes and the
pool:

| method | function |
|---|---|
| `ConstantPool.Load` | `DecodePool` |
| `Methods.MethodInfo.Read` | `MethodAt` |
| `CodeAttribute.Load` | `CodeAt` |
| `Fields.Field.Load` | `FieldEnd` |
| `ClassParser.ReadMethods` | `MethodsAt` |
| `ClassParser.ReadPool` | `PoolAt` |
| `ClassParser.ReadHeaderItems` | `HeaderAt` |
| `ClassParser.ReadBody` | `BodyAt` |
| `ClassParser.ReadContents` | `ContentsAt` |
| `ClassParser.ParseClassfile` | `ParseAt` |

Every one of these contracts covers failure as well as success. The
method fails exactly when its function does, and with the same fault.

Lemmas state what the source promises about those functions. The
modules follow the source files: `Utility`, `Klass` (the records of
`LoadedClass.swift` and `Method.swift`), `ConstantPool`, `AccessFlags`,
`ClassName` (`ThisClassName.swift` and `SuperclassName.swift`),
`FieldCount`, `Fields`, `Methods`, `CodeAttribute` and `ClassParser`.

Where the code and its comments or the JVM specification disagree, the
model follows the code:

- The attribute length in `fillInAttribute` is `hi * 65535 + lo`, not the
  u4 value. `Methods.LongAttributeMisread` shows the difference.
- An attribute name or attribute count index with its top bit set traps
  in `getInt16fromBytes`.
- The superclass index 0 of `java.lang.Object` is rejected.
- `CodeAttribute.load` does not skip the exception table.
- A LineNumberTable with no entries, and a method with no attributes,
  both trap on their empty range.
- `ConstantPool.load` runs `constantPoolCount - 1` iterations, one per
  entry, but a long constant fills two slots (JVMS 4.4.5). After a long
  the loop therefore runs once too often and reads the next byte as a tag.
  `ConstantPool.LongOverrunsPool` shows a one-long pool ending at offset
  19 instead of 18, so the access flags are read one byte late.
- The Utf8 check in `ConstantPool.verify` tests the decoded string for the
  characters U+0000 and U+00F0..U+00FF. JVMS 4.4.7 forbids the bytes 0x00
  and 0xF0..0xFF in the encoded form instead. So legal names holding a
  character such as ñ (U+00F1, encoded C3 B1) are reported, and
  `ConstantPool.LegalNameReported` shows one.
- `MethodInfo.read` and `fillInAttribute` read only each attribute's
  6-byte header and never skip its body. So every `method_info` after the
  first is read from inside the previous method's Code attribute.
  `Methods.MethodAt` states the end offset: 8 + 6 * attribute_count bytes
  past the offset the record is read after.
- An access mask with ACC_MODULE (0x8000) set has a top byte of at least
  128, so `getInt16fromBytes` traps on it, and a module-info class never
  parses. `AccessFlags.ReadMaskHasNoModuleBit` shows that a mask read
  successfully never has that bit.
- `LoadedClass.swift` declares no `methodInfo` field, but
  `parseClassfile` appends to `klass.methodInfo` (ClassParser.swift:109).
  The model adds `methodInfo: seq<Method>` to `Klass.LoadedClass`.
- `MethodInfo.read` is declared without a result, but `parseClassfile`
  assigns its result to `location`. The model returns the offset of the
  last byte of the `method_info`, which is what the parser's use needs.

## Model

| member | source | states |
|---|---|---|
| Utility.Int16FromBytes | Sources/jacobin/Utility.swift:14-16 | The conversion succeeds exactly when msb < 128, and otherwise traps with an arithmetic overflow. A result lies in 0..32767 and has msb and lsb as its base-256 digits. |
| Utility.Int16FromBytesInjective | Sources/jacobin/Utility.swift:14-16 | Two byte pairs that both convert to the same value are the same pair. |
| Utility.Int16At | Sources/jacobin/Utility.swift:14-16 | Reading bytes i and i+1 through getInt16fromBytes traps when they are out of range, and succeeds exactly when they are in range and bytes[i] < 128. It then agrees with the unsigned u2 reading. |
| Utility.U16RoundTrip | Sources/jacobin/Classfile/Field.swift:41 | A u2 written big-endian at offset i is read back as itself, whatever surrounds it. |
| Utility.U32RoundTrip | Sources/jacobin/Classfile/CodeAttribute.swift:50 | A u4 written big-endian at offset i is read back as itself, whatever surrounds it. |
| ConstantPool.DecodeEntry | Sources/jacobin/Classfile/ConstantPool.swift:26-117 | One pool entry moves the offset past its tag and payload, and the offset stays inside the buffer. It appends two slots for a long, one for any other handled tag and none for an unknown tag. The first slot carries the tag read. A Utf8 entry consumes 2 + length bytes. |
| ConstantPool.DecodeUtf8 | Sources/jacobin/Classfile/ConstantPool.swift:29-41 | A Utf8 entry decodes exactly when its length field is readable, is at least 1 (0...length-1 traps otherwise) and its bytes lie in the buffer. It yields one Utf8 slot and ends 2 + length bytes after the tag. |
| ConstantPool.DecodeInteger | Sources/jacobin/Classfile/ConstantPool.swift:43-49 | An Integer entry decodes exactly when its 4 bytes are present. Its value is the u4 after the tag, and it consumes 4 bytes. |
| ConstantPool.DecodeLong | Sources/jacobin/Classfile/ConstantPool.swift:51-63 | A Long entry decodes exactly when its 8 bytes are present. It fills a Long slot followed by a placeholder slot and consumes 8 bytes. |
| ConstantPool.DecodeIndex | Sources/jacobin/Classfile/ConstantPool.swift:65-79 | A Class or String entry decodes exactly when its u2 is present. It yields one slot of that tag and consumes 2 bytes. |
| ConstantPool.DecodeIndexPair | Sources/jacobin/Classfile/ConstantPool.swift:81-112 | A Fieldref, Methodref or NameAndType entry decodes exactly when its two u2 are present. It yields one slot of that tag and consumes 4 bytes. |
| ConstantPool.CopyBytesIsSlice | Sources/jacobin/Classfile/ConstantPool.swift:33-36 | The byte-by-byte copy loop builds exactly the slice of the buffer after the length field. |
| ConstantPool.LoadEntry | Sources/jacobin/Classfile/ConstantPool.swift:26-117 | One turn of the load loop, as a method, computes exactly DecodeEntry. |
| ConstantPool.Load | Sources/jacobin/Classfile/ConstantPool.swift:21-120 | load appends the unused slot 0 and then the decoded entries to klass.cp, and returns the offset of the last byte of the pool. It fails, with the same fault, exactly when DecodePool does. A count below 2 traps on the empty range. |
| ConstantPool.DecodeEntriesFailurePersists | Sources/jacobin/Classfile/ConstantPool.swift:25-118 | Once an entry fails, the outcome of the whole pool is that failure. |
| ConstantPool.DecodeEntries | Sources/jacobin/Classfile/ConstantPool.swift:25-119 | After n entries the offset has advanced at least n bytes past offset 9. The returned offset names a byte of the buffer, at most 2n slots were appended, and a failure is a trap. |
| ConstantPool.DecodePool | Sources/jacobin/Classfile/ConstantPool.swift:21-120 | A count below 2 traps on the empty range, and every failure is a trap. A pool that decodes starts with the placeholder slot 0, has between 1 and 2 * count - 1 slots, and ends inside the buffer at least count - 1 bytes past offset 9. |
| ConstantPool.LongOverrunsPool | Sources/jacobin/Classfile/ConstantPool.swift:25-27 | On a class file with count 3 and one long constant, load decodes the long, then reads the high byte of access_flags as an unknown tag and ends at 19, not 18. The access flags are then read as 0x2100 instead of 0x0021. |
| ConstantPool.DecodeEntriesPairsLongs | Sources/jacobin/Classfile/ConstantPool.swift:59-61 | Every Long slot in the decoded pool is immediately followed by a placeholder slot. |
| ConstantPool.LongValueRoundTrip | Sources/jacobin/Classfile/ConstantPool.swift:52-56 | Splitting any signed 64-bit value into high and low u4 words and joining them as `Int64((high << 32) + low)` gives the value back. |
| ConstantPool.LongValue | Sources/jacobin/Classfile/ConstantPool.swift:52-56 | The joined value is a signed 64-bit integer, negative exactly when the high word's top bit is set, and congruent to high * 2^32 + low modulo 2^64. |
| ConstantPool.IntegerReadBack | Sources/jacobin/Classfile/ConstantPool.swift:43-49 | An Integer entry written with value v decodes to IntegerConst(v) and ends 4 bytes after its tag. |
| ConstantPool.IndexReadBack | Sources/jacobin/Classfile/ConstantPool.swift:65-79 | A Class or String entry written with index i decodes to that entry with index i. |
| ConstantPool.LongReadBack | Sources/jacobin/Classfile/ConstantPool.swift:51-63 | A Long entry written from value v decodes to LongConst(v) and a placeholder. |
| ConstantPool.IndexPairReadBack | Sources/jacobin/Classfile/ConstantPool.swift:81-112 | A two-index entry written with indices a and b decodes to the entry of its tag with a and b. |
| ConstantPool.EntryReadBack | Sources/jacobin/Classfile/ConstantPool.swift:26-117 | Any fixed-size entry encoded at an offset decodes to its own slots and consumes exactly its encoding. |
| ConstantPool.EntryRoundTrip | Sources/jacobin/Classfile/ConstantPool.swift:26-117 | Encoding a fixed-size entry between any bytes and decoding at its tag gives its slots back and ends at its last byte. |
| ConstantPool.Utf8RoundTrip | Sources/jacobin/Classfile/ConstantPool.swift:29-41 | A Utf8 entry of n > 0 raw bytes decodes to the decoder's string, or "" when the decoder fails, and ends at its last byte. With n = 0 it traps on the empty range. |
| ConstantPool.DecodeEntriesSnoc | Sources/jacobin/Classfile/ConstantPool.swift:25-118 | One more turn of the entry loop appends exactly the slots the new entry decodes to, and moves the offset to the end of that entry. |
| ConstantPool.EntryCheckMeaning | Sources/jacobin/Classfile/ConstantPool.swift:123-233 | For an entry whose references all lie in the pool, verify reports the slot exactly when the entry breaks the validator's own rules (Acceptable). These are the reference kinds of JVMS 4.4, a method name starting with '<' other than `<init>`, and a character test on Utf8 entries (U+0000 or U+00F0..U+00FF) that takes the place of the byte rule of JVMS 4.4.7. |
| ConstantPool.LegalNameReported | Sources/jacobin/Classfile/ConstantPool.swift:130-146 | A Utf8 entry "niño" is reported, because ñ is U+00F1, although its UTF-8 bytes C3 B1 are legal under JVMS 4.4.7. |
| ConstantPool.EntryCheck | Sources/jacobin/Classfile/ConstantPool.swift:125-231 | Checking a slot outside the pool traps out of range, and that is the only failure. Only Utf8, Class, String, Fieldref, Methodref and NameAndType slots are ever reported. |
| ConstantPool.EntryCheckTraps | Sources/jacobin/Classfile/ConstantPool.swift:151-228 | An entry with a reference outside the pool traps with an index out of range. |
| ConstantPool.VerifyUpToReports | Sources/jacobin/Classfile/ConstantPool.swift:124-232 | When no check traps, the scan reports exactly the slots whose check fails. A report does not stop the scan. |
| ConstantPool.VerifyUpTo | Sources/jacobin/Classfile/ConstantPool.swift:124-232 | The scan fails only by trapping out of range. Its reports lie in 1..m and are strictly increasing, in scan order. |
| ConstantPool.Verify | Sources/jacobin/Classfile/ConstantPool.swift:123-233 | A count below 2 traps on the empty range, and every failure is a trap. The reports lie in 1..count-1 and are strictly increasing. |
| ConstantPool.VerifyReportsExactly | Sources/jacobin/Classfile/ConstantPool.swift:123-233 | Over a pool whose references all resolve, verify succeeds and reports exactly the slots 1..count-1 that are not acceptable. |
| ConstantPool.ClassNameAt | Sources/jacobin/Classfile/ThisClassName.swift:32-35 | Resolving a class reference succeeds exactly when it names a Class slot whose name index names a Utf8 slot, and yields that string. |
| ConstantPool.CheckedClassRefResolves | Sources/jacobin/Classfile/ConstantPool.swift:151-159 | A Class slot that verify does not report always resolves to a name. |
| ConstantPool.Utf8At | Sources/jacobin/Classfile/MethodInfo.swift:31-37 | The forced Utf8 lookup succeeds exactly when the index names a Utf8 slot, and yields its string. |
| AccessFlags.ReadAccessFlags | Sources/jacobin/Classfile/AccessFlags.swift:17-21 | accessMask becomes the value getInt16fromBytes reads after location. When that read traps, the fault is the read's and the mask is unchanged. |
| AccessFlags.ReadMaskHasNoModuleBit | Sources/jacobin/Classfile/AccessFlags.swift:17-21 | A mask that was read successfully never has the 0x8000 (module) bit, so line 36 can never set classIsModule. |
| AccessFlags.ProcessClassAccessMask | Sources/jacobin/Classfile/AccessFlags.swift:25-38 | Each flag ends up set if it was set before or its bit is in the mask. No flag is ever cleared. |
| AccessFlags.ProcessFromNoFlags | Sources/jacobin/Classfile/AccessFlags.swift:25-38 | On a fresh class the flags are exactly the mask's bits. Processing never clears any of the nine flags, and it sets every flag whose bit is in the mask. |
| AccessFlags.MaskFlags | Sources/jacobin/Classfile/AccessFlags.swift:26-36 | A zero mask sets no flag, and a mask below 0x8000 never sets classIsModule. |
| AccessFlags.MaskFlagsRoundTrip | Sources/jacobin/Classfile/AccessFlags.swift:28-36 | Decoding the mask is lossless on the nine bits: any flag combination encoded as a mask decodes to itself. |
| AccessFlags.VerifyFlags | Sources/jacobin/Classfile/AccessFlags.swift:42-81 | Every violation ends in a shutdown, never in a thrown error. |
| AccessFlags.VerifyFlagsMeaning | Sources/jacobin/Classfile/AccessFlags.swift:42-81 | The check passes exactly when the flags obey the JVMS 4.1 rules it encodes and the mask is non-zero. |
| AccessFlags.AnnotationCheckRedundant | Sources/jacobin/Classfile/AccessFlags.swift:66-69 | The separate annotation check never changes the outcome: the check is the same without it. |
| AccessFlags.TypicalMasks | Sources/jacobin/Classfile/AccessFlags.swift:42-81 | A public super class (0x0021) and a public abstract interface (0x0601) pass, and a final interface (0x0611) is rejected. |
| ClassName.ReadThisClassName | Sources/jacobin/Classfile/ThisClassName.swift:16-20 | thisClassRef becomes the getInt16fromBytes value after location. A trap leaves it unchanged. |
| ClassName.ReadSuperclassName | Sources/jacobin/Classfile/SuperclassName.swift:16-20 | superClassRef becomes the getInt16fromBytes value after location. A trap leaves it unchanged. |
| ClassName.VerifyClassRef | Sources/jacobin/Classfile/ThisClassName.swift:23-28 | The check passes exactly when the reference names a Class slot. An index outside the pool traps, and any other slot shuts down. |
| ClassName.ProcessThisClassName | Sources/jacobin/Classfile/ThisClassName.swift:31-36 | shortName becomes the resolved name. A failed cast traps and leaves it unchanged. |
| ClassName.ProcessSuperclassName | Sources/jacobin/Classfile/SuperclassName.swift:32-39 | superClassName becomes the resolved name. A failed cast traps and leaves it unchanged. |
| ClassName.VerifiedRefResolves | Sources/jacobin/Classfile/ThisClassName.swift:23-36 | After the check passes, processing succeeds exactly when the Class slot's name index names a Utf8 slot, and yields that string. |
| ClassName.ResolvedRefVerifies | Sources/jacobin/Classfile/ThisClassName.swift:23-36 | Any reference that resolves to a name also passes the check. |
| ClassName.ZeroSuperclassRejected | Sources/jacobin/Classfile/SuperclassName.swift:23-29 | A superclass index of 0, which JVMS 4.1 prescribes for java.lang.Object, names the placeholder slot and shuts down. |
| ClassName.ZeroSuperclassUnresolved | Sources/jacobin/Classfile/SuperclassName.swift:32-36 | Resolving superclass index 0 traps on the failed cast. |
| FieldCount.ReadFieldCount | Sources/jacobin/Classfile/FieldCount.swift:13-18 | fieldCount becomes the u2 after location, and an out-of-range read leaves it unchanged. |
| Fields.ReadFieldHeader | Sources/jacobin/Classfile/Field.swift:35-52 | The header succeeds exactly when its four u2 are present and the name and descriptor indices name Utf8 slots. It holds the access flags, the two strings and the attribute count. |
| Fields.AttributeStep | Sources/jacobin/Classfile/Field.swift:59-91 | Every attribute turn advances the offset by at least its 6-byte header. |
| Fields.FieldEnd | Sources/jacobin/Classfile/Field.swift:34-97 | A field that reads has a readable header and ends at least 8 + 6 * attrCount bytes after its start. A failure is a trap. |
| Fields.SkipAttribute | Sources/jacobin/Classfile/Field.swift:59-91 | One attribute turn, as a method, computes exactly AttributeStep. |
| Fields.Field.Load | Sources/jacobin/Classfile/Field.swift:34-97 | load returns the offset FieldEnd gives, failing exactly when it does. On success it stores the header's access flags, name and descriptor. The attribute list is left untouched, as the source keeps none. |
| Fields.NoAttributesEndsAtEight | Sources/jacobin/Classfile/Field.swift:56 | A field without attributes ends 8 bytes after its start. |
| Fields.NamedAttributeAdvance | Sources/jacobin/Classfile/Field.swift:66-91 | An attribute whose name index is a Utf8 slot advances the offset by 6 + attribute_length, ConstantValue or not. |
| Fields.UnnamedAttributeAdvance | Sources/jacobin/Classfile/Field.swift:60-65 | An attribute whose name index is some other slot advances by 8 without reading its length. |
| Fields.ConstantValueGuard | Sources/jacobin/Classfile/Field.swift:74-82 | A ConstantValue attribute fails exactly when its pointer is within 1..count-1 and past the end of the decoded pool. |
| Fields.AttributesFrom | Sources/jacobin/Classfile/Field.swift:57-92 | n attributes end at least 6n bytes after they start, and the walk fails only by trapping. |
| Fields.AttributesCompose | Sources/jacobin/Classfile/Field.swift:57-92 | Reading a + b attributes equals reading a of them and then b more from where they end. |
| Fields.AttributeReadBack | Sources/jacobin/Classfile/Field.swift:59-91 | An attribute written with a Utf8 name other than ConstantValue is skipped exactly to its last byte. |
| Methods.GetMethodAccessFlags | Sources/jacobin/Classfile/MethodInfo.swift:103-107 | Reading the flags succeeds exactly when both bytes are present and the first is below 128, and yields their big-endian value. |
| Methods.AttributeAt | Sources/jacobin/Classfile/MethodInfo.swift:66-86 | An attribute header reads exactly when its name index resolves to a Utf8 slot and both length halves read. It is given that name and ends 6 bytes on. |
| Methods.MethodInfo.FillInAttribute | Sources/jacobin/Classfile/MethodInfo.swift:66-86 | fillInAttribute, as a method, computes exactly AttributeAt. |
| Methods.AttributesAt | Sources/jacobin/Classfile/MethodInfo.swift:59-63 | n attribute headers give a list of n attributes. |
| Methods.AttributesInOrder | Sources/jacobin/Classfile/MethodInfo.swift:59-63 | The k-th attribute read is the header found 6k bytes after the start, so the list is in file order. |
| Methods.AttributesFailurePersist | Sources/jacobin/Classfile/MethodInfo.swift:59-63 | Once an attribute fails, reading more attributes gives the same failure. |
| Methods.MethodHeaderAt | Sources/jacobin/Classfile/MethodInfo.swift:23-56 | The header reads exactly when the four Int16 reads succeed and the name and descriptor indices name Utf8 slots. It holds those values. |
| Methods.MethodAt | Sources/jacobin/Classfile/MethodInfo.swift:23-64 | A method_info that decodes has its header, at least one attribute, exactly attrCount attribute headers, and ends 8 + 6 * attrCount bytes after its start. |
| Methods.MethodInfo.ReadAttributes | Sources/jacobin/Classfile/MethodInfo.swift:59-63 | The attribute loop appends exactly AttributesAt's list to methodData.attributes, and fails exactly when AttributesAt does. |
| Methods.MethodInfo.Read | Sources/jacobin/Classfile/MethodInfo.swift:23-64 | read fails exactly when MethodAt does, and otherwise returns its end offset. It stores the header's flags, name, descriptor and attribute count, and appends its attributes. |
| Methods.NoAttributesTraps | Sources/jacobin/Classfile/MethodInfo.swift:59 | A method with no attributes traps on the empty range 0...-1. |
| Methods.NonUtf8NameTraps | Sources/jacobin/Classfile/MethodInfo.swift:29-36 | A name index that is in the pool but not a Utf8 slot traps on the forced cast. It is only logged first. |
| Methods.AttributeLengthMatchesU4 | Sources/jacobin/Classfile/MethodInfo.swift:74-78 | The computed length equals the u4 attribute_length exactly when its high half is 0. |
| Methods.AttributeLength | Sources/jacobin/Classfile/MethodInfo.swift:74-78 | The computed length equals high * 65536 + low exactly when the high half is 0, falls short of it otherwise, and is non-negative. |
| Methods.AttributeReadBack | Sources/jacobin/Classfile/MethodInfo.swift:66-86 | An attribute header written with a Utf8 name index and a length below 0x8000 reads back with that name and length, ending at its last byte. |
| Methods.LongAttributeMisread | Sources/jacobin/Classfile/MethodInfo.swift:78 | An attribute of length 0x10000 is recorded with length 65535. |
| CodeAttribute.CodeBytes | Sources/jacobin/Classfile/CodeAttribute.swift:55-57 | Copying code_length bytes succeeds exactly when the length is at least 1 and the bytes are present, and yields exactly those bytes. |
| CodeAttribute.CopyCode | Sources/jacobin/Classfile/CodeAttribute.swift:55-58 | The copy loop appends exactly CodeBytes's bytes to methodData.code, and fails exactly when CodeBytes does. |
| CodeAttribute.CodeAt | Sources/jacobin/Classfile/CodeAttribute.swift:37-112 | A Code attribute that decodes has its max_stack, max_locals and code_length u2/u4 values at offsets +1, +3 and +5. Its code is the code_length bytes at +9. It has the exception table length after the code, and its nested attributes start 12 + code_length bytes on. |
| CodeAttribute.CodeAtReads | Sources/jacobin/Classfile/CodeAttribute.swift:37-112 | The body decodes exactly when the limits, the length, the code copy, the exception table length, a nested count of at least 1 and that many nested attributes all read. Its rows and the returned last byte are then those of the nested attributes read from 12 + code_length bytes on. |
| CodeAttribute.AppendLineNumbers | Sources/jacobin/Classfile/CodeAttribute.swift:89-94 | Each LineNumberTable entry is appended as a [pc, line] pair, in order. |
| CodeAttribute.ReadNestedAttribute | Sources/jacobin/Classfile/CodeAttribute.swift:79-105 | One nested-attribute turn, as a method, returns NestedStep's offset and appends its line-number rows. |
| CodeAttribute.NestedStep | Sources/jacobin/Classfile/CodeAttribute.swift:79-105 | Every row a nested attribute adds is a [pc, line] pair, and only an attribute named LineNumberTable adds rows. |
| CodeAttribute.NestedFrom | Sources/jacobin/Classfile/CodeAttribute.swift:77-106 | Every row that n nested attributes add is a [pc, line] pair. |
| CodeAttribute.NestedFromStep | Sources/jacobin/Classfile/CodeAttribute.swift:77-106 | Reading m + 1 nested attributes equals one step and then m more from where it ends, with the rows concatenated. |
| CodeAttribute.ReadNestedAttributes | Sources/jacobin/Classfile/CodeAttribute.swift:77-106 | The nested-attribute loop returns NestedFrom's offset, appends its rows, and fails exactly when NestedFrom does. |
| CodeAttribute.Load | Sources/jacobin/Classfile/CodeAttribute.swift:37-112 | load fails exactly when CodeAt does, and otherwise returns its end. It stores max_stack and max_locals, appends the code bytes and appends the line-number rows. |
| CodeAttribute.EmptyCodeTraps | Sources/jacobin/Classfile/CodeAttribute.swift:55 | A code_length of 0 traps on the empty range 1...0. |
| CodeAttribute.NoNestedAttributesTraps | Sources/jacobin/Classfile/CodeAttribute.swift:77 | A Code attribute with no nested attributes traps on the empty range 1...0. |
| CodeAttribute.ExceptionTableNotSkipped | Sources/jacobin/Classfile/CodeAttribute.swift:61-67 | The nested attributes are taken to start where JVMS 4.7.3 puts them only when the exception table is empty. |
| CodeAttribute.OtherAttributeSkipped | Sources/jacobin/Classfile/CodeAttribute.swift:96-99 | A nested attribute that is not a LineNumberTable is skipped by 6 + its length and adds no rows. |
| CodeAttribute.LineNumberTableRows | Sources/jacobin/Classfile/CodeAttribute.swift:87-94 | A LineNumberTable with entries ends where the table reader says. It adds one [pc, line] row per entry, in order. |
| CodeAttribute.CodeCopyRoundTrip | Sources/jacobin/Classfile/CodeAttribute.swift:55-57 | Code bytes written after the length field are copied back unchanged. |
| ClassParser.MagicCheck | Sources/jacobin/ClassParser.swift:33-36 | The check passes exactly when the buffer starts with CA FE BA BE. A buffer of at least 4 bytes that fails throws ClassFormatError(name). A shorter one may instead trap out of range. |
| ClassParser.Preamble | Sources/jacobin/ClassParser.swift:33-58 | The checks before the pool pass exactly when the magic is right, the version at offset 6 is at most 55 and the count at offset 8 is at least 2. They then yield that version and count. |
| ClassParser.Catch | Sources/jacobin/ClassParser.swift:112-115 | The catch keeps a fault thrown exactly when it was thrown. It changes nothing but ClassFormatError(path), and never yields that error for a non-empty path. |
| ClassParser.CheckPreamble | Sources/jacobin/ClassParser.swift:33-58 | The step fails exactly as Preamble does. The version and PRELIM_VERIFIED status are stored exactly when the magic number matches and the version is at most 55, and are left as they were otherwise. So a bad pool count comes after they are stored. The pool count changes only on success, where it and the version are Preamble's values. |
| ClassParser.ReadInterfaceCount | Sources/jacobin/ClassParser.swift:87-89 | interfaceCount becomes the u2 after location. |
| ClassParser.ReadMethodCount | Sources/jacobin/ClassParser.swift:101-103 | methodCount becomes the u2 after location. |
| ClassParser.AccessAt | Sources/jacobin/ClassParser.swift:66-70 | The access step succeeds exactly when the Int16 after the pool reads, is non-zero, and its flags together with the old ones obey the JVMS 4.1 rules. A failed read keeps its fault, and anything else shuts down. |
| ClassParser.NameAt | Sources/jacobin/ClassParser.swift:73-84 | A name step succeeds exactly when the Int16 reference reads and resolves to a class name. A reference to a non-Class slot in the pool shuts down, and every failure is a shutdown or a trap. |
| ClassParser.ReadClassAccess | Sources/jacobin/ClassParser.swift:66-70 | The access step succeeds exactly when AccessAt does, and fails with its fault. On success, accessMask and flags hold AccessAt's mask and flags. |
| ClassParser.ReadClassNames | Sources/jacobin/ClassParser.swift:73-84 | The two name steps succeed exactly when NameAt does for the this reference and then for the super reference 2 bytes on. A failure carries the first failing step's fault. On success both references and names are stored. |
| ClassParser.ReadCounts | Sources/jacobin/ClassParser.swift:87-103 | The three counts succeed exactly when the u2 values at +1, +3 and +5 are all present, and otherwise trap out of range. On success they are stored. |
| ClassParser.MethodsAt | Sources/jacobin/ClassParser.swift:105-110 | Reading n method_info records, each starting where the last ended, gives n records. A failure is a trap. |
| ClassParser.MethodsAtFailurePersists | Sources/jacobin/ClassParser.swift:105-110 | Once a method_info fails to read, reading more of them ends in that same failure. |
| ClassParser.ReadOneMethod | Sources/jacobin/ClassParser.swift:106-107 | A fresh MethodInfo reads one method_info. Its method object describes MethodAt's record, and the new offset is the record's end. |
| ClassParser.AppendMethod | Sources/jacobin/ClassParser.swift:105-110 | One loop turn appends one fresh method object describing the next record. methodInfo keeps its earlier objects unchanged. |
| ClassParser.MethodLoop | Sources/jacobin/ClassParser.swift:105-110 | For count >= 1, the loop succeeds exactly when MethodsAt does and fails with its fault. On success it appends one fresh method object per record, in order, and returns the end of the last record. |
| ClassParser.ReadMethods | Sources/jacobin/ClassParser.swift:105-110 | A methodCount of 0 traps on the empty range 0...-1. Otherwise the loop succeeds exactly when MethodsAt does and fails with its fault. On success methodInfo is its old contents followed by methodCount fresh method objects describing the records in order, and the returned offset is the end of the last record. |
| ClassParser.ReadPool | Sources/jacobin/ClassParser.swift:61-63 | The pool step succeeds exactly when PoolAt does, with PoolAt's fault otherwise. On success the pool is the old pool followed by the decoded entries, and the offset is the pool's end. |
| ClassParser.PoolAt | Sources/jacobin/ClassParser.swift:61-63 | The pool step succeeds exactly when DecodePool does and Verify does not trap over the old pool plus the new entries. A failure is the first failing step's trap, and the validator's reports do not stop the parse. |
| ClassParser.HeaderAt | Sources/jacobin/ClassParser.swift:66-103 | Every failure of the header items is a shutdown or a trap, never a thrown error. |
| ClassParser.HeaderAtReads | Sources/jacobin/ClassParser.swift:66-103 | The header items succeed exactly when the access step, both name steps and the three counts do. They then hold the mask, references and counts read at offsets 1, 3, 5, 7, 9 and 11 past the pool, the resolved names, and legal flags from a non-zero mask. |
| ClassParser.ReadHeaderItems | Sources/jacobin/ClassParser.swift:66-103 | The header items succeed exactly when HeaderAt does and fail with its fault. On success the record holds HeaderAt's items. |
| ClassParser.BodyAt | Sources/jacobin/ClassParser.swift:66-110 | The body succeeds exactly when the header items do, methodCount is at least 1 and that many records read. A methodCount of 0 traps on the empty range, and every failure is a shutdown or a trap. |
| ClassParser.BodyAtReads | Sources/jacobin/ClassParser.swift:66-110 | A body that reads holds the header items and methodCount records read from 12 bytes past the pool, and ends where the last record does. |
| ClassParser.ReadBody | Sources/jacobin/ClassParser.swift:66-110 | The body succeeds exactly when BodyAt does and fails with its fault. On success the record holds the header items, and methodInfo gains one fresh object per record. |
| ClassParser.ContentsAt | Sources/jacobin/ClassParser.swift:61-110 | Everything after the count succeeds exactly when PoolAt and then BodyAt do, and fails with the first one's fault. Every failure is a shutdown or a trap. |
| ClassParser.ContentsAtReads | Sources/jacobin/ClassParser.swift:61-110 | Contents that read hold the entries DecodePool decoded, which Verify accepts without trapping, and the body read from the pool's end. |
| ClassParser.ReadContents | Sources/jacobin/ClassParser.swift:61-110 | The pool and body succeed exactly when ContentsAt does and fail with its fault. On success the record holds the new pool, the header items and the appended method objects. |
| ClassParser.ParseAt | Sources/jacobin/ClassParser.swift:31-111 | The parse succeeds exactly when Preamble and then ContentsAt do. A preamble failure is the parse's failure, and every later failure is a shutdown or a trap, never a thrown error. |
| ClassParser.ParseAtReads | Sources/jacobin/ClassParser.swift:31-111 | A parse that succeeds holds the version and count the preamble read, and the contents read after them. |
| ClassParser.ParseSteps | Sources/jacobin/ClassParser.swift:31-111 | A bad magic number leaves the whole record unchanged. The version and status are stored exactly when the magic number and version pass. Any preamble failure is returned as it is and leaves the count, pool, header items and methods as they were. After a passing preamble the count is stored. The rest succeeds exactly when ContentsAt does, fails with its fault, and on success the record holds those contents. |
| ClassParser.ParseClassfile | Sources/jacobin/ClassParser.swift:31-115 | The path is recorded. The parse succeeds exactly when ParseAt does. A failure is ParseAt's fault after the catch, so the class's own ClassFormatError never escapes with its name. A bad magic number leaves every field but the path as it was. The version and status are stored exactly when the magic number and version pass. Any preamble failure leaves the count, pool, header items and methods as they were. On success the record holds everything ParseAt read, on top of the old pool and methods. |
| ClassParser.PreambleRoundTrip | Sources/jacobin/ClassParser.swift:33-58 | A file starting with the magic number, any minor version, a major version of at most 55 and a count of at least 2 passes the checks. They read back exactly that version and count. |
| ClassParser.VersionCheckedFirst | Sources/jacobin/ClassParser.swift:39-58 | A version above 55 shuts down whatever the pool count says. |
| ClassParser.MagicMismatchRethrown | Sources/jacobin/ClassParser.swift:33-36 | A wrong magic number surfaces from the parse as ClassFormatError with an empty name. |
| ClassParser.CountErrorNotCaught | Sources/jacobin/ClassParser.swift:51-53 | A pool count below 2 throws ClassFormatError(name + " constant pool count."). The catch does not match that error, so it escapes unchanged. |

## Left out

- Reading the file (ClassParser.swift lines 21-29) is left out; the bytes are taken as already in `rawBytes`. A read error, which shuts down, is not modelled.
- Logging and `print` have no effect on the decoded state and are left out, including `ConstantPool.log`, `AccessFlags.log` and `MethodInfo.log`.
- Foundation's `String(bytes:encoding:)` is a `Utf8Decoder` parameter: a partial function from bytes to a string.
- `LineNumberTable.load` is not part of this model. It is a `LineTableLoader` parameter that returns the table and the offset of its last byte.
- `Utility.getInt16from2Bytes`, `getIntFrom2Bytes` and `getIntfrom4Bytes` are not part of this model. They are taken as the unsigned big-endian u2 and u4 readers `U16At` and `U32At`, which trap only out of range.
- `Utility.getUTF8stringFromConstantPoolIndex` is not part of this model. It is taken as the forced Utf8 lookup `Utf8At`, which traps out of range or on a non-Utf8 slot.
- `InterfaceCount.readInterfaceCount` and `MethodCount.readMethodCount` are not part of this model. They are taken to read a u2, as `FieldCount.readFieldCount` does.
- `MethodContents` is not part of this model. It is taken as `Method.swift`'s class plus the `attributes` list that `MethodInfo.read` appends to.
- The nine `classIs*` booleans of `LoadedClass` are one `ClassFlags` record field.
- The CpEntryTemplate placeholder (slot 0 and the slot after a long) is taken to carry tag 0.
- ClassParser.ParseClassfile: after a fault past the checks before the pool, only the fault is stated. The partly filled record is not described, because the parse is abandoned and nothing reads it.
- ClassParser.ParseSteps: the same gap as ParseClassfile. After a fault past the checks, the partly filled record is not described.
- ClassParser.ReadContents: after a fault, the entries and method objects already appended are not described.
- ClassParser.ReadBody: after a fault, the header items already stored and the method objects already appended are not described.
- ClassParser.ReadMethods: after a fault, the method objects already appended are not described.
- ConstantPool.EntryCheckMeaning: `HasForbiddenChar`, `StartsWith` and `BadMethodName` compare Unicode scalars, because a Dafny string is a sequence of characters. Swift's `String.contains(Character)` and `hasPrefix` compare grapheme clusters under canonical equivalence. So a forbidden scalar followed by a combining mark, or a name whose "<" starts a larger cluster, can be judged differently. Dafny has no grapheme segmentation to model this with.
- Fields.Field.Load: the source reads the ConstantValue constant only to print it, so the model checks the pointer's range but not the constant's kind.
- CodeAttribute.Load: the source creates one `LineNumberTable` object per Code attribute and reuses it across nested attributes. The model calls the loader afresh each time, which matches only if the loader does not depend on earlier calls.
- Concurrency, the `Classloader` and the rest of the JVM are outside this model.
- A round trip over a whole encoded pool is not stated; the round trip is proved entry by entry (`EntryRoundTrip`, `Utf8RoundTrip`) and composed by `DecodeEntriesSnoc`.
