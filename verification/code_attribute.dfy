/** The body of a Code attribute (Sources/jacobin/Classfile/CodeAttribute.swift,
    JVMS section 4.7.3): the stack and local limits, a verbatim copy of the
    bytecode, the exception table count, and the nested attributes, of which
    LineNumberTable (JVMS section 4.7.12) is kept and every other one is
    skipped by its length. */
module CodeAttribute {
  import opened Exceptions
  import opened Utility
  import opened Klass
  import opened ConstantPool

  const LineNumberTableName: string := "LineNumberTable"

  /** One line_number_table entry: a bytecode offset and a source line. */
  datatype LineEntry = LineEntry(pc: int, line: int)

  /** What `LineNumberTable.load` leaves behind: its entries, and the offset
      of the last byte it read. */
  datatype LineTable = LineTable(entries: seq<LineEntry>, end: int)

  /** `LineNumberTable.load`, which is not part of this model: given the
      buffer and the offset of the last byte of the attribute's name index,
      it yields the table or a fault. */
  type LineTableLoader = (seq<byte>, int) -> Result<LineTable>

  /** The `[pc, line]` rows appended to lineNumTable, one per entry. */
  function LinePairs(entries: seq<LineEntry>): seq<seq<int>> {
    seq(|entries|, k requires 0 <= k < |entries| => [entries[k].pc, entries[k].line])
  }

  /** `for i in 1...n { code.append(rawBytes[start + i]) }`: the n bytes
      after start, or a trap for n < 1 and for a byte past the buffer. */
  function CodeBytes(bytes: seq<byte>, start: int, n: int): (r: Result<seq<byte>>)
    ensures r.Ok? <==> n >= 1 && 0 <= start + 1 && start + n < |bytes|
    ensures n < 1 ==> r == Err(Trap(EmptyRange))
    ensures r.Ok? ==> |r.value| == n && forall k :: 0 <= k < n ==> r.value[k] == bytes[start + 1 + k]
  {
    if n - 1 < 0 then Err(Trap(EmptyRange))
    else if !(0 <= start + 1 && start + n < |bytes|) then Err(Trap(IndexOutOfRange))
    else Ok(bytes[start + 1 .. start + n + 1])
  }

  /** One nested attribute of the Code attribute, read after loc: the line
      rows it contributes and the offset of its last byte.  Every row is a
      `[pc, line]` pair, and only a LineNumberTable contributes rows. */
  function NestedStep(bytes: seq<byte>, cp: seq<CpEntry>, lnt: LineTableLoader, loc: int)
    : (r: Result<(seq<seq<int>>, int)>)
    ensures r.Ok? ==> forall k :: 0 <= k < |r.value.0| ==> |r.value.0[k]| == 2
    ensures r.Ok? && |r.value.0| > 0 ==>
              U16At(bytes, loc + 1).Ok? && Utf8At(cp, U16At(bytes, loc + 1).value) == Ok(LineNumberTableName)
  {
    var namePointer :- U16At(bytes, loc + 1);
    var name :- Utf8At(cp, namePointer);
    if name == LineNumberTableName then
      var table :- lnt(bytes, loc + 2);
      if |table.entries| - 1 < 0 then Err(Trap(EmptyRange))
      else Ok((LinePairs(table.entries), table.end))
    else
      var length :- U32At(bytes, loc + 3);
      Ok(([], loc + 6 + length))
  }

  /** acc put in front of the rows of a successful read. */
  function Prepend(acc: seq<seq<int>>, r: Result<(seq<seq<int>>, int)>): Result<(seq<seq<int>>, int)> {
    if r.Err? then r else Ok((acc + r.value.0, r.value.1))
  }

  /** n nested attributes read from loc on: all their rows, in order, and
      the offset of the last byte of the last one.  Every row is a
      `[pc, line]` pair. */
  function NestedFrom(bytes: seq<byte>, cp: seq<CpEntry>, lnt: LineTableLoader, loc: int, n: nat)
    : (r: Result<(seq<seq<int>>, int)>)
    ensures r.Ok? ==> forall k :: 0 <= k < |r.value.0| ==> |r.value.0[k]| == 2
    decreases n
  {
    if n == 0 then Ok(([], loc))
    else
      var step :- NestedStep(bytes, cp, lnt, loc);
      Prepend(step.0, NestedFrom(bytes, cp, lnt, step.1, n - 1))
  }

  /** The decoded body of a Code attribute.  attributesAt is where the
      nested attributes are read from. */
  datatype CodeBody = CodeBody(maxStack: int, maxLocals: int, code: seq<byte>,
                               exceptionTableLength: int, attributesAt: int,
                               lines: seq<seq<int>>, end: int)

  /** CodeAttribute.load, as a value, for the body after `location`. */
  function CodeAt(bytes: seq<byte>, cp: seq<CpEntry>, lnt: LineTableLoader, location: int): (r: Result<CodeBody>)
    ensures r.Ok? ==> U16At(bytes, location + 1) == Ok(r.value.maxStack)
    ensures r.Ok? ==> U16At(bytes, location + 3) == Ok(r.value.maxLocals)
    ensures r.Ok? ==> U32At(bytes, location + 5) == Ok(|r.value.code|)
    ensures r.Ok? ==> 0 <= location + 9 && location + 9 + |r.value.code| <= |bytes|
                      && r.value.code == bytes[location + 9 .. location + 9 + |r.value.code|]
    ensures r.Ok? ==> U16At(bytes, location + 9 + |r.value.code|) == Ok(r.value.exceptionTableLength)
    ensures r.Ok? ==> r.value.attributesAt == location + 12 + |r.value.code|
  {
    var maxStack :- U16At(bytes, location + 1);
    var maxLocals :- U16At(bytes, location + 3);
    var codeLength :- U32At(bytes, location + 5);
    var code :- CodeBytes(bytes, location + 8, codeLength);
    var currLoc := location + 8 + codeLength;
    var exceptionTableLength :- U16At(bytes, currLoc + 1);
    var codeAttrCount :- U16At(bytes, currLoc + 3);
    if codeAttrCount - 1 < 0 then Err(Trap(EmptyRange))
    else
      var nested :- NestedFrom(bytes, cp, lnt, currLoc + 4, codeAttrCount);
      Ok(CodeBody(maxStack, maxLocals, code, exceptionTableLength, currLoc + 4, nested.0, nested.1))
  }

  /** A Code attribute body reads exactly when each of its steps does:
      the two u2 limits, the u4 length, the bytecode copy, the exception
      table length, a nested-attribute count of at least 1 and that many
      nested attributes.  Its rows and its last byte are then those of
      the nested attributes, read from just after the count. */
  lemma CodeAtReads(bytes: seq<byte>, cp: seq<CpEntry>, lnt: LineTableLoader, location: int)
    ensures var r := CodeAt(bytes, cp, lnt, location);
            var len := U32At(bytes, location + 5);
            r.Ok? <==> && U16At(bytes, location + 1).Ok? && U16At(bytes, location + 3).Ok? && len.Ok?
                       && CodeBytes(bytes, location + 8, len.value).Ok?
                       && U16At(bytes, location + 9 + len.value).Ok?
                       && U16At(bytes, location + 11 + len.value).Ok?
                       && U16At(bytes, location + 11 + len.value).value >= 1
                       && NestedFrom(bytes, cp, lnt, location + 12 + len.value,
                                     U16At(bytes, location + 11 + len.value).value).Ok?
    ensures var r := CodeAt(bytes, cp, lnt, location);
            r.Ok? ==> && U16At(bytes, location + 11 + |r.value.code|).Ok?
                      && NestedFrom(bytes, cp, lnt, r.value.attributesAt,
                                    U16At(bytes, location + 11 + |r.value.code|).value)
                         == Ok((r.value.lines, r.value.end))
  {
  }

  /** The bytecode copy loop: appends the n bytes after start to code. */
  method CopyCode(klass: LoadedClass, start: int, n: int, methodData: Method) returns (r: Status)
    modifies methodData`code
    ensures var c := CodeBytes(klass.rawBytes, start, n);
            && (r.Ok? <==> c.Ok?)
            && (r.Err? ==> r.fault == c.fault)
            && (r.Ok? ==> methodData.code == old(methodData.code) + c.value)
  {
    if n - 1 < 0 {
      return Err(Trap(EmptyRange));
    }
    var bytes := klass.rawBytes;
    ghost var before := methodData.code;
    ghost var copied: seq<byte> := [];
    var i := 1;
    while i <= n
      invariant 1 <= i <= n + 1
      invariant i > 1 ==> 0 <= start + 1 && start + i - 1 < |bytes|
      invariant |copied| == i - 1 && forall k :: 0 <= k < i - 1 ==> copied[k] == bytes[start + 1 + k]
      invariant methodData.code == before + copied
    {
      if !(0 <= start + i < |bytes|) {
        return Err(Trap(IndexOutOfRange));
      }
      methodData.code := methodData.code + [bytes[start + i]];
      copied := copied + [bytes[start + i]];
      i := i + 1;
    }
    assert copied == bytes[start + 1 .. start + n + 1];
    return Ok(());
  }

  /** The `0...entryCount-1` loop: appends one `[pc, line]` row per entry. */
  method AppendLineNumbers(entries: seq<LineEntry>, methodData: Method)
    modifies methodData`lineNumTable
    ensures methodData.lineNumTable == old(methodData.lineNumTable) + LinePairs(entries)
  {
    ghost var before := methodData.lineNumTable;
    var i := 0;
    while i < |entries|
      invariant 0 <= i <= |entries|
      invariant methodData.lineNumTable == before + LinePairs(entries[..i])
    {
      var pc := entries[i].pc;
      var line := entries[i].line;
      var entry := [pc, line];
      assert LinePairs(entries[..i + 1]) == LinePairs(entries[..i]) + [entry];
      methodData.lineNumTable := methodData.lineNumTable + [entry];
      i := i + 1;
    }
    assert entries[..i] == entries;
  }

  /** One turn of the nested-attribute loop: a LineNumberTable is loaded and
      its rows appended; any other attribute is skipped by its length. */
  method ReadNestedAttribute(klass: LoadedClass, location: int, methodData: Method, lnt: LineTableLoader)
    returns (r: Result<int>)
    modifies methodData`lineNumTable
    ensures var s := NestedStep(klass.rawBytes, klass.cp, lnt, location);
            && (r.Ok? <==> s.Ok?)
            && (r.Err? ==> r.fault == s.fault)
            && (r.Ok? ==> r.value == s.value.1 && methodData.lineNumTable == old(methodData.lineNumTable) + s.value.0)
  {
    var currLoc := location;
    var codeAttrNamePointer :- U16At(klass.rawBytes, currLoc + 1);
    currLoc := currLoc + 2;
    var codeAttrName :- Utf8At(klass.cp, codeAttrNamePointer);
    if codeAttrName == LineNumberTableName {
      var table :- lnt(klass.rawBytes, currLoc);
      currLoc := table.end;
      if |table.entries| - 1 < 0 {
        return Err(Trap(EmptyRange));
      }
      AppendLineNumbers(table.entries, methodData);
    } else {
      var length :- U32At(klass.rawBytes, currLoc + 1);
      currLoc := currLoc + 4;
      currLoc := currLoc + length;
    }
    return Ok(currLoc);
  }

  /** Reading one more nested attribute moves its rows from the pending
      read to the rows already appended. */
  lemma NestedFromStep(bytes: seq<byte>, cp: seq<CpEntry>, lnt: LineTableLoader, loc: int, m: nat, acc: seq<seq<int>>)
    requires NestedStep(bytes, cp, lnt, loc).Ok?
    ensures var s := NestedStep(bytes, cp, lnt, loc).value;
            Prepend(acc, NestedFrom(bytes, cp, lnt, loc, m + 1))
            == Prepend(acc + s.0, NestedFrom(bytes, cp, lnt, s.1, m))
  {
    var s := NestedStep(bytes, cp, lnt, loc).value;
    var rest := NestedFrom(bytes, cp, lnt, s.1, m);
    if rest.Ok? {
      assert acc + (s.0 + rest.value.0) == (acc + s.0) + rest.value.0;
    }
  }

  /** The `for _ in 1...codeAttrCount` loop over the nested attributes. */
  method ReadNestedAttributes(klass: LoadedClass, location: int, n: nat, methodData: Method, lnt: LineTableLoader)
    returns (r: Result<int>)
    modifies methodData`lineNumTable
    ensures var s := NestedFrom(klass.rawBytes, klass.cp, lnt, location, n);
            && (r.Ok? <==> s.Ok?)
            && (r.Err? ==> r.fault == s.fault)
            && (r.Ok? ==> r.value == s.value.1 && methodData.lineNumTable == old(methodData.lineNumTable) + s.value.0)
  {
    var bytes, cp := klass.rawBytes, klass.cp;
    ghost var before := methodData.lineNumTable;
    ghost var total := NestedFrom(bytes, cp, lnt, location, n);
    var currLoc := location;
    var i := 0;
    assert methodData.lineNumTable[|before|..] == [];
    if total.Ok? {
      assert [] + total.value.0 == total.value.0;
    }
    while i < n
      invariant 0 <= i <= n
      invariant |before| <= |methodData.lineNumTable| && methodData.lineNumTable[..|before|] == before
      invariant Prepend(methodData.lineNumTable[|before|..], NestedFrom(bytes, cp, lnt, currLoc, n - i)) == total
    {
      ghost var acc := methodData.lineNumTable[|before|..];
      var step := ReadNestedAttribute(klass, currLoc, methodData, lnt);
      if step.Err? {
        return Err(step.fault);
      }
      NestedFromStep(bytes, cp, lnt, currLoc, n - i - 1, acc);
      assert methodData.lineNumTable[|before|..] == acc + NestedStep(bytes, cp, lnt, currLoc).value.0;
      currLoc := step.value;
      i := i + 1;
    }
    assert methodData.lineNumTable == before + methodData.lineNumTable[|before|..];
    return Ok(currLoc);
  }

  /** CodeAttribute.load: fills in methodData from the Code attribute body
      after `location` and returns the offset of the last byte read.  The
      exception table length is read but its entries are not skipped. */
  method Load(klass: LoadedClass, location: int, methodData: Method, lnt: LineTableLoader) returns (r: Result<int>)
    modifies methodData`maxStack, methodData`maxLocals, methodData`code, methodData`lineNumTable
    ensures var c := CodeAt(klass.rawBytes, klass.cp, lnt, location);
            && (r.Ok? <==> c.Ok?)
            && (r.Err? ==> r.fault == c.fault)
            && (r.Ok? ==> r.value == c.value.end)
    ensures r.Ok? ==> var c := CodeAt(klass.rawBytes, klass.cp, lnt, location).value;
                      && methodData.maxStack == c.maxStack && methodData.maxLocals == c.maxLocals
                      && methodData.code == old(methodData.code) + c.code
                      && methodData.lineNumTable == old(methodData.lineNumTable) + c.lines
  {
    var currLoc := location;
    var maxStack :- U16At(klass.rawBytes, currLoc + 1);
    methodData.maxStack := maxStack;
    currLoc := currLoc + 2;

    var maxLocals :- U16At(klass.rawBytes, currLoc + 1);
    methodData.maxLocals := maxLocals;
    currLoc := currLoc + 2;

    var codeLength :- U32At(klass.rawBytes, currLoc + 1);
    currLoc := currLoc + 4;

    var copied := CopyCode(klass, currLoc, codeLength, methodData);
    if copied.Err? {
      return Err(copied.fault);
    }
    currLoc := currLoc + codeLength;

    // the exception table entries that follow are not read
    var exceptionTableLength :- U16At(klass.rawBytes, currLoc + 1);
    currLoc := currLoc + 2;

    var codeAttrCount :- U16At(klass.rawBytes, currLoc + 1);
    currLoc := currLoc + 2;
    if codeAttrCount - 1 < 0 {
      return Err(Trap(EmptyRange));
    }
    r := ReadNestedAttributes(klass, currLoc, codeAttrCount, methodData, lnt);
  }

  /** A code_length of 0 traps on the empty copy range. */
  lemma EmptyCodeTraps(bytes: seq<byte>, cp: seq<CpEntry>, lnt: LineTableLoader, location: int)
    requires U16At(bytes, location + 1).Ok? && U16At(bytes, location + 3).Ok?
    requires U32At(bytes, location + 5) == Ok(0)
    ensures CodeAt(bytes, cp, lnt, location) == Err(Trap(EmptyRange))
  {
  }

  /** A Code attribute without nested attributes traps on the empty
      `1...codeAttrCount` range. */
  lemma NoNestedAttributesTraps(bytes: seq<byte>, cp: seq<CpEntry>, lnt: LineTableLoader, location: int)
    requires U16At(bytes, location + 1).Ok? && U16At(bytes, location + 3).Ok? && U32At(bytes, location + 5).Ok?
    requires CodeBytes(bytes, location + 8, U32At(bytes, location + 5).value).Ok?
    requires U16At(bytes, location + 9 + U32At(bytes, location + 5).value).Ok?
    requires U16At(bytes, location + 11 + U32At(bytes, location + 5).value) == Ok(0)
    ensures CodeAt(bytes, cp, lnt, location) == Err(Trap(EmptyRange))
  {
  }

  /** The nested attributes are read right after the exception table
      length; JVMS section 4.7.3 puts them 8 bytes further per exception
      table entry, so the two agree only for an empty table. */
  lemma ExceptionTableNotSkipped(bytes: seq<byte>, cp: seq<CpEntry>, lnt: LineTableLoader, location: int)
    requires CodeAt(bytes, cp, lnt, location).Ok?
    ensures var c := CodeAt(bytes, cp, lnt, location).value;
            c.attributesAt == location + 12 + |c.code| + 8 * c.exceptionTableLength
            <==> c.exceptionTableLength == 0
  {
  }

  /** A nested attribute other than LineNumberTable is skipped by exactly
      2 + 4 + attribute_length bytes and contributes no rows. */
  lemma OtherAttributeSkipped(bytes: seq<byte>, cp: seq<CpEntry>, lnt: LineTableLoader, loc: int)
    requires U16At(bytes, loc + 1).Ok? && Utf8At(cp, U16At(bytes, loc + 1).value).Ok?
    requires Utf8At(cp, U16At(bytes, loc + 1).value).value != LineNumberTableName
    requires U32At(bytes, loc + 3).Ok?
    ensures NestedStep(bytes, cp, lnt, loc) == Ok(([], loc + 2 + 4 + U32At(bytes, loc + 3).value))
  {
  }

  /** A LineNumberTable contributes one `[pc, line]` row per table entry,
      in table order, and leaves the offset where the table loader stopped. */
  lemma LineNumberTableRows(bytes: seq<byte>, cp: seq<CpEntry>, lnt: LineTableLoader, loc: int)
    requires U16At(bytes, loc + 1).Ok? && Utf8At(cp, U16At(bytes, loc + 1).value) == Ok(LineNumberTableName)
    requires lnt(bytes, loc + 2).Ok? && |lnt(bytes, loc + 2).value.entries| >= 1
    ensures var t := lnt(bytes, loc + 2).value;
            && NestedStep(bytes, cp, lnt, loc).Ok?
            && NestedStep(bytes, cp, lnt, loc).value.1 == t.end
            && |NestedStep(bytes, cp, lnt, loc).value.0| == |t.entries|
            && forall k :: 0 <= k < |t.entries| ==>
                 NestedStep(bytes, cp, lnt, loc).value.0[k] == [t.entries[k].pc, t.entries[k].line]
  {
  }

  /** A bytecode array written after the three header items is copied
      back byte for byte. */
  lemma CodeCopyRoundTrip(pre: seq<byte>, code: seq<byte>, post: seq<byte>)
    requires |code| >= 1
    ensures CodeBytes(pre + code + post, |pre| - 1, |code|) == Ok(code)
  {
    assert (pre + code + post)[|pre| .. |pre| + |code|] == code;
  }
}
