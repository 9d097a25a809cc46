/** The class access flags (Sources/jacobin/Classfile/AccessFlags.swift;
    JVMS section 4.1, Table 4.1-B): reading the u2 mask, setting one
    boolean per flag bit, and the legality rules on the combination. */
module AccessFlags {
  import opened Exceptions
  import opened Utility
  import opened Klass

  const AccPublic: int := 0x0001
  const AccFinal: int := 0x0010
  const AccSuper: int := 0x0020
  const AccInterface: int := 0x0200
  const AccAbstract: int := 0x0400
  const AccSynthetic: int := 0x1000
  const AccAnnotation: int := 0x2000
  const AccEnum: int := 0x4000
  const AccModule: int := 0x8000

  /** `(mask & bit) > 0` for a single-bit `bit`: the bit of the two's
      complement pattern of mask (Dafny's division by a positive number
      rounds down, so this holds for negative masks too). */
  predicate HasBit(mask: int, bit: int)
    requires bit > 0
  {
    (mask / bit) % 2 == 1
  }

  /** The flags a mask sets, one per bit of Table 4.1-B.  A zero mask sets
      none, and a mask below the module bit never sets ACC_MODULE. */
  function MaskFlags(mask: int): (r: ClassFlags)
    ensures mask == 0 ==> r == NoFlags
    ensures 0 <= mask < AccModule ==> !r.isModule
  {
    ClassFlags(HasBit(mask, AccPublic), HasBit(mask, AccFinal), HasBit(mask, AccSuper),
               HasBit(mask, AccInterface), HasBit(mask, AccAbstract), HasBit(mask, AccSynthetic),
               HasBit(mask, AccAnnotation), HasBit(mask, AccEnum), HasBit(mask, AccModule))
  }

  /** 1 for a set flag, 0 for a clear one. */
  function Bit(x: bool): int {
    if x then 1 else 0
  }

  /** Euclidean division by b recovers the quotient of q * b + lo. */
  lemma DivideExactly(b: int, q: int, lo: int)
    requires 0 <= lo < b
    ensures (b * q + lo) / b == q
  {
    var d, r := (b * q + lo) / b, (b * q + lo) % b;
    assert b * (d - q) == lo - r;
    if d > q {
      ProductAtLeast(b, d - q);
    } else if d < q {
      ProductAtLeast(b, q - d);
    }
  }

  lemma ProductAtLeast(b: int, k: int)
    requires b > 0 && k >= 1
    ensures b * k >= b
  {
  }

  /** Bit b of a number made of bits below b, the digit d at b, and a
      multiple of 2 * b above it. */
  lemma BitAt(m: int, lo: int, d: int, rest: int, b: int)
    requires 0 <= lo < b && 0 <= d <= 1 && rest >= 0
    requires m == lo + b * d + 2 * b * rest
    ensures HasBit(m, b) <==> d == 1
  {
    assert m == b * (d + 2 * rest) + lo;
    DivideExactly(b, d + 2 * rest, lo);
  }

  /** The mask with binary digits pu .. mo at the nine flag positions. */
  function DigitMask(pu: int, fi: int, su: int, it: int, ab: int, sy: int, an: int, en: int, mo: int): int {
    pu + 0x10 * fi + 0x20 * su + 0x200 * it + 0x400 * ab + 0x1000 * sy + 0x2000 * an + 0x4000 * en + 0x8000 * mo
  }

  /** The mask with exactly the bits of the given flags. */
  function FlagsMask(f: ClassFlags): (m: int)
    ensures 0 <= m < 0x1_0000
  {
    DigitMask(Bit(f.isPublic), Bit(f.isFinal), Bit(f.isSuper), Bit(f.isInterface), Bit(f.isAbstract),
              Bit(f.isSynthetic), Bit(f.isAnnotation), Bit(f.isEnum), Bit(f.isModule))
  }

  /** The flags read off a mask are its digits at the nine flag positions. */
  lemma MaskDigits(pu: int, fi: int, su: int, it: int, ab: int, sy: int, an: int, en: int, mo: int)
    requires 0 <= pu <= 1 && 0 <= fi <= 1 && 0 <= su <= 1 && 0 <= it <= 1 && 0 <= ab <= 1
    requires 0 <= sy <= 1 && 0 <= an <= 1 && 0 <= en <= 1 && 0 <= mo <= 1
    ensures MaskFlags(DigitMask(pu, fi, su, it, ab, sy, an, en, mo))
            == ClassFlags(pu == 1, fi == 1, su == 1, it == 1, ab == 1, sy == 1, an == 1, en == 1, mo == 1)
  {
    var m := DigitMask(pu, fi, su, it, ab, sy, an, en, mo);
    BitAt(m, 0, pu, 8 * fi + 0x10 * su + 0x100 * it + 0x200 * ab + 0x800 * sy + 0x1000 * an + 0x2000 * en + 0x4000 * mo, AccPublic);
    BitAt(m, pu, fi, su + 0x10 * it + 0x20 * ab + 0x80 * sy + 0x100 * an + 0x200 * en + 0x400 * mo, AccFinal);
    BitAt(m, pu + 0x10 * fi, su, 8 * it + 0x10 * ab + 0x40 * sy + 0x80 * an + 0x100 * en + 0x200 * mo, AccSuper);
    BitAt(m, pu + 0x10 * fi + 0x20 * su, it, ab + 4 * sy + 8 * an + 0x10 * en + 0x20 * mo, AccInterface);
    var low := pu + 0x10 * fi + 0x20 * su + 0x200 * it;
    BitAt(m, low, ab, 2 * sy + 4 * an + 8 * en + 0x10 * mo, AccAbstract);
    BitAt(m, low + 0x400 * ab, sy, an + 2 * en + 4 * mo, AccSynthetic);
    BitAt(m, low + 0x400 * ab + 0x1000 * sy, an, en + 2 * mo, AccAnnotation);
    BitAt(m, low + 0x400 * ab + 0x1000 * sy + 0x2000 * an, en, mo, AccEnum);
    BitAt(m, low + 0x400 * ab + 0x1000 * sy + 0x2000 * an + 0x4000 * en, mo, 0, AccModule);
  }

  /** Reading the flags off a mask built from them gives them back. */
  lemma MaskFlagsRoundTrip(f: ClassFlags)
    ensures MaskFlags(FlagsMask(f)) == f
  {
    MaskDigits(Bit(f.isPublic), Bit(f.isFinal), Bit(f.isSuper), Bit(f.isInterface), Bit(f.isAbstract),
               Bit(f.isSynthetic), Bit(f.isAnnotation), Bit(f.isEnum), Bit(f.isModule));
  }

  /** The flags as a field-by-field "or" of two flag sets. */
  function Union(a: ClassFlags, b: ClassFlags): ClassFlags {
    ClassFlags(a.isPublic || b.isPublic, a.isFinal || b.isFinal, a.isSuper || b.isSuper,
               a.isInterface || b.isInterface, a.isAbstract || b.isAbstract,
               a.isSynthetic || b.isSynthetic, a.isAnnotation || b.isAnnotation,
               a.isEnum || b.isEnum, a.isModule || b.isModule)
  }

  /** readAccessFlags: stores the Int16 at location + 1 in accessMask. */
  method ReadAccessFlags(klass: LoadedClass, location: int) returns (r: Status)
    modifies klass`accessMask
    ensures var v := Int16At(klass.rawBytes, location + 1);
            && (r.Ok? <==> v.Ok?)
            && (r.Err? ==> r.fault == v.fault && klass.accessMask == old(klass.accessMask))
            && (r.Ok? ==> klass.accessMask == v.value)
  {
    var accessFlags :- Int16At(klass.rawBytes, location + 1);
    klass.accessMask := accessFlags;
    return Ok(());
  }

  /** A mask read by readAccessFlags never has the module bit: a high byte
      of 0x80 or more makes the Int16 arithmetic trap first. */
  lemma ReadMaskHasNoModuleBit(bytes: seq<byte>, i: int)
    requires Int16At(bytes, i).Ok?
    ensures !HasBit(Int16At(bytes, i).value, AccModule)
  {
  }

  /** processClassAccessMask: sets each flag whose bit is in accessMask and
      leaves every other flag as it was. */
  method ProcessClassAccessMask(klass: LoadedClass)
    modifies klass`flags
    ensures klass.flags == Union(old(klass.flags), MaskFlags(klass.accessMask))
  {
    // the nine `if (mask & bit) > 0 { flag = true }` statements, at once
    klass.flags := Union(klass.flags, MaskFlags(klass.accessMask));
  }

  /** Every one of the nine flags set in f is also set in g. */
  predicate FlagsWithin(f: ClassFlags, g: ClassFlags) {
    && (f.isPublic ==> g.isPublic) && (f.isFinal ==> g.isFinal) && (f.isSuper ==> g.isSuper)
    && (f.isInterface ==> g.isInterface) && (f.isAbstract ==> g.isAbstract)
    && (f.isSynthetic ==> g.isSynthetic) && (f.isAnnotation ==> g.isAnnotation)
    && (f.isEnum ==> g.isEnum) && (f.isModule ==> g.isModule)
  }

  /** Starting from no flags, processing sets exactly the flags of the mask;
      and processing never clears a flag. */
  lemma ProcessFromNoFlags(before: ClassFlags, mask: int)
    ensures before == NoFlags ==> Union(before, MaskFlags(mask)) == MaskFlags(mask)
    ensures FlagsWithin(before, Union(before, MaskFlags(mask)))
    ensures FlagsWithin(MaskFlags(mask), Union(before, MaskFlags(mask)))
  {
  }

  /** AccessFlags.verify: the checks in source order; any failure is logged
      and ends in a shutdown. */
  function VerifyFlags(f: ClassFlags, accessMask: int): (r: Status)
    ensures r.Err? ==> r.fault == Shutdown
  {
    if f.isInterface && (!f.isAbstract || f.isSuper || f.isFinal || f.isEnum || f.isModule) then Err(Shutdown)
    else if !f.isInterface && (f.isAnnotation || f.isModule) then Err(Shutdown)
    else if !f.isInterface && f.isFinal && f.isAbstract then Err(Shutdown)
    else if f.isAnnotation && !f.isInterface then Err(Shutdown)
    else if accessMask == 0 then Err(Shutdown)
    else Ok(())
  }

  /** The combination rules of Table 4.1-B that the validator enforces,
      stated one rule per line: ACC_ANNOTATION needs ACC_INTERFACE; an
      interface is abstract and neither final, super nor an enum; a class
      is not both final and abstract; ACC_MODULE marks no class. */
  predicate LegalFlags(f: ClassFlags) {
    && (f.isAnnotation ==> f.isInterface)
    && (f.isInterface ==> f.isAbstract)
    && (f.isInterface ==> !f.isFinal && !f.isSuper && !f.isEnum)
    && !(f.isFinal && f.isAbstract)
    && !f.isModule
  }

  /** verify passes exactly the legal combinations with a non-zero mask. */
  lemma VerifyFlagsMeaning(f: ClassFlags, accessMask: int)
    ensures VerifyFlags(f, accessMask).Ok? <==> LegalFlags(f) && accessMask != 0
  {
  }

  /** The annotation check that comes third never decides anything: the
      non-interface branch before it already refuses an annotation. */
  lemma AnnotationCheckRedundant(f: ClassFlags, accessMask: int)
    ensures VerifyFlags(f, accessMask)
            == (if f.isInterface && (!f.isAbstract || f.isSuper || f.isFinal || f.isEnum || f.isModule) then Err(Shutdown)
                else if !f.isInterface && (f.isAnnotation || f.isModule) then Err(Shutdown)
                else if !f.isInterface && f.isFinal && f.isAbstract then Err(Shutdown)
                else if accessMask == 0 then Err(Shutdown)
                else Ok(()))
  {
  }

  /** The masks javac writes for an ordinary public class (ACC_PUBLIC |
      ACC_SUPER) and for a public interface (ACC_PUBLIC | ACC_INTERFACE |
      ACC_ABSTRACT) pass; a final interface does not. */
  lemma TypicalMasks()
    ensures VerifyFlags(MaskFlags(0x0021), 0x0021).Ok?
    ensures VerifyFlags(MaskFlags(0x0601), 0x0601).Ok?
    ensures VerifyFlags(MaskFlags(0x0611), 0x0611).Err?
  {
  }
}
