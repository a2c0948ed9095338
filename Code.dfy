/**
 * The elements of a method's `Code` attribute as the peephole optimizer sees them
 * (`CodeAttribute.elementList()` once line numbers and debug information are dropped).
 * Only the element kinds the patterns inspect are given structure; everything else is Opaque.
 */
module Code {
  import Seqs

  /** Java `int`. */
  newtype Int32 = x: int | -0x8000_0000 <= x < 0x8000_0000

  /** Java `long`. */
  newtype Int64 = x: int | -0x8000_0000_0000_0000 <= x < 0x8000_0000_0000_0000

  /** A JVM opcode (one unsigned byte). */
  newtype Opcode = x: int | 0 <= x < 0x100

  const IADD: Opcode := 0x60
  const ISUB: Opcode := 0x64
  const ARRAYLENGTH: Opcode := 0xBE

  /**
   * The value `ConstantInstruction.constantValue()` returns. Floating-point constants are kept
   * as their IEEE 754 bit patterns; OtherC stands for class, method-type, method-handle,
   * dynamic and null constants, which no pattern inspects.
   */
  datatype ConstantValue =
    | IntC(i: Int32)
    | LongC(l: Int64)
    | FloatC(fbits: bv32)
    | DoubleC(dbits: bv64)
    | StrC(s: string)
    | OtherC(id: nat)

  /** The four opcodes of an `InvokeInstruction`. */
  datatype InvokeKind = Virtual | Special | Static | Interface

  /**
   * One code element.
   * - ConstPush: a `ConstantInstruction` (iconst_*, bipush, sipush, ldc, ...).
   * - Invoke: an `InvokeInstruction`; owner is the internal class name, desc the method
   *   descriptor, and isInterface tells whether the member reference is an
   *   `InterfaceMethodref` rather than a `Methodref`.
   * - Arith: an operator instruction (iadd, isub, arraylength, ...), identified by its opcode.
   * - Opaque: every other element (loads, stores, branches, labels, ...), carried unchanged.
   */
  datatype Element =
    | ConstPush(value: ConstantValue)
    | Invoke(kind: InvokeKind, owner: string, name: string, desc: string, isInterface: bool)
    | Arith(opcode: Opcode)
    | Opaque(raw: string)

  const StringBuilder: string := "java/lang/StringBuilder"
  const Append: string := "append"
  /** The type of `StringBuilder.append(String)`. */
  const AppendStringDesc: string := "(Ljava/lang/String;)Ljava/lang/StringBuilder;"

  /** The opaque elements of s, in order. */
  function Opaques(s: seq<Element>): seq<Element> {
    if s == [] then [] else (if s[0].Opaque? then [s[0]] else []) + Opaques(s[1..])
  }

  lemma {:induction false} OpaquesAppend(a: seq<Element>, b: seq<Element>)
    ensures Opaques(a + b) == Opaques(a) + Opaques(b)
  {
    if a == [] {
      assert a + b == b;
    } else {
      Seqs.ConsAppend(a, b);
      OpaquesAppend(a[1..], b);
    }
  }

  lemma {:induction false} OpaquesNone(a: seq<Element>)
    requires forall k :: 0 <= k < |a| ==> !a[k].Opaque?
    ensures Opaques(a) == []
  {
    if a != [] {
      OpaquesNone(a[1..]);
    }
  }

  /** A prefix without opaque elements contributes nothing. */
  lemma OpaquesAfterPrefix(s: seq<Element>, k: nat)
    requires k <= |s| && forall j :: 0 <= j < k ==> !s[j].Opaque?
    ensures Opaques(s) == Opaques(s[k..])
  {
    assert s == s[..k] + s[k..];
    OpaquesAppend(s[..k], s[k..]);
    OpaquesNone(s[..k]);
  }
}
