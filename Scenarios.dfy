/**
 * The `main` method of the test class written by TestJarGenerator, as code elements, and
 * what successive passes do to it: the first pass joins the first two literals and drops
 * `iconst_0; iadd`, the second joins the remaining two literals, and a third changes nothing.
 */
module Scenarios {
  import opened Code
  import opened Peephole
  import opened PeepholeProperties
  import Utf8
  import ClassTransform

  const New: Element := Opaque("new java/lang/StringBuilder")
  const Dup: Element := Opaque("dup")
  const InitBuilder: Element := Invoke(Special, StringBuilder, "<init>", "()V", false)
  const Load0: Element := Opaque("aload_0")
  const AppendInt: Element := Invoke(Virtual, StringBuilder, Append, "(I)Ljava/lang/StringBuilder;", false)
  const ToString: Element := Invoke(Virtual, StringBuilder, "toString", "()Ljava/lang/String;", false)
  const GetOut: Element := Opaque("getstatic java/lang/System.out")
  const Swap: Element := Opaque("swap")
  const Println: Element := Invoke(Virtual, "java/io/PrintStream", "println", "(Ljava/lang/String;)V", false)
  const Return: Element := Opaque("return")

  const S1: string := "The length"
  const S2: string := " of the"
  const S3: string := " arguments array is "

  function Ldc(s: string): Element {
    ConstPush(StrC(s))
  }

  /** `new StringBuilder()`: no constants. */
  const Prologue: seq<Element> := [New, Dup, InitBuilder]

  /** Building the message: three literal appends. */
  const Literals: seq<Element> := [Ldc(S1), AppendString, Ldc(S2), AppendString, Ldc(S3), AppendString]

  /** `args.length + 0`, appended, and the builder turned into a String. */
  const Length: seq<Element> := [Arith(ARRAYLENGTH), ConstPush(IntC(0)), Arith(IADD), AppendInt, ToString]

  /** `System.out.println(...)` and `return`: no constants. */
  const Print: seq<Element> := [Swap, Println, Return]

  /** The code of `Test.main`. */
  const TestMain: seq<Element> := Prologue + Literals + [Load0] + Length + [GetOut] + Print

  /** The literals after one pass: the first two are joined, the third is left for the next pass. */
  const LiteralsOnce: seq<Element> := [Ldc(S1 + S2), AppendString, Ldc(S3), AppendString]

  /** The literals after two passes. */
  const LiteralsTwice: seq<Element> := [Ldc(S1 + S2 + S3), AppendString]

  /** `args.length` appended, without the `+ 0`. */
  const LengthOnce: seq<Element> := [Arith(ARRAYLENGTH), AppendInt, ToString]

  const OnePass: seq<Element> := Prologue + LiteralsOnce + [Load0] + LengthOnce + [GetOut] + Print

  const TwoPasses: seq<Element> := Prologue + LiteralsTwice + [Load0] + LengthOnce + [GetOut] + Print

  /** The joined literal is far below the constant-pool limit. */
  lemma LiteralsFit()
    ensures FitsConstantPool(S1 + S2 + S3)
  {
    assert Utf8.Length(S1 + S2 + S3) <= 4 * |S1 + S2 + S3|;
  }

  lemma LiteralsRewritten()
    ensures Rewrite(Prologue + Literals) == Prologue + LiteralsOnce
    ensures Rewrite(Prologue + LiteralsOnce) == Prologue + LiteralsTwice
    ensures Rewrite(Prologue + LiteralsTwice) == Prologue + LiteralsTwice
  {
    LiteralsFit();
    ChainedAppends(S1, S2, S3);
    NonConstantsCopied(Prologue, Literals);
    NonConstantsCopied(Prologue, LiteralsOnce);
    NonConstantsCopied(Prologue, LiteralsTwice);
    LoneAppendKept(LiteralsTwice);
  }

  lemma LengthRewritten()
    ensures Rewrite(Length) == LengthOnce
    ensures Rewrite(LengthOnce) == LengthOnce
  {
    NonConstantsCopied([AppendInt, ToString], []);
    ZeroArithDropped(IADD, [AppendInt, ToString]);
    NonConstantCopied(Arith(ARRAYLENGTH), [ConstPush(IntC(0)), Arith(IADD), AppendInt, ToString]);
    assert Length == [Arith(ARRAYLENGTH)] + ([ConstPush(IntC(0)), Arith(IADD)] + [AppendInt, ToString]);
    NonConstantsCopied(LengthOnce, []);
    assert LengthOnce + [] == LengthOnce && [AppendInt, ToString] + [] == [AppendInt, ToString];
  }

  lemma PrintKept()
    ensures Rewrite(Print) == Print
  {
    NonConstantsCopied(Print, []);
    assert Print + [] == Print;
  }

  /** A pass over the whole method is a pass over each run between the opaque loads. */
  lemma SplitMain(p: seq<Element>, q: seq<Element>)
    ensures Rewrite(p + [Load0] + q + [GetOut] + Print) == Rewrite(p) + [Load0] + Rewrite(q) + [GetOut] + Print
  {
    RewriteSplitsAtOpaque(p + [Load0] + q, GetOut, Print);
    RewriteSplitsAtOpaque(p, Load0, q);
    PrintKept();
  }

  /** The first pass joins the first two literals and drops `iconst_0; iadd`; the third literal stays. */
  lemma FirstPass()
    ensures Rewrite(TestMain) == OnePass
  {
    SplitMain(Prologue + Literals, Length);
    LiteralsRewritten();
    LengthRewritten();
  }

  /** The second pass joins the remaining two literals. */
  lemma SecondPass()
    ensures Rewrite(OnePass) == TwoPasses
  {
    SplitMain(Prologue + LiteralsOnce, LengthOnce);
    LiteralsRewritten();
    LengthRewritten();
  }

  /** A third pass changes nothing: two passes reach the fixed point. */
  lemma ThirdPassStable()
    ensures Rewrite(TwoPasses) == TwoPasses
  {
    SplitMain(Prologue + LiteralsTwice, LengthOnce);
    LiteralsRewritten();
    LengthRewritten();
  }

  /** In terms of the driver's passes over the class: two passes optimize Test.main fully. */
  lemma {:induction false} MainPasses(n: nat)
    requires n >= 2
    ensures ClassTransform.RewritePasses(TestMain, n) == TwoPasses
  {
    if n == 2 {
      FirstPass();
      SecondPass();
      assert ClassTransform.RewritePasses(TestMain, 1) == OnePass by {
        assert ClassTransform.RewritePasses(TestMain, 0) == TestMain;
      }
    } else {
      MainPasses(n - 1);
      ThirdPassStable();
    }
  }
}
