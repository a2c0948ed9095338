/**
 * Properties of one scan of the peephole rewriter: its length accounting, when it is the
 * identity, what it preserves, and how it behaves at opaque elements such as branch labels.
 */
module PeepholeProperties {
  import opened Wrappers
  import opened Code
  import opened Peephole
  import Utf8
  import Seqs

  /** Neither pattern applies at position i of s. */
  predicate NoPatternAt(s: seq<Element>, i: nat)
    requires i <= |s|
  {
    !AddsZero(s[i..]) && !Folds(s[i..])
  }

  /** Neither pattern applies anywhere in s. */
  predicate Irreducible(s: seq<Element>) {
    forall i :: 0 <= i < |s| ==> NoPatternAt(s, i)
  }

  lemma IrreducibleCons(s: seq<Element>)
    requires s != []
    ensures Irreducible(s) <==> NoPatternAt(s, 0) && Irreducible(s[1..])
  {
    assert forall i :: 1 <= i < |s| ==> s[i..] == s[1..][i - 1..];
    if NoPatternAt(s, 0) && Irreducible(s[1..]) {
      forall i | 1 <= i < |s| ensures NoPatternAt(s, i) {
        assert NoPatternAt(s[1..], i - 1);
      }
    }
    if Irreducible(s) {
      forall i | 0 <= i < |s| - 1 ensures NoPatternAt(s[1..], i) {
        assert NoPatternAt(s, i + 1);
      }
    }
  }

  /** Copying one element: the scan is the identity on s exactly when it is on s[1..]. */
  lemma CopyIdentity(s: seq<Element>)
    requires s != [] && !AddsZero(s) && !Folds(s)
    ensures Rewrite(s) == s <==> Rewrite(s[1..]) == s[1..]
  {
    assert Rewrite(s) == [s[0]] + Rewrite(s[1..]);
    if Rewrite(s) == s { assert Rewrite(s)[1..] == Rewrite(s[1..]); }
    if Rewrite(s[1..]) == s[1..] { assert s == [s[0]] + s[1..]; }
  }

  /**
   * A scan leaves the code unchanged exactly when it keeps its length; otherwise it is at
   * least two elements shorter.
   */
  lemma {:induction false} RewriteShrinks(s: seq<Element>)
    ensures Rewrite(s) == s <==> |Rewrite(s)| == |s|
    ensures Rewrite(s) != s ==> |Rewrite(s)| + 2 <= |s|
    decreases |s|
  {
    if s != [] && !AddsZero(s) && !Folds(s) {
      RewriteShrinks(s[1..]);
      CopyIdentity(s);
    }
  }

  /** A scan leaves the code unchanged exactly when neither pattern applies anywhere in it. */
  lemma {:induction false} RewriteIdentity(s: seq<Element>)
    ensures Rewrite(s) == s <==> Irreducible(s)
    decreases |s|
  {
    if s == [] {
    } else if AddsZero(s) || Folds(s) {
      RewriteShrinks(s);
      assert !NoPatternAt(s, 0) by { assert s[0..] == s; }
    } else {
      RewriteIdentity(s[1..]);
      CopyIdentity(s);
      IrreducibleCons(s);
      assert NoPatternAt(s, 0) by { assert s[0..] == s; }
    }
  }

  /**
   * Neither pattern touches an opaque element (a load, a branch, a label, ...): the scan
   * emits exactly the opaque elements of its input, in their original order.
   */
  lemma {:induction false} RewriteKeepsOpaques(s: seq<Element>)
    ensures Opaques(Rewrite(s)) == Opaques(s)
    decreases |s|
  {
    if s == [] {
    } else if AddsZero(s) {
      RewriteKeepsOpaques(s[2..]);
      assert Rewrite(s) == Rewrite(s[2..]);
      OpaquesAfterPrefix(s, 2);
    } else if Folds(s) {
      RewriteKeepsOpaques(s[4..]);
      ghost var f := FoldedAppend(FoldedLiteral(s), s[1]);
      assert Rewrite(s) == f + Rewrite(s[4..]);
      OpaquesAfterPrefix(f + Rewrite(s[4..]), 2);
      assert (f + Rewrite(s[4..]))[2..] == Rewrite(s[4..]);
      OpaquesAfterPrefix(s, 4);
    } else {
      RewriteKeepsOpaques(s[1..]);
      assert Rewrite(s) == [s[0]] + Rewrite(s[1..]);
      assert ([s[0]] + Rewrite(s[1..]))[1..] == Rewrite(s[1..]);
    }
  }

  /** An opaque element ends every pattern: one that matches at the start of s + [o] + t lies within s. */
  lemma PatternsBeforeOpaque(s: seq<Element>, o: Element, t: seq<Element>)
    requires s != [] && o.Opaque?
    ensures AddsZero(s + [o] + t) <==> AddsZero(s)
    ensures Folds(s + [o] + t) <==> Folds(s)
    ensures Folds(s) ==> FoldedLiteral(s + [o] + t) == FoldedLiteral(s)
  {
    var u := s + [o] + t;
    assert u[|s|] == o;
    assert forall k :: 0 <= k < |s| ==> u[k] == s[k];
  }

  lemma PrependSplit(f: seq<Element>, x: seq<Element>, o: Element, y: seq<Element>)
    ensures f + (x + [o] + y) == (f + x) + [o] + y
  {
  }

  /**
   * The scan never rewrites across an opaque element: rewriting splits at it. In particular
   * a branch target (a label) never ends up inside a folded or dropped pair.
   */
  lemma {:induction false} RewriteSplitsAtOpaque(s: seq<Element>, o: Element, t: seq<Element>)
    requires o.Opaque?
    ensures Rewrite(s + [o] + t) == Rewrite(s) + [o] + Rewrite(t)
    decreases |s|
  {
    var u := s + [o] + t;
    if s == [] {
      assert u == [o] + t && u[1..] == t;
      assert Rewrite(u) == [o] + Rewrite(t);
    } else {
      PatternsBeforeOpaque(s, o, t);
      if AddsZero(s) {
        assert u[2..] == s[2..] + [o] + t;
        RewriteSplitsAtOpaque(s[2..], o, t);
        assert Rewrite(u) == Rewrite(u[2..]);
      } else if Folds(s) {
        assert u[4..] == s[4..] + [o] + t;
        assert u[1] == s[1];
        RewriteSplitsAtOpaque(s[4..], o, t);
        ghost var f := FoldedAppend(FoldedLiteral(s), s[1]);
        assert Rewrite(u) == f + Rewrite(u[4..]);
        PrependSplit(f, Rewrite(s[4..]), o, Rewrite(t));
      } else {
        assert u[1..] == s[1..] + [o] + t;
        RewriteSplitsAtOpaque(s[1..], o, t);
        assert Rewrite(u) == [s[0]] + Rewrite(u[1..]);
        PrependSplit([s[0]], Rewrite(s[1..]), o, Rewrite(t));
      }
    }
  }

  // ---------------------------------------------------------------- the two patterns, element by element

  /** Both patterns start with a constant: any other element is copied as it is. */
  lemma NonConstantCopied(e: Element, t: seq<Element>)
    requires !e.ConstPush?
    ensures Rewrite([e] + t) == [e] + Rewrite(t)
  {
    var u := [e] + t;
    assert !AddsZero(u) && !Folds(u) && u[1..] == t;
  }

  /** A run of elements none of which is a constant is copied as it is. */
  lemma {:induction false} NonConstantsCopied(p: seq<Element>, t: seq<Element>)
    requires forall k :: 0 <= k < |p| ==> !p[k].ConstPush?
    ensures Rewrite(p + t) == p + Rewrite(t)
    decreases |p|
  {
    if p == [] {
      assert p + t == t;
    } else {
      NonConstantsCopied(p[1..], t);
      Seqs.ConsAppend(p, t);
      NonConstantCopied(p[0], p[1..] + t);
      Seqs.ConsAppend(p, Rewrite(t));
    }
  }

  /** Pattern 1: `iconst_0; iadd` and `iconst_0; isub` disappear. */
  lemma ZeroArithDropped(op: Opcode, t: seq<Element>)
    requires op == IADD || op == ISUB
    ensures Rewrite([ConstPush(IntC(0)), Arith(op)] + t) == Rewrite(t)
  {
    var u := [ConstPush(IntC(0)), Arith(op)] + t;
    assert AddsZero(u) && u[2..] == t;
  }

  /**
   * Pattern 1 compares the constant with a boxed Integer 0: a long, float or double zero
   * (or any other non-String constant) is copied, followed by whatever the rest becomes.
   */
  lemma OtherConstantsKept(c: ConstantValue, t: seq<Element>)
    requires c != IntC(0) && !c.StrC?
    ensures Rewrite([ConstPush(c)] + t) == [ConstPush(c)] + Rewrite(t)
  {
    var u := [ConstPush(c)] + t;
    assert !AddsZero(u) && !Folds(u) && u[1..] == t;
  }

  /** Any other operator, for example arraylength, after a 0 is kept. */
  lemma ZeroBeforeOtherOpKept(op: Opcode, t: seq<Element>)
    requires op != IADD && op != ISUB
    ensures Rewrite([ConstPush(IntC(0)), Arith(op)] + t) == [ConstPush(IntC(0)), Arith(op)] + Rewrite(t)
  {
    var u := [ConstPush(IntC(0)), Arith(op)] + t;
    assert !AddsZero(u) && !Folds(u) && u[1..] == [Arith(op)] + t;
    var v := [Arith(op)] + t;
    assert !AddsZero(v) && !Folds(v) && v[1..] == t;
  }

  /**
   * Pattern 2: two literal appends to the same method become one literal and one
   * `invokevirtual StringBuilder.append(String)` on a Methodref, whatever the kind and
   * tag of the invokes it replaces.
   */
  lemma LiteralAppendsJoined(s1: string, i1: Element, s2: string, i2: Element, t: seq<Element>)
    requires IsStringAppend(i1) && SameMethod(i1, i2)
    requires FitsConstantPool(s1 + s2)
    ensures Rewrite([ConstPush(StrC(s1)), i1, ConstPush(StrC(s2)), i2] + t)
         == [ConstPush(StrC(s1 + s2)), Invoke(Virtual, StringBuilder, Append, AppendStringDesc, false)] + Rewrite(t)
  {
    var u := [ConstPush(StrC(s1)), i1, ConstPush(StrC(s2)), i2] + t;
    assert !AddsZero(u) && AppendsLiterals(u) && FoldedLiteral(u) == s1 + s2;
    assert u[4..] == t;
  }

  /** Pattern 2 needs an append of a String to a StringBuilder first: any other second element keeps the literal. */
  lemma NotAppendKept(s1: string, i1: Element, e2: Element, i2: Element, t: seq<Element>)
    requires !IsStringAppend(i1)
    ensures Rewrite([ConstPush(StrC(s1)), i1, e2, i2] + t) == [ConstPush(StrC(s1))] + Rewrite([i1, e2, i2] + t)
  {
    var u := [ConstPush(StrC(s1)), i1, e2, i2] + t;
    assert !AddsZero(u) && !AppendsLiterals(u);
    assert u[1..] == [i1, e2, i2] + t;
  }

  /** Pattern 2 needs a String constant third: anything else keeps the first literal. */
  lemma NonStringSecondKept(s1: string, i1: Element, e2: Element, i2: Element, t: seq<Element>)
    requires !IsStringConstant(e2)
    ensures Rewrite([ConstPush(StrC(s1)), i1, e2, i2] + t) == [ConstPush(StrC(s1))] + Rewrite([i1, e2, i2] + t)
  {
    var u := [ConstPush(StrC(s1)), i1, e2, i2] + t;
    assert !AddsZero(u) && !AppendsLiterals(u);
    assert u[1..] == [i1, e2, i2] + t;
  }

  /** Pattern 2 needs the second invoke to name the same method as the first: otherwise nothing is joined. */
  lemma MismatchKept(s1: string, i1: Element, s2: string, i2: Element, t: seq<Element>)
    requires !SameMethod(i1, i2)
    ensures Rewrite([ConstPush(StrC(s1)), i1, ConstPush(StrC(s2)), i2] + t)
         == [ConstPush(StrC(s1))] + Rewrite([i1, ConstPush(StrC(s2)), i2] + t)
  {
    var u := [ConstPush(StrC(s1)), i1, ConstPush(StrC(s2)), i2] + t;
    assert !AddsZero(u) && !AppendsLiterals(u);
    assert u[1..] == [i1, ConstPush(StrC(s2)), i2] + t;
  }

  /**
   * When "S1S2" would not fit a constant-pool entry nothing is joined: the first literal is
   * copied and the scan moves on by one element.
   */
  lemma OversizedLiteralKept(s1: string, i1: Element, s2: string, i2: Element, t: seq<Element>)
    requires IsStringAppend(i1) && SameMethod(i1, i2)
    requires !FitsConstantPool(s1 + s2)
    ensures Rewrite([ConstPush(StrC(s1)), i1, ConstPush(StrC(s2)), i2] + t)
         == [ConstPush(StrC(s1))] + Rewrite([i1, ConstPush(StrC(s2)), i2] + t)
  {
    var u := [ConstPush(StrC(s1)), i1, ConstPush(StrC(s2)), i2] + t;
    assert !AddsZero(u) && AppendsLiterals(u) && FoldedLiteral(u) == s1 + s2;
    assert u[1..] == [i1, ConstPush(StrC(s2)), i2] + t;
  }

  /** A prefix of a string that fits a constant-pool entry fits too. */
  lemma FitsPrefix(a: string, b: string)
    requires FitsConstantPool(a + b)
    ensures FitsConstantPool(a)
  {
    Utf8.LengthAppend(a, b);
  }

  /** An append of a String to a StringBuilder, as javac emits it. */
  const AppendString: Element := Invoke(Virtual, StringBuilder, Append, AppendStringDesc, false)

  /**
   * Three literal appends in a row: one scan joins only the first two, since it resumes
   * after the pair it replaced; a second scan joins the third.
   */
  lemma ChainedAppends(s1: string, s2: string, s3: string)
    requires FitsConstantPool(s1 + s2 + s3)
    ensures Rewrite([ConstPush(StrC(s1)), AppendString, ConstPush(StrC(s2)), AppendString,
                     ConstPush(StrC(s3)), AppendString])
         == [ConstPush(StrC(s1 + s2)), AppendString, ConstPush(StrC(s3)), AppendString]
    ensures Rewrite([ConstPush(StrC(s1 + s2)), AppendString, ConstPush(StrC(s3)), AppendString])
         == [ConstPush(StrC(s1 + s2 + s3)), AppendString]
  {
    FitsPrefix(s1 + s2, s3);
    var last := [ConstPush(StrC(s3)), AppendString];
    LiteralAppendsJoined(s1, AppendString, s2, AppendString, last);
    LoneAppendKept(last);
    assert [ConstPush(StrC(s1)), AppendString, ConstPush(StrC(s2)), AppendString] + last
        == [ConstPush(StrC(s1)), AppendString, ConstPush(StrC(s2)), AppendString,
            ConstPush(StrC(s3)), AppendString];
    assert [ConstPush(StrC(s1 + s2)), AppendString] + last
        == [ConstPush(StrC(s1 + s2)), AppendString, ConstPush(StrC(s3)), AppendString];
    LiteralAppendsJoined(s1 + s2, AppendString, s3, AppendString, []);
    assert [ConstPush(StrC(s1 + s2)), AppendString, ConstPush(StrC(s3)), AppendString] + []
        == [ConstPush(StrC(s1 + s2)), AppendString, ConstPush(StrC(s3)), AppendString];
  }

  /** A literal followed by one append is left as it is. */
  lemma LoneAppendKept(last: seq<Element>)
    requires |last| == 2 && last[0].ConstPush? && last[0].value.StrC? && last[1] == AppendString
    ensures Rewrite(last) == last
  {
    assert !AddsZero(last) && !Folds(last);
    assert !AddsZero(last[1..]) && !Folds(last[1..]) && last[1..][1..] == [];
  }
}
