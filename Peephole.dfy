/**
 * The peephole rewriter `optimizeCodeAttribute`: one left-to-right scan over the code
 * elements with a five-slot lookahead window, trying two patterns in order.
 *   1. an int constant 0 followed by iadd or isub: both elements are dropped;
 *   2. ldc "S1"; StringBuilder.append(String); ldc "S2"; the same append:
 *      replaced by ldc "S1S2"; invokevirtual append, when "S1S2" fits a constant-pool string.
 * Otherwise the current element is copied and the scan moves on by one.
 */
module Peephole {
  import opened Wrappers
  import opened Code
  import Utf8

  const WindowSize: nat := 5

  /** `CONSTANT_Utf8_info.length` is a u2 (section 4.4.7 of the Java Virtual Machine Specification). */
  const MaxUtf8Length: nat := 65535

  /** The lookahead window: slots past the end of the element list are None (Java null). */
  type Window = w: seq<Option<Element>> | |w| == WindowSize witness [None, None, None, None, None]

  /** Slot k of the window at the start of s. */
  function Slot(s: seq<Element>, k: int): Option<Element> {
    if 0 <= k < |s| then Some(s[k]) else None
  }

  /** The window at the start of s. */
  function WindowOf(s: seq<Element>): Window
  {
    seq(WindowSize, k => Slot(s, k))
  }

  // ---------------------------------------------------------------- element tests

  /** `c.constantValue().equals(0)`: only a boxed Integer zero equals 0 (not 0L, 0.0f or 0.0). */
  predicate IsIntZero(e: Element) {
    e == ConstPush(IntC(0))
  }

  /** An instruction whose opcode is IADD or ISUB. */
  predicate IsAddOrSub(e: Element) {
    e.Arith? && (e.opcode == IADD || e.opcode == ISUB)
  }

  /** A constant instruction loading a String. */
  predicate IsStringConstant(e: Element) {
    e.ConstPush? && e.value.StrC?
  }

  /** An invoke of `java.lang.StringBuilder.append(String)`, whatever its invoke kind. */
  predicate IsStringAppend(e: Element) {
    e.Invoke? && e.owner == StringBuilder && e.name == Append && e.desc == AppendStringDesc
  }

  /**
   * Same owner, same member reference (owner, name, type and the Methodref or
   * InterfaceMethodref tag) and same type; the invoke kinds may differ.
   */
  predicate SameMethod(i1: Element, i2: Element) {
    i1.Invoke? && i2.Invoke? &&
    i1.owner == i2.owner && i1.name == i2.name && i1.desc == i2.desc &&
    i1.isInterface == i2.isInterface
  }

  // ---------------------------------------------------------------- the patterns, on the code

  /** Pattern 1 at the start of s: an int constant 0 followed by iadd or isub. */
  predicate AddsZero(s: seq<Element>) {
    |s| >= 2 && IsIntZero(s[0]) && IsAddOrSub(s[1])
  }

  /**
   * The shape of pattern 2 at the start of s: a String constant, an append(String) on
   * StringBuilder, a String constant and an invoke of the same method.
   */
  predicate AppendsLiterals(s: seq<Element>) {
    |s| >= 4 && IsStringConstant(s[0]) && IsStringAppend(s[1]) && IsStringConstant(s[2]) &&
    SameMethod(s[1], s[3])
  }

  /** `s1 + s2` of pattern 2. */
  function FoldedLiteral(s: seq<Element>): string
    requires AppendsLiterals(s)
  {
    s[0].value.s + s[2].value.s
  }

  /** The encoded string fits a `CONSTANT_Utf8_info` entry. */
  predicate FitsConstantPool(s: string) {
    Utf8.Length(s) <= MaxUtf8Length
  }

  /** Pattern 2 applies at the start of s: the shape matches and the joined literal fits. */
  predicate Folds(s: seq<Element>) {
    AppendsLiterals(s) && FitsConstantPool(FoldedLiteral(s))
  }

  /** `loadConstant(concat)` followed by `invokevirtual` of the first append's owner, name and type. */
  function FoldedAppend(literal: string, i1: Element): seq<Element>
    requires i1.Invoke?
  {
    [ConstPush(StrC(literal)), Invoke(Virtual, i1.owner, i1.name, i1.desc, false)]
  }

  /**
   * One scan over s: pattern 1 first, then pattern 2, else copy one element.
   * No step emits more elements than it consumes, so the result is never longer.
   */
  function Rewrite(s: seq<Element>): (r: seq<Element>)
    ensures |r| <= |s|
    decreases |s|
  {
    if s == [] then []
    else if AddsZero(s) then Rewrite(s[2..])
    else if Folds(s) then FoldedAppend(FoldedLiteral(s), s[1]) + Rewrite(s[4..])
    else [s[0]] + Rewrite(s[1..])
  }

  // ---------------------------------------------------------------- the patterns, on a window

  /** Pattern 1 on a window: `window[0]` and `window[1]` are both present and match. */
  predicate AddsZeroIn(w: Window) {
    && w[0].Some? && IsIntZero(w[0].value)
    && w[1].Some? && IsAddOrSub(w[1].value)
  }

  /** The shape of pattern 2 on a window: slots 0 to 3 are present and match. */
  predicate AppendsLiteralsIn(w: Window) {
    && w[0].Some? && IsStringConstant(w[0].value)
    && w[1].Some? && IsStringAppend(w[1].value)
    && w[2].Some? && IsStringConstant(w[2].value)
    && w[3].Some? && SameMethod(w[1].value, w[3].value)
  }

  /** `s1 + s2` read from a window. */
  function ConcatIn(w: Window): string
    requires AppendsLiteralsIn(w)
  {
    w[0].value.value.s + w[2].value.value.s
  }

  /**
   * The window tests agree with the tests on the code: a pattern never matches a window
   * truncated by the end of the element list.
   */
  lemma WindowPatterns(s: seq<Element>)
    ensures AddsZeroIn(WindowOf(s)) <==> AddsZero(s)
    ensures AppendsLiteralsIn(WindowOf(s)) <==> AppendsLiterals(s)
    ensures AppendsLiterals(s) ==> ConcatIn(WindowOf(s)) == FoldedLiteral(s) && WindowOf(s)[1] == Some(s[1])
  {
    var w := WindowOf(s);
    if AddsZeroIn(w) {
      assert Slot(s, 1).Some?;
    }
    if AppendsLiteralsIn(w) {
      assert Slot(s, 3).Some?;
    }
  }

  // ---------------------------------------------------------------- the imperative scan

  /** The code builder, modelled as the sequence of elements emitted so far. */
  class CodeBuilder {
    var code: seq<Element>

    constructor ()
      ensures code == []
    {
      code := [];
    }

    /** `accept(element)`. */
    method Accept(e: Element)
      modifies this
      ensures code == old(code) + [e]
    {
      code := code + [e];
    }

    /** `loadConstant(String)`. */
    method LoadConstant(s: string)
      modifies this
      ensures code == old(code) + [ConstPush(StrC(s))]
    {
      code := code + [ConstPush(StrC(s))];
    }

    /** `invokevirtual(owner, name, type)`; the member reference is a Methodref. */
    method InvokeVirtual(owner: string, name: string, desc: string)
      modifies this
      ensures code == old(code) + [Invoke(Virtual, owner, name, desc, false)]
    {
      code := code + [Invoke(Virtual, owner, name, desc, false)];
    }
  }

  /** The scan at index i when pattern 1 matches its window: both elements are skipped. */
  lemma ElideStep(elements: seq<Element>, i: nat, w: Window)
    requires i < |elements| && w == WindowOf(elements[i..]) && AddsZeroIn(w)
    ensures i + 2 <= |elements| && Rewrite(elements[i..]) == Rewrite(elements[i + 2..])
  {
    var rest := elements[i..];
    WindowPatterns(rest);
    assert rest[2..] == elements[i + 2..];
  }

  /** The scan at index i when pattern 2 matches its window and the literal fits. */
  lemma FoldStep(elements: seq<Element>, i: nat, w: Window)
    requires i < |elements| && w == WindowOf(elements[i..])
    requires !AddsZeroIn(w) && AppendsLiteralsIn(w) && FitsConstantPool(ConcatIn(w))
    ensures i + 4 <= |elements|
    ensures Rewrite(elements[i..]) == FoldedAppend(ConcatIn(w), w[1].value) + Rewrite(elements[i + 4..])
  {
    var rest := elements[i..];
    WindowPatterns(rest);
    assert rest[4..] == elements[i + 4..];
  }

  /** The scan at index i when no pattern applies: the element is copied. */
  lemma CopyStep(elements: seq<Element>, i: nat, w: Window)
    requires i < |elements| && w == WindowOf(elements[i..])
    requires !AddsZeroIn(w) && !(AppendsLiteralsIn(w) && FitsConstantPool(ConcatIn(w)))
    ensures Rewrite(elements[i..]) == [elements[i]] + Rewrite(elements[i + 1..])
  {
    var rest := elements[i..];
    WindowPatterns(rest);
    assert rest[1..] == elements[i + 1..];
  }

  /** The inner loop of the scan: a fresh window holding up to WindowSize elements from start, the remainder None. */
  method FillWindow(elements: seq<Element>, start: nat) returns (window: array<Option<Element>>)
    requires start <= |elements|
    ensures fresh(window) && window[..] == WindowOf(elements[start..])
  {
    window := new Option<Element>[WindowSize](_ => None);
    var i := 0;
    while i < WindowSize && start + i < |elements|
      invariant 0 <= i <= WindowSize && start + i <= |elements|
      invariant forall k :: 0 <= k < i ==> window[k] == Some(elements[start + k])
      invariant forall k :: i <= k < WindowSize ==> window[k] == None
    {
      window[i] := Some(elements[start + i]);
      i := i + 1;
    }
  }

  /** The output so far plus what is still to be emitted stays the same when out is emitted. */
  lemma Emit(target: seq<Element>, before: seq<Element>, out: seq<Element>, rest: seq<Element>, next: seq<Element>)
    requires target == before + rest && rest == out + next
    ensures target == (before + out) + next
  {
  }

  lemma EmitPair(before: seq<Element>, a: Element, b: Element)
    ensures (before + [a]) + [b] == before + [a, b]
  {
  }

  /**
   * `optimizeCodeAttribute`: scans elements with a window of five and sends the rewritten code to codeBuilder:
   * what it emits is exactly Rewrite(elements).
   */
  method OptimizeCodeAttribute(elements: seq<Element>, codeBuilder: CodeBuilder)
    modifies codeBuilder
    ensures codeBuilder.code == old(codeBuilder.code) + Rewrite(elements)
  {
    ghost var target := old(codeBuilder.code) + Rewrite(elements);
    var currentIndex := 0;
    while currentIndex < |elements|
      invariant 0 <= currentIndex <= |elements|
      invariant target == codeBuilder.code + Rewrite(elements[currentIndex..])
      decreases |elements| - currentIndex
    {
      var window := FillWindow(elements, currentIndex);
      var w: Window := window[..];
      ghost var before := codeBuilder.code;

      // Pattern 1: int 0 then iadd or isub, both dropped.
      if AddsZeroIn(w) {
        ElideStep(elements, currentIndex, w);
        currentIndex := currentIndex + 2;
        continue;
      }

      // Pattern 2: two literal appends, joined when the literal fits.
      if AppendsLiteralsIn(w) {
        var concat := ConcatIn(w);
        if Utf8.Length(concat) <= MaxUtf8Length {
          FoldStep(elements, currentIndex, w);
          var i1 := w[1].value;
          codeBuilder.LoadConstant(concat);
          codeBuilder.InvokeVirtual(i1.owner, i1.name, i1.desc);
          EmitPair(before, ConstPush(StrC(concat)), Invoke(Virtual, i1.owner, i1.name, i1.desc, false));
          Emit(target, before, FoldedAppend(concat, i1), Rewrite(elements[currentIndex..]), Rewrite(elements[currentIndex + 4..]));
          currentIndex := currentIndex + 4;
          continue;
        }
      }

      // Neither pattern: the current element is copied.
      CopyStep(elements, currentIndex, w);
      codeBuilder.Accept(elements[currentIndex]);
      Emit(target, before, [elements[currentIndex]], Rewrite(elements[currentIndex..]), Rewrite(elements[currentIndex + 1..]));
      currentIndex := currentIndex + 1;
    }
  }
}
