/**
 * `optimizeClass`: parse the class bytes, rebuild every method with its code attribute
 * replaced by the rewritten code, and encode the class again. Parsing and encoding belong
 * to the class-file library and are parameters here; the part modelled is the method
 * transform and what repeated passes do to the code.
 */
module ClassTransform {
  import opened Wrappers
  import opened Code
  import opened Jar
  import opened Peephole
  import PeepholeProperties
  import Driver

  /** One element of a method: its code attribute, or anything else (flags, exceptions, annotations, ...). */
  datatype MethodElement = CodeAttribute(code: seq<Element>) | OtherMethodElement(raw: string)

  datatype MethodModel = MethodModel(name: string, desc: string, elements: seq<MethodElement>)

  /** A parsed class: its name, its methods, and all its other parts, which the transform carries over. */
  datatype ClassModel = ClassModel(thisClass: string, methods: seq<MethodModel>, others: seq<string>)

  /**
   * The `withCode` handler: a fresh code builder filled by `optimizeCodeAttribute`.
   * Its code is the rewritten code of the attribute.
   */
  method BuildCode(code: seq<Element>) returns (newCode: seq<Element>)
    ensures newCode == Rewrite(code)
    ensures |newCode| <= |code|
  {
    var codeBuilder := new CodeBuilder();
    OptimizeCodeAttribute(code, codeBuilder);
    newCode := codeBuilder.code;
  }

  /** The method-element handler: a code attribute is rebuilt, everything else is passed on. */
  function TransformElement(e: MethodElement): MethodElement {
    match e
      case CodeAttribute(code) => CodeAttribute(Rewrite(code))
      case OtherMethodElement(_) => e
  }

  function TransformMethod(m: MethodModel): MethodModel {
    MethodModel(m.name, m.desc, seq(|m.elements|, i requires 0 <= i < |m.elements| => TransformElement(m.elements[i])))
  }

  /** `transformingMethods(...)`: only the methods change. */
  function TransformClass(c: ClassModel): ClassModel {
    ClassModel(c.thisClass, seq(|c.methods|, i requires 0 <= i < |c.methods| => TransformMethod(c.methods[i])), c.others)
  }

  /** `optimizeClass` with the library's parser and encoder as parameters. */
  function OptimizeClass(parse: Bytes -> Result<ClassModel>, build: ClassModel -> Result<Bytes>, bytes: Bytes): Result<Bytes> {
    match parse(bytes)
      case Err(e) => Err(e)
      case Ok(c) => build(TransformClass(c))
  }

  // ---------------------------------------------------------------- repeated passes

  /** n scans of the rewriter, each over the previous result. */
  function RewritePasses(s: seq<Element>, n: nat): seq<Element> {
    if n == 0 then s else Rewrite(RewritePasses(s, n - 1))
  }

  /**
   * Every pass that changes the code removes at least two elements, so after n passes the
   * code is either stable under a further pass or at least 2n elements shorter.
   */
  lemma {:induction false} RewritePassesConverge(s: seq<Element>, n: nat)
    ensures |RewritePasses(s, n)| <= |s|
    ensures n > 0 ==> |RewritePasses(s, n)| <= |RewritePasses(s, n - 1)|
    ensures Rewrite(RewritePasses(s, n)) == RewritePasses(s, n) || |RewritePasses(s, n)| + 2 * n <= |s|
  {
    if n > 0 {
      RewritePassesConverge(s, n - 1);
      var prev := RewritePasses(s, n - 1);
      PeepholeProperties.RewriteShrinks(prev);
      PeepholeProperties.RewriteShrinks(Rewrite(prev));
      if Rewrite(prev) == prev {
        assert RewritePasses(s, n) == prev;
      }
    }
  }

  /** Code that one pass leaves unchanged stays unchanged under any number of passes. */
  lemma {:induction false} RewritePassesStable(s: seq<Element>, n: nat)
    requires Rewrite(s) == s
    ensures RewritePasses(s, n) == s
  {
    if n > 0 {
      RewritePassesStable(s, n - 1);
    }
  }

  /** More than |s| / 2 passes add nothing: one more pass leaves the code as it is. */
  lemma EnoughPasses(s: seq<Element>, n: nat)
    requires 2 * n > |s|
    ensures Rewrite(RewritePasses(s, n)) == RewritePasses(s, n)
  {
    RewritePassesConverge(s, n);
  }

  /** n class transforms, each on the previous result. */
  function TransformPasses(c: ClassModel, n: nat): ClassModel {
    if n == 0 then c else TransformClass(TransformPasses(c, n - 1))
  }

  /**
   * After n class transforms every method keeps its name, type and element list shape, and
   * each code attribute holds n scans of its original code.
   */
  lemma {:induction false} TransformPassesCode(c: ClassModel, n: nat)
    ensures TransformPasses(c, n).thisClass == c.thisClass && TransformPasses(c, n).others == c.others
    ensures |TransformPasses(c, n).methods| == |c.methods|
    ensures forall i :: 0 <= i < |c.methods| ==>
      var m := TransformPasses(c, n).methods[i];
      && m.name == c.methods[i].name && m.desc == c.methods[i].desc
      && |m.elements| == |c.methods[i].elements|
      && forall j :: 0 <= j < |m.elements| ==>
           m.elements[j] == match c.methods[i].elements[j]
             case CodeAttribute(code) => CodeAttribute(RewritePasses(code, n))
             case OtherMethodElement(_) => c.methods[i].elements[j]
  {
    if n > 0 {
      TransformPassesCode(c, n - 1);
    }
  }

  /**
   * When encoding never fails and parsing reads back what was encoded, the driver's n
   * passes of optimizeClass on bytes that parse to c encode the class after n transforms.
   */
  lemma {:induction false} OptimizeClassPasses(parse: Bytes -> Result<ClassModel>, build: ClassModel -> Result<Bytes>,
                                               bytes: Bytes, c: ClassModel, n: nat)
    requires parse(bytes) == Ok(c)
    requires forall m :: build(m).Ok? && parse(build(m).value) == Ok(m)
    ensures n > 0 ==> Driver.Passes(b => OptimizeClass(parse, build, b), bytes, n) == build(TransformPasses(c, n))
  {
    if n > 1 {
      OptimizeClassPasses(parse, build, bytes, c, n - 1);
    }
  }
}
