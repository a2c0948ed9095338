# A verified model of the jar peephole optimizer

The optimizer reads a jar file and writes a new one. Every `.class` entry goes through
a number of passes of `optimizeClass`, and every other entry is copied. In each method,
`optimizeClass` rebuilds the `Code` attribute with `optimizeCodeAttribute`. That is a
single left-to-right scan with a five-element lookahead window, and it tries two rewrites
in order:

1. `iconst_0` followed by `iadd` or `isub` is dropped.
2. `ldc "S1"; StringBuilder.append(String); ldc "S2"; <same append>` becomes
   `ldc "S1S2"; invokevirtual StringBuilder.append(String)`. This happens only when the
   UTF-8 encoding of `S1S2` is at most 65535 bytes, the largest length a `CONSTANT_Utf8_info`
   entry can hold (section 4.4.7 of the Java Virtual Machine Specification).

Otherwise the element at the current position is copied and the scan moves on by one.

This project models that scan and the surrounding pieces:

- the pass loop and the failure fallback of `optimizeJar`;
- the entry loop and the output streams;
- the method transform inside `optimizeClass`;
- the descriptor-to-entry-name lookup of `JarClassHierarchyResolver`.

Modules, one per file:

- `Code`: the code elements. Constants (int, long, float, double, String, other), invokes
  (kind, owner, name, type, and whether the member reference is an `InterfaceMethodref`),
  operators with their opcode, and opaque elements (loads, branches, labels, ...).
- `Utf8`: the UTF-8 byte length of a string of Unicode scalar values, which is what
  `getBytes(UTF_8).length` measures for strings without unpaired surrogates.
- `Peephole`:
  - the rewrite as a function `Rewrite` on element sequences;
  - the window tests;
  - the `CodeBuilder` class, an append-only code sequence;
  - the imperative `OptimizeCodeAttribute` with its window-filling inner loop, proved to
    emit exactly `Rewrite(elements)`.
- `PeepholeProperties`: what one scan does and does not do.
- `Jar`: entries, the `.class` suffix, and `getJarEntry`.
- `Driver`:
  - `Passes`, the pass loop as a function, and the `ApplyPasses` loop proved against it;
  - the output jar and the error lines as functions;
  - the `JarOutput` and `ErrorStream` classes;
  - the imperative `OptimizeJar`.
- `ClassTransform`: `optimizeClass` with the library's parser and encoder as parameters, and
  what repeated passes do to the code.
- `HierarchyResolver`: the descriptor to entry name lambda.
- `Scenarios`: the `Test.main` method that TestJarGenerator writes, through one, two and
  three passes.
- `Wrappers` and `Seqs`: Option/Result, and a general fact about sequence concatenation.

Three details of the patterns, as the code decides them:

- Pattern 1 fires only for an `int` zero followed by `iadd`/`isub`. `constantValue().equals(0)`
  compares with a boxed `Integer`, so `0L`, `0.0f` and `0.0` never match, and neither do `ladd`,
  `fadd` or `dadd`.
- The replacement of pattern 2 is always `invokevirtual` on a `Methodref`, with the first
  invoke's owner, name and type, whatever the kinds of the invokes it replaces.
- The second invoke of pattern 2 must have the same owner, the same member reference and the
  same type as the first. Its invoke kind may differ.

## Model

| member | source | states |
|---|---|---|
| Utf8.Width | Optimizer.java:167 | one character takes 1 to 4 bytes in UTF-8: 1 exactly below U+0080, 4 exactly from U+10000 |
| Utf8.Length | Optimizer.java:167 | the UTF-8 length of s lies between \|s\| and 4\|s\| |
| Utf8.LengthAppend | Optimizer.java:164-167 | the UTF-8 length of s1 + s2 is the sum of the two lengths |
| Utf8.LengthAscii | Optimizer.java:167 | the UTF-8 length equals the character count exactly when every character is ASCII |
| Peephole.Rewrite | Optimizer.java:139-180 | one scan: pattern 1, then pattern 2, else copy; the result is never longer than the input |
| Peephole.WindowPatterns | Optimizer.java:141-162 | the tests on the null-padded window agree with the tests on the remaining code, so no pattern matches a window cut short by the end of the list, and the joined literal read from the window is S1 + S2 |
| Peephole.ElideStep | Optimizer.java:147-151 | when pattern 1 matches at the current index, two elements remain and nothing is emitted for them |
| Peephole.FoldStep | Optimizer.java:155-174 | when pattern 2 matches and the literal fits, four elements remain and exactly the folded pair is emitted for them |
| Peephole.CopyStep | Optimizer.java:176-179 | when neither rewrite applies, exactly the current element is emitted |
| Peephole.FillWindow | Optimizer.java:141-144 | a fresh array of five slots holding the next elements in order, with null (None) past the end |
| Peephole.CodeBuilder.Accept | Optimizer.java:179 | the builder's code grows by the given element |
| Peephole.CodeBuilder.LoadConstant | Optimizer.java:169 | the builder's code grows by an ldc of the string |
| Peephole.CodeBuilder.InvokeVirtual | Optimizer.java:170 | the builder's code grows by an invokevirtual on a Methodref with that owner, name and type |
| Peephole.OptimizeCodeAttribute | Optimizer.java:134-181 | the loop terminates (currentIndex approaches the element count and never passes it), and the builder receives exactly Rewrite(elements) after what it held before |
| PeepholeProperties.RewriteShrinks | Optimizer.java:147-179 | a scan changes the code exactly when it shortens it, and then by at least two elements |
| PeepholeProperties.RewriteIdentity | Optimizer.java:139-180 | a scan leaves the code unchanged exactly when neither pattern applies at any position |
| PeepholeProperties.RewriteKeepsOpaques | Optimizer.java:179 | the elements the patterns never inspect come out exactly as they went in, in the same order |
| PeepholeProperties.RewriteSplitsAtOpaque | Optimizer.java:139-180 | no rewrite spans an opaque element such as a label: rewriting s + [o] + t is rewriting s, then o, then rewriting t |
| PeepholeProperties.NonConstantCopied | Optimizer.java:147-179 | an element that is not a constant never starts a pattern and is copied |
| PeepholeProperties.NonConstantsCopied | Optimizer.java:147-179 | a run of elements none of which is a constant is copied as it is |
| PeepholeProperties.ZeroArithDropped | Optimizer.java:147-151 | `iconst_0; iadd` and `iconst_0; isub` vanish and the scan resumes after them |
| PeepholeProperties.OtherConstantsKept | Optimizer.java:147 | a long, float or double zero, or any other non-String constant that is not the int 0, is copied |
| PeepholeProperties.ZeroBeforeOtherOpKept | Optimizer.java:148 | an int 0 before an operator other than iadd or isub is kept, and so is the operator |
| PeepholeProperties.LiteralAppendsJoined | Optimizer.java:155-174 | two literal appends to the same method become ldc S1+S2 and one invokevirtual of StringBuilder.append(String), whatever the original invoke kinds, and the scan resumes after the four |
| PeepholeProperties.NotAppendKept | Optimizer.java:156-159 | when the element after the first literal is not an invoke of StringBuilder.append(String), nothing is joined: the literal is copied and the scan moves on by one |
| PeepholeProperties.NonStringSecondKept | Optimizer.java:160 | when the third element is not a String constant, the first literal is copied and the scan moves on by one |
| PeepholeProperties.MismatchKept | Optimizer.java:161-162 | when the second invoke differs from the first in owner, member reference or type, the first literal is copied and the scan moves on by one |
| PeepholeProperties.OversizedLiteralKept | Optimizer.java:167-179 | when S1+S2 needs more than 65535 UTF-8 bytes, the first literal is copied and the scan moves on by one |
| PeepholeProperties.ChainedAppends | Optimizer.java:164-174 | of three adjacent literal appends one scan joins only the first two, and a second scan joins the third |
| Jar.ClassEntryName | Optimizer.java:196 | any name with `.class` appended is a class entry, and the suffix comes off again |
| Jar.FindEntry | Optimizer.java:196-199 | absent (null) exactly when no entry has the name, otherwise the contents of the first entry with that name |
| Driver.PassesIterate | Optimizer.java:86-90 | when optimizeClass never fails, n passes are its n-fold iteration, and zero passes are the identity |
| Driver.PassesAdd | Optimizer.java:88-90 | m + n passes are m passes followed, if they succeed, by n more |
| Driver.PassesFailureStays | Optimizer.java:86-95 | once a pass fails, further passes report the same failure |
| Driver.PassesFail | Optimizer.java:86-95 | the passes fail exactly when some pass starts from a successful result and fails |
| Driver.ApplyPasses | Optimizer.java:86-90 | the pass loop, which an exception leaves, yields Passes(optimizeClass, bytes, numberOfPasses) |
| Driver.OptimizedJarEntries | Optimizer.java:73-106 | one output entry per input entry, in order and under the same name; a non-class entry is copied; a class entry holds the passes' result, or its original bytes when a pass failed |
| Driver.NoErrorsIff | Optimizer.java:93-97 | nothing is printed exactly when every class entry survives all its passes |
| Driver.ZeroPasses | Optimizer.java:86-92 | with numberOfPasses ≤ 0 the output jar equals the input jar and nothing is printed |
| Driver.JarOutput.PutNextEntry | Optimizer.java:80 | the open entry, if any, is closed and an empty entry with the name is opened |
| Driver.JarOutput.Write | Optimizer.java:92 | the bytes are appended to the open entry |
| Driver.JarOutput.CloseEntry | Optimizer.java:105 | the open entry, if any, joins the closed entries |
| Driver.ErrorStream.Println | Optimizer.java:96 | the line is appended to what was printed |
| Driver.CopyEntry | Optimizer.java:76-105 | one iteration of the entry loop writes exactly OptimizeEntry and prints exactly that entry's error line, if it has one |
| Driver.OptimizeJar | Optimizer.java:64-111 | the output stream holds OptimizedJar(entries), with no entry left open, and standard error receives ErrorLines(entries) |
| HierarchyResolver.InternalName | Optimizer.java:193-195 | substring(1, length - 1): fails (throws) exactly for descriptors shorter than 2, otherwise the descriptor is its first character, the name and its last character |
| HierarchyResolver.InternalNameOfDescriptor | Optimizer.java:194-195 | the internal name read from `L<name>;` is name |
| HierarchyResolver.DescriptorOfInternalName | Optimizer.java:194-195 | a descriptor `L...;` is the descriptor of the internal name it yields |
| HierarchyResolver.EntryNameFor | Optimizer.java:195-196 | the looked-up entry name is the internal name followed by `.class`, a class entry's name |
| HierarchyResolver.LocateClassFound | Optimizer.java:192-200 | for `L<name>;` the lookup succeeds; it finds something exactly when the jar has an entry `<name>.class`, and then the contents of the first such entry |
| ClassTransform.BuildCode | Optimizer.java:121-124 | a fresh code builder filled by optimizeCodeAttribute holds exactly Rewrite(code), which is no longer than code |
| ClassTransform.RewritePassesConverge | Optimizer.java:86-90 | every further pass keeps or shortens the code; after n passes the code is stable or at least 2n elements shorter |
| ClassTransform.RewritePassesStable | Optimizer.java:86-90 | code that one pass leaves unchanged stays unchanged under any number of passes |
| ClassTransform.EnoughPasses | Optimizer.java:86-90 | after more than \|s\|/2 passes a further pass changes nothing |
| ClassTransform.TransformPassesCode | Optimizer.java:113-131 | after n transforms every method keeps its name, type and elements, and each code attribute holds n scans of its code |
| ClassTransform.OptimizeClassPasses | Optimizer.java:86-90 | if encoding never fails and parsing reads back what was encoded, n ≥ 1 driver passes encode the class after n transforms |
| Scenarios.LiteralsFit | TestJarGenerator.java:34-39 | the three literals joined fit a constant-pool entry |
| Scenarios.LiteralsRewritten | TestJarGenerator.java:31-39 | the literal appends of Test.main go from three to two (the first two joined) and then to one, which is then left alone |
| Scenarios.LengthRewritten | TestJarGenerator.java:41-45 | `arraylength; iconst_0; iadd; append(int); toString` loses `iconst_0; iadd` and then stays |
| Scenarios.PrintKept | TestJarGenerator.java:47-49 | `swap; println; return` is never changed |
| Scenarios.FirstPass | TestJarGenerator.java:31-49 | one pass over Test.main joins "The length" and " of the", keeps " arguments array is " as a separate append, and drops `iconst_0; iadd` |
| Scenarios.SecondPass | TestJarGenerator.java:31-49 | a second pass joins the remaining two literals into "The length of the arguments array is " |
| Scenarios.ThirdPassStable | TestJarGenerator.java:31-49 | a third pass changes nothing |
| Scenarios.MainPasses | TestJarGenerator.java:31-49 | any two or more passes give the same code |

## Left out

- Parsing and encoding class files (`ClassFile.parse` and `transform`, `NEW_POOL`,
  `DROP_LINE_NUMBERS`, `DROP_DEBUG`, stack-map recomputation, and how `CodeBuilder` encodes
  instructions) belong to the class-file library, whose source is not part of this model. They
  are the `parse` and `build` parameters of `ClassTransform.OptimizeClass`, and the driver
  takes `optimizeClass` as a function parameter.
- ClassTransform.OptimizeClassPasses: only covers an encoder that never fails and a parser
  that reads back what was encoded. It is not shown about the real library.
- Utf8.Length: strings are modelled as sequences of Unicode scalar values, while a Java String
  is a sequence of UTF-16 code units. Unpaired surrogates are not modelled: `getBytes(UTF_8)`
  encodes each as the single byte `?`, and `s1 + s2` can join a lone high surrogate ending S1
  with a lone low surrogate starting S2 into one 4-byte character, where Java's length is then
  not additive as Utf8.LengthAppend states for scalar-value strings.
- Peephole.FitsConstantPool: measures standard UTF-8, as `getBytes(UTF_8)` does. Class files
  store modified UTF-8, where U+0000 takes 2 bytes and a supplementary character 6. A literal
  can therefore pass the test and still be too long for the constant pool. Encoding would then
  fail and the driver would fall back to the original bytes; this is not modelled.
- Meaning preservation: there is no operand-stack semantics of bytecode, so it is not stated
  that the rewritten code computes what the original did. What is stated is which element
  sequences each rewrite replaces and with what.
- The class hierarchy resolver chain (`defaultResolver().orElse(...).cached()` and
  `ofResourceParsing`) is library code; only the name-mapping lambda is modelled.
- HierarchyResolver.LocateClass: reading the entry's stream is I/O. The IOException path that
  returns null is therefore not modelled, and the result is the entry's contents.
- Jar and file I/O are left out: opening the input jar, creating the output file, buffering,
  `transferTo`, and the outer IOException handler that prints `Error: ...`. The driver works on
  the list of entries, and the output stream is a list of finished entries.
- Entry metadata that `new JarEntry(entry)` copies (time, comment, extra fields, size,
  compressed size, CRC and compression method) is not modelled; entries are a name and bytes.
  Driver.OptimizedJarEntries assumes the writer accepts an entry whose bytes changed. With the
  JDK's zip writer, a STORED class entry whose optimized bytes differ from the recorded size or
  CRC is rejected by `closeEntry` (line 105, outside the per-entry catch), and the outer
  IOException handler then ends the whole run; this is not modelled.
- Duplicate entry names: `getJarEntry` is modelled as returning the first entry of that name,
  since the zip library's choice is not part of this model.
- The command line (`main`, lines 34-62) is left out: argument count checks, file existence
  tests, `Integer.parseInt`, and the exit codes. The number of passes is any `int`, including
  zero and negative values.
- Exceptions other than the failure of `optimizeClass` are not modelled.
- TestJarGenerator's class building, manifest and jar writing are library calls. Only the
  instruction sequence of `Test.main` is transcribed, in `Scenarios`.
