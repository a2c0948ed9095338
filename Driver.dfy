/**
 * The driver `optimizeJar`: every entry of the input jar is written to the output jar in
 * order; a `.class` entry goes through `numberOfPasses` passes of `optimizeClass`, and
 * when a pass fails the original bytes are written instead and an error line is printed.
 * `optimizeClass` itself is a parameter here: a function from class bytes to new class
 * bytes that may fail with a message.
 */
module Driver {
  import opened Wrappers
  import opened Jar

  // ---------------------------------------------------------------- the pass loop

  /** The outcome of n calls of optimizeClass, each on the previous result; the first failure ends it. */
  function Passes(optimizeClass: Bytes -> Result<Bytes>, bytes: Bytes, n: int): Result<Bytes>
    decreases n
  {
    if n <= 0 then Ok(bytes)
    else match Passes(optimizeClass, bytes, n - 1)
      case Ok(b) => optimizeClass(b)
      case Err(m) => Err(m)
  }

  /** f applied n times. */
  function Iterate(f: Bytes -> Bytes, bytes: Bytes, n: nat): Bytes {
    if n == 0 then bytes else f(Iterate(f, bytes, n - 1))
  }

  /** When optimizeClass never fails, n passes are the n-fold iteration of what it computes. */
  lemma {:induction false} PassesIterate(optimizeClass: Bytes -> Result<Bytes>, f: Bytes -> Bytes, bytes: Bytes, n: nat)
    requires forall b :: optimizeClass(b) == Ok(f(b))
    ensures Passes(optimizeClass, bytes, n) == Ok(Iterate(f, bytes, n))
  {
    if n > 0 {
      PassesIterate(optimizeClass, f, bytes, n - 1);
    }
  }

  /** m + n passes are m passes followed, if they succeed, by n more. */
  lemma {:induction false} PassesAdd(optimizeClass: Bytes -> Result<Bytes>, bytes: Bytes, m: nat, n: nat)
    ensures Passes(optimizeClass, bytes, m + n) == match Passes(optimizeClass, bytes, m)
      case Ok(b) => Passes(optimizeClass, b, n)
      case Err(e) => Err(e)
    decreases n
  {
    if n > 0 {
      PassesAdd(optimizeClass, bytes, m, n - 1);
    }
  }

  /** Once a pass has failed, more passes report the same failure. */
  lemma PassesFailureStays(optimizeClass: Bytes -> Result<Bytes>, bytes: Bytes, m: nat, n: nat)
    requires m <= n && Passes(optimizeClass, bytes, m).Err?
    ensures Passes(optimizeClass, bytes, n) == Passes(optimizeClass, bytes, m)
  {
    PassesAdd(optimizeClass, bytes, m, n - m);
  }

  /** n passes fail exactly when some pass k < n starts from a successful result and fails. */
  lemma {:induction false} PassesFail(optimizeClass: Bytes -> Result<Bytes>, bytes: Bytes, n: nat)
    ensures Passes(optimizeClass, bytes, n).Err? <==>
      exists k :: 0 <= k < n && Passes(optimizeClass, bytes, k).Ok? &&
        optimizeClass(Passes(optimizeClass, bytes, k).value).Err?
  {
    if n > 0 {
      PassesFail(optimizeClass, bytes, n - 1);
      if Passes(optimizeClass, bytes, n - 1).Ok? && optimizeClass(Passes(optimizeClass, bytes, n - 1).value).Err? {
        assert 0 <= n - 1 < n;
      }
    }
  }

  /**
   * The loop `for (pass = 0; pass < numberOfPasses; pass++) optimizedBytes = optimizeClass(...)`;
   * an exception from optimizeClass leaves the loop.
   */
  method ApplyPasses(optimizeClass: Bytes -> Result<Bytes>, originalBytes: Bytes, numberOfPasses: int)
    returns (r: Result<Bytes>)
    ensures r == Passes(optimizeClass, originalBytes, numberOfPasses)
  {
    var optimizedBytes := originalBytes;
    var pass := 0;
    while pass < numberOfPasses
      invariant 0 <= pass && (pass <= numberOfPasses || pass == 0)
      invariant Passes(optimizeClass, originalBytes, pass) == Ok(optimizedBytes)
      decreases numberOfPasses - pass
    {
      var next := optimizeClass(optimizedBytes);
      if next.Err? {
        PassesFailureStays(optimizeClass, originalBytes, pass + 1, numberOfPasses);
        return Err(next.message);
      }
      optimizedBytes := next.value;
      pass := pass + 1;
    }
    return Ok(optimizedBytes);
  }

  // ---------------------------------------------------------------- the entry loop, as values

  /** What is written for one entry. */
  function OptimizeEntry(optimizeClass: Bytes -> Result<Bytes>, numberOfPasses: int, e: Entry): Entry {
    if IsClassEntry(e.name) then
      match Passes(optimizeClass, e.bytes, numberOfPasses)
        case Ok(b) => Entry(e.name, b)
        case Err(_) => e
    else e
  }

  /** `"Error optimizing " + entry.getName() + ": " + e.getMessage()`. */
  function ErrorLine(name: string, message: string): string {
    "Error optimizing " + name + ": " + message
  }

  /** The error line printed for one entry, if any. */
  function EntryErrors(optimizeClass: Bytes -> Result<Bytes>, numberOfPasses: int, e: Entry): seq<string> {
    if IsClassEntry(e.name) then
      match Passes(optimizeClass, e.bytes, numberOfPasses)
        case Ok(_) => []
        case Err(m) => [ErrorLine(e.name, m)]
    else []
  }

  /** The entries of the output jar. */
  function OptimizedJar(optimizeClass: Bytes -> Result<Bytes>, numberOfPasses: int, entries: seq<Entry>): seq<Entry>
    decreases |entries|
  {
    if entries == [] then [] else
      var last := entries[|entries| - 1];
      OptimizedJar(optimizeClass, numberOfPasses, entries[..|entries| - 1]) + [OptimizeEntry(optimizeClass, numberOfPasses, last)]
  }

  /** The lines printed on standard error. */
  function ErrorLines(optimizeClass: Bytes -> Result<Bytes>, numberOfPasses: int, entries: seq<Entry>): seq<string>
    decreases |entries|
  {
    if entries == [] then [] else
      var last := entries[|entries| - 1];
      ErrorLines(optimizeClass, numberOfPasses, entries[..|entries| - 1]) + EntryErrors(optimizeClass, numberOfPasses, last)
  }

  /**
   * One output entry per input entry, in input order and under the same name; entries not
   * ending in `.class` are copied; a class entry holds the result of the passes, or its
   * original bytes when a pass failed.
   */
  lemma {:induction false} OptimizedJarEntries(optimizeClass: Bytes -> Result<Bytes>, numberOfPasses: int, entries: seq<Entry>)
    ensures |OptimizedJar(optimizeClass, numberOfPasses, entries)| == |entries|
    ensures forall i :: 0 <= i < |entries| ==>
      var out := OptimizedJar(optimizeClass, numberOfPasses, entries)[i];
      && out.name == entries[i].name
      && (!IsClassEntry(entries[i].name) ==> out == entries[i])
      && (IsClassEntry(entries[i].name) ==>
            out.bytes == match Passes(optimizeClass, entries[i].bytes, numberOfPasses)
              case Ok(b) => b
              case Err(_) => entries[i].bytes)
    decreases |entries|
  {
    if entries != [] {
      var init := entries[..|entries| - 1];
      OptimizedJarEntries(optimizeClass, numberOfPasses, init);
      assert forall i :: 0 <= i < |init| ==> init[i] == entries[i];
    }
  }

  /** Nothing is printed exactly when every class entry survives all its passes. */
  lemma {:induction false} NoErrorsIff(optimizeClass: Bytes -> Result<Bytes>, numberOfPasses: int, entries: seq<Entry>)
    ensures ErrorLines(optimizeClass, numberOfPasses, entries) == [] <==>
      forall i :: 0 <= i < |entries| && IsClassEntry(entries[i].name) ==>
        Passes(optimizeClass, entries[i].bytes, numberOfPasses).Ok?
    decreases |entries|
  {
    if entries != [] {
      var init := entries[..|entries| - 1];
      NoErrorsIff(optimizeClass, numberOfPasses, init);
      assert forall i :: 0 <= i < |init| ==> init[i] == entries[i];
    }
  }

  /** With no passes (numberOfPasses <= 0) the output jar is the input jar and nothing is printed. */
  lemma {:induction false} ZeroPasses(optimizeClass: Bytes -> Result<Bytes>, numberOfPasses: int, entries: seq<Entry>)
    requires numberOfPasses <= 0
    ensures OptimizedJar(optimizeClass, numberOfPasses, entries) == entries
    ensures ErrorLines(optimizeClass, numberOfPasses, entries) == []
    decreases |entries|
  {
    if entries != [] {
      ZeroPasses(optimizeClass, numberOfPasses, entries[..|entries| - 1]);
      assert entries == entries[..|entries| - 1] + [entries[|entries| - 1]];
    }
  }

  // ---------------------------------------------------------------- the streams

  /** A `JarOutputStream`: the entries closed so far and the one being written, if any. */
  class JarOutput {
    var entries: seq<Entry>
    var current: Option<Entry>

    constructor ()
      ensures entries == [] && current == None
    {
      entries := [];
      current := None;
    }

    /** The entries of the finished archive: the closed ones and the open one. */
    function Finished(): seq<Entry>
      reads this
    {
      entries + (if current.Some? then [current.value] else [])
    }

    /** `putNextEntry`: closes the open entry, if any, and starts an empty one. */
    method PutNextEntry(name: string)
      modifies this
      ensures entries == old(Finished()) && current == Some(Entry(name, []))
    {
      entries := Finished();
      current := Some(Entry(name, []));
    }

    /** `write(bytes)`: appends to the open entry. */
    method Write(bytes: Bytes)
      requires current.Some?
      modifies this
      ensures entries == old(entries)
      ensures current == Some(Entry(old(current).value.name, old(current).value.bytes + bytes))
    {
      current := Some(Entry(current.value.name, current.value.bytes + bytes));
    }

    /** `closeEntry`: nothing when no entry is open. */
    method CloseEntry()
      modifies this
      ensures entries == old(Finished()) && current == None
    {
      entries := Finished();
      current := None;
    }
  }

  /** `System.err`: the lines printed so far. */
  class ErrorStream {
    var lines: seq<string>

    constructor ()
      ensures lines == []
    {
      lines := [];
    }

    method Println(line: string)
      modifies this
      ensures lines == old(lines) + [line]
    {
      lines := lines + [line];
    }
  }

  /** The body of the entry loop for one entry, written to an output with no open entry. */
  method CopyEntry(optimizeClass: Bytes -> Result<Bytes>, numberOfPasses: int, entry: Entry,
                   outputStream: JarOutput, err: ErrorStream)
    requires outputStream.current.None?
    modifies outputStream, err
    ensures outputStream.entries == old(outputStream.entries) + [OptimizeEntry(optimizeClass, numberOfPasses, entry)]
    ensures outputStream.current.None?
    ensures err.lines == old(err.lines) + EntryErrors(optimizeClass, numberOfPasses, entry)
  {
    outputStream.PutNextEntry(entry.name);
    if IsClassEntry(entry.name) {
      var originalBytes := entry.bytes;
      var optimizedBytes := ApplyPasses(optimizeClass, originalBytes, numberOfPasses);
      match optimizedBytes {
        case Ok(b) =>
          outputStream.Write(b);
          assert [] + b == b;
        case Err(message) =>
          err.Println(ErrorLine(entry.name, message));
          outputStream.Write(originalBytes);
          assert [] + originalBytes == originalBytes;
      }
    } else {
      // Not a class file: the entry's bytes go to the output as they are.
      outputStream.Write(entry.bytes);
      assert [] + entry.bytes == entry.bytes;
    }
    outputStream.CloseEntry();
  }

  lemma JarSnoc(optimizeClass: Bytes -> Result<Bytes>, numberOfPasses: int, entries: seq<Entry>, i: nat)
    requires i < |entries|
    ensures OptimizedJar(optimizeClass, numberOfPasses, entries[..i + 1])
         == OptimizedJar(optimizeClass, numberOfPasses, entries[..i]) + [OptimizeEntry(optimizeClass, numberOfPasses, entries[i])]
    ensures ErrorLines(optimizeClass, numberOfPasses, entries[..i + 1])
         == ErrorLines(optimizeClass, numberOfPasses, entries[..i]) + EntryErrors(optimizeClass, numberOfPasses, entries[i])
  {
    assert entries[..i + 1][..i] == entries[..i];
  }

  /**
   * `optimizeJar` on the entries of the input jar: returns the output stream, whose
   * entries are OptimizedJar(entries), and prints ErrorLines(entries) on err.
   */
  method OptimizeJar(optimizeClass: Bytes -> Result<Bytes>, entries: seq<Entry>, numberOfPasses: int, err: ErrorStream)
    returns (outputStream: JarOutput)
    modifies err
    ensures fresh(outputStream)
    ensures outputStream.entries == OptimizedJar(optimizeClass, numberOfPasses, entries)
    ensures outputStream.current.None?
    ensures err.lines == old(err.lines) + ErrorLines(optimizeClass, numberOfPasses, entries)
  {
    outputStream := new JarOutput();
    var i := 0;
    while i < |entries|
      invariant 0 <= i <= |entries|
      invariant fresh(outputStream) && outputStream.current.None?
      invariant outputStream.entries == OptimizedJar(optimizeClass, numberOfPasses, entries[..i])
      invariant err.lines == old(err.lines) + ErrorLines(optimizeClass, numberOfPasses, entries[..i])
    {
      CopyEntry(optimizeClass, numberOfPasses, entries[i], outputStream, err);
      JarSnoc(optimizeClass, numberOfPasses, entries, i);
      i := i + 1;
    }
    assert entries[..i] == entries;
  }
}
