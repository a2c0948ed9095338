/**
 * Jar archives as the driver sees them: an ordered list of named entries, each holding
 * the bytes of one file.
 */
module Jar {
  import opened Wrappers

  newtype byte = x: int | 0 <= x < 0x100

  type Bytes = seq<byte>

  /** One jar entry: its name (a path such as `a/b/C.class`) and its contents. */
  datatype Entry = Entry(name: string, bytes: Bytes)

  const ClassSuffix: string := ".class"

  /** `String.endsWith(suffix)`. */
  predicate EndsWith(s: string, suffix: string) {
    |suffix| <= |s| && s[|s| - |suffix|..] == suffix
  }

  /** The entries the driver optimizes: those whose name ends in `.class`. */
  predicate IsClassEntry(name: string) {
    EndsWith(name, ClassSuffix)
  }

  /** Every name built by appending `.class` is a class entry's name, and the suffix comes off again. */
  lemma ClassEntryName(n: string)
    ensures IsClassEntry(n + ClassSuffix)
    ensures (n + ClassSuffix)[..|n|] == n
  {
    assert (n + ClassSuffix)[|n|..] == ClassSuffix;
  }

  /** Entry k is the first one named name. */
  predicate FirstNamed(jar: seq<Entry>, name: string, k: int) {
    0 <= k < |jar| && jar[k].name == name && forall j :: 0 <= j < k ==> jar[j].name != name
  }

  /**
   * `JarFile.getJarEntry(name)`, modelled as the contents of the first entry with that
   * name, or None (Java null) when there is none.
   */
  function FindEntry(jar: seq<Entry>, name: string): (r: Option<Bytes>)
    ensures r.None? <==> forall k :: 0 <= k < |jar| ==> jar[k].name != name
    ensures r.Some? ==> exists k :: FirstNamed(jar, name, k) && jar[k].bytes == r.value
    decreases |jar|
  {
    if jar == [] then None
    else if jar[0].name == name then Some(jar[0].bytes)
    else
      var r := FindEntry(jar[1..], name);
      assert forall k :: 1 <= k < |jar| ==> jar[k] == jar[1..][k - 1];
      if r.Some? then
        var k :| FirstNamed(jar[1..], name, k) && jar[1..][k].bytes == r.value;
        assert FirstNamed(jar, name, k + 1);
        r
      else r
  }

  /** At most one entry is the first with a given name. */
  lemma FirstNamedUnique(jar: seq<Entry>, name: string, k: int, k': int)
    requires FirstNamed(jar, name, k) && FirstNamed(jar, name, k')
    ensures k == k'
  {
  }
}
