/**
 * The lookup function that `JarClassHierarchyResolver` hands to the class-file library:
 * from a class descriptor such as `Ljava/lang/Object;` to the jar entry
 * `java/lang/Object.class`, if the jar has one.
 */
module HierarchyResolver {
  import opened Wrappers
  import opened Jar

  /** The descriptor of the class with internal name n. */
  function ClassDescriptor(n: string): string {
    "L" + n + ";"
  }

  /**
   * `desc.substring(1, desc.length() - 1)`: the descriptor without its first and last
   * characters. A descriptor shorter than two characters (a primitive such as `I`) makes
   * `substring` throw, modelled as Err.
   */
  function InternalName(desc: string): (r: Result<string>)
    ensures r.Ok? <==> |desc| >= 2
    ensures r.Ok? ==> |r.value| + 2 == |desc| && desc == [desc[0]] + r.value + [desc[|desc| - 1]]
  {
    if |desc| < 2 then Err("begin 1, end " + (if |desc| == 0 then "-1" else "0"))
    else
      var n := desc[1..|desc| - 1];
      assert desc == [desc[0]] + n + [desc[|desc| - 1]];
      Ok(n)
  }

  /** The internal name is read back from the descriptor of any class. */
  lemma InternalNameOfDescriptor(n: string)
    ensures InternalName(ClassDescriptor(n)) == Ok(n)
  {
    assert ClassDescriptor(n)[1..|n| + 1] == n;
  }

  /** Conversely, a descriptor of the form `L...;` is the descriptor of the name it yields. */
  lemma DescriptorOfInternalName(desc: string)
    requires |desc| >= 2 && desc[0] == 'L' && desc[|desc| - 1] == ';'
    ensures ClassDescriptor(InternalName(desc).value) == desc
  {
  }

  /** `internalName + ".class"`: the name of the jar entry looked up. */
  function EntryNameFor(desc: string): (r: Result<string>)
    ensures r.Ok? <==> |desc| >= 2
    ensures r.Ok? ==> IsClassEntry(r.value) && r.value == InternalName(desc).value + ClassSuffix
  {
    match InternalName(desc)
      case Err(e) => Err(e)
      case Ok(n) =>
        ClassEntryName(n);
        Ok(n + ClassSuffix)
  }

  /**
   * The lambda given to `ofResourceParsing`: the contents of the entry named after the
   * descriptor, or None (Java null) when the jar has no such entry.
   */
  function LocateClass(jar: seq<Entry>, desc: string): Result<Option<Bytes>> {
    match EntryNameFor(desc)
      case Err(e) => Err(e)
      case Ok(name) => Ok(FindEntry(jar, name))
  }

  /**
   * The class with internal name n is found exactly when the jar has an entry `n.class`,
   * and then the contents are those of the first such entry.
   */
  lemma LocateClassFound(jar: seq<Entry>, n: string)
    ensures LocateClass(jar, ClassDescriptor(n)).Ok?
    ensures LocateClass(jar, ClassDescriptor(n)).value.Some? <==>
      exists k :: 0 <= k < |jar| && jar[k].name == n + ClassSuffix
    ensures forall k :: FirstNamed(jar, n + ClassSuffix, k) ==>
      LocateClass(jar, ClassDescriptor(n)) == Ok(Some(jar[k].bytes))
  {
    InternalNameOfDescriptor(n);
    var r := FindEntry(jar, n + ClassSuffix);
    forall k | FirstNamed(jar, n + ClassSuffix, k)
      ensures r == Some(jar[k].bytes)
    {
      var k' :| FirstNamed(jar, n + ClassSuffix, k') && jar[k'].bytes == r.value;
      FirstNamedUnique(jar, n + ClassSuffix, k, k');
    }
  }
}
