/**
 * The length of the UTF-8 encoding of a string (RFC 3629, section 3). Characters are
 * Unicode scalar values, so this is what `s.getBytes(UTF_8).length` measures for strings
 * without unpaired surrogates.
 */
module Utf8 {

  /** Number of bytes UTF-8 uses for one scalar value. */
  function Width(c: char): (n: nat)
    ensures 1 <= n <= 4
    ensures n == 1 <==> c as int < 0x80
    ensures n == 4 <==> 0x1_0000 <= c as int
  {
    if c as int < 0x80 then 1
    else if c as int < 0x800 then 2
    else if c as int < 0x1_0000 then 3
    else 4
  }

  /** Number of bytes of the UTF-8 encoding of s. */
  function Length(s: string): (n: nat)
    ensures |s| <= n <= 4 * |s|
  {
    if s == [] then 0 else Width(s[0]) + Length(s[1..])
  }

  /** The encoded length of a concatenation is the sum of the encoded lengths. */
  lemma {:induction false} LengthAppend(a: string, b: string)
    ensures Length(a + b) == Length(a) + Length(b)
  {
    if a == [] {
      assert a + b == b;
    } else {
      assert (a + b)[1..] == a[1..] + b;
      LengthAppend(a[1..], b);
    }
  }

  /** A string of ASCII characters encodes to one byte per character, and only such a string does. */
  lemma {:induction false} LengthAscii(s: string)
    ensures Length(s) == |s| <==> forall k :: 0 <= k < |s| ==> s[k] as int < 0x80
  {
    if s != [] {
      LengthAscii(s[1..]);
      assert forall k :: 1 <= k < |s| ==> s[k] == s[1..][k - 1];
    }
  }
}
