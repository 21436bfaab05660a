/**
 * UTF-8 encoding of a string, as `new TextEncoder().encode(s)` produces it. A Dafny `char`
 * is a Unicode scalar value, so every character has an encoding of one to four bytes.
 */
module TextEncoding {
  import opened Bytes

  predicate IsAscii(s: string)
  {
    forall i :: 0 <= i < |s| ==> s[i] as int < 0x80
  }

  function EncodeChar(c: char): (r: seq<byte>)
    ensures 1 <= |r| <= 4
    ensures (|r| == 1) <==> (c as int < 0x80)
  {
    var n := c as int;
    if n < 0x80 then
      [n as byte]
    else if n < 0x800 then
      [(0xC0 + n / 0x40) as byte, (0x80 + n % 0x40) as byte]
    else if n < 0x1_0000 then
      [(0xE0 + n / 0x1000) as byte, (0x80 + (n / 0x40) % 0x40) as byte, (0x80 + n % 0x40) as byte]
    else
      [(0xF0 + n / 0x4_0000) as byte, (0x80 + (n / 0x1000) % 0x40) as byte,
       (0x80 + (n / 0x40) % 0x40) as byte, (0x80 + n % 0x40) as byte]
  }

  /** The UTF-8 bytes of `s`: never fewer bytes than characters, never more than four per character. */
  function Utf8Encode(s: string): (r: seq<byte>)
    ensures |s| <= |r| <= 4 * |s|
  {
    if s == [] then [] else EncodeChar(s[0]) + Utf8Encode(s[1..])
  }

  /**
   * A `TextEncoder`. It keeps no state of its own; `made` records, for the proofs, every array
   * `encode` has handed out together with the bytes it held then.
   */
  class TextEncoder {
    ghost var made: seq<(array<byte>, seq<byte>)>

    constructor ()
      ensures made == []
    {
      made := [];
    }

    /** `encode(s)`: a freshly allocated byte array holding the UTF-8 bytes of `s`. */
    method Encode(s: string) returns (r: array<byte>)
      modifies this
      ensures fresh(r) && r[..] == Utf8Encode(s)
      ensures made == old(made) + [(r, Utf8Encode(s))]
    {
      var bytes := Utf8Encode(s);
      r := new byte[|bytes|](i requires 0 <= i < |bytes| => bytes[i]);
      made := made + [(r, bytes)];
    }
  }

  /** An ASCII string encodes to one byte per character, each equal to the character's code. */
  lemma {:induction false} AsciiEncoding(s: string)
    requires IsAscii(s)
    ensures |Utf8Encode(s)| == |s|
    ensures forall i :: 0 <= i < |s| ==> Utf8Encode(s)[i] as int == s[i] as int
  {
    if s != [] {
      AsciiEncoding(s[1..]);
      assert Utf8Encode(s) == [s[0] as int as byte] + Utf8Encode(s[1..]);
    }
  }
}
