/**
 * Bytes and the JVM's fixed-width integers as `java.nio.ByteBuffer` writes and
 * reads them in BIG_ENDIAN order, and `String.toByteArray()` (UTF-8).
 */
module Bytes {

  type byte = b: int | 0 <= b < 256

  /** A Kotlin `Int`. */
  type Int32 = x: int | -0x8000_0000 <= x < 0x8000_0000

  /** A JVM `ByteArray`: its size is an `Int`. */
  type ByteArray = s: seq<byte> | |s| < 0x8000_0000

  /** Kotlin `Int` arithmetic: the exact result wrapped into 32-bit two's complement. */
  function Wrap32(x: int): (r: Int32)
    ensures -0x8000_0000 <= x < 0x8000_0000 ==> r == x
    ensures x >= 0x8000_0000 && x < 0x1_8000_0000 ==> r == x - 0x1_0000_0000
  {
    var u := x % 0x1_0000_0000;
    if u >= 0x8000_0000 then u - 0x1_0000_0000 else u
  }

  /** A Kotlin `Short`. */
  type Int16 = x: int | -0x8000 <= x < 0x8000

  /** `ByteBuffer.putInt`: the two's-complement bits of `x`, most significant byte first. */
  function Int32Bytes(x: Int32): (r: seq<byte>)
    ensures |r| == 4
  {
    var u := x % 0x1_0000_0000;
    [u / 0x100_0000, (u / 0x1_0000) % 0x100, (u / 0x100) % 0x100, u % 0x100]
  }

  /** `ByteBuffer.putShort`. */
  function Int16Bytes(x: Int16): (r: seq<byte>)
    ensures |r| == 2
  {
    var u := x % 0x1_0000;
    [u / 0x100, u % 0x100]
  }

  /** `ByteBuffer.getInt` at index `at`: four bytes read as a signed 32-bit value. */
  function ReadInt32(s: seq<byte>, at: nat): Int32
    requires at + 4 <= |s|
  {
    var u: int := s[at] as int * 0x100_0000 + s[at + 1] as int * 0x1_0000 + s[at + 2] as int * 0x100 + s[at + 3] as int;
    if u >= 0x8000_0000 then u - 0x1_0000_0000 else u
  }

  /** `ByteBuffer.getShort().toInt()` at index `at`: two bytes read as a signed 16-bit value. */
  function ReadInt16(s: seq<byte>, at: nat): Int16
    requires at + 2 <= |s|
  {
    var u: int := s[at] as int * 0x100 + s[at + 1] as int;
    if u >= 0x8000 then u - 0x1_0000 else u
  }

  /** Reading back what `putInt` wrote gives the same `Int`, wherever it sits in the buffer. */
  lemma ReadInt32Bytes(x: Int32, pre: seq<byte>, post: seq<byte>)
    ensures ReadInt32(pre + Int32Bytes(x) + post, |pre|) == x
  {
    var s := pre + Int32Bytes(x) + post;
    var u := x % 0x1_0000_0000;
    assert s[|pre|..|pre| + 4] == Int32Bytes(x);
    ByteDigits(u);
  }

  /** The four base-256 digits of a 32-bit pattern, weighted back, give the pattern. */
  lemma ByteDigits(u: int)
    requires 0 <= u < 0x1_0000_0000
    ensures (u / 0x100_0000) * 0x100_0000 + ((u / 0x1_0000) % 0x100) * 0x1_0000 + ((u / 0x100) % 0x100) * 0x100 + u % 0x100 == u
  {
    var h, l := u / 0x1_0000, u % 0x1_0000;
    assert u == h * 0x1_0000 + l;
    assert h / 0x100 == u / 0x100_0000;
    assert h == (h / 0x100) * 0x100 + h % 0x100;
    assert u / 0x100 == h * 0x100 + l / 0x100;
    assert (u / 0x100) % 0x100 == l / 0x100;
    assert u % 0x100 == l % 0x100;
    assert l == (l / 0x100) * 0x100 + l % 0x100;
  }

  /** Reading back what `putShort` wrote gives the same `Short`. */
  lemma ReadInt16Bytes(x: Int16, pre: seq<byte>, post: seq<byte>)
    ensures ReadInt16(pre + Int16Bytes(x) + post, |pre|) == x
  {
    var s := pre + Int16Bytes(x) + post;
    assert s[|pre|..|pre| + 2] == Int16Bytes(x);
  }

  /** The UTF-8 bytes of one Unicode scalar value. */
  function Utf8Char(c: char): (r: seq<byte>)
    ensures 1 <= |r| <= 4
    ensures (c as int < 0x80) <==> |r| == 1
  {
    var n := c as int;
    if n < 0x80 then [n]
    else if n < 0x800 then [0xC0 + n / 0x40, 0x80 + n % 0x40]
    else if n < 0x1_0000 then [0xE0 + n / 0x1000, 0x80 + (n / 0x40) % 0x40, 0x80 + n % 0x40]
    else [0xF0 + n / 0x4_0000, 0x80 + (n / 0x1000) % 0x40, 0x80 + (n / 0x40) % 0x40, 0x80 + n % 0x40]
  }

  /** `String.toByteArray()`: UTF-8, the JVM default charset on Android. */
  function Utf8(s: string): seq<byte>
    decreases |s|
  {
    if s == [] then [] else Utf8Char(s[0]) + Utf8(s[1..])
  }

  predicate IsAscii(s: string) {
    forall i :: 0 <= i < |s| ==> s[i] as int < 0x80
  }

  /** An ASCII text is written one byte per character, each byte its character code. */
  lemma {:induction false} Utf8Ascii(s: string)
    requires IsAscii(s)
    ensures |Utf8(s)| == |s|
    ensures forall i :: 0 <= i < |s| ==> Utf8(s)[i] == s[i] as int
    decreases |s|
  {
    if s != [] {
      Utf8Ascii(s[1..]);
    }
  }

  /** A text whose character codes are the bytes `b`, all below 0x80, encodes to `b`. */
  lemma Utf8Codes(s: string, b: seq<byte>)
    requires |s| == |b|
    requires forall i :: 0 <= i < |s| ==> s[i] as int == b[i] < 0x80
    ensures Utf8(s) == b
  {
    Utf8Ascii(s);
  }

  lemma {:induction false} Utf8Append(a: string, b: string)
    ensures Utf8(a + b) == Utf8(a) + Utf8(b)
    decreases |a|
  {
    if a != [] {
      Utf8Append(a[1..], b);
      assert (a + b)[1..] == a[1..] + b;
    } else {
      assert a + b == b;
    }
  }
}
