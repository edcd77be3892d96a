/**
 UTF-8 (RFC 3629 section 3) over well-formed Unicode text. A Dafny `char` is a
 Unicode scalar value, so a Dafny `string` is exactly a JavaScript string
 without lone surrogates.
 */
module Utf8 {
  type Byte = b: int | 0 <= b < 256

  const REPLACEMENT: char := '\U{FFFD}'

  function EncodeScalar(c: char): (bytes: seq<Byte>)
    ensures 1 <= |bytes| <= 4
    ensures (c as int < 0x80) <==> |bytes| == 1
  {
    var cp := c as int;
    if cp < 0x80 then [cp]
    else if cp < 0x800 then [0xC0 + cp / 64, 0x80 + cp % 64]
    else if cp < 0x10000 then [0xE0 + cp / 64 / 64, 0x80 + cp / 64 % 64, 0x80 + cp % 64]
    else [0xF0 + cp / 64 / 64 / 64, 0x80 + cp / 64 / 64 % 64, 0x80 + cp / 64 % 64, 0x80 + cp % 64]
  }

  function Encode(s: string): (bytes: seq<Byte>)
    ensures |s| <= |bytes| <= 4 * |s|
  {
    if s == "" then [] else EncodeScalar(s[0]) + Encode(s[1..])
  }

  predicate IsTail(b: Byte) {
    0x80 <= b < 0xC0
  }

  predicate IsScalar(cp: int) {
    0 <= cp < 0xD800 || 0xE000 <= cp < 0x11_0000
  }

  /** The first scalar of a byte string and its width; one replacement character stands for a malformed byte. */
  function DecodeScalar(bytes: seq<Byte>): (r: (char, nat))
    requires bytes != []
    ensures 1 <= r.1 <= |bytes|
  {
    var b0: int := bytes[0];
    if b0 < 0x80 then (b0 as char, 1)
    else if 0xC2 <= b0 < 0xE0 && |bytes| >= 2 && IsTail(bytes[1]) then
      var cp: int := (b0 - 0xC0) * 64 + (bytes[1] as int - 0x80);
      (cp as char, 2)
    else if 0xE0 <= b0 < 0xF0 && |bytes| >= 3 && IsTail(bytes[1]) && IsTail(bytes[2]) then
      var cp: int := (b0 - 0xE0) * 4096 + (bytes[1] as int - 0x80) * 64 + (bytes[2] as int - 0x80);
      if cp >= 0x800 && IsScalar(cp) then (cp as char, 3) else (REPLACEMENT, 1)
    else if 0xF0 <= b0 < 0xF5 && |bytes| >= 4 && IsTail(bytes[1]) && IsTail(bytes[2]) && IsTail(bytes[3]) then
      var cp: int := (b0 - 0xF0) * 262144 + (bytes[1] as int - 0x80) * 4096 + (bytes[2] as int - 0x80) * 64 + (bytes[3] as int - 0x80);
      if cp >= 0x10000 && IsScalar(cp) then (cp as char, 4) else (REPLACEMENT, 1)
    else (REPLACEMENT, 1)
  }

  /** Total decoding with replacement characters, as `Buffer.toString('utf8')` does. */
  function Decode(bytes: seq<Byte>): string {
    if bytes == [] then ""
    else
      var (c, n) := DecodeScalar(bytes);
      [c] + Decode(bytes[n..])
  }

  lemma DecodeScalarInvertsEncode(c: char, rest: seq<Byte>)
    ensures DecodeScalar(EncodeScalar(c) + rest) == (c, |EncodeScalar(c)|)
  {
    var cp := c as int;
    var q, q2, q3 := cp / 64, cp / 64 / 64, cp / 64 / 64 / 64;
    var r, r2, r3 := cp % 64, q % 64, q2 % 64;
    assert cp == 64 * q + r && q == 64 * q2 + r2 && q2 == 64 * q3 + r3;
    if cp < 0x80 {
    } else if cp < 0x800 {
      TwoBytes(cp, q, r, rest);
    } else if cp < 0x10000 {
      ThreeBytes(cp, q2, r2, r, rest);
    } else {
      FourBytes(cp, q3, r3, r2, r, rest);
    }
  }

  lemma TwoBytes(cp: int, q: int, r: int, rest: seq<Byte>)
    requires IsScalar(cp) && 0x80 <= cp < 0x800
    requires 0 <= r < 64 && cp == 64 * q + r
    ensures DecodeScalar([0xC0 + q, 0x80 + r] + rest) == (cp as char, 2)
  {
    var bytes := [0xC0 + q, 0x80 + r] + rest;
    assert bytes[0] == 0xC0 + q && bytes[1] == 0x80 + r;
  }

  lemma ThreeBytes(cp: int, q: int, r1: int, r0: int, rest: seq<Byte>)
    requires IsScalar(cp) && 0x800 <= cp < 0x10000
    requires 0 <= r1 < 64 && 0 <= r0 < 64 && cp == 4096 * q + 64 * r1 + r0
    ensures DecodeScalar([0xE0 + q, 0x80 + r1, 0x80 + r0] + rest) == (cp as char, 3)
  {
    var bytes := [0xE0 + q, 0x80 + r1, 0x80 + r0] + rest;
    assert bytes[0] == 0xE0 + q && bytes[1] == 0x80 + r1 && bytes[2] == 0x80 + r0;
  }

  lemma FourBytes(cp: int, q: int, r2: int, r1: int, r0: int, rest: seq<Byte>)
    requires IsScalar(cp) && 0x10000 <= cp
    requires 0 <= r2 < 64 && 0 <= r1 < 64 && 0 <= r0 < 64 && cp == 262144 * q + 4096 * r2 + 64 * r1 + r0
    ensures DecodeScalar([0xF0 + q, 0x80 + r2, 0x80 + r1, 0x80 + r0] + rest) == (cp as char, 4)
  {
    var bytes := [0xF0 + q, 0x80 + r2, 0x80 + r1, 0x80 + r0] + rest;
    assert bytes[0] == 0xF0 + q && bytes[1] == 0x80 + r2 && bytes[2] == 0x80 + r1 && bytes[3] == 0x80 + r0;
  }

  /**
   The table of RFC 3629 section 3: ASCII as it is, otherwise a lead byte that tells the
   number of bytes, and the remaining bits six to a byte.
   */
  lemma EncodedAsInTheTable(c: char)
    ensures var b, cp := EncodeScalar(c), c as int;
            && (cp <= 0x7F ==> b == [cp])
            && (0x80 <= cp <= 0x7FF ==> |b| == 2 && 0xC2 <= b[0] <= 0xDF && cp == (b[0] as int - 0xC0) * 64 + (b[1] as int - 0x80))
            && (0x800 <= cp <= 0xFFFF ==>
                  |b| == 3 && 0xE0 <= b[0] <= 0xEF
                  && cp == (b[0] as int - 0xE0) * 4096 + (b[1] as int - 0x80) * 64 + (b[2] as int - 0x80))
            && (0x10000 <= cp ==>
                  |b| == 4 && 0xF0 <= b[0] <= 0xF4
                  && cp == (b[0] as int - 0xF0) * 262144 + (b[1] as int - 0x80) * 4096 + (b[2] as int - 0x80) * 64 + (b[3] as int - 0x80))
            && forall i | 1 <= i < |b| :: 0x80 <= b[i] <= 0xBF
  {
    var cp := c as int;
    var q, q2, q3 := cp / 64, cp / 64 / 64, cp / 64 / 64 / 64;
    assert cp == 64 * q + cp % 64 && q == 64 * q2 + q % 64 && q2 == 64 * q3 + q2 % 64;
  }

  /** Decoding undoes encoding for every well-formed string. */
  lemma {:induction false} DecodeInvertsEncode(s: string)
    ensures Decode(Encode(s)) == s
  {
    if s != "" {
      var first, rest := EncodeScalar(s[0]), Encode(s[1..]);
      DecodeScalarInvertsEncode(s[0], rest);
      assert (first + rest)[|first|..] == rest;
      DecodeInvertsEncode(s[1..]);
      assert s == [s[0]] + s[1..];
    }
  }

  lemma ConcatTwice(x: seq<Byte>, y: seq<Byte>, z: seq<Byte>)
    ensures x + (y + z) == (x + y) + z
  {}

  lemma {:induction false} EncodeConcat(a: string, b: string)
    ensures Encode(a + b) == Encode(a) + Encode(b)
  {
    if a == "" {
      assert a + b == b;
    } else {
      var head, tail := EncodeScalar(a[0]), a[1..];
      EncodeConcat(tail, b);
      assert (a + b)[1..] == tail + b && (a + b)[0] == a[0];
      ConcatTwice(head, Encode(tail), Encode(b));
    }
  }
}
