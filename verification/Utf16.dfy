/** JavaScript strings as the sequences of UTF-16 code units they are, lone surrogates included. */
module Utf16 {
  import Utf8

  type Unit = u: int | 0 <= u < 0x1_0000
  type Text = seq<Unit>

  predicate IsHigh(u: Unit) {
    0xD800 <= u < 0xDC00
  }

  predicate IsLow(u: Unit) {
    0xDC00 <= u < 0xE000
  }

  predicate IsSurrogate(u: Unit) {
    IsHigh(u) || IsLow(u)
  }

  /** A surrogate pair starts the text. */
  predicate StartsWithPair(t: Text) {
    |t| >= 2 && IsHigh(t[0]) && IsLow(t[1])
  }

  /** `Buffer.byteLength(text, 'utf8')`; a lone surrogate becomes the three bytes of U+FFFD. */
  function ByteLength(t: Text): nat {
    if t == [] then 0
    else if StartsWithPair(t) then 4 + ByteLength(t[2..])
    else UnitBytes(t[0]) + ByteLength(t[1..])
  }

  function UnitBytes(u: Unit): nat {
    if u < 0x80 then 1 else if u < 0x800 then 2 else 3
  }

  /** A cost that is additive, unlike the byte length, and never below it. */
  function Weight(t: Text): nat {
    if t == [] then 0 else UnitBytes(t[0]) + Weight(t[1..])
  }

  lemma {:induction false} WeightConcat(a: Text, b: Text)
    ensures Weight(a + b) == Weight(a) + Weight(b)
  {
    if a == [] {
      assert a + b == b;
    } else {
      WeightConcat(a[1..], b);
      assert (a + b)[1..] == a[1..] + b;
    }
  }

  lemma {:induction false} ByteLengthWithinWeight(t: Text)
    ensures ByteLength(t) <= Weight(t) <= 3 * |t|
  {
    if StartsWithPair(t) {
      ByteLengthWithinWeight(t[2..]);
      assert t[1..][1..] == t[2..];
    } else if t != [] {
      ByteLengthWithinWeight(t[1..]);
    }
  }

  /** Before an ASCII unit, byte lengths add up. */
  lemma {:induction false} ByteLengthBeforeAscii(t: Text, rest: Text)
    requires rest != [] && rest[0] < 0x80
    ensures ByteLength(t + rest) == ByteLength(t) + ByteLength(rest)
    decreases |t|
  {
    if t == [] {
      assert t + rest == rest;
    } else if StartsWithPair(t) {
      assert (t + rest)[0] == t[0] && (t + rest)[1] == t[1] && (t + rest)[2..] == t[2..] + rest;
      ByteLengthBeforeAscii(t[2..], rest);
    } else {
      assert (t + rest)[0] == t[0] && (t + rest)[1..] == t[1..] + rest;
      assert !StartsWithPair(t + rest);
      ByteLengthBeforeAscii(t[1..], rest);
    }
  }

  lemma {:induction false} ByteLengthOfAscii(t: Text)
    requires forall i | 0 <= i < |t| :: t[i] < 0x80
    ensures ByteLength(t) == |t|
  {
    if t != [] { ByteLengthOfAscii(t[1..]); }
  }

  /** One Unicode scalar value in UTF-16: itself, or a surrogate pair. */
  function ScalarUnits(c: char): (t: Text) {
    var cp := c as int;
    if cp < 0x10000 then [cp] else [0xD800 + (cp - 0x10000) / 0x400, 0xDC00 + (cp - 0x10000) % 0x400]
  }

  function FromString(s: string): Text {
    if s == "" then [] else ScalarUnits(s[0]) + FromString(s[1..])
  }

  /** For well-formed text it is the number of UTF-8 bytes. */
  lemma {:induction false} ByteLengthIsUtf8(s: string)
    ensures ByteLength(FromString(s)) == |Utf8.Encode(s)|
  {
    if s != "" {
      var head, rest := ScalarUnits(s[0]), FromString(s[1..]);
      var t := head + rest;
      ByteLengthIsUtf8(s[1..]);
      if |head| == 2 {
        assert t[2..] == rest && IsHigh(t[0]) && IsLow(t[1]);
      } else {
        assert t[1..] == rest && !IsHigh(t[0]);
      }
    }
  }

  function Ascii(s: string): (t: Text)
    requires forall i | 0 <= i < |s| :: s[i] as int < 0x80
    ensures |t| == |s|
    ensures forall i | 0 <= i < |s| :: t[i] == s[i] as int
  {
    seq(|s|, i requires 0 <= i < |s| => s[i] as int)
  }

  lemma {:induction false} AsciiWeight(t: Text)
    requires forall i | 0 <= i < |t| :: t[i] < 0x80
    ensures Weight(t) == |t|
  {
    if t != [] {
      AsciiWeight(t[1..]);
    }
  }

  /** The default order of `Array.prototype.sort` on strings: by code units. */
  predicate Less(a: Text, b: Text) {
    b != [] && (a == [] || a[0] < b[0] || (a[0] == b[0] && Less(a[1..], b[1..])))
  }

  /** The texts agree up to `k`, where the first ends or has the smaller unit. */
  predicate DiffersAt(a: Text, b: Text, k: nat) {
    k <= |a| && k < |b| && a[..k] == b[..k] && (k == |a| || a[k] < b[k])
  }

  /** The order is the lexicographic one. */
  lemma {:induction false} LessIsLexicographic(a: Text, b: Text)
    ensures Less(a, b) <==> exists k: nat :: DiffersAt(a, b, k)
  {
    if a != [] && b != [] && a[0] == b[0] {
      var x, y := a[1..], b[1..];
      LessIsLexicographic(x, y);
      if Less(x, y) {
        var k: nat :| DiffersAt(x, y, k);
        assert a[..k + 1] == [a[0]] + x[..k] && b[..k + 1] == [b[0]] + y[..k];
        assert DiffersAt(a, b, k + 1);
      }
      forall k: nat | DiffersAt(a, b, k) ensures Less(x, y) {
        assert k > 0;
        assert x[..k - 1] == a[..k][1..] && y[..k - 1] == b[..k][1..];
        assert DiffersAt(x, y, k - 1);
      }
    } else {
      assert a[..0] == b[..0];
      if Less(a, b) { assert DiffersAt(a, b, 0); }
      forall k: nat | DiffersAt(a, b, k) ensures Less(a, b) {
        if k > 0 { assert a[..k][0] == b[..k][0]; }
      }
    }
  }

  lemma {:induction false} LessTransitive(a: Text, b: Text, c: Text)
    requires Less(a, b) && Less(b, c)
    ensures Less(a, c)
  {
    if a != [] && a[0] == b[0] == c[0] {
      LessTransitive(a[1..], b[1..], c[1..]);
    }
  }

  lemma {:induction false} LessAsymmetric(a: Text, b: Text)
    ensures !(Less(a, b) && Less(b, a))
  {
    if a != [] && b != [] && a[0] == b[0] {
      LessAsymmetric(a[1..], b[1..]);
    }
  }

  lemma {:induction false} LessTotal(a: Text, b: Text)
    requires a != b
    ensures Less(a, b) || Less(b, a)
  {
    if a != [] && b != [] && a[0] == b[0] {
      assert a == [a[0]] + a[1..] && b == [b[0]] + b[1..];
      LessTotal(a[1..], b[1..]);
    }
  }
}
