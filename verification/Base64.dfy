/** Base64 with padding (RFC 4648 section 4), and the strict reader of raw artifact parts. */
module Base64 {
  import opened Outcomes
  import opened Utf8

  type Sextet = n: int | 0 <= n < 64

  const PAD: char := '='

  function Digit(n: Sextet): char {
    if n < 26 then (n + 'A' as int) as char
    else if n < 52 then (n - 26 + 'a' as int) as char
    else if n < 62 then (n - 52 + '0' as int) as char
    else if n == 62 then '+' else '/'
  }

  predicate IsDigit(c: char) {
    'A' <= c <= 'Z' || 'a' <= c <= 'z' || '0' <= c <= '9' || c == '+' || c == '/'
  }

  function Value(c: char): Sextet {
    if 'A' <= c <= 'Z' then c as int - 'A' as int
    else if 'a' <= c <= 'z' then c as int - 'a' as int + 26
    else if '0' <= c <= '9' then c as int - '0' as int + 52
    else if c == '+' then 62 else 63
  }

  lemma DigitValue(n: Sextet)
    ensures IsDigit(Digit(n)) && Value(Digit(n)) == n
  {}

  /** The bits of a byte string in groups of six, the last group filled up with zero bits. */
  function Sextets(b: seq<Byte>): (s: seq<Sextet>)
    ensures |s| == DigitCount(|b|)
  {
    if |b| == 0 then []
    else if |b| == 1 then [b[0] / 4, b[0] % 4 * 16]
    else if |b| == 2 then [b[0] / 4, b[0] % 4 * 16 + b[1] / 16, b[1] % 16 * 4]
    else [b[0] / 4, b[0] % 4 * 16 + b[1] / 16, b[1] % 16 * 4 + b[2] / 64, b[2] % 64] + Sextets(b[3..])
  }

  /** The whole bytes in a string of sextets; left-over bits are dropped. */
  function Bytes(s: seq<Sextet>): seq<Byte> {
    if |s| < 2 then []
    else if |s| == 2 then [s[0] as int * 4 + s[1] / 16]
    else if |s| == 3 then [s[0] as int * 4 + s[1] / 16, s[1] as int % 16 * 16 + s[2] / 4]
    else [s[0] as int * 4 + s[1] / 16, s[1] as int % 16 * 16 + s[2] / 4, s[2] as int % 4 * 64 + s[3]] + Bytes(s[4..])
  }

  function DigitCount(bytes: nat): nat {
    bytes / 3 * 4 + (if bytes % 3 == 0 then 0 else bytes % 3 + 1)
  }

  function PadCount(bytes: nat): nat {
    if bytes % 3 == 0 then 0 else 3 - bytes % 3
  }

  function Spelling(s: seq<Sextet>): (text: string) {
    seq(|s|, i requires 0 <= i < |s| => Digit(s[i]))
  }

  function Values(text: string): seq<Sextet> {
    seq(|text|, i requires 0 <= i < |text| => Value(text[i]))
  }

  function Padding(n: nat): string {
    seq(n, _ => PAD)
  }

  function Encode(b: seq<Byte>): (text: string)
    ensures |text| == DigitCount(|b|) + PadCount(|b|)
  {
    Spelling(Sextets(b)) + Padding(PadCount(|b|))
  }

  /** The first padding character ends the digits. */
  function DigitEnd(text: string): (n: nat)
    ensures n <= |text|
    ensures n < |text| ==> text[n] == PAD
    ensures forall i | 0 <= i < n :: text[i] != PAD
  {
    if text == "" || text[0] == PAD then 0 else 1 + DigitEnd(text[1..])
  }

  function Decode(text: string): seq<Byte> {
    Bytes(Values(text[..DigitEnd(text)]))
  }

  /** `/^[A-Za-z0-9+\/]*={0,2}$/`: digits, then at most two padding characters. */
  predicate IsBody(s: string) {
    exists n: nat | n <= |s| :: IsBodyWith(s, n)
  }

  predicate IsBodyWith(s: string, n: nat) {
    n <= |s| <= n + 2
    && (forall i | 0 <= i < n :: IsDigit(s[i]))
    && (forall i | n <= i < |s| :: s[i] == PAD)
  }

  /** A raw artifact part must be base64 that the encoder itself would write. */
  function StrictBytes(text: string): Option<seq<Byte>> {
    if |text| % 4 != 0 || !IsBody(text) then None
    else if Encode(Decode(text)) != text then None
    else Some(Decode(text))
  }

  /** Three bytes survive the regrouping into four sextets. */
  lemma Regroup(b0: int, b1: int, b2: int)
    requires 0 <= b0 < 256 && 0 <= b1 < 256 && 0 <= b2 < 256
    ensures b0 / 4 * 4 + (b0 % 4 * 16 + b1 / 16) / 16 == b0
    ensures (b0 % 4 * 16 + b1 / 16) % 16 * 16 + (b1 % 16 * 4 + b2 / 64) / 4 == b1
    ensures (b1 % 16 * 4 + b2 / 64) % 4 * 64 + b2 % 64 == b2
  {}

  lemma {:induction false} BytesOfSextets(b: seq<Byte>)
    ensures Bytes(Sextets(b)) == b
  {
    if |b| == 2 {
      Regroup(b[0], b[1], 0);
    } else if |b| >= 3 {
      Regroup(b[0], b[1], b[2]);
      assert Sextets(b)[4..] == Sextets(b[3..]);
      BytesOfSextets(b[3..]);
      assert b == [b[0], b[1], b[2]] + b[3..];
    }
  }

  lemma SpellingRoundTrip(s: seq<Sextet>)
    ensures Values(Spelling(s)) == s
    ensures forall i | 0 <= i < |s| :: IsDigit(Spelling(s)[i])
  {
    forall i | 0 <= i < |s| ensures Value(Spelling(s)[i]) == s[i] && IsDigit(Spelling(s)[i]) {
      DigitValue(s[i]);
    }
  }

  lemma WholeQuads(bytes: nat)
    ensures (DigitCount(bytes) + PadCount(bytes)) % 4 == 0
  {
    var q, r := bytes / 3, bytes % 3;
    assert DigitCount(bytes) + PadCount(bytes) == 4 * (if r == 0 then q else q + 1);
  }

  lemma EncodedPrefix(b: seq<Byte>)
    ensures Encode(b)[..DigitCount(|b|)] == Spelling(Sextets(b))
    ensures forall i | DigitCount(|b|) <= i < |Encode(b)| :: Encode(b)[i] == PAD
  {
    assert |Spelling(Sextets(b))| == DigitCount(|b|);
  }

  /** Digits, then at most two padding characters. */
  lemma BodyFromPrefix(text: string, n: nat, digits: string)
    requires n <= |text| <= n + 2 && text[..n] == digits
    requires forall i | 0 <= i < |digits| :: IsDigit(digits[i])
    requires forall i | n <= i < |text| :: text[i] == PAD
    ensures IsBodyWith(text, n)
  {
    forall i | 0 <= i < n ensures IsDigit(text[i]) {
      assert text[i] == digits[i];
    }
  }

  lemma EncodedLength(b: seq<Byte>)
    ensures |Encode(b)| % 4 == 0
    ensures DigitCount(|b|) <= |Encode(b)| <= DigitCount(|b|) + 2
  {
    WholeQuads(|b|);
  }

  lemma EncodedIsBody(b: seq<Byte>)
    ensures IsBodyWith(Encode(b), DigitCount(|b|))
  {
    var text, n, digits := Encode(b), DigitCount(|b|), Spelling(Sextets(b));
    EncodedLength(b);
    EncodedPrefix(b);
    SpellingRoundTrip(Sextets(b));
    BodyFromPrefix(text, n, digits);
  }

  lemma EncodedDigits(b: seq<Byte>)
    ensures |Encode(b)| % 4 == 0
    ensures IsBodyWith(Encode(b), DigitCount(|b|))
    ensures Encode(b)[..DigitCount(|b|)] == Spelling(Sextets(b))
  {
    EncodedLength(b);
    EncodedPrefix(b);
    EncodedIsBody(b);
  }

  lemma DigitEndAt(text: string, n: nat)
    requires IsBodyWith(text, n)
    ensures DigitEnd(text) == n
  {
    assert DigitEnd(text) < n ==> IsDigit(text[DigitEnd(text)]);
    assert n < |text| ==> text[n] == PAD;
  }

  // ---- The alphabet and the bits (RFC 4648 section 4) -----------------------------------------

  /** The alphabet: A to Z, a to z, 0 to 9, plus and slash. */
  lemma DigitIsTheAlphabet(n: Sextet)
    ensures Digit(0) == 'A' && Digit(25) == 'Z' && Digit(26) == 'a' && Digit(51) == 'z'
    ensures Digit(52) == '0' && Digit(61) == '9' && Digit(62) == '+' && Digit(63) == '/'
    ensures n != 0 && n != 26 && n != 52 && n < 62 ==> Digit(n) as int == Digit(n - 1) as int + 1
  {}

  /** Three bytes are four digits that spell the same 24 bits, highest first. */
  lemma ThreeBytesAreFourDigits(b0: Byte, b1: Byte, b2: Byte)
    ensures var text := Encode([b0, b1, b2]);
            && |text| == 4 && (forall i | 0 <= i < 4 :: IsDigit(text[i]))
            && Value(text[0]) as int * 262144 + Value(text[1]) as int * 4096 + Value(text[2]) as int * 64 + Value(text[3]) as int
               == b0 as int * 65536 + b1 as int * 256 + b2 as int
  {
    var s := Sextets([b0, b1, b2]);
    assert [b0, b1, b2][3..] == [];
    assert |s| == 4;
    forall i | 0 <= i < 4 ensures IsDigit(Digit(s[i])) && Value(Digit(s[i])) == s[i] {
      DigitValue(s[i]);
    }
    assert Padding(0) == "";
    SplitBits(b0, b1, b2);
  }

  lemma SplitBits(b0: int, b1: int, b2: int)
    requires 0 <= b0 < 256 && 0 <= b1 < 256 && 0 <= b2 < 256
    ensures b0 / 4 * 262144 + (b0 % 4 * 16 + b1 / 16) * 4096 + (b1 % 16 * 4 + b2 / 64) * 64 + b2 % 64 == b0 * 65536 + b1 * 256 + b2
  {}

  /** A longer text is encoded in groups of three bytes, each by itself; one or two bytes at the end are padded. */
  lemma EncodedInGroups(b: seq<Byte>)
    requires |b| >= 3
    ensures Encode(b) == Encode(b[..3]) + Encode(b[3..])
  {
    var first, rest := b[..3], b[3..];
    assert Sextets(b) == Sextets(first) + Sextets(rest) by { assert first[3..] == []; }
    assert Spelling(Sextets(b)) == Spelling(Sextets(first)) + Spelling(Sextets(rest));
    assert PadCount(|b|) == PadCount(|rest|) && PadCount(3) == 0;
    assert Encode(first) == Spelling(Sextets(first)) + "";
  }

  /** Examples of RFC 4648 section 10. */
  lemma KnownEncodings()
    ensures Encode([]) == "" && Encode([0x66]) == "Zg==" && Encode([0x66, 0x6F]) == "Zm8=" && Encode([0x66, 0x6F, 0x6F]) == "Zm9v"
  {
    assert Padding(2) == "==" && Padding(1) == "=" && Padding(0) == "";
    assert [0x66, 0x6F, 0x6F][3..] == [];
    assert Spelling([]) == "" && Spelling([25, 32]) == "Zg" && Spelling([25, 38, 60]) == "Zm8" && Spelling([25, 38, 61, 47]) == "Zm9v";
  }

  /** Decoding undoes encoding for every byte string. */
  lemma DecodeInvertsEncode(b: seq<Byte>)
    ensures Decode(Encode(b)) == b
  {
    EncodedDigits(b);
    DigitEndAt(Encode(b), DigitCount(|b|));
    SpellingRoundTrip(Sextets(b));
    BytesOfSextets(b);
  }

  /** The strict reader accepts exactly what the encoder writes. */
  lemma StrictBytesExact(text: string, b: seq<Byte>)
    ensures StrictBytes(text) == Some(b) <==> text == Encode(b)
  {
    EncodedDigits(b);
    DecodeInvertsEncode(b);
    assert IsBodyWith(Encode(b), DigitCount(|b|));
  }
}
