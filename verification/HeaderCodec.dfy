/**
 The MCP header value codec: printable ASCII travels as it is, everything else
 as base64 of its UTF-8 bytes between two sentinels.
 */
module HeaderCodec {
  import opened Outcomes
  import Utf8
  import Base64

  const PREFIX := "=?base64?"
  const SUFFIX := "?="

  predicate StartsWith(s: string, prefix: string) {
    prefix <= s
  }

  predicate EndsWith(s: string, suffix: string) {
    |suffix| <= |s| && s[|s| - |suffix|..] == suffix
  }

  /** The two sentinels may overlap: `=?base64?=` counts. */
  predicate UsesBase64Sentinel(value: string) {
    StartsWith(value, PREFIX) && EndsWith(value, SUFFIX)
  }

  predicate IsPrintable(value: string) {
    forall i | 0 <= i < |value| :: ' ' <= value[i] <= '~'
  }

  /** `value.trim() === value` for printable ASCII, where the space is the only blank. */
  predicate HasNoOuterSpace(value: string) {
    value == "" || (value[0] != ' ' && value[|value| - 1] != ' ')
  }

  predicate IsPlainHeaderSafe(value: string) {
    IsPrintable(value) && HasNoOuterSpace(value) && !UsesBase64Sentinel(value)
  }

  function Wrapped(value: string): string {
    PREFIX + Base64.Encode(Utf8.Encode(value)) + SUFFIX
  }

  function EncodeHeader(value: string): string {
    if IsPlainHeaderSafe(value) then value else Wrapped(value)
  }

  /** What `slice(PREFIX.length, -SUFFIX.length)` leaves, the empty string when the sentinels overlap. */
  function Body(value: string): string
    requires UsesBase64Sentinel(value)
  {
    if |value| < |PREFIX| + |SUFFIX| then "" else value[|PREFIX|..|value| - |SUFFIX|]
  }

  function DecodeHeader(value: string): Option<string> {
    if !UsesBase64Sentinel(value) then
      if IsPlainHeaderSafe(value) then Some(value) else None
    else
      var encoded := Body(value);
      if encoded == "" || |encoded| % 4 != 0 || !Base64.IsBody(encoded) then None
      else
        var bytes := Base64.Decode(encoded);
        if Base64.Encode(bytes) != encoded then None
        else
          var decoded := Utf8.Decode(bytes);
          if Utf8.Encode(decoded) != bytes then None else Some(decoded)
  }

  /**
   A value travels as it is exactly when it has only the characters from U+0020 to U+007E, no space
   at either end, and does not begin and end like a wrapped value.
   */
  lemma TravelsAsItIsExactlyWhen(value: string)
    ensures EncodeHeader(value) == value <==>
            && (forall i | 0 <= i < |value| :: 0x20 <= value[i] as int <= 0x7E)
            && (value != "" ==> value[0] as int != 0x20 && value[|value| - 1] as int != 0x20)
            && !("=?base64?" <= value && |value| >= 2 && value[|value| - 2..] == "?=")
  {
    if !IsPlainHeaderSafe(value) { WrappingIsLonger(value); }
  }

  lemma WrappingIsLonger(value: string)
    ensures |Wrapped(value)| > |value|
  {
    assert |Wrapped(value)| > |Base64.Encode(Utf8.Encode(value))| >= |value|;
  }

  lemma WrappedShape(value: string)
    ensures UsesBase64Sentinel(Wrapped(value))
    ensures Body(Wrapped(value)) == Base64.Encode(Utf8.Encode(value))
  {
    var body := Base64.Encode(Utf8.Encode(value));
    var w := Wrapped(value);
    assert w == PREFIX + (body + SUFFIX);
    assert w[|PREFIX|..|w| - |SUFFIX|] == body;
    assert w[|w| - |SUFFIX|..] == SUFFIX;
  }

  lemma DecodeWrapped(value: string)
    ensures DecodeHeader(Wrapped(value)) == if value == "" then None else Some(value)
  {
    var bytes := Utf8.Encode(value);
    WrappedShape(value);
    Base64.StrictBytesExact(Base64.Encode(bytes), bytes);
    Utf8.DecodeInvertsEncode(value);
  }

  /** Decoding an encoded header gives the value back, for every well-formed string. */
  lemma HeaderRoundTrip(value: string)
    ensures DecodeHeader(EncodeHeader(value)) == Some(value)
  {
    if !IsPlainHeaderSafe(value) {
      assert value != "" by {
        assert |""| < |PREFIX|;
      }
      DecodeWrapped(value);
    }
  }

  lemma BodyPrintable(s: string, n: nat)
    requires Base64.IsBodyWith(s, n)
    ensures IsPrintable(s)
  {}

  /** An encoded header is always printable ASCII without a leading or trailing space. */
  lemma EncodedHeaderIsSafe(value: string)
    ensures IsPrintable(EncodeHeader(value)) && HasNoOuterSpace(EncodeHeader(value))
  {
    if !IsPlainHeaderSafe(value) {
      var bytes := Utf8.Encode(value);
      var body := Base64.Encode(bytes);
      Base64.EncodedDigits(bytes);
      BodyPrintable(body, Base64.DigitCount(|bytes|));
      assert Wrapped(value) == PREFIX + body + SUFFIX;
      assert IsPrintable(PREFIX) && IsPrintable(SUFFIX);
      assert Wrapped(value)[0] == '=';
    }
  }

  lemma BodyBetweenSentinels(header: string)
    requires UsesBase64Sentinel(header) && Body(header) != ""
    ensures header == PREFIX + Body(header) + SUFFIX
  {}

  lemma BodyOfDecoded(header: string, value: string)
    requires UsesBase64Sentinel(header) && DecodeHeader(header) == Some(value)
    ensures Body(header) == Base64.Encode(Utf8.Encode(value)) && Body(header) != ""
  {}

  lemma EmptyEncodesEmpty()
    ensures Base64.Encode(Utf8.Encode("")) == ""
  {}

  lemma DecodedIsWrapped(header: string, value: string)
    requires UsesBase64Sentinel(header) && DecodeHeader(header) == Some(value)
    ensures header == Wrapped(value) && value != ""
  {
    BodyOfDecoded(header, value);
    BodyBetweenSentinels(header);
    EmptyEncodesEmpty();
  }

  /**
   Exactly which headers the decoder accepts for a value: the header the encoder
   writes, or the wrapped form, which is also accepted for non-empty plain text.
   */
  lemma DecodesExactly(header: string, value: string)
    ensures DecodeHeader(header) == Some(value) <==>
            header == EncodeHeader(value) || (value != "" && header == Wrapped(value))
  {
    HeaderRoundTrip(value);
    DecodeWrapped(value);
    if DecodeHeader(header) == Some(value) && UsesBase64Sentinel(header) {
      DecodedIsWrapped(header, value);
    }
  }

  /** Text that itself looks like a wrapped value, overlapping sentinels included, still round-trips wrapped. */
  lemma SentinelLookalikesAreWrapped(value: string)
    requires UsesBase64Sentinel(value)
    ensures EncodeHeader(value) == Wrapped(value) != value
  {
    WrappingIsLonger(value);
  }

  lemma OverlappingSentinel()
    ensures UsesBase64Sentinel("=?base64?=")
    ensures DecodeHeader("=?base64?=") == None
  {
    var s := "=?base64?=";
    assert s[|s| - |SUFFIX|..] == SUFFIX;
    assert PREFIX <= s;
  }
}
