/**
 The byte counts of the effect document are those of its JSON text: the claim member,
 the receipt members and the version, as the serializer writes them.
 */
module EffectSize {
  import opened Outcomes
  import opened Utf16
  import opened JsonText
  import opened EffectRecord
  import opened CanonicalJson

  // ---- Bytes of printed objects ----------------------------------------------------------

  function Printed(v: Json<nat>): Text {
    Print(DecimalFormat(), v)
  }

  predicate BeginsAscii(t: Text) {
    t != [] && t[0] < 0x80
  }

  /** Every member takes its key, a colon, its value, and a comma or the closing brace. */
  function MembersBytes(members: seq<Member<nat>>): nat {
    if members == [] then 0
    else QuotedBytes(members[0].key) + 1 + ByteLength(Printed(members[0].value)) + 1 + MembersBytes(members[1..])
  }

  predicate ValuesBeginAscii(members: seq<Member<nat>>) {
    forall i | 0 <= i < |members| :: BeginsAscii(Printed(members[i].value))
  }

  lemma ThreeParts(a: Text, b: Text, c: Text)
    requires BeginsAscii(b) && BeginsAscii(c)
    ensures ByteLength(a + b + c) == ByteLength(a) + ByteLength(b) + ByteLength(c)
  {
    ByteLengthBeforeAscii(a, b + c);
    ByteLengthBeforeAscii(b, c);
    assert a + b + c == a + (b + c);
  }

  lemma {:induction false} PrintedMembersBytes(members: seq<Member<nat>>)
    requires members != [] && ValuesBeginAscii(members)
    ensures ByteLength(PrintMembers(DecimalFormat(), members)) == MembersBytes(members)
    ensures BeginsAscii(PrintMembers(DecimalFormat(), members))
  {
    var key, value := Quoted(members[0].key), Printed(members[0].value);
    assert BeginsAscii(value);
    ThreeParts(key, [COLON], value);
    assert ByteLength([COLON]) == 1 by { ByteLengthOfAscii([COLON]); }
    var head := key + [COLON] + value;
    if |members| == 1 {
      ByteLengthBeforeAscii(head, [CLOSE_OBJECT]);
      ByteLengthOfAscii([CLOSE_OBJECT]);
      assert members[1..] == [];
    } else {
      var rest := members[1..];
      assert ValuesBeginAscii(rest) by {
        forall i | 0 <= i < |rest| ensures BeginsAscii(Printed(rest[i].value)) { assert rest[i] == members[i + 1]; }
      }
      PrintedMembersBytes(rest);
      var tail := PrintMembers(DecimalFormat(), rest);
      ThreeParts(head, [COMMA], tail);
      ByteLengthOfAscii([COMMA]);
      assert head + ([COMMA] + tail) == head + [COMMA] + tail;
    }
  }

  lemma PrintedObjectBytes(members: seq<Member<nat>>)
    requires members != [] && ValuesBeginAscii(members)
    ensures ByteLength(Printed(Obj(members))) == 1 + MembersBytes(members) && BeginsAscii(Printed(Obj(members)))
  {
    PrintedMembersBytes(members);
    ByteLengthBeforeAscii([OPEN_OBJECT], PrintMembers(DecimalFormat(), members));
    ByteLengthOfAscii([OPEN_OBJECT]);
  }

  // ---- Leaves -------------------------------------------------------------------------------

  lemma {:induction false} DigitsAreItsLength(n: nat)
    ensures Digits(n) == |DecimalText(n)|
  {
    if n >= 10 { DigitsAreItsLength(n / 10); }
  }

  /** A count takes as many bytes as it has digits. */
  lemma CountIsItsDigits(n: nat)
    ensures ByteLength(Printed(Num(Finite(n)))) == CountBytes(n) && BeginsAscii(Printed(Num(Finite(n))))
  {
    DigitsAreItsLength(n);
    ByteLengthOfAscii(DecimalText(n));
  }

  predicate IsLabel(s: string) {
    forall i | 0 <= i < |s| :: ' ' <= s[i] <= '~' && s[i] != '"' && s[i] != '\\'
  }

  function Label(s: string): Text
    requires IsLabel(s)
  {
    Ascii(s)
  }

  /** A label takes its letters and two quotes. */
  lemma LabelBytes(s: string)
    requires IsLabel(s)
    ensures QuotedBytes(Label(s)) == |s| + 2
  {
    AsciiStringRest(Label(s));
    ByteLengthOfAscii(Quoted(Label(s)));
  }

  // ---- Objects with given names ------------------------------------------------------------------

  predicate AreLabels(names: seq<string>) {
    forall i | 0 <= i < |names| :: IsLabel(names[i])
  }

  function Fields(names: seq<string>, values: seq<Json<nat>>): (members: seq<Member<nat>>)
    requires |names| == |values| && AreLabels(names)
    ensures |members| == |names|
  {
    if names == [] then [] else [Member(Label(names[0]), values[0])] + Fields(names[1..], values[1..])
  }

  function NamesLength(names: seq<string>): nat {
    if names == [] then 0 else |names[0]| + NamesLength(names[1..])
  }

  function ValuesBytes(values: seq<Json<nat>>): nat {
    if values == [] then 0 else ByteLength(Printed(values[0])) + ValuesBytes(values[1..])
  }

  predicate AllBeginAscii(values: seq<Json<nat>>) {
    forall i | 0 <= i < |values| :: BeginsAscii(Printed(values[i]))
  }

  lemma {:induction false} FieldsBytes(names: seq<string>, values: seq<Json<nat>>)
    requires |names| == |values| && AreLabels(names) && AllBeginAscii(values)
    ensures MembersBytes(Fields(names, values)) == NamesLength(names) + ValuesBytes(values) + 4 * |names|
    ensures ValuesBeginAscii(Fields(names, values))
    decreases |names|
  {
    if names != [] {
      LabelBytes(names[0]);
      FieldsBytes(names[1..], values[1..]);
      var members := Fields(names, values);
      assert members[1..] == Fields(names[1..], values[1..]);
      forall i | 0 <= i < |members| ensures BeginsAscii(Printed(members[i].value)) {
        if i == 0 { assert members[0].value == values[0]; } else { assert members[i] == members[1..][i - 1]; }
      }
    }
  }

  /** An object takes its braces, and for each member the quoted name, a colon, the value and, but for the last, a comma. */
  lemma ObjectBytes(names: seq<string>, values: seq<Json<nat>>)
    requires |names| == |values| > 0 && AreLabels(names) && AllBeginAscii(values)
    ensures ByteLength(Printed(Obj(Fields(names, values)))) == 1 + NamesLength(names) + ValuesBytes(values) + 4 * |names|
    ensures BeginsAscii(Printed(Obj(Fields(names, values))))
  {
    FieldsBytes(names, values);
    PrintedObjectBytes(Fields(names, values));
  }

  // ---- The claim ------------------------------------------------------------------------------

  /** The names in `receiptExecution`, with a scope and without. */
  const CLAIM_NAMES := ["token", "claimedAt"]
  const SCOPED_NAMES := ["token", "claimedAt", "scopeDigest", "correlationId"]

  function ClaimNames(c: Claim): seq<string> {
    if c.scope.Some? then SCOPED_NAMES else CLAIM_NAMES
  }

  function ClaimValues(c: Claim): seq<Json<nat>> {
    if c.scope.Some?
    then [Str(c.token), Str(c.claimedAt), Str(c.scope.value.scopeDigest), Str(c.scope.value.correlationId)]
    else [Str(c.token), Str(c.claimedAt)]
  }

  lemma OneMore(v: Json<nat>, rest: seq<Json<nat>>)
    ensures ValuesBytes([v] + rest) == ByteLength(Printed(v)) + ValuesBytes(rest)
  {
    assert ([v] + rest)[1..] == rest;
  }

  lemma TwoValues(a: Json<nat>, b: Json<nat>)
    ensures ValuesBytes([a, b]) == ByteLength(Printed(a)) + ByteLength(Printed(b))
  {
    OneMore(b, []);
    OneMore(a, [b]);
    assert [a] + [b] == [a, b] && [b] + [] == [b];
  }

  lemma FourValues(a: Json<nat>, b: Json<nat>, c: Json<nat>, d: Json<nat>)
    ensures ValuesBytes([a, b, c, d]) == ByteLength(Printed(a)) + ByteLength(Printed(b)) + ByteLength(Printed(c)) + ByteLength(Printed(d))
  {
    TwoValues(c, d);
    OneMore(b, [c, d]);
    OneMore(a, [b, c, d]);
    assert [a] + [b, c, d] == [a, b, c, d] && [b] + [c, d] == [b, c, d];
  }

  lemma ClaimLabels()
    ensures AreLabels(CLAIM_NAMES) && AreLabels(SCOPED_NAMES)
    ensures NamesLength(CLAIM_NAMES) == |"tokenclaimedAt"|
    ensures NamesLength(SCOPED_NAMES) == |"tokenclaimedAtscopeDigestcorrelationId"|
  {}

  /** What the claim adds to the document: a comma, the quoted name, a colon and the object. */
  lemma ClaimBytesAreItsJson(c: Claim)
    ensures AreLabels(ClaimNames(c)) && |ClaimNames(c)| == |ClaimValues(c)|
    ensures ClaimBytes(c) == |",'receiptExecution':"| + ByteLength(Printed(Obj(Fields(ClaimNames(c), ClaimValues(c)))))
  {
    ClaimLabels();
    var values := ClaimValues(c);
    forall i | 0 <= i < |values| ensures BeginsAscii(Printed(values[i])) {}
    ObjectBytes(ClaimNames(c), values);
    if c.scope.Some? { FourValues(values[0], values[1], values[2], values[3]); } else { TwoValues(values[0], values[1]); }
  }

  // ---- The receipt -----------------------------------------------------------------------------

  const USAGE_NAMES := ["input_tokens", "output_tokens", "total_tokens"]
  const RECEIPT_NAMES := ["version", "provider", "responseId", "model", "scopeDigest", "outputDigest", "usage"]

  lemma UsageLabels()
    ensures AreLabels(USAGE_NAMES) && NamesLength(USAGE_NAMES) == |"input_tokensoutput_tokenstotal_tokens"|
  {}

  lemma ReceiptNamesLength()
    ensures NamesLength(RECEIPT_NAMES) == |"versionproviderresponseIdmodelscopeDigestoutputDigestusage"|
  {}

  lemma ReceiptLabels()
    ensures AreLabels(RECEIPT_NAMES)
  {
    forall i | 0 <= i < |RECEIPT_NAMES| ensures IsLabel(RECEIPT_NAMES[i]) {
      assert RECEIPT_NAMES[i] in RECEIPT_NAMES;
    }
  }

  function UsageJson(u: Usage): Json<nat>
    requires IsCount(u.inputTokens) && IsCount(u.outputTokens) && IsCount(u.totalTokens)
  {
    UsageLabels();
    Obj(Fields(USAGE_NAMES, [Num(Finite(u.inputTokens)), Num(Finite(u.outputTokens)), Num(Finite(u.totalTokens))]))
  }

  lemma UsageBytes(u: Usage)
    requires IsCount(u.inputTokens) && IsCount(u.outputTokens) && IsCount(u.totalTokens)
    ensures ByteLength(Printed(UsageJson(u)))
            == |"{'input_tokens':,'output_tokens':,'total_tokens':}"| + CountBytes(u.inputTokens) + CountBytes(u.outputTokens) + CountBytes(u.totalTokens)
    ensures BeginsAscii(Printed(UsageJson(u)))
  {
    UsageLabels();
    var a, b, c := Num(Finite(u.inputTokens as nat)), Num(Finite(u.outputTokens as nat)), Num(Finite(u.totalTokens as nat));
    CountIsItsDigits(u.inputTokens);
    CountIsItsDigits(u.outputTokens);
    CountIsItsDigits(u.totalTokens);
    TwoValues(b, c);
    OneMore(a, [b, c]);
    assert [a] + [b, c] == [a, b, c];
    ObjectBytes(USAGE_NAMES, [a, b, c]);
  }

  /** The values of `effectReceipt`. */
  function ReceiptValues(r: Receipt): seq<Json<nat>>
    requires IsReceipt(r)
  {
    [Num(Finite(1)), Str(Ascii("azure-openai"))]
    + ([Str(r.responseId), Str(r.model), Str(r.scopeDigest), Str(r.outputDigest)] + [UsageJson(r.usage)])
  }

  lemma {:induction false} ValuesConcat(a: seq<Json<nat>>, b: seq<Json<nat>>)
    ensures ValuesBytes(a + b) == ValuesBytes(a) + ValuesBytes(b)
  {
    if a == [] {
      assert a + b == b;
    } else {
      assert (a + b)[0] == a[0] && (a + b)[1..] == a[1..] + b;
      ValuesConcat(a[1..], b);
    }
  }

  lemma QuotedAscii(t: Text)
    requires IsAscii(t)
    ensures QuotedBytes(t) == |t| + 2
  {
    AsciiStringRest(t);
    ByteLengthOfAscii(Quoted(t));
  }

  lemma ProviderBytes()
    ensures QuotedBytes(Ascii("azure-openai")) == |"'azure-openai'"|
  {
    QuotedAscii(Ascii("azure-openai"));
  }

  lemma ReceiptValuesBytes(r: Receipt)
    requires IsReceipt(r)
    ensures ValuesBytes(ReceiptValues(r))
            == 1 + |"'azure-openai'"| + QuotedBytes(r.responseId) + QuotedBytes(r.model) + QuotedBytes(r.scopeDigest)
               + QuotedBytes(r.outputDigest) + ByteLength(Printed(UsageJson(r.usage)))
  {
    var first: seq<Json<nat>> := [Num(Finite(1)), Str(Ascii("azure-openai"))];
    var middle: seq<Json<nat>> := [Str(r.responseId), Str(r.model), Str(r.scopeDigest), Str(r.outputDigest)];
    var last: seq<Json<nat>> := [UsageJson(r.usage)];
    ValuesConcat(first, middle + last);
    ValuesConcat(middle, last);
    TwoValues(first[0], first[1]);
    FourValues(middle[0], middle[1], middle[2], middle[3]);
    OneMore(last[0], []);
    assert [last[0]] + [] == last;
    CountIsItsDigits(1);
    ProviderBytes();
  }

  /** What the receipt adds to the document: its member, and that of the time of capture of 24 characters. */
  lemma ReceiptBytesAreItsJson(r: Receipt)
    requires IsReceipt(r)
    ensures AreLabels(RECEIPT_NAMES) && |RECEIPT_NAMES| == |ReceiptValues(r)|
    ensures ReceiptBytes(r) ==
            |",'effectReceipt':"| + ByteLength(Printed(Obj(Fields(RECEIPT_NAMES, ReceiptValues(r)))))
            + |",'receiptCapturedAt':"| + |"'2026-01-01T00:00:00.000Z'"|
  {
    ReceiptLabels();
    ReceiptNamesLength();
    ReceiptValuesBytes(r);
    UsageBytes(r.usage);
    AllReceiptValuesBeginAscii(r);
    ObjectBytes(RECEIPT_NAMES, ReceiptValues(r));
  }

  lemma AllReceiptValuesBeginAscii(r: Receipt)
    requires IsReceipt(r)
    ensures AllBeginAscii(ReceiptValues(r))
  {
    CountIsItsDigits(1);
    UsageBytes(r.usage);
    var values := ReceiptValues(r);
    forall i | 0 <= i < |values| ensures BeginsAscii(Printed(values[i])) {
      assert i != 0 && i != 6 ==> values[i].Str?;
    }
  }

  // ---- The document ------------------------------------------------------------------------------

  function OneMember(name: string, v: Json<nat>): seq<Member<nat>>
    requires IsLabel(name)
  {
    [Member(Label(name), v)]
  }

  function ClaimJson(c: Claim): Json<nat> {
    ClaimLabels();
    Obj(Fields(ClaimNames(c), ClaimValues(c)))
  }

  function ReceiptJson(r: Receipt): Json<nat>
    requires IsReceipt(r)
  {
    ReceiptLabels();
    Obj(Fields(RECEIPT_NAMES, ReceiptValues(r)))
  }

  function VersionMember(version: nat): seq<Member<nat>> {
    OneMember("version", Num(Finite(version)))
  }

  function ClaimMember(c: Claim): seq<Member<nat>> {
    OneMember("receiptExecution", ClaimJson(c))
  }

  function ClaimMembers(row: Row): seq<Member<nat>> {
    if row.claim.None? then [] else ClaimMember(row.claim.value)
  }

  function ReceiptMember(r: Receipt): seq<Member<nat>>
    requires IsReceipt(r)
  {
    OneMember("effectReceipt", ReceiptJson(r))
  }

  function TimeMember(capturedAt: Text): seq<Member<nat>> {
    OneMember("receiptCapturedAt", Str(capturedAt))
  }

  /** A captured receipt comes with its time. */
  function ReceiptMembers(row: Row, capturedAt: Text): seq<Member<nat>>
    requires row.receipt.Some? ==> IsReceipt(row.receipt.value)
  {
    if row.receipt.None? then []
    else ReceiptMember(row.receipt.value) + TimeMember(capturedAt)
  }

  /** The document as it is sent: its other members, the version, then the claim and the receipt. */
  function Document(others: seq<Member<nat>>, row: Row, capturedAt: Text): seq<Member<nat>>
    requires row.version >= 0 && (row.receipt.Some? ==> IsReceipt(row.receipt.value))
  {
    others + (VersionMember(row.version) + (ClaimMembers(row) + ReceiptMembers(row, capturedAt)))
  }

  lemma {:induction false} MembersConcat(a: seq<Member<nat>>, b: seq<Member<nat>>)
    ensures MembersBytes(a + b) == MembersBytes(a) + MembersBytes(b)
    ensures ValuesBeginAscii(a) && ValuesBeginAscii(b) ==> ValuesBeginAscii(a + b)
  {
    if a == [] {
      assert a + b == b;
    } else {
      assert (a + b)[0] == a[0] && (a + b)[1..] == a[1..] + b;
      MembersConcat(a[1..], b);
    }
  }

  lemma FourLists(a: seq<Member<nat>>, b: seq<Member<nat>>, c: seq<Member<nat>>, d: seq<Member<nat>>)
    requires ValuesBeginAscii(a) && ValuesBeginAscii(b) && ValuesBeginAscii(c) && ValuesBeginAscii(d)
    ensures MembersBytes(a + (b + (c + d))) == MembersBytes(a) + MembersBytes(b) + MembersBytes(c) + MembersBytes(d)
    ensures ValuesBeginAscii(a + (b + (c + d)))
  {
    MembersConcat(c, d);
    MembersConcat(b, c + d);
    MembersConcat(a, b + (c + d));
  }

  lemma OneMemberBytes(name: string, v: Json<nat>)
    requires IsLabel(name)
    ensures MembersBytes(OneMember(name, v)) == |name| + 4 + ByteLength(Printed(v))
    ensures BeginsAscii(Printed(v)) ==> ValuesBeginAscii(OneMember(name, v))
  {
    LabelBytes(name);
  }

  lemma BeginsAsABrace(members: seq<Member<nat>>)
    ensures BeginsAscii(Printed(Obj(members)))
  {}

  lemma VersionBytes(version: nat)
    ensures MembersBytes(VersionMember(version)) == |"'version':,"| + CountBytes(version)
    ensures ValuesBeginAscii(VersionMember(version))
  {
    CountIsItsDigits(version);
    OneMemberBytes("version", Num(Finite(version)));
  }

  lemma ClaimMemberBytes(c: Claim)
    ensures MembersBytes(ClaimMember(c)) == ClaimBytes(c) && ValuesBeginAscii(ClaimMember(c))
  {
    ClaimBytesAreItsJson(c);
    OneMemberBytes("receiptExecution", ClaimJson(c));
    BeginsAsABrace(Fields(ClaimNames(c), ClaimValues(c)));
  }

  lemma ClaimMembersBytes(row: Row)
    ensures MembersBytes(ClaimMembers(row)) == if row.claim.Some? then ClaimBytes(row.claim.value) else 0
    ensures ValuesBeginAscii(ClaimMembers(row))
  {
    if row.claim.Some? { ClaimMemberBytes(row.claim.value); }
  }

  lemma TimeBytes(capturedAt: Text)
    requires IsAscii(capturedAt) && |capturedAt| == |"2026-01-01T00:00:00.000Z"|
    ensures MembersBytes(TimeMember(capturedAt)) == |",'receiptCapturedAt':'2026-01-01T00:00:00.000Z'"|
    ensures ValuesBeginAscii(TimeMember(capturedAt))
  {
    OneMemberBytes("receiptCapturedAt", Str(capturedAt));
    QuotedAscii(capturedAt);
  }

  lemma ReceiptMemberBytes(r: Receipt)
    requires IsReceipt(r)
    ensures MembersBytes(ReceiptMember(r)) + |",'receiptCapturedAt':'2026-01-01T00:00:00.000Z'"| == ReceiptBytes(r)
    ensures ValuesBeginAscii(ReceiptMember(r))
  {
    ReceiptBytesAreItsJson(r);
    OneMemberBytes("effectReceipt", ReceiptJson(r));
    BeginsAsABrace(Fields(RECEIPT_NAMES, ReceiptValues(r)));
  }

  lemma ReceiptMembersBytes(row: Row, capturedAt: Text)
    requires row.receipt.Some? ==> IsReceipt(row.receipt.value)
    requires IsAscii(capturedAt) && |capturedAt| == |"2026-01-01T00:00:00.000Z"|
    ensures MembersBytes(ReceiptMembers(row, capturedAt)) == if row.receipt.Some? then ReceiptBytes(row.receipt.value) else 0
    ensures ValuesBeginAscii(ReceiptMembers(row, capturedAt))
  {
    if row.receipt.Some? {
      var r := row.receipt.value;
      ReceiptMemberBytes(r);
      TimeBytes(capturedAt);
      MembersConcat(ReceiptMember(r), TimeMember(capturedAt));
    }
  }

  /**
   The measured size is that of the document's JSON text, whatever its other members are: when
   these and a version of no digits take `rest` bytes, the document takes `RowBytes`.
   */
  lemma RowBytesAreItsJson(others: seq<Member<nat>>, row: Row, capturedAt: Text)
    requires ValuesBeginAscii(others) && row.rest == 1 + MembersBytes(others) + |"'version':,"|
    requires row.version >= 0 && (row.receipt.Some? ==> IsReceipt(row.receipt.value))
    requires IsAscii(capturedAt) && |capturedAt| == |"2026-01-01T00:00:00.000Z"|
    ensures RowBytes(row) == ByteLength(Printed(Obj(Document(others, row, capturedAt))))
  {
    var version, claim, receipt := VersionMember(row.version), ClaimMembers(row), ReceiptMembers(row, capturedAt);
    VersionBytes(row.version);
    ClaimMembersBytes(row);
    ReceiptMembersBytes(row, capturedAt);
    FourLists(others, version, claim, receipt);
    PrintedObjectBytes(Document(others, row, capturedAt));
  }
}
