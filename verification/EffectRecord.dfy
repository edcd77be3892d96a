/**
 The shared effect document: its checks, the two updates hosts make to it by
 compare-and-swap, its size, and the five-attempt loop that writes it.
 */
module EffectRecord {
  import opened Outcomes
  import opened Utf16
  import JsonText

  // ---- The document ---------------------------------------------------------------

  datatype Binding = Binding(id: Text, provider: Text, requester: Text, fingerprint: Text)

  datatype Status = Started | Unknown | Completed | Failed

  datatype Usage = Usage(inputTokens: int, outputTokens: int, totalTokens: int)

  /** A receipt of the one provider, normalized: identifiers, usage and digests only. */
  datatype Receipt = Receipt(responseId: Text, model: Text, scopeDigest: Text, outputDigest: Text, usage: Usage)

  datatype Scope = Scope(scopeDigest: Text, correlationId: Text)

  datatype Claim = Claim(token: Text, claimedAt: Text, scope: Option<Scope>)

  /**
   `shaped` stands for the fields every reader only compares with constants (kind,
   schema, ttl, id, partition key, a readable etag); `rest` is the number of bytes
   of everything other than the version, the claim and the receipt.
   */
  datatype Row = Row(binding: Binding, shaped: bool, status: Status, version: int,
                     claim: Option<Claim>, receipt: Option<Receipt>, rest: nat)

  datatype Fault = Fault(httpStatus: nat, code: string)

  const MAX_SAFE_INTEGER := 0x1F_FFFF_FFFF_FFFF
  const DOCUMENT_LIMIT := 850_000
  const TAIL_RESERVE := 256
  const CLAIM_RESERVE := 4096
  const MAX_ATTEMPTS := 5

  predicate IsText(t: Text) {
    1 <= |t| <= 4096
  }

  predicate IsHex(u: Unit) {
    0x30 <= u <= 0x39 || 0x61 <= u <= 0x66
  }

  predicate IsDigest(t: Text) {
    |t| == 64 && forall i | 0 <= i < |t| :: IsHex(t[i])
  }

  predicate IsIdUnit(u: Unit) {
    0x30 <= u <= 0x39 || 0x41 <= u <= 0x5A || 0x61 <= u <= 0x7A || u == 0x5F || u == 0x2D
  }

  /** `/^resp_[a-zA-Z0-9_-]{1,200}$/` */
  predicate IsResponseId(t: Text) {
    6 <= |t| <= 205 && t[..5] == Ascii("resp_") && forall i | 5 <= i < |t| :: IsIdUnit(t[i])
  }

  predicate IsCount(n: int) {
    0 <= n <= MAX_SAFE_INTEGER
  }

  /** What `receipt` accepts. */
  predicate IsReceipt(r: Receipt) {
    && IsResponseId(r.responseId)
    && 1 <= |r.model| <= 256
    && IsDigest(r.scopeDigest) && IsDigest(r.outputDigest)
    && IsCount(r.usage.inputTokens) && IsCount(r.usage.outputTokens) && IsCount(r.usage.totalTokens)
    && IsCount(r.usage.inputTokens + r.usage.outputTokens)
    && r.usage.inputTokens + r.usage.outputTokens == r.usage.totalTokens
  }

  predicate IsBinding(b: Binding) {
    IsText(b.id) && IsText(b.provider) && IsText(b.requester) && IsText(b.fingerprint)
  }

  /** The identity check every access makes before it looks at anything else. */
  function OwnerFault(row: Row, binding: Binding): Option<Fault> {
    if !IsBinding(binding) then Some(Fault(400, "invalid_effect_receipt_binding"))
    else if row.binding.id != binding.id || !row.shaped then Some(Fault(503, "effect_receipt_record_invalid"))
    else if row.binding != binding then Some(Fault(409, "effect_identity_conflict"))
    else None
  }

  predicate IsRecoverable(status: Status) {
    status == Started || status == Unknown || status == Completed
  }

  // ---- Size -------------------------------------------------------------------------

  /** The constant part of the JSON members, one byte a character. */
  const CLAIM_LABELS := |",'receiptExecution':{'token':,'claimedAt':}"|
  const SCOPE_LABELS := |",'scopeDigest':,'correlationId':"|
  const RECEIPT_LABELS :=
    |",'effectReceipt':{'version':1,'provider':'azure-openai','responseId':,'model':,"|
    + |"'scopeDigest':,'outputDigest':,'usage':{'input_tokens':,'output_tokens':,'total_tokens':}}"|
    + |",'receiptCapturedAt':"|
  const TIMESTAMP_BYTES := |"'2026-01-01T00:00:00.000Z'"|

  function Digits(n: nat): (d: nat)
    ensures d >= 1
  {
    if n < 10 then 1 else 1 + Digits(n / 10)
  }

  function QuotedBytes(t: Text): nat {
    ByteLength(JsonText.Quoted(t))
  }

  function ClaimBytes(c: Claim): nat {
    CLAIM_LABELS + QuotedBytes(c.token) + QuotedBytes(c.claimedAt)
    + match c.scope
      case None => 0
      case Some(s) => SCOPE_LABELS + QuotedBytes(s.scopeDigest) + QuotedBytes(s.correlationId)
  }

  function ReceiptBytes(r: Receipt): nat {
    RECEIPT_LABELS + TIMESTAMP_BYTES + QuotedBytes(r.responseId) + QuotedBytes(r.model)
    + QuotedBytes(r.scopeDigest) + QuotedBytes(r.outputDigest)
    + CountBytes(r.usage.inputTokens) + CountBytes(r.usage.outputTokens) + CountBytes(r.usage.totalTokens)
  }

  function CountBytes(n: int): nat {
    if n < 0 then 1 + Digits(-n) else Digits(n)
  }

  /** `Buffer.byteLength(JSON.stringify(row))` without the `_etag` member. */
  function RowBytes(row: Row): nat {
    row.rest + CountBytes(row.version)
    + (if row.claim.Some? then ClaimBytes(row.claim.value) else 0)
    + (if row.receipt.Some? then ReceiptBytes(row.receipt.value) else 0)
  }

  // ---- Updates ------------------------------------------------------------------------

  /** The two callbacks given to `mutate`; a claim also sees the `_etag` member it was read with. */
  datatype Update =
    | ToClaim(claim: Claim, etagBytes: nat)
    | ToCapture(token: Text, value: Receipt)

  datatype Decision = Refuse(fault: Fault) | Unchanged | Replace(row: Row)

  function Apply(update: Update, row: Row): Decision {
    match update
    case ToClaim(claim, etagBytes) =>
      if row.status != Started || row.claim.Some? || row.receipt.Some? then
        Refuse(Fault(409, "effect_execution_already_claimed"))
      else if RowBytes(row) + etagBytes + CLAIM_RESERVE > DOCUMENT_LIMIT then
        Refuse(Fault(503, "lifecycle_document_capacity_reached"))
      else Replace(row.(claim := Some(claim)))
    case ToCapture(token, value) =>
      if row.claim.None? || row.claim.value.token != token then
        Refuse(Fault(409, "effect_execution_token_mismatch"))
      else if row.claim.value.scope.Some? && row.claim.value.scope.value.scopeDigest != value.scopeDigest then
        Refuse(Fault(409, "effect_receipt_scope_mismatch"))
      else if !IsRecoverable(row.status) then
        Refuse(Fault(409, "effect_receipt_terminal_conflict"))
      else if row.receipt.Some? then
        if row.receipt.value != value then Refuse(Fault(409, "effect_receipt_conflict")) else Unchanged
      else Replace(row.(receipt := Some(value)))
  }

  /** What one attempt does with the row it read: refuse, find nothing to do, or send this row. */
  function Attempt(binding: Binding, update: Update, read: Option<Row>): Decision {
    if read.None? then Refuse(Fault(409, "effect_intent_required"))
    else
      var row := read.value;
      match OwnerFault(row, binding)
      case Some(fault) => Refuse(fault)
      case None =>
        if !(1 <= row.version < MAX_SAFE_INTEGER) then Refuse(Fault(503, "effect_receipt_record_invalid"))
        else
          match Apply(update, row)
          case Replace(next) =>
            var sent := next.(version := row.version + 1);
            if RowBytes(sent) + TAIL_RESERVE > DOCUMENT_LIMIT
            then Refuse(Fault(503, "lifecycle_document_capacity_reached"))
            else Replace(sent)
          case other => other
  }

  /** What a host sees of its conditional PUT. Everything but a readable 200 and a 412 is ambiguous. */
  datatype Reply = Confirmed(body: Row) | PreconditionFailed | Ambiguous

  predicate Confirms(body: Row, sent: Row) {
    && body.shaped && body.binding.id == sent.binding.id && body.version == sent.version
    && body.binding.provider == sent.binding.provider && body.binding.requester == sent.binding.requester
    && body.binding.fingerprint == sent.binding.fingerprint && body.status == sent.status
    && ClaimToken(body) == ClaimToken(sent) && ClaimScope(body) == ClaimScope(sent)
    && (sent.receipt.Some? ==> body.receipt == sent.receipt)
  }

  function ClaimToken(row: Row): Option<Text> {
    if row.claim.Some? then Some(row.claim.value.token) else None
  }

  function ClaimScope(row: Row): Option<Scope> {
    if row.claim.Some? then row.claim.value.scope else None
  }

  datatype Verdict = Written | Again | GiveUp(fault: Fault)

  function Judge(sent: Row, reply: Reply): Verdict {
    match reply
    case PreconditionFailed => Again
    case Ambiguous => GiveUp(Fault(503, "effect_receipt_store_unavailable"))
    case Confirmed(body) =>
      if Confirms(body, sent) then Written else GiveUp(Fault(503, "effect_receipt_store_unverified"))
  }

  // ---- Which receipts are taken --------------------------------------------------------------

  predicate IsIdText(id: string) {
    forall i | 0 <= i < |id| :: 'a' <= id[i] <= 'z' || 'A' <= id[i] <= 'Z' || '0' <= id[i] <= '9' || id[i] == '_' || id[i] == '-'
  }

  predicate IsHexText(t: Text) {
    |t| == 64 && forall i | 0 <= i < |t| :: t[i] in Ascii("0123456789abcdef")
  }

  lemma HexTextIsDigest(t: Text)
    ensures IsHexText(t) <==> IsDigest(t)
  {
    forall u: Unit ensures u in Ascii("0123456789abcdef") <==> IsHex(u) {
      if IsHex(u) {
        var k := if u <= 0x39 then u - 0x30 else u - 0x61 + 10;
        assert Ascii("0123456789abcdef")[k] == u;
      }
    }
  }

  /** `resp_`, then 1 to 200 letters, digits, `_` and `-`. */
  predicate IsResponseText(t: Text, id: string) {
    1 <= |id| <= 200 && IsIdText(id) && t == Ascii("resp_") + Ascii(id)
  }

  /** The characters of a response id after `resp_`. */
  function IdText(t: Text): (id: string)
    requires IsResponseId(t)
    ensures |id| == |t| - 5 && forall i | 0 <= i < |id| :: id[i] as int == t[i + 5]
  {
    seq(|t| - 5, i requires 0 <= i < |t| - 5 => t[i + 5] as char)
  }

  lemma ResponseIdIsText(t: Text)
    requires IsResponseId(t)
    ensures IsResponseText(t, IdText(t))
  {
    var id := IdText(t);
    forall i | 0 <= i < |id| ensures IsIdUnit(id[i] as int) {
      assert IsIdUnit(t[i + 5]);
    }
    assert IsIdText(id);
    assert t[5..] == Ascii(id);
    assert t == t[..5] + t[5..];
  }

  lemma TextIsResponseId(t: Text, id: string)
    requires IsResponseText(t, id)
    ensures IsResponseId(t)
  {
    assert t[..5] == Ascii("resp_");
    forall i | 5 <= i < |t| ensures IsIdUnit(t[i]) {
      assert t[i] == id[i - 5] as int;
    }
  }

  /**
   A receipt is taken exactly with a response id of 1 to 200 letters, digits, `_` and `-` after `resp_`,
   a model of 1 to 256 units, two digests, and safe counts that add up.
   */
  lemma ReceiptIsTakenExactlyWhen(r: Receipt)
    ensures IsReceipt(r) <==>
            && (exists id :: IsResponseText(r.responseId, id))
            && 1 <= |r.model| <= 256 && IsHexText(r.scopeDigest) && IsHexText(r.outputDigest)
            && 0 <= r.usage.inputTokens && 0 <= r.usage.outputTokens
            && r.usage.inputTokens + r.usage.outputTokens == r.usage.totalTokens <= 9_007_199_254_740_991
  {
    if IsResponseId(r.responseId) { ResponseIdIsText(r.responseId); }
    if id :| IsResponseText(r.responseId, id) { TextIsResponseId(r.responseId, id); }
    HexTextIsDigest(r.scopeDigest);
    HexTextIsDigest(r.outputDigest);
  }

  // ---- Which rows are written ---------------------------------------------------------------

  /** Whose row it is, and that its version can be raised. */
  predicate IsOwnRow(row: Row, binding: Binding) {
    && 1 <= |binding.id| <= 4096 && 1 <= |binding.provider| <= 4096 && 1 <= |binding.requester| <= 4096
    && 1 <= |binding.fingerprint| <= 4096 && row.shaped && row.binding == binding && 1 <= row.version < 0x1F_FFFF_FFFF_FFFF
  }

  /**
   A claim is written exactly on a started row that nobody has claimed and that has
   no receipt, with room for what is still to come; it changes nothing but the claim
   and the version.
   */
  lemma ClaimIsWrittenExactlyWhen(binding: Binding, claim: Claim, etagBytes: nat, row: Row, next: Row)
    ensures Attempt(binding, ToClaim(claim, etagBytes), Some(row)) == Replace(next) <==>
            && IsOwnRow(row, binding)
            && row.status == Started && row.claim.None? && row.receipt.None?
            && RowBytes(row) + etagBytes + 4096 <= 850_000
            && next == row.(claim := Some(claim), version := row.version + 1)
            && RowBytes(next) + 256 <= 850_000
  {}

  /** On an own row a claim is refused as taken exactly when the row is not started, is claimed, or has a receipt. */
  lemma ClaimIsTakenExactlyWhen(binding: Binding, claim: Claim, etagBytes: nat, row: Row)
    requires IsOwnRow(row, binding)
    ensures Attempt(binding, ToClaim(claim, etagBytes), Some(row)) == Refuse(Fault(409, "effect_execution_already_claimed"))
            <==> row.status != Started || row.claim.Some? || row.receipt.Some?
  {}

  /** A missing row, a bad binding, a row out of shape, a row of somebody else and a version that cannot be raised, in this order. */
  lemma StrangeRowsAreRefused(binding: Binding, update: Update, row: Row)
    ensures Attempt(binding, update, None) == Refuse(Fault(409, "effect_intent_required"))
    ensures !IsBinding(binding) ==> Attempt(binding, update, Some(row)) == Refuse(Fault(400, "invalid_effect_receipt_binding"))
    ensures IsBinding(binding) && (row.binding.id != binding.id || !row.shaped) ==>
              Attempt(binding, update, Some(row)) == Refuse(Fault(503, "effect_receipt_record_invalid"))
    ensures IsBinding(binding) && row.shaped && row.binding.id == binding.id && row.binding != binding ==>
              Attempt(binding, update, Some(row)) == Refuse(Fault(409, "effect_identity_conflict"))
    ensures IsBinding(binding) && row.shaped && row.binding == binding && (row.version < 1 || row.version >= 0x1F_FFFF_FFFF_FFFF) ==>
              Attempt(binding, update, Some(row)) == Refuse(Fault(503, "effect_receipt_record_invalid"))
  {}

  /** What a capture asks of the row besides its receipt: the claim's token and scope, and a status that is not failed. */
  predicate MayCapture(row: Row, token: Text, value: Receipt) {
    && row.claim.Some? && row.claim.value.token == token
    && (row.claim.value.scope.Some? ==> row.claim.value.scope.value.scopeDigest == value.scopeDigest)
    && row.status in {Started, Unknown, Completed}
  }

  /** A receipt is written exactly under the claim's own token and scope, on a row without one, if it fits. */
  lemma CaptureIsWrittenExactlyWhen(binding: Binding, token: Text, value: Receipt, row: Row, next: Row)
    ensures Attempt(binding, ToCapture(token, value), Some(row)) == Replace(next) <==>
            && IsOwnRow(row, binding) && MayCapture(row, token, value) && row.receipt.None?
            && next == row.(receipt := Some(value), version := row.version + 1)
            && RowBytes(next) + 256 <= 850_000
  {}

  /** Nothing is left to do exactly when the row has this very receipt; another one is a conflict. */
  lemma CaptureOfKnownReceipt(binding: Binding, token: Text, value: Receipt, row: Row)
    ensures Attempt(binding, ToCapture(token, value), Some(row)) == Unchanged <==>
            IsOwnRow(row, binding) && MayCapture(row, token, value) && row.receipt == Some(value)
    ensures Attempt(binding, ToCapture(token, value), Some(row)) == Refuse(Fault(409, "effect_receipt_conflict")) <==>
            IsOwnRow(row, binding) && MayCapture(row, token, value) && row.receipt.Some? && row.receipt != Some(value)
  {}

  /** On an own row a capture needs the claim's token, then its scope. */
  lemma CaptureNeedsTheClaim(binding: Binding, token: Text, value: Receipt, row: Row)
    requires IsOwnRow(row, binding)
    ensures var answer := Attempt(binding, ToCapture(token, value), Some(row));
            var ofToken := row.claim.Some? && row.claim.value.token == token;
            && (answer == Refuse(Fault(409, "effect_execution_token_mismatch")) <==> !ofToken)
            && (answer == Refuse(Fault(409, "effect_receipt_scope_mismatch")) <==>
                  ofToken && row.claim.value.scope.Some? && row.claim.value.scope.value.scopeDigest != value.scopeDigest)
  {}

  /** Under the claim's token and scope it needs a status that is not failed. */
  lemma CaptureNeedsAnOpenStatus(binding: Binding, token: Text, value: Receipt, row: Row)
    requires IsOwnRow(row, binding) && row.claim.Some? && row.claim.value.token == token
    requires row.claim.value.scope.Some? ==> row.claim.value.scope.value.scopeDigest == value.scopeDigest
    ensures Attempt(binding, ToCapture(token, value), Some(row)) == Refuse(Fault(409, "effect_receipt_terminal_conflict"))
            <==> row.status !in {Started, Unknown, Completed}
  {}

  /** And a row that may be captured refuses a new receipt exactly for its size. */
  lemma CaptureNeedsRoom(binding: Binding, token: Text, value: Receipt, row: Row)
    requires IsOwnRow(row, binding) && MayCapture(row, token, value) && row.receipt.None?
    ensures Attempt(binding, ToCapture(token, value), Some(row)) == Refuse(Fault(503, "lifecycle_document_capacity_reached"))
            <==> RowBytes(row.(receipt := Some(value), version := row.version + 1)) + 256 > 850_000
  {
    OwnRowIsSentIfItFits(binding, ToCapture(token, value), row, row.(receipt := Some(value)));
  }

  lemma OwnRowIsSentIfItFits(binding: Binding, update: Update, row: Row, next: Row)
    requires IsOwnRow(row, binding) && Apply(update, row) == Replace(next)
    ensures Attempt(binding, update, Some(row))
            == if RowBytes(next.(version := row.version + 1)) + TAIL_RESERVE > DOCUMENT_LIMIT
               then Refuse(Fault(503, "lifecycle_document_capacity_reached")) else Replace(next.(version := row.version + 1))
  {}

  /** An own row that may be claimed refuses the claim exactly for its size. */
  lemma ClaimIsTooLargeExactlyWhen(binding: Binding, claim: Claim, etagBytes: nat, row: Row)
    requires IsOwnRow(row, binding)
    ensures Attempt(binding, ToClaim(claim, etagBytes), Some(row)) == Refuse(Fault(503, "lifecycle_document_capacity_reached")) <==>
            && row.status == Started && row.claim.None? && row.receipt.None?
            && (RowBytes(row) + etagBytes + 4096 > 850_000
                || RowBytes(row.(claim := Some(claim), version := row.version + 1)) + 256 > 850_000)
  {}

  /** The token and the scope of a claim, as far as there is one. */
  predicate SameClaimIn(a: Row, b: Row) {
    && (a.claim.Some? <==> b.claim.Some?)
    && (a.claim.Some? ==> a.claim.value.token == b.claim.value.token && a.claim.value.scope == b.claim.value.scope)
  }

  /** A write counts exactly when the reply shows the row that was sent: identity, version, status, claim, and its receipt. */
  lemma WrittenExactlyWhen(sent: Row, reply: Reply)
    ensures Judge(sent, reply).Written? <==>
            && reply.Confirmed? && reply.body.shaped && reply.body.binding == sent.binding
            && reply.body.version == sent.version && reply.body.status == sent.status && SameClaimIn(reply.body, sent)
            && (sent.receipt.Some? ==> reply.body.receipt == sent.receipt)
    ensures Judge(sent, reply).Again? <==> reply.PreconditionFailed?
  {}

  // ---- The compare-and-swap loop ----------------------------------------------------------

  datatype MutateResult = Changed(row: Row) | AlreadyThere | Faulted(fault: Fault)

  /** The attempts before `k` all had a row to write and lost the race. */
  ghost predicate LostRaces(decisions: seq<Decision>, replies: seq<Reply>, k: nat)
    requires k <= |decisions| == |replies|
  {
    forall i | 0 <= i < k :: decisions[i].Replace? && replies[i].PreconditionFailed?
  }

  /** How the loop ends, in terms of the decision and the reply of each attempt. */
  ghost predicate Ends(decisions: seq<Decision>, replies: seq<Reply>, result: MutateResult, puts: seq<Row>)
    requires |decisions| == |replies| == MAX_ATTEMPTS
  {
    && |puts| <= MAX_ATTEMPTS
    && (forall i | 0 <= i < |puts| :: decisions[i] == Replace(puts[i]))
    && match result
       case Changed(row) =>
         puts != [] && LostRaces(decisions, replies, |puts| - 1)
         && row == puts[|puts| - 1] && Judge(row, replies[|puts| - 1]) == Written
       case AlreadyThere =>
         |puts| < MAX_ATTEMPTS && LostRaces(decisions, replies, |puts|) && decisions[|puts|] == Unchanged
       case Faulted(fault) =>
         if puts != [] && Judge(puts[|puts| - 1], replies[|puts| - 1]) == GiveUp(fault)
         then LostRaces(decisions, replies, |puts| - 1)
         else
           && LostRaces(decisions, replies, |puts|)
           && if |puts| == MAX_ATTEMPTS then fault == Fault(503, "effect_receipt_cas_contention")
              else decisions[|puts|] == Refuse(fault)
  }

  function Decisions(binding: Binding, update: Update, found: seq<Option<Row>>): seq<Decision> {
    seq(|found|, i requires 0 <= i < |found| => Attempt(binding, update, found[i]))
  }

  lemma EndsRefused(decisions: seq<Decision>, replies: seq<Reply>, puts: seq<Row>)
    requires |decisions| == |replies| == MAX_ATTEMPTS && |puts| < MAX_ATTEMPTS && LostRaces(decisions, replies, |puts|)
    requires forall i | 0 <= i < |puts| :: decisions[i] == Replace(puts[i])
    ensures decisions[|puts|].Refuse? ==> Ends(decisions, replies, Faulted(decisions[|puts|].fault), puts)
    ensures decisions[|puts|].Unchanged? ==> Ends(decisions, replies, AlreadyThere, puts)
  {}

  lemma EndsJudged(decisions: seq<Decision>, replies: seq<Reply>, puts: seq<Row>, row: Row)
    requires |decisions| == |replies| == MAX_ATTEMPTS && |puts| < MAX_ATTEMPTS && LostRaces(decisions, replies, |puts|)
    requires forall i | 0 <= i < |puts + [row]| :: decisions[i] == Replace((puts + [row])[i])
    ensures Judge(row, replies[|puts|]).Written? ==> Ends(decisions, replies, Changed(row), puts + [row])
    ensures Judge(row, replies[|puts|]).GiveUp? ==>
              Ends(decisions, replies, Faulted(Judge(row, replies[|puts|]).fault), puts + [row])
  {}

  lemma EndsExhausted(decisions: seq<Decision>, replies: seq<Reply>, puts: seq<Row>)
    requires |decisions| == |replies| == MAX_ATTEMPTS == |puts| && LostRaces(decisions, replies, |puts|)
    requires forall i | 0 <= i < |puts| :: decisions[i] == Replace(puts[i])
    ensures Ends(decisions, replies, Faulted(Fault(503, "effect_receipt_cas_contention")), puts)
  {}

  /** The loop of `mutate`, given what each of its reads makes it decide. */
  method Retry(decisions: seq<Decision>, replies: seq<Reply>) returns (result: MutateResult, puts: seq<Row>)
    requires |decisions| == |replies| == MAX_ATTEMPTS
    ensures Ends(decisions, replies, result, puts)
  {
    puts := [];
    var attempt := 0;
    while attempt < MAX_ATTEMPTS
      invariant attempt == |puts| <= MAX_ATTEMPTS
      invariant forall i | 0 <= i < |puts| :: decisions[i] == Replace(puts[i])
      invariant LostRaces(decisions, replies, attempt)
    {
      var decision := decisions[attempt];
      EndsRefused(decisions, replies, puts);
      if decision.Refuse? {
        return Faulted(decision.fault), puts;
      }
      if decision.Unchanged? {
        return AlreadyThere, puts;
      }
      ghost var before := puts;
      puts := puts + [decision.row];
      EndsJudged(decisions, replies, before, decision.row);
      var verdict := Judge(decision.row, replies[attempt]);
      if verdict.Written? {
        return Changed(decision.row), puts;
      }
      if verdict.GiveUp? {
        return Faulted(verdict.fault), puts;
      }
      attempt := attempt + 1;
    }
    EndsExhausted(decisions, replies, puts);
    result := Faulted(Fault(503, "effect_receipt_cas_contention"));
  }

  /**
   `mutate`, given what its reads and its writes come back with. It sends one PUT
   an attempt, tries again only after a 412, and reports a change only when the
   store confirmed exactly the row it sent.
   */
  method Mutate(binding: Binding, update: Update, found: seq<Option<Row>>, replies: seq<Reply>)
    returns (result: MutateResult, puts: seq<Row>)
    requires |found| == |replies| == MAX_ATTEMPTS
    ensures Ends(Decisions(binding, update, found), replies, result, puts)
  {
    result, puts := Retry(Decisions(binding, update, found), replies);
  }

  /** An ambiguous reply ends the loop: no PUT follows it, and no change is reported. */
  lemma AmbiguityIsFinal(decisions: seq<Decision>, replies: seq<Reply>, result: MutateResult, puts: seq<Row>, k: nat)
    requires |decisions| == |replies| == MAX_ATTEMPTS && Ends(decisions, replies, result, puts)
    requires k < |puts| && replies[k].Ambiguous?
    ensures k == |puts| - 1 && result == Faulted(Fault(503, "effect_receipt_store_unavailable"))
  {
    var last := |puts| - 1;
    assert LostRaces(decisions, replies, last);
    assert Judge(puts[k], replies[k]) == GiveUp(Fault(503, "effect_receipt_store_unavailable"));
  }

  // ---- Reserved headroom --------------------------------------------------------------------

  /** The claims hosts write: a UUID token, an ISO timestamp, and hex digests when correlated. */
  predicate IsHostClaim(c: Claim) {
    && |c.token| == 36 && IsAscii(c.token) && |c.claimedAt| == 24 && IsAscii(c.claimedAt)
    && (c.scope.Some? ==> IsDigest(c.scope.value.scopeDigest) && IsDigest(c.scope.value.correlationId))
  }

  /** Printable ASCII without the two characters JSON escapes. */
  predicate IsAscii(t: Text) {
    forall i | 0 <= i < |t| :: 0x20 <= t[i] < 0x7F && t[i] != 0x22 && t[i] != 0x5C
  }

  const MAX_CLAIM_BYTES := CLAIM_LABELS + SCOPE_LABELS + 38 + 26 + 66 + 66
  const MAX_RECEIPT_BYTES := RECEIPT_LABELS + TIMESTAMP_BYTES + 207 + (6 * 256 + 2) + 66 + 66 + 3 * 16

  /** What the writers between claim and capture may add to the rest of the document. */
  const SLACK := CLAIM_RESERVE - TAIL_RESERVE - MAX_CLAIM_BYTES - MAX_RECEIPT_BYTES - 15

  lemma {:induction false} AsciiStringRest(t: Text)
    requires IsAscii(t)
    ensures JsonText.StringRest(t) == t + [JsonText.QUOTE]
  {
    if t != [] {
      AsciiStringRest(t[1..]);
      assert JsonText.EscapeUnit(t[0]) == [t[0]];
      assert t == [t[0]] + t[1..];
    }
  }

  lemma AsciiQuotedBytes(t: Text)
    requires IsAscii(t)
    ensures QuotedBytes(t) <= |t| + 2
  {
    AsciiStringRest(t);
    AsciiWeight(JsonText.Quoted(t));
    ByteLengthWithinWeight(JsonText.Quoted(t));
  }

  lemma TenthIsSmaller(n: nat, m: nat)
    requires n < 10 * m
    ensures n / 10 < m
  {}

  lemma {:induction false} DigitsBound(n: nat, d: nat)
    requires n < Power10(d) && d >= 1
    ensures Digits(n) <= d
    decreases d
  {
    assert Power10(d) == 10 * Power10(d - 1);
    if n >= 10 {
      TenthIsSmaller(n, Power10(d - 1));
      assert d >= 2 by { assert Power10(0) == 1; }
      DigitsBound(n / 10, d - 1);
    }
  }

  function Power10(d: nat): nat {
    if d == 0 then 1 else 10 * Power10(d - 1)
  }

  lemma CountBytesBound(n: int)
    requires IsCount(n)
    ensures 1 <= CountBytes(n) <= 16
  {
    assert Power10(4) == 10_000;
    assert Power10(8) == 10000 * Power10(4);
    assert Power10(12) == 10000 * Power10(8);
    assert Power10(16) == 10000 * Power10(12);
    DigitsBound(n, 16);
  }

  lemma ClaimBytesBound(c: Claim)
    requires IsHostClaim(c)
    ensures ClaimBytes(c) <= MAX_CLAIM_BYTES
  {
    AsciiQuotedBytes(c.token);
    AsciiQuotedBytes(c.claimedAt);
    if c.scope.Some? {
      AsciiQuotedBytes(c.scope.value.scopeDigest);
      AsciiQuotedBytes(c.scope.value.correlationId);
    }
  }

  lemma ReceiptBytesBound(r: Receipt)
    requires IsReceipt(r)
    ensures ReceiptBytes(r) <= MAX_RECEIPT_BYTES
  {
    assert IsAscii(r.responseId) by {
      forall i | 0 <= i < |r.responseId| ensures 0x20 <= r.responseId[i] < 0x7F && r.responseId[i] != 0x22 && r.responseId[i] != 0x5C {
        if i < 5 { assert r.responseId[i] == r.responseId[..5][i]; }
      }
    }
    AsciiQuotedBytes(r.responseId);
    AsciiQuotedBytes(r.scopeDigest);
    AsciiQuotedBytes(r.outputDigest);
    JsonText.QuotedWeight(r.model);
    ByteLengthWithinWeight(JsonText.Quoted(r.model));
    CountBytesBound(r.usage.inputTokens);
    CountBytesBound(r.usage.outputTokens);
    CountBytesBound(r.usage.totalTokens);
  }

  /** The reserve leaves more than a kilobyte of slack for other writers. */
  lemma SlackIsPositive()
    ensures SLACK >= 1024
  {}

  /**
   The bytes demanded at claim time cover the claim, the largest receipt and the
   tail: a capture is never refused for size unless other writers added more than
   the slack in between.
   */
  lemma HeadroomSuffices(claimed: Row, claim: Claim, etagBytes: nat, current: Row, value: Receipt)
    requires Apply(ToClaim(claim, etagBytes), claimed).Replace?
    requires IsHostClaim(claim) && IsReceipt(value) && 1 <= claimed.version && 1 <= current.version < MAX_SAFE_INTEGER
    requires current.claim == Some(claim) && current.receipt.None? && current.rest <= claimed.rest + SLACK
    ensures RowBytes(current.(receipt := Some(value), version := current.version + 1)) + TAIL_RESERVE <= DOCUMENT_LIMIT
  {
    ClaimBytesBound(claim);
    ReceiptBytesBound(value);
    CountBytesBound(current.version + 1);
  }
}
