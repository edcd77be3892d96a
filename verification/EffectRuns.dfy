/**
 That the protocol of the paid effect gets somewhere: runs in which a host pays once
 and captures the receipt, in which another host recovers a lost receipt from a
 witness, and in which a stored receipt is read again.
 */
module EffectRuns {
  import opened Outcomes
  import opened Utf16
  import opened EffectRecord
  import opened EffectProtocol
  import Reach

  function Runs(c: Correlate): (State, seq<Event>) -> State {
    (s, events) => Run(c, s, events)
  }

  function Steps(c: Correlate): (State, Event) -> State {
    (s, e) => Step(c, s, e)
  }

  /** Some run reaches the state. */
  ghost predicate IsReached(c: Correlate, t: State) {
    exists events :: Run(c, INITIAL, events) == t
  }

  lemma Then(c: Correlate, t: State, e: Event) returns (u: State)
    requires IsReached(c, t)
    ensures u == Step(c, t, e) && IsReached(c, u)
  {
    u := Step(c, t, e);
    var events :| Run(c, INITIAL, events) == t;
    RunsAreRuns(c);
    assert [e][1..] == [];
    assert Run(c, t, [e]) == u;
    Reach.RunConcat(Runs(c), Steps(c), INITIAL, events, [e]);
  }

  lemma RunsAreRuns(c: Correlate)
    ensures Reach.IsRunOf(Runs(c), Steps(c))
  {}

  // ---- A row that can be paid for -----------------------------------------------------------

  /** A started row with the reserve that a claim asks for, and a host that may claim it. */
  predicate IsPayable(c: Correlate, row: Row, call: Call, etagBytes: nat) {
    && IsOwnRow(row, call.binding) && row.version < 1_000_000
    && row.status == Started && row.claim.None? && row.receipt.None?
    && RowBytes(row) + etagBytes + 4096 <= 850_000
    && IsStart(call) && call.stage == Claiming(0)
    && (call.correlated ==> IsDigest(c(call.binding, call.token, call.scopeDigest)))
  }

  predicate IsTimestamp(t: Text) {
    |t| == 24 && IsAscii(t)
  }

  function ClaimOf(c: Correlate, call: Call, claimedAt: Text): Claim {
    Claim(call.token, claimedAt, ScopeOf(c, call))
  }

  /** The reserve leaves room for the claim itself. */
  lemma ClaimFits(c: Correlate, row: Row, call: Call, claimedAt: Text, etagBytes: nat)
    requires IsPayable(c, row, call, etagBytes) && IsTimestamp(claimedAt)
    ensures RowBytes(row.(claim := Some(ClaimOf(c, call, claimedAt)), version := row.version + 1)) + 256 <= 850_000
  {
    ClaimBytesBound(ClaimOf(c, call, claimedAt));
    CountBytesBound(row.version + 1);
  }

  function Claimed(c: Correlate, row: Row, call: Call, claimedAt: Text): Row {
    row.(claim := Some(ClaimOf(c, call, claimedAt)), version := row.version + 1)
  }

  function Captured(c: Correlate, row: Row, call: Call, claimedAt: Text, value: Receipt): Row {
    Claimed(c, row, call, claimedAt).(receipt := Some(value), version := row.version + 2)
  }

  lemma ClaimApplies(row: Row, claim: Claim, etagBytes: nat)
    requires row.status == Started && row.claim.None? && row.receipt.None? && RowBytes(row) + etagBytes + 4096 <= 850_000
    ensures Apply(ToClaim(claim, etagBytes), row).Replace?
  {}

  /** And so does it for the largest receipt. */
  lemma ReceiptFits(c: Correlate, row: Row, call: Call, claimedAt: Text, etagBytes: nat, value: Receipt)
    requires IsPayable(c, row, call, etagBytes) && IsTimestamp(claimedAt) && IsReceipt(value)
    ensures RowBytes(Captured(c, row, call, claimedAt, value)) + 256 <= 850_000
  {
    var claim := ClaimOf(c, call, claimedAt);
    ClaimApplies(row, claim, etagBytes);
    HeadroomSuffices(row, claim, etagBytes, Claimed(c, row, call, claimedAt), value);
  }

  // ---- Claim and POST ----------------------------------------------------------------------------

  /** The document is claimed by call 0, which has not posted yet. */
  ghost predicate IsClaimedState(c: Correlate, s: State, row: Row, call: Call, claimedAt: Text) {
    && s.history == [row, Claimed(c, row, call, claimedAt)] && s.posts == []
    && s.calls == map[0 := call.(stage := Stage.Claimed)]
  }

  lemma HostClaims(c: Correlate, row: Row, call: Call, claimedAt: Text, etagBytes: nat) returns (s: State)
    requires IsPayable(c, row, call, etagBytes) && IsTimestamp(claimedAt)
    ensures IsReached(c, s) && IsClaimedState(c, s, row, call, claimedAt)
  {
    var next := Claimed(c, row, call, claimedAt);
    var update := ToClaim(ClaimOf(c, call, claimedAt), etagBytes);
    ClaimFits(c, row, call, claimedAt, etagBytes);
    ClaimIsWrittenExactlyWhen(call.binding, ClaimOf(c, call, claimedAt), etagBytes, row, next);
    assert Run(c, INITIAL, []) == INITIAL;
    var s1 := Then(c, INITIAL, Create(row));
    var s2 := Then(c, s1, Start(0, call));
    var s3 := Then(c, s2, Read(0, Some(0), claimedAt, etagBytes));
    var put := Put(0, 0, update, 0, next);
    assert s3.calls[0].stage == ClaimSent(put) && s3.puts == {put};
    s := ClaimAnswered(c, s3, put);
  }

  /** The write takes effect and its reply shows what was sent. */
  lemma ClaimAnswered(c: Correlate, s: State, put: Put) returns (t: State)
    requires IsReached(c, s) && |s.history| == 1 && put.etag == 0 && put in s.puts && put.pid in s.calls
    requires s.calls[put.pid].stage == ClaimSent(put) && put.next.shaped
    ensures IsReached(c, t) && t.history == s.history + [put.next] && t.posts == s.posts
    ensures t.calls == s.calls[put.pid := s.calls[put.pid].(stage := Stage.Claimed)]
  {
    var s1 := Then(c, s, Deliver(put));
    WrittenExactlyWhen(put.next, Confirmed(put.next));
    t := Then(c, s1, Answer(put.pid, Confirmed(put.next)));
  }

  /** The host has posted, once. */
  lemma HostPosts(c: Correlate, row: Row, call: Call, claimedAt: Text, etagBytes: nat) returns (s: State)
    requires IsPayable(c, row, call, etagBytes) && IsTimestamp(claimedAt)
    ensures IsReached(c, s) && s.history == [row, Claimed(c, row, call, claimedAt)]
    ensures s.posts == [Post(0, call.token, ScopeOf(c, call))] && s.calls == map[0 := call.(stage := Posted)]
  {
    var s1 := HostClaims(c, row, call, claimedAt, etagBytes);
    s := Then(c, s1, IssuePost(0));
    assert ScopeOf(c, call.(stage := Stage.Claimed)) == ScopeOf(c, call);
  }

  // ---- Capture --------------------------------------------------------------------------------------

  /** A call that is to capture the receipt reads the claimed row, writes it and is answered. */
  lemma CallCaptures(c: Correlate, s: State, pid: Pid, row: Row, next: Row) returns (t: State)
    requires IsReached(c, s) && pid in s.calls && s.calls[pid].stage.Capturing? && s.calls[pid].stage.attempt == 0
    requires |s.history| == 2 && s.history[1] == row && row.shaped
    requires Attempt(s.calls[pid].binding, ToCapture(s.calls[pid].stage.token, s.calls[pid].stage.value), Some(row)) == Replace(next)
    ensures IsReached(c, t) && t.history == s.history + [next] && t.posts == s.posts
    ensures var stage := s.calls[pid].stage;
            t.calls == s.calls[pid := s.calls[pid].(stage := AfterCapture(stage.token, stage.value, stage.how))]
  {
    var stage := s.calls[pid].stage;
    var put := Put(pid, 0, ToCapture(stage.token, stage.value), 1, next);
    CaptureIsWrittenExactlyWhen(s.calls[pid].binding, stage.token, stage.value, row, next);
    var s1 := Then(c, s, Read(pid, Some(1), [], 0));
    assert s1.calls[pid].stage == CaptureSent(put, stage.token, stage.value, stage.how);
    t := CaptureAnswered(c, s1, put);
  }

  lemma CaptureAnswered(c: Correlate, s: State, put: Put) returns (t: State)
    requires IsReached(c, s) && put.etag + 1 == |s.history| && put in s.puts && put.pid in s.calls
    requires s.calls[put.pid].stage.CaptureSent? && s.calls[put.pid].stage.put == put && put.next.shaped
    ensures IsReached(c, t) && t.history == s.history + [put.next] && t.posts == s.posts
    ensures var stage := s.calls[put.pid].stage;
            t.calls == s.calls[put.pid := s.calls[put.pid].(stage := AfterCapture(stage.token, stage.value, stage.how))]
  {
    var s1 := Then(c, s, Deliver(put));
    WrittenExactlyWhen(put.next, Confirmed(put.next));
    t := Then(c, s1, Answer(put.pid, Confirmed(put.next)));
  }

  lemma CaptureIsDue(c: Correlate, row: Row, call: Call, claimedAt: Text, etagBytes: nat, value: Receipt)
    requires IsPayable(c, row, call, etagBytes) && IsTimestamp(claimedAt)
    requires IsReceipt(value) && value.scopeDigest == call.scopeDigest
    ensures Attempt(call.binding, ToCapture(call.token, value), Some(Claimed(c, row, call, claimedAt)))
            == Replace(Captured(c, row, call, claimedAt, value))
  {
    ReceiptFits(c, row, call, claimedAt, etagBytes, value);
    CaptureIsWrittenExactlyWhen(call.binding, call.token, value, Claimed(c, row, call, claimedAt), Captured(c, row, call, claimedAt, value));
  }

  /**
   One host on a payable row: some run ends with exactly one POST, under the host's own
   token, with the receipt of its response in the document, and with success.
   */
  lemma OneHostSucceeds(c: Correlate, row: Row, call: Call, claimedAt: Text, etagBytes: nat, value: Receipt) returns (s: State)
    requires IsPayable(c, row, call, etagBytes) && IsTimestamp(claimedAt)
    requires IsReceipt(value) && value.scopeDigest == call.scopeDigest
    ensures IsReached(c, s) && s.posts == [Post(0, call.token, ScopeOf(c, call))]
    ensures s.history == [row, Claimed(c, row, call, claimedAt), Captured(c, row, call, claimedAt, value)]
    ensures s.calls == map[0 := call.(stage := Done(value, ByCapture, Some(call.token)))]
  {
    var claimed, captured := Claimed(c, row, call, claimedAt), Captured(c, row, call, claimedAt, value);
    var s1 := HostResponds(c, row, call, claimedAt, etagBytes, value);
    CaptureIsDue(c, row, call, claimedAt, etagBytes, value);
    s := CallCaptures(c, s1, 0, claimed, captured);
    assert s.history == [row, claimed] + [captured];
  }

  lemma HostResponds(c: Correlate, row: Row, call: Call, claimedAt: Text, etagBytes: nat, value: Receipt) returns (s: State)
    requires IsPayable(c, row, call, etagBytes) && IsTimestamp(claimedAt)
    requires IsReceipt(value) && value.scopeDigest == call.scopeDigest
    ensures IsReached(c, s) && s.history == [row, Claimed(c, row, call, claimedAt)]
    ensures s.posts == [Post(0, call.token, ScopeOf(c, call))]
    ensures s.calls == map[0 := call.(stage := Capturing(0, call.token, value, ByCapture))]
  {
    var s1 := HostPosts(c, row, call, claimedAt, etagBytes);
    s := Then(c, s1, Respond(0, value, true));
  }

  // ---- Recovery ---------------------------------------------------------------------------------------

  /** Another host for the same effect and scope. */
  predicate IsOther(call: Call, other: Call, stage: Stage) {
    IsStart(other) && other.stage == stage && other.binding == call.binding
    && other.scopeDigest == call.scopeDigest && other.token != call.token
  }

  /**
   The paying host stops after its POST; another host recovers the receipt from a witness.
   Some run ends with that one POST, the receipt in the document, and success.
   */
  lemma WitnessRecovers(c: Correlate, row: Row, call: Call, claimedAt: Text, etagBytes: nat, value: Receipt, other: Call)
    returns (s: State)
    requires IsPayable(c, row, call, etagBytes) && IsTimestamp(claimedAt) && call.correlated
    requires IsReceipt(value) && value.scopeDigest == call.scopeDigest && IsOther(call, other, Looking)
    ensures IsReached(c, s) && s.posts == [Post(0, call.token, ScopeOf(c, call))]
    ensures s.history == [row, Claimed(c, row, call, claimedAt), Captured(c, row, call, claimedAt, value)]
    ensures 1 in s.calls && s.calls[1].stage == Done(value, ByWitness, Some(call.token))
  {
    var claimed, captured := Claimed(c, row, call, claimedAt), Captured(c, row, call, claimedAt, value);
    var s1 := OtherChecks(c, row, call, claimedAt, etagBytes, value, other);
    CaptureIsDue(c, row, call, claimedAt, etagBytes, value);
    var s2 := CallCaptures(c, s1, 1, claimed, captured);
    assert s2.history == [row, claimed] + [captured];
    s := OtherConfirms(c, s2, captured, call.token, value);
  }

  /** The last read of a recovery finds what it captured. */
  lemma OtherConfirms(c: Correlate, s: State, row: Row, token: Text, value: Receipt) returns (t: State)
    requires IsReached(c, s) && |s.history| == 3 && s.history[2] == row && row.receipt == Some(value)
    requires 1 in s.calls && s.calls[1].stage == Confirming(token, value) && IsRecoverableRow(c, Some(row), s.calls[1])
    ensures IsReached(c, t) && t.history == s.history && t.posts == s.posts
    ensures 1 in t.calls && t.calls[1].stage == Done(value, ByWitness, Some(token))
  {
    t := Then(c, s, Read(1, Some(2), [], 0));
  }

  lemma OtherChecks(c: Correlate, row: Row, call: Call, claimedAt: Text, etagBytes: nat, value: Receipt, other: Call)
    returns (s: State)
    requires IsPayable(c, row, call, etagBytes) && IsTimestamp(claimedAt) && call.correlated
    requires IsReceipt(value) && value.scopeDigest == call.scopeDigest && IsOther(call, other, Looking)
    ensures IsReached(c, s) && s.history == [row, Claimed(c, row, call, claimedAt)]
    ensures s.posts == [Post(0, call.token, ScopeOf(c, call))]
    ensures 1 in s.calls && s.calls[1] == other.(stage := Capturing(0, call.token, value, ByWitness))
  {
    var s1 := OtherLooks(c, row, call, claimedAt, etagBytes, other);
    var s2 := Then(c, s1, Read(1, Some(1), [], 0));
    var s3 := Then(c, s2, Witness(1, value));
    assert IsRecoverableRow(c, Some(s3.history[1]), s3.calls[1]);
    s := Then(c, s3, Read(1, Some(1), [], 0));
  }

  lemma OtherLooks(c: Correlate, row: Row, call: Call, claimedAt: Text, etagBytes: nat, other: Call) returns (s: State)
    requires IsPayable(c, row, call, etagBytes) && IsTimestamp(claimedAt) && IsOther(call, other, Looking)
    ensures IsReached(c, s) && s.history == [row, Claimed(c, row, call, claimedAt)]
    ensures s.posts == [Post(0, call.token, ScopeOf(c, call))] && 1 in s.calls && s.calls[1] == other
  {
    var s1 := HostPosts(c, row, call, claimedAt, etagBytes);
    var s2 := Then(c, s1, Stop(0));
    s := Then(c, s2, Start(1, other));
  }

  /** A receipt that is stored is read again by another host, without a further POST. */
  lemma StoredReceiptIsRead(c: Correlate, row: Row, call: Call, claimedAt: Text, etagBytes: nat, value: Receipt, other: Call)
    returns (s: State)
    requires IsPayable(c, row, call, etagBytes) && IsTimestamp(claimedAt)
    requires IsReceipt(value) && value.scopeDigest == call.scopeDigest && IsOther(call, other, Restoring)
    ensures IsReached(c, s) && s.posts == [Post(0, call.token, ScopeOf(c, call))]
    ensures 1 in s.calls && s.calls[1].stage == Done(value, ByStored, None)
  {
    var s1 := OneHostSucceeds(c, row, call, claimedAt, etagBytes, value);
    var s2 := OtherRestores(c, s1, call, other);
    s := OtherRereads(c, s2, Captured(c, row, call, claimedAt, value), value);
  }

  lemma OtherRereads(c: Correlate, s: State, row: Row, value: Receipt) returns (t: State)
    requires IsReached(c, s) && |s.history| == 3 && s.history[2] == row && row.receipt == Some(value)
    requires 1 in s.calls && s.calls[1].stage == Restoring && OwnerFault(row, s.calls[1].binding).None?
    requires row.status == Started && value.scopeDigest == s.calls[1].scopeDigest
    ensures IsReached(c, t) && t.posts == s.posts && 1 in t.calls && t.calls[1].stage == Done(value, ByStored, None)
  {
    var s1 := Then(c, s, Read(1, Some(2), [], 0));
    var s2 := Then(c, s1, Fetch(1, value));
    t := Then(c, s2, Read(1, Some(2), [], 0));
  }

  lemma OtherRestores(c: Correlate, s: State, call: Call, other: Call) returns (t: State)
    requires IsReached(c, s) && 1 !in s.calls && IsFresh(s, other.token) && IsOther(call, other, Restoring)
    ensures IsReached(c, t) && t == s.(calls := s.calls[1 := other])
  {
    t := Then(c, s, Start(1, other));
  }
}
