/**
 Any number of hosts working on one effect document: paid execution, recovery
 from signed witnesses, and read-only recovery, interleaved with stale reads,
 lost, late and repeated writes, ambiguous replies, crashes and other writers.
 */
module EffectProtocol {
  import opened Outcomes
  import opened Utf16
  import opened EffectRecord

  type Pid = nat

  /** SHA-256 of the correlation fields. */
  type Correlate = (Binding, Text, Text) -> Text

  /** A conditional PUT: `etag` is the position in the document's history it was derived from. */
  datatype Put = Put(pid: Pid, attempt: nat, update: Update, etag: nat, next: Row)

  datatype How = ByCapture | ByWitness | ByStored

  /** Where a call stands between two awaits. `under` is the token a finished call captured its receipt under. */
  datatype Stage =
    | Claiming(attempt: nat)
    | ClaimSent(put: Put)
    | Claimed
    | Posted
    | Capturing(attempt: nat, token: Text, value: Receipt, how: How)
    | CaptureSent(put: Put, token: Text, value: Receipt, how: How)
    | Looking
    | Found(token: Text, correlationId: Text)
    | Checked(token: Text, value: Receipt)
    | Confirming(token: Text, value: Receipt)
    | Restoring
    | Fetching(value: Receipt)
    | Rechecking(value: Receipt)
    | Done(value: Receipt, how: How, under: Option<Text>)
    | Stopped

  /** One call on one host. `scopeDigest` identifies the endpoint and model the host is configured for. */
  datatype Call = Call(binding: Binding, token: Text, scopeDigest: Text, correlated: bool, stage: Stage)

  /** A paid POST that was issued. */
  datatype Post = Post(pid: Pid, token: Text, scope: Option<Scope>)

  /** `history` holds every committed version of the document, the current one last. */
  datatype State = State(history: seq<Row>, puts: set<Put>, committed: set<Put>, calls: map<Pid, Call>, posts: seq<Post>)

  datatype Event =
    | Create(row: Row)
    | OtherWriter(status: Status, rest: nat)
    | Start(pid: Pid, call: Call)
    | Read(pid: Pid, version: Option<nat>, claimedAt: Text, etagBytes: nat)
    | Deliver(put: Put)
    | Answer(pid: Pid, reply: Reply)
    | IssuePost(pid: Pid)
    | Respond(pid: Pid, value: Receipt, echoed: bool)
    | Witness(pid: Pid, value: Receipt)
    | Fetch(pid: Pid, value: Receipt)
    | Stop(pid: Pid)

  const INITIAL := State([], {}, {}, map[], [])

  function With(s: State, pid: Pid, stage: Stage): State
    requires pid in s.calls
  {
    s.(calls := s.calls[pid := s.calls[pid].(stage := stage)])
  }

  function ScopeOf(c: Correlate, call: Call): Option<Scope> {
    if call.correlated
    then Some(Scope(call.scopeDigest, c(call.binding, call.token, call.scopeDigest)))
    else None
  }

  /** The scope of the claim a capture is for: the call's own, or the one whose correlation a witness names. */
  function CaptureScope(c: Correlate, call: Call, token: Text, how: How): Option<Scope> {
    if how.ByWitness? then Some(Scope(call.scopeDigest, c(call.binding, token, call.scopeDigest))) else ScopeOf(c, call)
  }

  // ---- Steps ---------------------------------------------------------------------------

  function Step(c: Correlate, s: State, e: Event): State {
    match e
    case Create(row) =>
      if s.history == [] && row.claim.None? && row.receipt.None? then s.(history := [row]) else s
    case OtherWriter(status, rest) =>
      // Other writers keep the claim and the receipt and raise the version by one.
      if s.history == [] then s
      else
        var last := s.history[|s.history| - 1];
        s.(history := s.history + [last.(status := status, rest := rest, version := last.version + 1)])
    case Start(pid, call) =>
      if pid !in s.calls && IsFresh(s, call.token) && IsStart(call) then s.(calls := s.calls[pid := call]) else s
    case Read(pid, version, claimedAt, etagBytes) =>
      if pid !in s.calls then s
      else
        var row := if version.Some? && version.value < |s.history| then Some(s.history[version.value]) else None;
        AfterRead(c, s, pid, version.UnwrapOr(0), row, claimedAt, etagBytes)
    case Deliver(put) =>
      // If-Match: the write takes effect only on the version it was derived from.
      if put in s.puts && put.etag + 1 == |s.history|
      then s.(history := s.history + [put.next], committed := s.committed + {put})
      else s
    case Answer(pid, reply) =>
      if pid in s.calls then AfterAnswer(s, pid, reply) else s
    case IssuePost(pid) =>
      if pid in s.calls && s.calls[pid].stage.Claimed?
      then With(s, pid, Posted).(posts := s.posts + [Post(pid, s.calls[pid].token, ScopeOf(c, s.calls[pid]))])
      else s
    case Respond(pid, value, echoed) =>
      if pid in s.calls && s.calls[pid].stage.Posted? then
        var call := s.calls[pid];
        With(s, pid, if IsReceipt(value) && value.scopeDigest == call.scopeDigest && (call.correlated ==> echoed)
                     then Capturing(0, call.token, value, ByCapture) else Stopped)
      else s
    case Witness(pid, value) =>
      if pid in s.calls && s.calls[pid].stage.Found? then
        var call := s.calls[pid];
        With(s, pid, if IsReceipt(value) && value.scopeDigest == call.scopeDigest
                     then Checked(call.stage.token, value) else Stopped)
      else s
    case Fetch(pid, value) =>
      if pid in s.calls && s.calls[pid].stage.Fetching?
      then With(s, pid, if value == s.calls[pid].stage.value then Rechecking(value) else Stopped)
      else s
    case Stop(pid) =>
      if pid in s.calls then With(s, pid, Stopped) else s
  }

  /** `randomUUID`: no call ever had the token. */
  predicate IsFresh(s: State, token: Text) {
    forall pid | pid in s.calls :: s.calls[pid].token != token
  }

  predicate IsStart(call: Call) {
    && (call.stage == Claiming(0) || call.stage == Looking || call.stage == Restoring)
    && |call.token| == 36 && IsAscii(call.token) && IsDigest(call.scopeDigest)
  }

  function AfterRead(c: Correlate, s: State, pid: Pid, version: nat, row: Option<Row>, claimedAt: Text, etagBytes: nat): State
    requires pid in s.calls
  {
    var (stage, sent) := ReadOutcome(c, s.calls[pid], pid, version, row, claimedAt, etagBytes);
    With(s, pid, stage).(puts := s.puts + sent)
  }

  /** Where a call goes after reading a row, and the write it sends. */
  function ReadOutcome(c: Correlate, call: Call, pid: Pid, version: nat, row: Option<Row>, claimedAt: Text, etagBytes: nat)
    : (Stage, set<Put>)
  {
    match call.stage
    case Claiming(attempt) => ClaimOutcome(c, call, pid, attempt, version, row, claimedAt, etagBytes)
    case Capturing(attempt, token, value, how) => CaptureOutcome(call, pid, version, row)
    case _ => (CheckOutcome(c, call, row), {})
  }

  function ClaimOutcome(c: Correlate, call: Call, pid: Pid, attempt: nat, version: nat, row: Option<Row>, claimedAt: Text, etagBytes: nat)
    : (Stage, set<Put>)
  {
    if |claimedAt| != 24 || !IsAscii(claimedAt)
       || (call.correlated && !IsDigest(c(call.binding, call.token, call.scopeDigest))) then (call.stage, {})
    else
      var update := ToClaim(Claim(call.token, claimedAt, ScopeOf(c, call)), etagBytes);
      match Attempt(call.binding, update, row)
      case Replace(next) =>
        var put := Put(pid, attempt, update, version, next);
        (ClaimSent(put), {put})
      case _ => (Stopped, {})
  }

  function CaptureOutcome(call: Call, pid: Pid, version: nat, row: Option<Row>): (Stage, set<Put>)
    requires call.stage.Capturing?
  {
    var Capturing(attempt, token, value, how) := call.stage;
    match Attempt(call.binding, ToCapture(token, value), row)
    case Replace(next) =>
      var put := Put(pid, attempt, ToCapture(token, value), version, next);
      (CaptureSent(put, token, value, how), {put})
    case Unchanged => (AfterCapture(token, value, how), {})
    case Refuse(_) => (Stopped, {})
  }

  /** The reads that only check the row. */
  function CheckOutcome(c: Correlate, call: Call, row: Option<Row>): Stage {
    match call.stage
    case Looking =>
      if IsRecoverableRow(c, row, call) && row.value.receipt.None?
      then Found(row.value.claim.value.token, row.value.claim.value.scope.value.correlationId) else Stopped
    case Checked(token, value) =>
      if IsRecoverableRow(c, row, call) && row.value.claim.value.token == token
      then Capturing(0, token, value, ByWitness) else Stopped
    case Confirming(token, value) =>
      if IsRecoverableRow(c, row, call) && row.value.receipt == Some(value) then Done(value, ByWitness, Some(token)) else Stopped
    case Restoring =>
      if row.Some? && OwnerFault(row.value, call.binding).None? && row.value.receipt.Some?
         && IsRecoverable(row.value.status) && row.value.receipt.value.scopeDigest == call.scopeDigest
      then Fetching(row.value.receipt.value) else Stopped
    case Rechecking(value) =>
      if row.Some? && OwnerFault(row.value, call.binding).None? && IsRecoverable(row.value.status)
         && row.value.receipt == Some(value)
      then Done(value, ByStored, None) else Stopped
    case stage => stage
  }

  /** A confirmed capture ends the normal path; recovery reads the row once more. */
  function AfterCapture(token: Text, value: Receipt, how: How): Stage {
    if how.ByWitness? then Confirming(token, value) else Done(value, how, Some(token))
  }

  /** `validateRow`: the identity, a recoverable status and the correlation committed before the POST. */
  predicate IsRecoverableRow(c: Correlate, row: Option<Row>, call: Call) {
    && row.Some? && row.value.shaped && row.value.binding == call.binding && IsRecoverable(row.value.status)
    && row.value.claim.Some? && row.value.claim.value.scope.Some?
    && row.value.claim.value.scope.value ==
       Scope(call.scopeDigest, c(call.binding, row.value.claim.value.token, call.scopeDigest))
  }

  function AfterAnswer(s: State, pid: Pid, reply: Reply): State
    requires pid in s.calls
  {
    var stage := s.calls[pid].stage;
    if !stage.ClaimSent? && !stage.CaptureSent? then s
    else if reply.Confirmed? && stage.put !in s.committed then s
    else With(s, pid, AnswerOutcome(stage, reply))
  }

  function AnswerOutcome(stage: Stage, reply: Reply): Stage
    requires stage.ClaimSent? || stage.CaptureSent?
  {
    match Judge(stage.put.next, reply)
    case Written => if stage.ClaimSent? then Claimed else AfterCapture(stage.token, stage.value, stage.how)
    case GiveUp(_) => Stopped
    case Again =>
      if stage.put.attempt + 1 >= MAX_ATTEMPTS then Stopped
      else if stage.ClaimSent? then Claiming(stage.put.attempt + 1)
      else Capturing(stage.put.attempt + 1, stage.token, stage.value, stage.how)
  }

  function Run(c: Correlate, s: State, events: seq<Event>): State
    decreases |events|
  {
    if events == [] then s else Run(c, Step(c, s, events[0]), events[1..])
  }

  // ---- What every step keeps -----------------------------------------------------------------

  /** One committed version after another. */
  ghost predicate Follows(a: Row, b: Row) {
    && b.binding == a.binding && b.version == a.version + 1
    && (a.claim.Some? ==> b.claim == a.claim)
    && (a.receipt.Some? ==> b.receipt == a.receipt)
    && (a.claim.None? && b.claim.Some? ==>
          IsClaimOf(a, b.claim.value) && b == a.(claim := b.claim, version := a.version + 1))
    && (a.receipt.None? && b.receipt.Some? ==>
          IsCaptureOf(a, b.receipt.value) && b == a.(receipt := b.receipt, version := a.version + 1))
  }

  ghost predicate IsClaimOf(a: Row, claim: Claim) {
    1 <= a.version && IsHostClaim(claim) && exists etagBytes: nat :: Apply(ToClaim(claim, etagBytes), a).Replace?
  }

  ghost predicate IsCaptureOf(a: Row, value: Receipt) {
    a.claim.Some? && IsReceipt(value) && a.status in {Started, Unknown, Completed}
    && (a.claim.value.scope.Some? ==> a.claim.value.scope.value.scopeDigest == value.scopeDigest)
  }

  ghost predicate HistoryOk(h: seq<Row>) {
    && (h != [] ==> h[0].claim.None? && h[0].receipt.None?)
    && forall i | 0 <= i < |h| - 1 :: Follows(h[i], h[i + 1])
  }

  ghost predicate PutOk(c: Correlate, s: State, put: Put) {
    && put.pid in s.calls && put.etag < |s.history|
    && Attempt(s.calls[put.pid].binding, put.update, Some(s.history[put.etag])) == Replace(put.next)
    && match put.update
       case ToClaim(claim, _) =>
         IsHostClaim(claim) && claim.token == s.calls[put.pid].token && claim.scope == ScopeOf(c, s.calls[put.pid])
       case ToCapture(_, value) => IsReceipt(value)
  }

  ghost predicate CommittedOk(c: Correlate, s: State, put: Put) {
    && put in s.puts && put.pid in s.calls && put.etag + 1 < |s.history| && s.history[put.etag + 1] == put.next
    && match put.update
       case ToClaim(_, _) =>
         && put.next.claim.Some? && put.next.claim.value.token == s.calls[put.pid].token
         && put.next.claim.value.scope == ScopeOf(c, s.calls[put.pid])
       case ToCapture(_, value) => put.next.receipt == Some(value)
  }

  ghost predicate HoldsClaim(h: seq<Row>, token: Text, scope: Option<Scope>) {
    h != [] && h[|h| - 1].claim.Some? && h[|h| - 1].claim.value.token == token && h[|h| - 1].claim.value.scope == scope
  }

  ghost predicate HoldsReceipt(h: seq<Row>, value: Receipt) {
    h != [] && h[|h| - 1].receipt == Some(value)
  }

  /** What a call knows at each stage. */
  ghost predicate CallOk(c: Correlate, s: State, pid: Pid)
    requires pid in s.calls
  {
    var call := s.calls[pid];
    match call.stage
    case ClaimSent(put) => put in s.puts && put.pid == pid && put.update.ToClaim?
    case Claimed => HoldsClaim(s.history, call.token, ScopeOf(c, call))
    case Posted => HoldsClaim(s.history, call.token, ScopeOf(c, call))
    case Capturing(_, token, value, how) => CaptureOk(c, s, pid, token, value, how)
    case CaptureSent(put, token, value, how) =>
      CaptureOk(c, s, pid, token, value, how) && put in s.puts && put.pid == pid && put.update == ToCapture(token, value)
    case Checked(_, value) => IsReceipt(value) && value.scopeDigest == call.scopeDigest
    case Confirming(token, value) =>
      value.scopeDigest == call.scopeDigest && HoldsClaim(s.history, token, CaptureScope(c, call, token, ByWitness))
    case Fetching(value) => value.scopeDigest == call.scopeDigest
    case Rechecking(value) => value.scopeDigest == call.scopeDigest
    case Done(value, how, under) =>
      && HoldsReceipt(s.history, value) && value.scopeDigest == call.scopeDigest
      && (how.ByStored? <==> under.None?)
      && (how.ByCapture? ==> under == Some(call.token))
      && (under.Some? ==> HoldsClaim(s.history, under.value, CaptureScope(c, call, under.value, how)))
    case _ => true
  }

  ghost predicate CaptureOk(c: Correlate, s: State, pid: Pid, token: Text, value: Receipt, how: How)
    requires pid in s.calls
  {
    && IsReceipt(value) && value.scopeDigest == s.calls[pid].scopeDigest && !how.ByStored?
    && (how.ByCapture? ==> token == s.calls[pid].token)
    && HoldsClaim(s.history, token, CaptureScope(c, s.calls[pid], token, how))
  }

  ghost predicate BeforePost(stage: Stage) {
    stage.Claiming? || stage.ClaimSent? || stage.Claimed?
  }

  ghost predicate PostsOk(c: Correlate, s: State) {
    && |s.posts| <= 1
    && (s.posts != [] ==>
          var post := s.posts[0];
          && post.pid in s.calls && post.token == s.calls[post.pid].token && !BeforePost(s.calls[post.pid].stage)
          && HoldsClaim(s.history, post.token, post.scope))
  }

  ghost predicate DistinctTokens(s: State) {
    forall p, q | p in s.calls && q in s.calls && s.calls[p].token == s.calls[q].token :: p == q
  }

  ghost predicate Inv(c: Correlate, s: State) {
    && HistoryOk(s.history) && WritesOk(c, s) && CallsOk(c, s)
    && DistinctTokens(s) && PostsOk(c, s)
  }

  ghost predicate WritesOk(c: Correlate, s: State) {
    && (forall put | put in s.puts :: PutOk(c, s, put))
    && (forall put | put in s.committed :: CommittedOk(c, s, put))
  }

  ghost predicate CallsOk(c: Correlate, s: State) {
    forall pid | pid in s.calls :: CallOk(c, s, pid) && CallStarted(s, pid)
  }

  // ---- Single steps ------------------------------------------------------------------------------

  /** What an attempt sends follows the row it read: it adds a claim or a receipt and nothing else. */
  lemma AttemptFollows(binding: Binding, update: Update, row: Row, next: Row)
    requires Attempt(binding, update, Some(row)) == Replace(next)
    requires update.ToClaim? ==> IsHostClaim(update.claim)
    requires update.ToCapture? ==> IsReceipt(update.value)
    ensures Follows(row, next)
    ensures update.ToClaim? ==> next.claim == Some(update.claim)
    ensures update.ToCapture? ==> next.receipt == Some(update.value) && row.claim.Some? && row.claim.value.token == update.token
  {}

  lemma {:induction false} Persists(h: seq<Row>, i: nat, j: nat)
    requires HistoryOk(h) && i <= j < |h|
    ensures h[j].binding == h[i].binding && h[j].version == h[i].version + (j - i)
    ensures h[i].claim.Some? ==> h[j].claim == h[i].claim
    ensures h[i].receipt.Some? ==> h[j].receipt == h[i].receipt
    decreases j
  {
    if i < j {
      Persists(h, i, j - 1);
      assert Follows(h[j - 1], h[j - 1 + 1]);
    }
  }

  lemma AppendKeepsHistory(h: seq<Row>, row: Row)
    requires HistoryOk(h) && h != [] && Follows(h[|h| - 1], row)
    ensures HistoryOk(h + [row])
  {
    var h' := h + [row];
    forall i | 0 <= i < |h'| - 1 ensures Follows(h'[i], h'[i + 1]) {
      if i < |h| - 1 { assert Follows(h[i], h[i + 1]); }
    }
  }

  lemma AppendKeepsWrites(c: Correlate, s: State, row: Row, s': State)
    requires WritesOk(c, s)
    requires s' == s.(history := s.history + [row], committed := s'.committed)
    requires forall put | put in s'.committed && put !in s.committed :: CommittedOk(c, s', put)
    ensures WritesOk(c, s')
  {
    forall put | put in s'.committed ensures CommittedOk(c, s', put) {
      if put in s.committed { assert CommittedOk(c, s, put); }
    }
    forall put | put in s'.puts ensures PutOk(c, s', put) {
      assert PutOk(c, s, put);
      assert s'.history[put.etag] == s.history[put.etag];
    }
  }

  /** A version more keeps everything the calls, the writes and the posts rely on. */
  lemma AppendKeepsInv(c: Correlate, s: State, row: Row, s': State)
    requires Inv(c, s) && s.history != [] && Follows(s.history[|s.history| - 1], row)
    requires s' == s.(history := s.history + [row], committed := s'.committed)
    requires forall put | put in s'.committed && put !in s.committed :: CommittedOk(c, s', put)
    ensures Inv(c, s')
  {
    AppendKeepsHistory(s.history, row);
    AppendKeepsWrites(c, s, row, s');
    AppendKeepsCalls(c, s, row, s');
  }

  lemma AppendKeepsCalls(c: Correlate, s: State, row: Row, s': State)
    requires CallsOk(c, s) && s.history != [] && Follows(s.history[|s.history| - 1], row)
    requires s' == s.(history := s.history + [row], committed := s'.committed)
    ensures CallsOk(c, s')
  {
    forall pid | pid in s'.calls ensures CallOk(c, s', pid) && CallStarted(s', pid) {
      assert CallOk(c, s, pid) && CallStarted(s, pid);
    }
  }

  /** What the writes rely on of the calls never changes. */
  lemma SameCallsKeepPuts(c: Correlate, s: State, s': State)
    requires WritesOk(c, s) && s'.history == s.history && s'.committed == s.committed && s.puts <= s'.puts
    requires forall p | p in s.calls :: p in s'.calls && s'.calls[p].(stage := s.calls[p].stage) == s.calls[p]
    ensures forall put | put in s.puts :: PutOk(c, s', put)
    ensures forall put | put in s'.committed :: CommittedOk(c, s', put)
  {
    forall put | put in s.puts ensures PutOk(c, s', put) {
      assert PutOk(c, s, put);
      SameScope(c, s.calls[put.pid], s'.calls[put.pid]);
    }
    forall put | put in s'.committed ensures CommittedOk(c, s', put) {
      assert CommittedOk(c, s, put);
      SameScope(c, s.calls[put.pid], s'.calls[put.pid]);
    }
  }

  /** When one call changes, or starts, the others know what they knew. */
  lemma OneCallKeepsCalls(c: Correlate, s: State, pid: Pid, s': State)
    requires CallsOk(c, s) && s'.history == s.history && s.puts <= s'.puts
    requires pid in s'.calls && CallOk(c, s', pid) && CallStarted(s', pid)
    requires forall p | p in s'.calls && p != pid :: p in s.calls && s'.calls[p] == s.calls[p]
    ensures CallsOk(c, s')
  {
    forall p | p in s'.calls ensures CallOk(c, s', p) && CallStarted(s', p) {
      if p != pid {
        assert CallOk(c, s, p) && CallStarted(s, p);
      }
    }
  }

  lemma SameScope(c: Correlate, a: Call, b: Call)
    requires b.(stage := a.stage) == a
    ensures ScopeOf(c, a) == ScopeOf(c, b) && a.token == b.token && a.binding == b.binding
  {}

  lemma MoveKeepsPosts(c: Correlate, s: State, pid: Pid, stage: Stage, sent: set<Put>, s': State)
    requires PostsOk(c, s) && DistinctTokens(s) && pid in s.calls
    requires s' == With(s, pid, stage).(puts := s.puts + sent)
    requires BeforePost(stage) ==> BeforePost(s.calls[pid].stage)
    ensures PostsOk(c, s') && DistinctTokens(s')
  {}

  lemma MoveKeepsWrites(c: Correlate, s: State, pid: Pid, stage: Stage, sent: set<Put>, s': State)
    requires WritesOk(c, s) && pid in s.calls && MoveOk(c, s, pid, stage, sent)
    requires s' == With(s, pid, stage).(puts := s.puts + sent)
    ensures WritesOk(c, s')
  {
    SameCallsKeepPuts(c, s, s');
  }

  lemma MoveKeepsCalls(c: Correlate, s: State, pid: Pid, stage: Stage, sent: set<Put>, s': State)
    requires CallsOk(c, s) && pid in s.calls && MoveOk(c, s, pid, stage, sent)
    requires s' == With(s, pid, stage).(puts := s.puts + sent)
    ensures CallsOk(c, s')
  {
    assert CallStarted(s, pid);
    OneCallKeepsCalls(c, s, pid, s');
  }

  /** A call that moves on with what its new stage claims keeps the invariant. */
  lemma MoveKeepsInv(c: Correlate, s: State, pid: Pid, stage: Stage, sent: set<Put>, s': State)
    requires Inv(c, s) && pid in s.calls
    requires s' == With(s, pid, stage).(puts := s.puts + sent)
    requires MoveOk(c, s, pid, stage, sent)
    ensures Inv(c, s')
  {
    MoveKeepsWrites(c, s, pid, stage, sent, s');
    MoveKeepsPosts(c, s, pid, stage, sent, s');
    MoveKeepsCalls(c, s, pid, stage, sent, s');
  }

  /** A confirmed write is in the history, and what it wrote still holds. */
  lemma ConfirmedHolds(c: Correlate, s: State, put: Put)
    requires HistoryOk(s.history) && CommittedOk(c, s, put)
    ensures put.update.ToClaim? ==>
      HoldsClaim(s.history, s.calls[put.pid].token, ScopeOf(c, s.calls[put.pid]))
    ensures put.update.ToCapture? ==> HoldsReceipt(s.history, put.update.value)
  {
    Persists(s.history, put.etag + 1, |s.history| - 1);
  }

  /** A receipt read in any version, however stale, is the receipt of the current version. */
  lemma ReadHolds(h: seq<Row>, k: nat)
    requires HistoryOk(h) && k < |h|
    ensures h[k].receipt.Some? ==> HoldsReceipt(h, h[k].receipt.value)
    ensures h[k].claim.Some? ==> HoldsClaim(h, h[k].claim.value.token, h[k].claim.value.scope)
  {
    Persists(h, k, |h| - 1);
  }

  /** Tokens and scopes of calls have the shape their makers give them. */
  ghost predicate CallStarted(s: State, pid: Pid)
    requires pid in s.calls
  {
    |s.calls[pid].token| == 36 && IsAscii(s.calls[pid].token) && IsDigest(s.calls[pid].scopeDigest)
  }

  /** What a call may do with the row it read. */
  ghost predicate MoveOk(c: Correlate, s: State, pid: Pid, stage: Stage, sent: set<Put>)
    requires pid in s.calls
  {
    var s' := With(s, pid, stage).(puts := s.puts + sent);
    && CallOk(c, s', pid) && (forall put | put in sent :: PutOk(c, s', put))
    && (BeforePost(stage) ==> BeforePost(s.calls[pid].stage))
  }

  lemma ClaimReadOk(c: Correlate, s: State, pid: Pid, version: nat, row: Option<Row>, claimedAt: Text, etagBytes: nat)
    requires pid in s.calls && s.calls[pid].stage.Claiming? && CallStarted(s, pid)
    requires row.Some? ==> version < |s.history| && row.value == s.history[version]
    ensures var (stage, sent) := ReadOutcome(c, s.calls[pid], pid, version, row, claimedAt, etagBytes);
            MoveOk(c, s, pid, stage, sent)
  {
    var call := s.calls[pid];
    var (stage, sent) := ReadOutcome(c, call, pid, version, row, claimedAt, etagBytes);
    if sent != {} {
      var s' := With(s, pid, stage).(puts := s.puts + sent);
      SameScope(c, call, s'.calls[pid]);
      assert PutOk(c, s', stage.put);
    }
  }

  lemma CaptureReadOk(c: Correlate, s: State, pid: Pid, version: nat, row: Option<Row>, claimedAt: Text, etagBytes: nat)
    requires HistoryOk(s.history) && pid in s.calls && s.calls[pid].stage.Capturing? && CallOk(c, s, pid)
    requires row.Some? ==> version < |s.history| && row.value == s.history[version]
    ensures var (stage, sent) := ReadOutcome(c, s.calls[pid], pid, version, row, claimedAt, etagBytes);
            MoveOk(c, s, pid, stage, sent)
  {
    var call := s.calls[pid];
    var (stage, sent) := ReadOutcome(c, call, pid, version, row, claimedAt, etagBytes);
    var s' := With(s, pid, stage).(puts := s.puts + sent);
    SameScope(c, call, s'.calls[pid]);
    if sent != {} {
      assert PutOk(c, s', stage.put);
    } else if row.Some? {
      ReadHolds(s.history, version);
    }
  }

  lemma CheckReadOk(c: Correlate, s: State, pid: Pid, version: nat, row: Option<Row>)
    requires HistoryOk(s.history) && pid in s.calls && CallOk(c, s, pid)
    requires !s.calls[pid].stage.Claiming? && !s.calls[pid].stage.Capturing?
    requires row.Some? ==> version < |s.history| && row.value == s.history[version]
    ensures MoveOk(c, s, pid, CheckOutcome(c, s.calls[pid], row), {})
  {
    var call := s.calls[pid];
    SameScope(c, call, With(s, pid, CheckOutcome(c, call, row)).calls[pid]);
    if row.Some? {
      ReadHolds(s.history, version);
    }
  }

  lemma ReadKeepsInv(c: Correlate, s: State, pid: Pid, version: nat, row: Option<Row>, claimedAt: Text, etagBytes: nat)
    requires Inv(c, s) && pid in s.calls
    requires row.Some? ==> version < |s.history| && row.value == s.history[version]
    ensures Inv(c, AfterRead(c, s, pid, version, row, claimedAt, etagBytes))
  {
    assert CallOk(c, s, pid) && CallStarted(s, pid);
    var (stage, sent) := ReadOutcome(c, s.calls[pid], pid, version, row, claimedAt, etagBytes);
    if s.calls[pid].stage.Claiming? {
      ClaimReadOk(c, s, pid, version, row, claimedAt, etagBytes);
    } else if s.calls[pid].stage.Capturing? {
      CaptureReadOk(c, s, pid, version, row, claimedAt, etagBytes);
    } else {
      CheckReadOk(c, s, pid, version, row);
    }
    MoveKeepsInv(c, s, pid, stage, sent, AfterRead(c, s, pid, version, row, claimedAt, etagBytes));
  }

  lemma AnswerOk(c: Correlate, s: State, pid: Pid, reply: Reply)
    requires HistoryOk(s.history) && pid in s.calls && CallOk(c, s, pid)
    requires s.calls[pid].stage.ClaimSent? || s.calls[pid].stage.CaptureSent?
    requires reply.Confirmed? ==> CommittedOk(c, s, s.calls[pid].stage.put)
    ensures MoveOk(c, s, pid, AnswerOutcome(s.calls[pid].stage, reply), {})
  {
    var call := s.calls[pid];
    SameScope(c, call, With(s, pid, AnswerOutcome(call.stage, reply)).calls[pid]);
    if reply.Confirmed? {
      ConfirmedHolds(c, s, call.stage.put);
    }
  }

  lemma AnswerMoves(s: State, pid: Pid, reply: Reply)
    requires pid in s.calls && AfterAnswer(s, pid, reply) != s
    ensures var stage := s.calls[pid].stage;
            && (stage.ClaimSent? || stage.CaptureSent?) && (reply.Confirmed? ==> stage.put in s.committed)
            && AfterAnswer(s, pid, reply) == With(s, pid, AnswerOutcome(stage, reply)).(puts := s.puts + {})
  {}

  lemma AnswerKeepsInv(c: Correlate, s: State, pid: Pid, reply: Reply)
    requires Inv(c, s) && pid in s.calls
    ensures Inv(c, AfterAnswer(s, pid, reply))
  {
    var s' := AfterAnswer(s, pid, reply);
    if s' != s {
      AnswerMoves(s, pid, reply);
      assert CallOk(c, s, pid);
      var stage := s.calls[pid].stage;
      assert reply.Confirmed? ==> CommittedOk(c, s, stage.put);
      AnswerOk(c, s, pid, reply);
      MoveKeepsInv(c, s, pid, AnswerOutcome(stage, reply), {}, s');
    }
  }

  /** The host that holds the claim is the only one that could have posted, and it has not. */
  lemma NoPostYet(c: Correlate, s: State, pid: Pid)
    requires PostsOk(c, s) && DistinctTokens(s) && pid in s.calls && s.calls[pid].stage.Claimed? && CallOk(c, s, pid)
    ensures s.posts == []
  {}

  lemma PostKeepsInv(c: Correlate, s: State, pid: Pid, s': State)
    requires Inv(c, s) && pid in s.calls && s.calls[pid].stage.Claimed?
    requires s' == With(s, pid, Posted).(posts := s.posts + [Post(pid, s.calls[pid].token, ScopeOf(c, s.calls[pid]))])
    ensures Inv(c, s')
  {
    assert CallOk(c, s, pid);
    NoPostYet(c, s, pid);
    SameCallsKeepPuts(c, s, s');
    assert CallStarted(s, pid);
    SameScope(c, s.calls[pid], s'.calls[pid]);
    OneCallKeepsCalls(c, s, pid, s');
  }

  lemma StartKeepsTokens(s: State, pid: Pid, call: Call)
    requires DistinctTokens(s) && pid !in s.calls && IsFresh(s, call.token)
    ensures DistinctTokens(s.(calls := s.calls[pid := call]))
  {}

  lemma StartKeepsInv(c: Correlate, s: State, pid: Pid, call: Call, s': State)
    requires Inv(c, s) && pid !in s.calls && IsFresh(s, call.token) && IsStart(call)
    requires s' == s.(calls := s.calls[pid := call])
    ensures Inv(c, s')
  {
    StartKeepsTokens(s, pid, call);
    SameCallsKeepPuts(c, s, s');
    assert PostsOk(c, s');
    OneCallKeepsCalls(c, s, pid, s');
  }

  lemma DeliverKeepsInv(c: Correlate, s: State, put: Put)
    requires Inv(c, s) && put in s.puts && put.etag + 1 == |s.history|
    ensures Inv(c, Step(c, s, Deliver(put)))
  {
    var s' := s.(history := s.history + [put.next], committed := s.committed + {put});
    assert Step(c, s, Deliver(put)) == s';
    assert PutOk(c, s, put);
    AttemptFollows(s.calls[put.pid].binding, put.update, s.history[put.etag], put.next);
    AppendKeepsInv(c, s, put.next, s');
  }

  lemma CallEventOk(c: Correlate, s: State, e: Event)
    requires (e.Respond? || e.Witness? || e.Fetch? || e.Stop?) && e.pid in s.calls && CallOk(c, s, e.pid)
    requires Step(c, s, e) != s
    ensures MoveOk(c, s, e.pid, Step(c, s, e).calls[e.pid].stage, {})
    ensures Step(c, s, e) == With(s, e.pid, Step(c, s, e).calls[e.pid].stage).(puts := s.puts + {})
  {
    SameScope(c, s.calls[e.pid], Step(c, s, e).calls[e.pid]);
  }

  lemma CallEventKeepsInv(c: Correlate, s: State, e: Event)
    requires Inv(c, s) && (e.Respond? || e.Witness? || e.Fetch? || e.Stop?)
    ensures Inv(c, Step(c, s, e))
  {
    var s' := Step(c, s, e);
    if s' != s {
      assert CallOk(c, s, e.pid);
      CallEventOk(c, s, e);
      MoveKeepsInv(c, s, e.pid, s'.calls[e.pid].stage, {}, s');
    }
  }

  lemma CreateKeepsInv(c: Correlate, s: State, row: Row)
    requires Inv(c, s)
    ensures Inv(c, Step(c, s, Create(row)))
  {
    var s' := Step(c, s, Create(row));
    if s' != s {
      forall put ensures put !in s.puts && put !in s.committed {
        assert put in s.puts ==> PutOk(c, s, put);
        assert put in s.committed ==> CommittedOk(c, s, put);
      }
      forall pid | pid in s'.calls ensures CallOk(c, s', pid) && CallStarted(s', pid) {
        assert CallOk(c, s, pid) && CallStarted(s, pid);
      }
    }
  }

  lemma StepKeepsInv(c: Correlate, s: State, e: Event)
    requires Inv(c, s)
    ensures Inv(c, Step(c, s, e))
  {
    match e
    case Create(row) => CreateKeepsInv(c, s, row);
    case OtherWriter(status, rest) =>
      if s.history != [] {
        var last := s.history[|s.history| - 1];
        AppendKeepsInv(c, s, last.(status := status, rest := rest, version := last.version + 1), Step(c, s, e));
      }
    case Start(pid, call) =>
      if pid !in s.calls && IsFresh(s, call.token) && IsStart(call) {
        StartKeepsInv(c, s, pid, call, Step(c, s, e));
      }
    case Read(pid, version, claimedAt, etagBytes) =>
      if pid in s.calls {
        var row := if version.Some? && version.value < |s.history| then Some(s.history[version.value]) else None;
        ReadKeepsInv(c, s, pid, version.UnwrapOr(0), row, claimedAt, etagBytes);
      }
    case Deliver(put) =>
      if put in s.puts && put.etag + 1 == |s.history| {
        DeliverKeepsInv(c, s, put);
      }
    case Answer(pid, reply) =>
      if pid in s.calls {
        AnswerKeepsInv(c, s, pid, reply);
      }
    case IssuePost(pid) =>
      if pid in s.calls && s.calls[pid].stage.Claimed? {
        PostKeepsInv(c, s, pid, Step(c, s, e));
      }
    case _ => CallEventKeepsInv(c, s, e);
  }

  lemma {:induction false} RunKeepsInv(c: Correlate, s: State, events: seq<Event>)
    requires Inv(c, s)
    ensures Inv(c, Run(c, s, events))
    decreases |events|
  {
    if events != [] {
      StepKeepsInv(c, s, events[0]);
      RunKeepsInv(c, Step(c, s, events[0]), events[1..]);
    }
  }

  // ---- Every run ------------------------------------------------------------------------------------

  /** At most one paid POST in every run, and only under the token the document holds. */
  lemma AtMostOnePost(c: Correlate, events: seq<Event>)
    ensures var s := Run(c, INITIAL, events);
            |s.posts| <= 1 && forall post | post in s.posts :: HoldsClaim(s.history, post.token, post.scope)
  {
    RunKeepsInv(c, INITIAL, events);
  }

  lemma StepExtends(c: Correlate, s: State, e: Event)
    ensures s.history <= Step(c, s, e).history
  {}

  lemma {:induction false} RunExtends(c: Correlate, s: State, events: seq<Event>)
    ensures s.history <= Run(c, s, events).history
    decreases |events|
  {
    if events != [] {
      StepExtends(c, s, events[0]);
      RunExtends(c, Step(c, s, events[0]), events[1..]);
    }
  }

  /**
   Claims and receipts are written once: whatever any host or other writer does
   later, a version never changes, the next one has the next number, and the claim
   and the receipt of a version are those of every later version.
   */
  lemma ReceiptIsWrittenOnce(c: Correlate, events: seq<Event>, more: seq<Event>, i: nat, j: nat)
    requires i < |Run(c, INITIAL, events).history|
    requires i <= j < |Run(c, Run(c, INITIAL, events), more).history|
    ensures var h, h' := Run(c, INITIAL, events).history, Run(c, Run(c, INITIAL, events), more).history;
            && h'[i] == h[i] && h'[j].version == h[i].version + (j - i)
            && (h[i].claim.Some? ==> h'[j].claim == h[i].claim)
            && (h[i].receipt.Some? ==> h'[j].receipt == h[i].receipt)
  {
    var s := Run(c, INITIAL, events);
    RunKeepsInv(c, INITIAL, events);
    RunKeepsInv(c, s, more);
    RunExtends(c, s, more);
    Persists(Run(c, s, more).history, i, j);
  }

  /**
   In every run, the version that adds a claim follows a started one without claim and
   receipt, and the version that adds a receipt follows one that is claimed and not failed;
   neither changes anything else.
   */
  lemma ClaimsAndReceiptsFollow(c: Correlate, events: seq<Event>, i: nat)
    requires i + 1 < |Run(c, INITIAL, events).history|
    ensures var h := Run(c, INITIAL, events).history;
            && (h[i].claim.None? && h[i + 1].claim.Some? ==>
                  && h[i].status == Started && h[i].receipt.None?
                  && h[i + 1] == h[i].(claim := h[i + 1].claim, version := h[i].version + 1))
            && (h[i].receipt.None? && h[i + 1].receipt.Some? ==>
                  && h[i].claim.Some? && h[i].status in {Started, Unknown, Completed}
                  && h[i + 1] == h[i].(receipt := h[i + 1].receipt, version := h[i].version + 1))
  {
    RunKeepsInv(c, INITIAL, events);
    var h := Run(c, INITIAL, events).history;
    assert Follows(h[i], h[i + 1]);
  }

  /**
   Calls that captured a receipt, on the normal path or for a witness, did so under
   the token and the scope of the claim in the document, and so under the same.
   */
  ghost predicate SameClaim(c: Correlate, s: State, p: Pid, q: Pid)
    requires p in s.calls && q in s.calls && s.calls[p].stage.Done? && s.calls[q].stage.Done?
  {
    var a, b := s.calls[p].stage, s.calls[q].stage;
    && (!a.how.ByStored? ==>
          a.under.Some? && HoldsClaim(s.history, a.under.value, CaptureScope(c, s.calls[p], a.under.value, a.how)))
    && (a.how.ByCapture? ==> a.under == Some(s.calls[p].token))
    && (!a.how.ByStored? && !b.how.ByStored? ==>
          && a.under == b.under && b.under.Some?
          && CaptureScope(c, s.calls[p], a.under.value, a.how) == CaptureScope(c, s.calls[q], b.under.value, b.how))
  }

  /**
   Whichever way two calls succeed (normal capture, witness recovery, stored
   recovery), they succeed with the same receipt, the one the document holds, with
   the scope both hosts name, and, if they captured it, under the same token and claim.
   */
  lemma SuccessesAgree(c: Correlate, events: seq<Event>, p: Pid, q: Pid)
    requires var s := Run(c, INITIAL, events);
             p in s.calls && q in s.calls && s.calls[p].stage.Done? && s.calls[q].stage.Done?
    ensures var s := Run(c, INITIAL, events);
            && s.calls[p].stage.value == s.calls[q].stage.value
            && s.calls[p].scopeDigest == s.calls[q].scopeDigest == s.calls[p].stage.value.scopeDigest
            && HoldsReceipt(s.history, s.calls[p].stage.value)
            && SameClaim(c, s, p, q)
            && (s.calls[p].stage.how.ByCapture? && s.calls[q].stage.how.ByCapture? ==> p == q)
  {
    RunKeepsInv(c, INITIAL, events);
    var s := Run(c, INITIAL, events);
    assert CallOk(c, s, p) && CallOk(c, s, q);
    DoneAgree(c, s, p, q);
  }

  lemma DoneAgree(c: Correlate, s: State, p: Pid, q: Pid)
    requires p in s.calls && q in s.calls && s.calls[p].stage.Done? && s.calls[q].stage.Done?
    requires CallOk(c, s, p) && CallOk(c, s, q) && DistinctTokens(s)
    ensures s.calls[p].stage.value == s.calls[q].stage.value && HoldsReceipt(s.history, s.calls[p].stage.value)
    ensures s.calls[p].scopeDigest == s.calls[q].scopeDigest == s.calls[p].stage.value.scopeDigest
    ensures SameClaim(c, s, p, q)
    ensures s.calls[p].stage.how.ByCapture? && s.calls[q].stage.how.ByCapture? ==> p == q
  {}

  /** After a 412 a write is derived again from a new read, up to five attempts in all; after that, and after any doubt, the call stops. */
  lemma AnswersDecide(stage: Stage, body: Row)
    requires stage.ClaimSent? || stage.CaptureSent?
    ensures stage.ClaimSent? ==>
              AnswerOutcome(stage, PreconditionFailed) == if stage.put.attempt < 4 then Claiming(stage.put.attempt + 1) else Stopped
    ensures stage.CaptureSent? ==>
              AnswerOutcome(stage, PreconditionFailed)
              == if stage.put.attempt < 4 then Capturing(stage.put.attempt + 1, stage.token, stage.value, stage.how) else Stopped
    ensures AnswerOutcome(stage, Ambiguous) == Stopped
    ensures !Judge(stage.put.next, Confirmed(body)).Written? ==> AnswerOutcome(stage, Confirmed(body)) == Stopped
  {}

  /**
   What moves a call on: a response or a witness with a well-formed receipt of the call's own scope, the
   response of a correlated call also with the correlation echoed; a fetched response that is the stored one.
   Anything else stops the call.
   */
  lemma InputsDecide(c: Correlate, s: State, pid: Pid, value: Receipt, echoed: bool)
    requires pid in s.calls
    ensures s.calls[pid].stage.Posted? ==>
              var call := s.calls[pid];
              Step(c, s, Respond(pid, value, echoed)).calls[pid].stage
              == if IsReceipt(value) && value.scopeDigest == call.scopeDigest && (echoed || !call.correlated)
                 then Capturing(0, call.token, value, ByCapture) else Stopped
    ensures s.calls[pid].stage.Found? ==>
              Step(c, s, Witness(pid, value)).calls[pid].stage
              == if IsReceipt(value) && value.scopeDigest == s.calls[pid].scopeDigest
                 then Checked(s.calls[pid].stage.token, value) else Stopped
    ensures s.calls[pid].stage.Fetching? ==>
              Step(c, s, Fetch(pid, value)).calls[pid].stage
              == if value == s.calls[pid].stage.value then Rechecking(value) else Stopped
  {}

  /** A recovery goes on only from a row of its own with a recoverable status and a correlated claim for its scope. */
  predicate IsCorrelatedRow(c: Correlate, row: Option<Row>, call: Call) {
    && row.Some? && row.value.shaped && row.value.binding == call.binding && row.value.status in {Started, Unknown, Completed}
    && row.value.claim.Some? && row.value.claim.value.scope.Some?
    && row.value.claim.value.scope.value.scopeDigest == call.scopeDigest
    && row.value.claim.value.scope.value.correlationId == c(call.binding, row.value.claim.value.token, call.scopeDigest)
  }

  /** The read before a claim: the claim is sent if it may be written, and otherwise the call stops. */
  lemma ClaimReadsDecide(c: Correlate, call: Call, pid: Pid, version: nat, row: Row, next: Row, claimedAt: Text, etagBytes: nat)
    requires call.stage.Claiming? && |claimedAt| == 24 && IsAscii(claimedAt)
    requires call.correlated ==> IsDigest(c(call.binding, call.token, call.scopeDigest))
    ensures var scope := if call.correlated then Some(Scope(call.scopeDigest, c(call.binding, call.token, call.scopeDigest))) else None;
            var claim := Claim(call.token, claimedAt, scope);
            var put := Put(pid, call.stage.attempt, ToClaim(claim, etagBytes), version, next);
            var (stage, sent) := ReadOutcome(c, call, pid, version, Some(row), claimedAt, etagBytes);
            && (stage == ClaimSent(put) && sent == {put} <==>
                  && IsOwnRow(row, call.binding) && row.status == Started && row.claim.None? && row.receipt.None?
                  && RowBytes(row) + etagBytes + 4096 <= 850_000
                  && next == row.(claim := Some(claim), version := row.version + 1) && RowBytes(next) + 256 <= 850_000)
            && (!IsOwnRow(row, call.binding) || row.status != Started || row.claim.Some? || row.receipt.Some? ==>
                  stage == Stopped && sent == {})
  {
    ClaimIsWrittenExactlyWhen(call.binding, Claim(call.token, claimedAt, ScopeOf(c, call)), etagBytes, row, next);
  }

  /**
   The read before a capture: a receipt that may be written is sent, with the version it was derived
   from; one that is there already ends the capture; anything else stops the call.
   */
  lemma CaptureReadsDecide(c: Correlate, call: Call, pid: Pid, version: nat, row: Row, next: Row, claimedAt: Text, etagBytes: nat)
    requires call.stage.Capturing?
    ensures var Capturing(attempt, token, value, how) := call.stage;
            var (stage, sent) := ReadOutcome(c, call, pid, version, Some(row), claimedAt, etagBytes);
            var put := Put(pid, attempt, ToCapture(token, value), version, next);
            && (stage == CaptureSent(put, token, value, how) && sent == {put} <==>
                  && IsOwnRow(row, call.binding) && MayCapture(row, token, value) && row.receipt.None?
                  && next == row.(receipt := Some(value), version := row.version + 1) && RowBytes(next) + 256 <= 850_000)
            && (IsOwnRow(row, call.binding) && MayCapture(row, token, value) && row.receipt == Some(value) ==>
                  stage == (if how.ByWitness? then Confirming(token, value) else Done(value, how, Some(token))) && sent == {})
            && (!IsOwnRow(row, call.binding) || !MayCapture(row, token, value) || (row.receipt.Some? && row.receipt != Some(value)) ==>
                  stage == Stopped && sent == {})
  {
    CaptureIsWrittenExactlyWhen(call.binding, call.stage.token, call.stage.value, row, next);
    CaptureOfKnownReceipt(call.binding, call.stage.token, call.stage.value, row);
  }

  /** The reads of a recovery from witnesses: no receipt yet, then the same token, then the captured receipt. */
  lemma RecoveryReadsDecide(c: Correlate, call: Call, row: Option<Row>)
    ensures call.stage.Looking? ==>
              (CheckOutcome(c, call, row) != Stopped <==> IsCorrelatedRow(c, row, call) && row.value.receipt.None?)
    ensures call.stage.Looking? && CheckOutcome(c, call, row) != Stopped ==>
              CheckOutcome(c, call, row) == Found(row.value.claim.value.token, row.value.claim.value.scope.value.correlationId)
    ensures call.stage.Checked? ==>
              CheckOutcome(c, call, row)
              == if IsCorrelatedRow(c, row, call) && row.value.claim.value.token == call.stage.token
                 then Capturing(0, call.stage.token, call.stage.value, ByWitness) else Stopped
    ensures call.stage.Confirming? ==>
              CheckOutcome(c, call, row)
              == if IsCorrelatedRow(c, row, call) && row.value.receipt == Some(call.stage.value)
                 then Done(call.stage.value, ByWitness, Some(call.stage.token)) else Stopped
  {}

  /** The reads of a stored recovery: an own row that is not failed, with a receipt of the call's scope, which stays. */
  lemma StoredReadsDecide(c: Correlate, call: Call, row: Option<Row>)
    requires IsBinding(call.binding)
    ensures call.stage.Restoring? ==>
              (CheckOutcome(c, call, row) != Stopped <==>
                 && row.Some? && row.value.shaped && row.value.binding == call.binding && row.value.status in {Started, Unknown, Completed}
                 && row.value.receipt.Some? && row.value.receipt.value.scopeDigest == call.scopeDigest)
    ensures call.stage.Restoring? && CheckOutcome(c, call, row) != Stopped ==>
              CheckOutcome(c, call, row) == Fetching(row.value.receipt.value)
    ensures call.stage.Rechecking? ==>
              CheckOutcome(c, call, row)
              == if && row.Some? && row.value.shaped && row.value.binding == call.binding && row.value.status in {Started, Unknown, Completed}
                    && row.value.receipt == Some(call.stage.value)
                 then Done(call.stage.value, ByStored, None) else Stopped
  {}

  lemma {:induction false} StoppedStays(c: Correlate, s: State, pid: Pid, events: seq<Event>)
    requires pid in s.calls && s.calls[pid].stage.Stopped?
    requires forall post | post in s.posts :: post.pid != pid
    ensures var s' := Run(c, s, events); forall post | post in s'.posts :: post.pid != pid
    decreases |events|
  {
    if events != [] {
      StoppedStaysStep(c, s, pid, events[0]);
      StoppedStays(c, Step(c, s, events[0]), pid, events[1..]);
    }
  }

  lemma StoppedStaysStep(c: Correlate, s: State, pid: Pid, e: Event)
    requires pid in s.calls && s.calls[pid].stage.Stopped?
    requires forall post | post in s.posts :: post.pid != pid
    ensures var s' := Step(c, s, e);
            && pid in s'.calls && s'.calls[pid].stage.Stopped?
            && forall post | post in s'.posts :: post.pid != pid
  {}

  lemma AmbiguousStops(c: Correlate, s: State, pid: Pid)
    requires PostsOk(c, s) && pid in s.calls && s.calls[pid].stage.ClaimSent?
    ensures var s' := Step(c, s, Answer(pid, Ambiguous));
            && pid in s'.calls && s'.calls[pid].stage.Stopped?
            && forall post | post in s'.posts :: post.pid != pid
  {}

  /** A host whose claim came back ambiguous never issues the POST, whatever happens next. */
  lemma AmbiguousClaimNeverPosts(c: Correlate, before: seq<Event>, pid: Pid, after: seq<Event>)
    requires pid in Run(c, INITIAL, before).calls && Run(c, INITIAL, before).calls[pid].stage.ClaimSent?
    ensures var s := Run(c, Step(c, Run(c, INITIAL, before), Answer(pid, Ambiguous)), after);
            forall post | post in s.posts :: post.pid != pid
  {
    RunKeepsInv(c, INITIAL, before);
    var s := Run(c, INITIAL, before);
    AmbiguousStops(c, s, pid);
    StoppedStays(c, Step(c, s, Answer(pid, Ambiguous)), pid, after);
  }

  lemma ClaimCameFrom(h: seq<Row>, i: nat, k: nat)
    requires HistoryOk(h) && i < k < |h| && h[i].claim.None? && h[i + 1].claim.Some?
    ensures h[k].claim == h[i + 1].claim && h[k].binding == h[i].binding && h[k].version > h[i].version
    ensures h[i].receipt.Some? ==> h[k].receipt.Some?
    ensures IsClaimOf(h[i], h[i + 1].claim.value)
  {
    assert Follows(h[i], h[i + 1]);
    Persists(h, i, k);
    Persists(h, i + 1, k);
  }

  /** A capture under the row's own token is refused for size only when the whole row grows too large. */
  lemma RefusedForSize(binding: Binding, row: Row, value: Receipt)
    requires row.claim.Some?
    requires Attempt(binding, ToCapture(row.claim.value.token, value), Some(row))
             == Refuse(Fault(503, "lifecycle_document_capacity_reached"))
    ensures row.receipt.None? && row.version < MAX_SAFE_INTEGER
    ensures RowBytes(row.(receipt := Some(value), version := row.version + 1)) + TAIL_RESERVE > DOCUMENT_LIMIT
  {}

  lemma CaptureFits(h: seq<Row>, i: nat, k: nat, binding: Binding, value: Receipt)
    requires HistoryOk(h) && i < k < |h| && h[i].claim.None? && h[i + 1].claim.Some?
    requires h[k].rest <= h[i].rest + SLACK && IsReceipt(value)
    ensures Attempt(binding, ToCapture(h[k].claim.UnwrapOr(Claim([], [], None)).token, value), Some(h[k]))
            != Refuse(Fault(503, "lifecycle_document_capacity_reached"))
  {
    ClaimCameFrom(h, i, k);
    var claim := h[i + 1].claim.value;
    var etagBytes: nat :| Apply(ToClaim(claim, etagBytes), h[i]).Replace?;
    if Attempt(binding, ToCapture(claim.token, value), Some(h[k])) == Refuse(Fault(503, "lifecycle_document_capacity_reached")) {
      RefusedForSize(binding, h[k], value);
      HeadroomSuffices(h[i], claim, etagBytes, h[k], value);
    }
  }

  /**
   In every run, once a claim is committed on version `i`, a capture from any later
   version `k` is not refused for size, provided other writers added at most the
   slack to the rest of the document in between.
   */
  lemma CaptureIsNeverTooLarge(c: Correlate, events: seq<Event>, i: nat, k: nat, binding: Binding, value: Receipt)
    requires var h := Run(c, INITIAL, events).history;
             && i < k < |h| && h[i].claim.None? && h[i + 1].claim.Some?
             && h[k].rest <= h[i].rest + SLACK
    requires IsReceipt(value)
    ensures var row := Run(c, INITIAL, events).history[k];
            Attempt(binding, ToCapture(row.claim.UnwrapOr(Claim([], [], None)).token, value), Some(row))
            != Refuse(Fault(503, "lifecycle_document_capacity_reached"))
  {
    RunKeepsInv(c, INITIAL, events);
    CaptureFits(Run(c, INITIAL, events).history, i, k, binding, value);
  }
}
