/**
 One A2A task: its status, its append-only stream log, and the operations on
 them. The log of a task carries its partial results in sequence and ends with
 one terminal status.
 */
module TaskLog {
  import opened Outcomes

  type Id = nat
  type Request = nat
  type Node = nat

  datatype Status = Submitted | Working | Completed | Failed | Rejected | Canceled

  predicate IsTerminal(s: Status) {
    s == Completed || s == Failed || s == Rejected || s == Canceled
  }

  datatype StreamEvent =
    | ArtifactUpdate(artifactId: Id, sequence: nat, append: bool)
    | StatusUpdate(status: Status, timestamp: int)

  /** `key` is the correlation key of the owner and the first message, if that has an id. */
  datatype Task = Task(id: Id, key: Option<Key>, status: Status, lastModified: int, requestId: Option<Request>,
                       provider: Option<Node>, artifactId: Option<Id>, log: seq<StreamEvent>, nextSequence: nat)

  datatype Key = Key(owner: Option<nat>, messageId: nat)

  function NewTask(id: Id, key: Option<Key>, now: int): Task {
    Task(id, key, Submitted, now, None, None, None, [], 0)
  }

  // ---- Operations -----------------------------------------------------------------

  function StartTask(t: Task, request: Request, provider: Option<Node>, now: int): Task {
    t.(requestId := Some(request), provider := provider, status := Working, lastModified := now)
  }

  /** A status change that is also logged. */
  function EndTask(t: Task, status: Status, now: int): Task {
    t.(status := status, lastModified := now, log := t.log + [StatusUpdate(status, now)])
  }

  function RejectTask(t: Task, now: int): Task {
    EndTask(t, Rejected, now)
  }

  function CancelTask(t: Task, now: int): Task {
    if IsTerminal(t.status) then t else EndTask(t, Canceled, now)
  }

  /** A result: `outcome` is Completed, or Failed when the provider or the artifact mapping failed. */
  function CompleteTask(t: Task, provider: Option<Node>, ok: bool, now: int): Task {
    if IsTerminal(t.status) then t
    else EndTask(t.(provider := if provider.Some? then provider else t.provider), if ok then Completed else Failed, now)
  }

  /** A partial result; `sequence` is missing when it is not a safe integer. */
  datatype Partial = Partial(sequence: Option<int>, hasDelta: bool, mapped: bool)

  predicate IsNextPartial(t: Task, p: Partial) {
    p.sequence.Some? && p.hasDelta && p.sequence.value == t.nextSequence
  }

  function PartialTask(t: Task, p: Partial, newArtifactId: Id, now: int): Task {
    if IsTerminal(t.status) then t
    else if !IsNextPartial(t, p) then EndTask(t, Failed, now)
    else
      var id := t.artifactId.UnwrapOr(newArtifactId);
      var u := t.(artifactId := Some(id));
      if !p.mapped then EndTask(u, Failed, now)
      else
        u.(log := u.log + [ArtifactUpdate(id, t.nextSequence, t.nextSequence > 0)],
           nextSequence := t.nextSequence + 1, lastModified := now)
  }

  // ---- The shape of the log ------------------------------------------------------------

  /** The first `n` events are the partial results 0..n-1 of one artifact, all but the first appending. */
  ghost predicate IsPartialRun(log: seq<StreamEvent>, n: nat, artifactId: Option<Id>)
  {
    n <= |log| && (n > 0 ==> artifactId.Some?)
    && forall i | 0 <= i < n :: log[i] == ArtifactUpdate(artifactId.value, i, i > 0)
  }

  ghost predicate LogShape(t: Task) {
    && IsPartialRun(t.log, t.nextSequence, t.artifactId)
    && if IsTerminal(t.status)
       then |t.log| == t.nextSequence + 1 && t.log[t.nextSequence] == StatusUpdate(t.status, t.lastModified)
       else |t.log| == t.nextSequence
  }

  datatype Op =
    | Start(request: Request, provider: Option<Node>, now: int)
    | Reject(now: int)
    | Cancel(now: int)
    | Complete(provider: Option<Node>, ok: bool, now: int)
    | Partially(p: Partial, newArtifactId: Id, now: int)

  function Apply(t: Task, op: Op): Task {
    match op
    case Start(request, provider, now) => StartTask(t, request, provider, now)
    case Reject(now) => RejectTask(t, now)
    case Cancel(now) => CancelTask(t, now)
    case Complete(provider, ok, now) => CompleteTask(t, provider, ok, now)
    case Partially(p, newArtifactId, now) => PartialTask(t, p, newArtifactId, now)
  }

  /** The server starts and rejects a task only while it is submitted. */
  predicate InOrder(t: Task, op: Op) {
    op.Start? || op.Reject? ==> t.status == Submitted
  }

  predicate OrderedRun(t: Task, ops: seq<Op>)
    decreases |ops|
  {
    ops == [] || (InOrder(t, ops[0]) && OrderedRun(Apply(t, ops[0]), ops[1..]))
  }

  function Run(t: Task, ops: seq<Op>): Task
    decreases |ops|
  {
    if ops == [] then t else Run(Apply(t, ops[0]), ops[1..])
  }

  /**
   Start and reject have no guard of their own: on a task of good shape they keep
   it exactly when the task is not terminal. All other operations always keep it.
   */
  lemma ApplyKeepsShape(t: Task, op: Op)
    requires LogShape(t)
    ensures LogShape(Apply(t, op)) <==> (op.Start? || op.Reject? ==> !IsTerminal(t.status))
  {}

  lemma {:induction false} RunKeepsShape(t: Task, ops: seq<Op>)
    requires LogShape(t) && OrderedRun(t, ops)
    ensures LogShape(Run(t, ops))
    decreases |ops|
  {
    if ops != [] {
      ApplyKeepsShape(t, ops[0]);
      RunKeepsShape(Apply(t, ops[0]), ops[1..]);
    }
  }

  /** Every task the server reaches has a log of the right shape. */
  lemma ReachableTasksHaveShape(id: Id, key: Option<Key>, created: int, ops: seq<Op>)
    requires OrderedRun(NewTask(id, key, created), ops)
    ensures LogShape(Run(NewTask(id, key, created), ops))
  {
    RunKeepsShape(NewTask(id, key, created), ops);
  }

  /** Once terminal, the status and the log never change again. */
  lemma {:induction false} TerminalIsFinal(t: Task, ops: seq<Op>)
    requires IsTerminal(t.status) && OrderedRun(t, ops)
    ensures Run(t, ops) == t
    decreases |ops|
  {
    if ops != [] {
      assert Apply(t, ops[0]) == t;
      TerminalIsFinal(t, ops[1..]);
    }
  }

  /** The log only grows. */
  lemma {:induction false} LogOnlyGrows(t: Task, ops: seq<Op>)
    ensures t.log <= Run(t, ops).log
    decreases |ops|
  {
    if ops != [] {
      LogOnlyGrows(Apply(t, ops[0]), ops[1..]);
    }
  }

  // ---- How a task ends -------------------------------------------------------------------------

  /** The status in which an operation ends an unfinished task, if it does. */
  function Ending(t: Task, op: Op): Option<Status> {
    match op
    case Start(_, _, _) => None
    case Reject(_) => Some(Rejected)
    case Cancel(_) => Some(Canceled)
    case Complete(_, ok, _) => if ok then Some(Completed) else Some(Failed)
    case Partially(p, _, _) =>
      if p.sequence == Some(t.nextSequence as int) && p.hasDelta && p.mapped then None else Some(Failed)
  }

  /**
   On an unfinished task an operation that ends it sets that status and logs it; a
   partial result that is next in order is appended and leaves the task running; a
   start changes the request, the provider and the status only.
   */
  lemma OperationDoes(t: Task, op: Op)
    requires !IsTerminal(t.status)
    ensures var u := Apply(t, op);
            && (Ending(t, op).Some? ==> u.status == Ending(t, op).value && u.nextSequence == t.nextSequence)
            && (Ending(t, op).None? ==> !IsTerminal(u.status))
            && (op.Start? ==> u == t.(requestId := Some(op.request), provider := op.provider, status := Working, lastModified := op.now))
    ensures Ending(t, op).Some? ==>
              var u := Apply(t, op);
              u.log == t.log + [StatusUpdate(u.status, u.lastModified)] && u.requestId == t.requestId
    ensures op.Partially? && Ending(t, op).None? ==>
              var u := Apply(t, op);
              && u.status == t.status && u.nextSequence == t.nextSequence + 1
              && u.artifactId == Some(if t.artifactId.Some? then t.artifactId.value else op.newArtifactId)
              && u.log == t.log + [ArtifactUpdate(u.artifactId.value, t.nextSequence, t.nextSequence > 0)]
  {}

  /** A partial result is taken only with the very next sequence number and a delta that maps; any other fails the task. */
  lemma PartialIsTakenExactlyWhen(t: Task, p: Partial, newArtifactId: Id, now: int)
    requires !IsTerminal(t.status)
    ensures PartialTask(t, p, newArtifactId, now).status == Failed
            <==> p.sequence != Some(t.nextSequence as int) || !p.hasDelta || !p.mapped
    ensures PartialTask(t, p, newArtifactId, now).nextSequence == t.nextSequence + 1
            <==> p.sequence == Some(t.nextSequence as int) && p.hasDelta && p.mapped
  {}

  /** A result completes an unfinished task if and only if it is good, and fails it otherwise. */
  lemma ResultDecides(t: Task, provider: Option<Node>, ok: bool, now: int)
    requires !IsTerminal(t.status)
    ensures CompleteTask(t, provider, ok, now).status == Completed <==> ok
    ensures CompleteTask(t, provider, ok, now).status == Failed <==> !ok
    ensures CompleteTask(t, provider, ok, now).provider == if provider.Some? then provider else t.provider
  {}

  /** In every run the status of a finished task is that of the operation that ended it. */
  lemma {:induction false} StatusIsTheEnding(t: Task, ops: seq<Op>) returns (i: nat)
    requires OrderedRun(t, ops) && !IsTerminal(t.status) && IsTerminal(Run(t, ops).status)
    ensures i < |ops| && !IsTerminal(Run(t, ops[..i]).status)
    ensures Ending(Run(t, ops[..i]), ops[i]) == Some(Run(t, ops).status)
    decreases |ops|
  {
    var u := Apply(t, ops[0]);
    OperationDoes(t, ops[0]);
    if IsTerminal(u.status) {
      TerminalIsFinal(u, ops[1..]);
      i := 0;
    } else {
      var k := StatusIsTheEnding(u, ops[1..]);
      i := k + 1;
      assert ops[..i][0] == ops[0] && ops[..i][1..] == ops[1..][..k];
    }
  }
}
