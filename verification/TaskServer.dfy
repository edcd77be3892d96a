/**
 The order in which the A2A server calls its task store. A dispatch is pending
 between the creation of a task and its start or rejection; a cancellation is
 pending while the request is being revoked. Events arrive in between.
 */
module TaskServer {
  import opened Outcomes
  import opened TaskLog
  import opened TaskIndex

  datatype Server = Server(index: Index, used: set<Id>, dispatching: set<Id>, cancelling: set<Id>)

  const IDLE := Server(EMPTY, {}, {}, {})

  datatype Event =
    | Accepted(id: Id, key: Option<Key>, pruneAt: int, createdAt: int, configRefused: bool)
    | LookedUp(now: int)
    | Dispatched(id: Id, request: Request, provider: Option<Node>, now: int)
    | DispatchFailed(id: Id, now: int)
    | CancelAsked(id: Id)
    | Revoked(id: Id, now: int)
    | ResultArrived(request: Request, from: Option<Node>, ok: bool, now: int)
    | CompactResult(request: Request, from: Option<Node>, ok: bool, now: int)
    | CompactPartial(request: Request, from: Option<Node>, p: Partial, newArtifactId: Id, now: int)

  /** Ids of tasks and requests are fresh; a dispatch ends once; only a running task with a request is revoked. */
  predicate Enabled(v: Server, e: Event) {
    match e
    case Accepted(id, _, _, _, _) => id !in v.used
    case Dispatched(id, request, _, _) => id in v.dispatching && request !in v.index.byRequest
    case DispatchFailed(id, _) => id in v.dispatching
    case CancelAsked(id) =>
      id in v.index.tasks && !IsTerminal(v.index.tasks[id].status) && v.index.tasks[id].requestId.Some?
    case Revoked(id, _) => id in v.cancelling
    case _ => true
  }

  /** The store operation an event leads to, if any. */
  function Call(v: Server, e: Event): Option<TaskIndex.Op> {
    match e
    case Accepted(id, key, pruneAt, createdAt, _) => Some(ToCreate(id, key, pruneAt, createdAt))
    case LookedUp(now) => Some(ToGet(now))
    case Dispatched(id, request, provider, now) => Some(ToStart(id, request, provider, now))
    case DispatchFailed(id, now) => Some(ToReject(id, now))
    case CancelAsked(id) => None
    case Revoked(id, now) => Some(ToCancel(id, now))
    case ResultArrived(request, from, ok, now) =>
      (match ResultTarget(v.index, request, from)
       case None => None
       case Some(id) => Some(ToComplete(id, from, ok, now)))
    case CompactResult(request, from, ok, now) =>
      (match CompactTarget(v.index, request, from)
       case None => None
       case Some(id) => Some(ToComplete(id, from, ok, now)))
    case CompactPartial(request, from, p, newArtifactId, now) =>
      (match CompactTarget(v.index, request, from)
       case None => None
       case Some(id) => Some(ToRecord(id, p, newArtifactId, now)))
  }

  function AfterCall(c: Config, v: Server, e: Event): Index {
    match Call(v, e)
    case None => v.index
    case Some(op) => TaskIndex.Apply(c, v.index, op)
  }

  function Step(c: Config, v: Server, e: Event): Server {
    var index := AfterCall(c, v, e);
    match e
    case Accepted(id, key, pruneAt, createdAt, configRefused) =>
      if Create(c, v.index, id, key, pruneAt, createdAt).1.Some? then v.(index := index)
      else if configRefused then v.(index := Delete(index, id, true), used := v.used + {id})
      else v.(index := index, used := v.used + {id}, dispatching := v.dispatching + {id})
    case Dispatched(id, _, _, _) => v.(index := index, dispatching := v.dispatching - {id})
    case DispatchFailed(id, _) => v.(index := index, dispatching := v.dispatching - {id})
    case CancelAsked(id) => v.(cancelling := v.cancelling + {id})
    case _ => v.(index := index)
  }

  predicate IsRun(c: Config, v: Server, es: seq<Event>)
    decreases |es|
  {
    es == [] || (Enabled(v, es[0]) && IsRun(c, Step(c, v, es[0]), es[1..]))
  }

  function Run(c: Config, v: Server, es: seq<Event>): Server
    decreases |es|
  {
    if es == [] then v else Run(c, Step(c, v, es[0]), es[1..])
  }

  // ---- What one store operation does to the tasks ------------------------------------------------

  /** The operation on one task that a store operation amounts to. */
  function TaskOp(op: TaskIndex.Op): Option<(Id, TaskLog.Op)> {
    match op
    case ToStart(id, request, provider, now) => Some((id, Start(request, provider, now)))
    case ToReject(id, now) => Some((id, Reject(now)))
    case ToCancel(id, now) => Some((id, Cancel(now)))
    case ToComplete(id, provider, ok, now) => Some((id, Complete(provider, ok, now)))
    case ToRecord(id, p, newArtifactId, now) => Some((id, Partially(p, newArtifactId, now)))
    case _ => None
  }

  lemma ProgressEffect(c: Config, s: Index, op: TaskIndex.Op, x: Id)
    requires TaskOp(op).Some?
    ensures var d := TaskIndex.Apply(c, s, op);
            && d.tasks.Keys == s.tasks.Keys
            && (x in s.tasks ==> d.tasks[x] == if x == TaskOp(op).value.0 then TaskLog.Apply(s.tasks[x], TaskOp(op).value.1)
                                               else s.tasks[x])
  {}

  predicate Within(m: map<Id, Task>, n: map<Id, Task>) {
    forall x | x in m :: x in n && m[x] == n[x]
  }

  lemma PruneEffect(c: Config, s: Index, now: int)
    requires LockStep(c, s)
    ensures Within(Prune(c, s, now).0.tasks, s.tasks)
  {
    PruneKeeps(c, s, now);
  }

  /** A creation leaves the tasks that pruning left, and may add its own. */
  lemma CreatedTasks(c: Config, s: Index, id: Id, key: Option<Key>, pruneAt: int, createdAt: int)
    ensures var (d, err) := Create(c, s, id, key, pruneAt, createdAt);
            var pruned := Prune(c, s, pruneAt).0.tasks;
            d.tasks == if err.Some? then pruned else pruned[id := NewTask(id, key, createdAt)]
  {}

  lemma CreateEffect(c: Config, s: Index, id: Id, key: Option<Key>, pruneAt: int, createdAt: int)
    requires LockStep(c, s)
    ensures var (d, err) := Create(c, s, id, key, pruneAt, createdAt);
            && Within(d.tasks - {id}, s.tasks)
            && (err.Some? ==> Within(d.tasks, s.tasks))
            && (err.None? ==> id in d.tasks && d.tasks[id] == NewTask(id, key, createdAt))
  {
    PruneEffect(c, s, pruneAt);
    CreatedTasks(c, s, id, key, pruneAt, createdAt);
    OneMore(Prune(c, s, pruneAt).0.tasks, s.tasks, id, NewTask(id, key, createdAt));
  }

  lemma OneMore(m: map<Id, Task>, n: map<Id, Task>, id: Id, t: Task)
    requires Within(m, n)
    ensures Within(m - {id}, n) && Within(m[id := t] - {id}, n)
  {}

  // ---- The invariant ---------------------------------------------------------------------------------

  ghost predicate TaskInv(v: Server, x: Id, t: Task) {
    && x in v.used && LogShape(t)
    && (x in v.dispatching ==> t.status == Submitted)
    && (x in v.cancelling ==> t.requestId.Some?)
  }

  ghost predicate Inv(c: Config, v: Server) {
    && LockStep(c, v.index)
    && v.dispatching <= v.used && v.cancelling <= v.used
    && EachInv(v, v.index.tasks)
  }

  ghost predicate EachInv(v: Server, tasks: map<Id, Task>) {
    forall x | x in tasks :: TaskInv(v, x, tasks[x])
  }

  /** A submitted task has no request, so that no event and no cancellation can reach it. */
  lemma SubmittedIsOutOfReach(c: Config, v: Server, request: Request, from: Option<Node>, x: Id)
    requires LockStep(c, v.index) && x in v.index.tasks && v.index.tasks[x].status == Submitted
    ensures ResultTarget(v.index, request, from) != Some(x) && CompactTarget(v.index, request, from) != Some(x)
  {}

  /** The guard that start and reject lack is never needed. */
  lemma CallsAreInOrder(c: Config, v: Server, e: Event)
    requires Inv(c, v) && Enabled(v, e) && Call(v, e).Some?
    ensures TaskIndex.InOrder(v.index, Call(v, e).value)
    ensures var op := Call(v, e).value;
            op.ToStart? || op.ToReject? ==> op.id in v.index.tasks ==> v.index.tasks[op.id].status == Submitted
  {
    match e
    case DispatchFailed(id, _) => if id in v.index.tasks { assert TaskInv(v, id, v.index.tasks[id]); }
    case Dispatched(id, _, _, _) => if id in v.index.tasks { assert TaskInv(v, id, v.index.tasks[id]); }
    case _ =>
  }

  lemma StepKeepsLockStep(c: Config, v: Server, e: Event)
    requires Inv(c, v) && Enabled(v, e)
    ensures LockStep(c, AfterCall(c, v, e)) && LockStep(c, Step(c, v, e).index)
  {
    if Call(v, e).Some? {
      CallsAreInOrder(c, v, e);
      ApplyKeeps(c, v.index, Call(v, e).value);
    }
    if e.Accepted? {
      DeleteKeeps(c, AfterCall(c, v, e), e.id, true, {});
    }
  }

  lemma TaskStepKeeps(t: Task, op: TaskLog.Op)
    requires LogShape(t) && (op.Start? || op.Reject? ==> t.status == Submitted)
    ensures LogShape(TaskLog.Apply(t, op))
    ensures t.requestId.Some? ==> TaskLog.Apply(t, op).requestId.Some?
  {
    ApplyKeepsShape(t, op);
  }

  /** After a call on a task its dispatch is no longer pending. */
  lemma NoDispatchLeft(c: Config, v: Server, e: Event, x: Id, t: Task)
    requires LockStep(c, v.index) && Enabled(v, e) && Call(v, e).Some? && TaskOp(Call(v, e).value).Some?
    requires x in v.index.tasks && t == v.index.tasks[x] && TaskInv(v, x, t) && x == TaskOp(Call(v, e).value).value.0
    ensures x !in Step(c, v, e).dispatching
  {
    if !e.Dispatched? && !e.DispatchFailed? && !e.Revoked? && t.status == Submitted {
      SubmittedIsOutOfReach(c, v, e.request, e.from, x);
    }
  }

  lemma ProgressKeepsTask(c: Config, v: Server, e: Event, x: Id, t: Task)
    requires LockStep(c, v.index) && Enabled(v, e) && Call(v, e).Some? && TaskOp(Call(v, e).value).Some?
    requires x in v.index.tasks && t == v.index.tasks[x] && TaskInv(v, x, t) && x == TaskOp(Call(v, e).value).value.0
    ensures TaskInv(Step(c, v, e), x, TaskLog.Apply(t, TaskOp(Call(v, e).value).value.1))
  {
    NoDispatchLeft(c, v, e, x, t);
    TaskStepKeeps(t, TaskOp(Call(v, e).value).value.1);
  }

  lemma ProgressKeepsEach(c: Config, v: Server, e: Event)
    requires Inv(c, v) && Enabled(v, e) && Call(v, e).Some? && TaskOp(Call(v, e).value).Some?
    ensures EachInv(Step(c, v, e), AfterCall(c, v, e).tasks)
  {
    var after := AfterCall(c, v, e).tasks;
    forall x | x in after ensures TaskInv(Step(c, v, e), x, after[x]) {
      ProgressEffect(c, v.index, Call(v, e).value, x);
      assert TaskInv(v, x, v.index.tasks[x]);
      if x == TaskOp(Call(v, e).value).value.0 {
        ProgressKeepsTask(c, v, e, x, v.index.tasks[x]);
      }
    }
  }

  lemma AcceptKeepsEach(c: Config, v: Server, e: Event)
    requires Inv(c, v) && Enabled(v, e) && e.Accepted?
    ensures EachInv(Step(c, v, e), Step(c, v, e).index.tasks)
  {
    CreateEffect(c, v.index, e.id, e.key, e.pruneAt, e.createdAt);
    var (d, err) := Create(c, v.index, e.id, e.key, e.pruneAt, e.createdAt);
    assert AfterCall(c, v, e) == d;
    assert EachInv(v, d.tasks - {e.id});
    var after := Step(c, v, e);
    forall x | x in after.index.tasks ensures TaskInv(after, x, after.index.tasks[x]) {
      if x != e.id { assert x in d.tasks - {e.id}; }
    }
  }

  lemma LookKeepsEach(c: Config, v: Server, e: Event)
    requires Inv(c, v) && e.LookedUp?
    ensures EachInv(Step(c, v, e), Step(c, v, e).index.tasks)
  {
    PruneEffect(c, v.index, e.now);
  }

  lemma QuietKeepsEach(c: Config, v: Server, e: Event)
    requires EachInv(v, v.index.tasks) && Enabled(v, e) && Call(v, e).None?
    ensures EachInv(Step(c, v, e), Step(c, v, e).index.tasks)
  {}

  lemma OtherStepKeepsEach(c: Config, v: Server, e: Event)
    requires Inv(c, v) && Enabled(v, e) && !e.Accepted? && !e.LookedUp?
    ensures EachInv(Step(c, v, e), Step(c, v, e).index.tasks)
  {
    OtherStep(c, v, e);
    if Call(v, e).Some? {
      ProgressKeepsEach(c, v, e);
    } else {
      QuietKeepsEach(c, v, e);
    }
  }

  lemma StepKeepsEach(c: Config, v: Server, e: Event)
    requires Inv(c, v) && Enabled(v, e)
    ensures EachInv(Step(c, v, e), Step(c, v, e).index.tasks)
  {
    if e.Accepted? {
      AcceptKeepsEach(c, v, e);
    } else if e.LookedUp? {
      LookKeepsEach(c, v, e);
    } else {
      OtherStepKeepsEach(c, v, e);
    }
  }

  lemma StepKeepsInv(c: Config, v: Server, e: Event)
    requires Inv(c, v) && Enabled(v, e)
    ensures Inv(c, Step(c, v, e))
  {
    StepKeepsLockStep(c, v, e);
    StepKeepsEach(c, v, e);
  }

  lemma {:induction false} RunKeepsInv(c: Config, v: Server, es: seq<Event>)
    requires Inv(c, v) && IsRun(c, v, es)
    ensures Inv(c, Run(c, v, es))
    decreases |es|
  {
    if es != [] {
      StepKeepsInv(c, v, es[0]);
      RunKeepsInv(c, Step(c, v, es[0]), es[1..]);
    }
  }

  // ---- Results ---------------------------------------------------------------------------------------

  /**
   In every run of the server, with dispatches, cancellations, lookups and events
   interleaved in any way and at any clock readings: the four maps agree and are
   within capacity, every live task has a log of the right shape, and a task
   whose dispatch is pending is still submitted.
   */
  lemma ServerKeepsEverything(c: Config, es: seq<Event>)
    requires IsRun(c, IDLE, es)
    ensures var v := Run(c, IDLE, es);
            && LockStep(c, v.index)
            && forall x | x in v.index.tasks ::
                 LogShape(v.index.tasks[x]) && (x in v.dispatching ==> v.index.tasks[x].status == Submitted)
  {
    EmptyIsInLockStep(c);
    RunKeepsInv(c, IDLE, es);
    var v := Run(c, IDLE, es);
    forall x | x in v.index.tasks
      ensures LogShape(v.index.tasks[x]) && (x in v.dispatching ==> v.index.tasks[x].status == Submitted)
    {
      assert TaskInv(v, x, v.index.tasks[x]);
    }
  }

  lemma UsedOnlyGrows(c: Config, v: Server, e: Event)
    ensures v.used <= Step(c, v, e).used
  {}

  lemma AcceptBringsNoneBack(c: Config, v: Server, e: Event)
    requires Inv(c, v) && Enabled(v, e) && e.Accepted?
    ensures Within(Step(c, v, e).index.tasks - {e.id}, v.index.tasks)
  {
    CreateEffect(c, v.index, e.id, e.key, e.pruneAt, e.createdAt);
    assert AfterCall(c, v, e) == Create(c, v.index, e.id, e.key, e.pruneAt, e.createdAt).0;
  }

  lemma ProgressLeavesTerminal(c: Config, v: Server, e: Event, x: Id)
    requires Inv(c, v) && Enabled(v, e) && Call(v, e).Some? && TaskOp(Call(v, e).value).Some?
    requires x in v.index.tasks ==> IsTerminal(v.index.tasks[x].status)
    ensures SameOrGone(v.index.tasks, AfterCall(c, v, e).tasks, x)
  {
    ProgressEffect(c, v.index, Call(v, e).value, x);
    if x in v.index.tasks && x == TaskOp(Call(v, e).value).value.0 { TerminalOpIsSkipped(c, v, e, x); }
  }

  lemma OtherStep(c: Config, v: Server, e: Event)
    requires !e.Accepted?
    ensures Step(c, v, e).index == AfterCall(c, v, e)
    ensures Call(v, e).None? ==> AfterCall(c, v, e) == v.index
    ensures e.LookedUp? ==> AfterCall(c, v, e) == Prune(c, v.index, e.now).0
    ensures Call(v, e).Some? && !e.LookedUp? ==> TaskOp(Call(v, e).value).Some?
  {}

  predicate SameOrGone(before: map<Id, Task>, after: map<Id, Task>, x: Id) {
    x in after ==> x in before && after[x] == before[x]
  }

  lemma AcceptedIsFinal(c: Config, v: Server, e: Event, x: Id)
    requires Inv(c, v) && Enabled(v, e) && x in v.used && e.Accepted?
    ensures SameOrGone(v.index.tasks, Step(c, v, e).index.tasks, x)
  {
    AcceptBringsNoneBack(c, v, e);
    assert x in Step(c, v, e).index.tasks ==> x in Step(c, v, e).index.tasks - {e.id};
  }

  lemma TerminalStepIsFinal(c: Config, v: Server, e: Event, x: Id)
    requires Inv(c, v) && Enabled(v, e) && x in v.used
    requires x in v.index.tasks ==> IsTerminal(v.index.tasks[x].status)
    ensures SameOrGone(v.index.tasks, Step(c, v, e).index.tasks, x)
  {
    if e.Accepted? {
      AcceptedIsFinal(c, v, e, x);
    } else {
      OtherStep(c, v, e);
      if e.LookedUp? {
        PruneEffect(c, v.index, e.now);
      } else if Call(v, e).Some? {
        ProgressLeavesTerminal(c, v, e, x);
      }
    }
  }

  lemma TerminalOpIsSkipped(c: Config, v: Server, e: Event, x: Id)
    requires EachInv(v, v.index.tasks) && Enabled(v, e) && Call(v, e).Some? && TaskOp(Call(v, e).value).Some?
    requires x in v.index.tasks && IsTerminal(v.index.tasks[x].status) && x == TaskOp(Call(v, e).value).value.0
    ensures TaskLog.Apply(v.index.tasks[x], TaskOp(Call(v, e).value).value.1) == v.index.tasks[x]
  {
    assert TaskInv(v, x, v.index.tasks[x]);
    assert !e.Dispatched? && !e.DispatchFailed?;
    TerminalIsSkipped(v.index.tasks[x], TaskOp(Call(v, e).value).value.1);
  }

  lemma TerminalIsSkipped(t: Task, op: TaskLog.Op)
    requires IsTerminal(t.status) && (op.Start? || op.Reject? ==> t.status == Submitted)
    ensures TaskLog.Apply(t, op) == t
  {}

  /** A terminal task never changes again: as long as the store holds it, it is the same, and once gone it stays gone. */
  lemma {:induction false} TerminalTasksNeverChange(c: Config, v: Server, es: seq<Event>, x: Id)
    requires Inv(c, v) && IsRun(c, v, es) && x in v.used
    requires x in v.index.tasks ==> IsTerminal(v.index.tasks[x].status)
    ensures var d := Run(c, v, es);
            x in d.index.tasks ==> x in v.index.tasks && d.index.tasks[x] == v.index.tasks[x]
    decreases |es|
  {
    if es != [] {
      TerminalStepIsFinal(c, v, es[0], x);
      UsedOnlyGrows(c, v, es[0]);
      StepKeepsInv(c, v, es[0]);
      TerminalTasksNeverChange(c, Step(c, v, es[0]), es[1..], x);
    }
  }

  /** A result from a node that is not the provider of the task leaves everything as it is. */
  lemma ForeignResultsChangeNothing(c: Config, v: Server, request: Request, from: Option<Node>, ok: bool, now: int, id: Id)
    requires LockStep(c, v.index) && id in v.index.tasks && v.index.tasks[id].requestId == Some(request)
    requires v.index.tasks[id].provider.Some? && v.index.tasks[id].provider != from
    ensures Step(c, v, ResultArrived(request, from, ok, now)) == v
    ensures from.Some? ==> Step(c, v, CompactResult(request, from, ok, now)) == v
  {
    var t := ResultTarget(v.index, request, from);
    if t.Some? { ResultConcernsExactly(c, v.index, request, from, t.value); }
    var u := CompactTarget(v.index, request, from);
    if u.Some? { CompactEventConcernsExactly(c, v.index, request, from, u.value); }
  }

  lemma CompleteEnds(c: Config, s: Index, id: Id, provider: Option<Node>, ok: bool, now: int)
    requires id in s.tasks && !IsTerminal(s.tasks[id].status)
    ensures var tasks := TaskIndex.Complete(c, s, id, provider, ok, now).tasks; id in tasks && tasks[id].status == if ok then Completed else Failed
  {
    ResultDecides(s.tasks[id], provider, ok, now);
  }

  /** A result from the provider ends its unfinished task, completed if it is good and failed if not. */
  lemma ProviderResultsEndTheTask(c: Config, v: Server, request: Request, from: Option<Node>, ok: bool, now: int, id: Id)
    requires LockStep(c, v.index) && id in v.index.tasks && v.index.tasks[id].requestId == Some(request)
    requires v.index.tasks[id].provider == from && !IsTerminal(v.index.tasks[id].status)
    ensures var tasks := Step(c, v, ResultArrived(request, from, ok, now)).index.tasks;
            id in tasks && tasks[id].status == if ok then Completed else Failed
  {
    ResultConcernsExactly(c, v.index, request, from, id);
    OtherStep(c, v, ResultArrived(request, from, ok, now));
    CompleteEnds(c, v.index, id, from, ok, now);
  }

  /** A task whose push configuration is refused is gone again, and so is its marker: the message may be sent anew. */
  lemma RefusedConfigLeavesNothing(c: Config, v: Server, e: Event)
    requires Inv(c, v) && Enabled(v, e) && e.Accepted? && e.configRefused
    requires Create(c, v.index, e.id, e.key, e.pruneAt, e.createdAt).1.None?
    ensures var d := Step(c, v, e);
            && e.id !in d.index.tasks && e.id !in d.dispatching
            && (e.key.Some? ==> e.key.value !in d.index.markers)
  {
    StepKeepsLockStep(c, v, e);
    var made := Create(c, v.index, e.id, e.key, e.pruneAt, e.createdAt).0;
    CreateEffect(c, v.index, e.id, e.key, e.pruneAt, e.createdAt);
    assert AfterCall(c, v, e) == made;
    DeleteForgetsExactly(c, made, e.id, true);
  }

  lemma DispatchEnds(c: Config, s: Index, id: Id, request: Request, provider: Option<Node>, now: int)
    requires id in s.tasks
    ensures var t := TaskIndex.Start(c, s, id, request, provider, now).tasks;
            id in t && t[id].status == Working && t[id].requestId == Some(request) && t[id].provider == provider
    ensures var t := TaskIndex.Reject(c, s, id, now).tasks; id in t && t[id].status == Rejected
    ensures var t := TaskIndex.Cancel(c, s, id, now).tasks; id in t && (!IsTerminal(s.tasks[id].status) ==> t[id].status == Canceled)
  {}

  /** A dispatch that succeeded leaves its task working for the request. */
  lemma DispatchedTasksWork(c: Config, v: Server, id: Id, request: Request, provider: Option<Node>, now: int)
    requires id in v.index.tasks
    ensures var tasks := Step(c, v, Dispatched(id, request, provider, now)).index.tasks;
            id in tasks && tasks[id].status == Working && tasks[id].requestId == Some(request) && tasks[id].provider == provider
  {
    DispatchEnds(c, v.index, id, request, provider, now);
  }

  /** A dispatch that failed leaves its task rejected. */
  lemma FailedDispatchesReject(c: Config, v: Server, id: Id, now: int)
    requires id in v.index.tasks
    ensures var tasks := Step(c, v, DispatchFailed(id, now)).index.tasks; id in tasks && tasks[id].status == Rejected
  {
    DispatchEnds(c, v.index, id, 0, None, now);
  }

  /** A revoked task is canceled, unless it has ended meanwhile. */
  lemma RevokedTasksAreCanceled(c: Config, v: Server, id: Id, now: int)
    requires id in v.index.tasks && !IsTerminal(v.index.tasks[id].status)
    ensures var tasks := Step(c, v, Revoked(id, now)).index.tasks; id in tasks && tasks[id].status == Canceled
  {
    DispatchEnds(c, v.index, id, 0, None, now);
  }

  /** A cancellation that was asked for can be revoked, and then the task ends canceled. */
  lemma AskedCancellationsAreCarriedOut(c: Config, v: Server, id: Id, now: int)
    requires Enabled(v, CancelAsked(id))
    ensures var asked := Step(c, v, CancelAsked(id));
            && asked.index == v.index && Enabled(asked, Revoked(id, now))
            && var tasks := Step(c, asked, Revoked(id, now)).index.tasks; id in tasks && tasks[id].status == Canceled
  {
    RevokedTasksAreCanceled(c, Step(c, v, CancelAsked(id)), id, now);
  }

  lemma CompactCalls(c: Config, v: Server, request: Request, from: Option<Node>, p: Partial, newArtifactId: Id, ok: bool, now: int, id: Id)
    requires CompactTarget(v.index, request, from) == Some(id)
    ensures Step(c, v, CompactPartial(request, from, p, newArtifactId, now)).index == TaskIndex.RecordPartial(c, v.index, id, p, newArtifactId, now)
    ensures Step(c, v, CompactResult(request, from, ok, now)).index == TaskIndex.Complete(c, v.index, id, from, ok, now)
  {}

  lemma RecordTakes(c: Config, s: Index, id: Id, p: Partial, newArtifactId: Id, now: int)
    requires id in s.tasks && !IsTerminal(s.tasks[id].status)
    ensures var t, tasks := s.tasks[id], TaskIndex.RecordPartial(c, s, id, p, newArtifactId, now).tasks;
            && id in tasks
            && if p.sequence == Some(t.nextSequence as int) && p.hasDelta && p.mapped
               then !IsTerminal(tasks[id].status) && |tasks[id].log| == |t.log| + 1 && tasks[id].nextSequence == t.nextSequence + 1
               else tasks[id].status == Failed
  {
    PartialIsTakenExactlyWhen(s.tasks[id], p, newArtifactId, now);
  }

  /**
   A partial result that names the task's provider, or no sender, reaches its unfinished task:
   the next one is logged and the task goes on, any other fails it.
   */
  lemma ProviderPartialsReachTheTask(c: Config, v: Server, request: Request, from: Option<Node>, p: Partial, newArtifactId: Id, now: int, id: Id)
    requires LockStep(c, v.index) && id in v.index.tasks && v.index.tasks[id].requestId == Some(request)
    requires (from.None? || v.index.tasks[id].provider == from) && !IsTerminal(v.index.tasks[id].status)
    ensures var t, tasks := v.index.tasks[id], Step(c, v, CompactPartial(request, from, p, newArtifactId, now)).index.tasks;
            && id in tasks
            && if p.sequence == Some(t.nextSequence as int) && p.hasDelta && p.mapped
               then !IsTerminal(tasks[id].status) && |tasks[id].log| == |t.log| + 1 && tasks[id].nextSequence == t.nextSequence + 1
               else tasks[id].status == Failed
  {
    CompactEventConcernsExactly(c, v.index, request, from, id);
    CompactCalls(c, v, request, from, p, newArtifactId, false, now, id);
    RecordTakes(c, v.index, id, p, newArtifactId, now);
  }

  /** So does a compact result, which ends the task. */
  lemma CompactResultsEndTheTask(c: Config, v: Server, request: Request, from: Option<Node>, ok: bool, now: int, id: Id)
    requires LockStep(c, v.index) && id in v.index.tasks && v.index.tasks[id].requestId == Some(request)
    requires (from.None? || v.index.tasks[id].provider == from) && !IsTerminal(v.index.tasks[id].status)
    ensures var tasks := Step(c, v, CompactResult(request, from, ok, now)).index.tasks;
            id in tasks && tasks[id].status == if ok then Completed else Failed
  {
    CompactEventConcernsExactly(c, v.index, request, from, id);
    CompactCalls(c, v, request, from, Partial(None, false, false), 0, ok, now, id);
    CompleteEnds(c, v.index, id, from, ok, now);
  }
}
