/**
 Which task a replay marker belongs to. Task ids are never used twice, so a marker
 names at most one live task, and a live task with a message key has exactly one marker.
 */
module MarkerOwners {
  import opened Outcomes
  import opened TaskLog
  import opened TaskIndex
  import opened TaskServer
  import ReplayGuard

  /** Every marker names a task that was created, and if that is live it holds the marker's key. */
  ghost predicate Owned(s: Index, used: set<Id>) {
    forall k | k in s.markers :: OwnerOk(s, used, k)
  }

  ghost predicate OwnerOk(s: Index, used: set<Id>, k: Key)
    requires k in s.markers
  {
    var id := s.markers[k].taskId;
    id in used && (id in s.tasks ==> s.tasks[id].key == Some(k))
  }

  // ---- One operation ---------------------------------------------------------------------

  lemma PruneKeepsOwners(c: Config, s: Index, used: set<Id>, now: int)
    requires LockStep(c, s) && Owned(s, used)
    ensures Owned(Prune(c, s, now).0, used)
  {
    ReplayGuard.PruneDropsOnlyExpired(c, s, now);
    PruneEffect(c, s, now);
    var d := Prune(c, s, now).0;
    forall k | k in d.markers ensures OwnerOk(d, used, k) {
      assert OwnerOk(s, used, k);
    }
  }

  lemma InsertKeepsOwners(c: Config, p: Index, used: set<Id>, id: Id, key: Option<Key>, createdAt: int)
    requires Owned(p, used) && id !in used
    ensures Owned(Insert(c, p, id, key, createdAt), used + {id})
  {
    var d := Insert(c, p, id, key, createdAt);
    forall k | k in d.markers ensures OwnerOk(d, used + {id}, k) {
      if !(key.Some? && key.value == k) { assert OwnerOk(p, used, k); }
    }
  }

  lemma CreateKeepsOwners(c: Config, s: Index, used: set<Id>, id: Id, key: Option<Key>, pruneAt: int, createdAt: int)
    requires LockStep(c, s) && Owned(s, used) && id !in used
    ensures var (d, err) := Create(c, s, id, key, pruneAt, createdAt);
            if err.Some? then Owned(d, used) else Owned(d, used + {id})
  {
    PruneKeepsOwners(c, s, used, pruneAt);
    InsertKeepsOwners(c, Prune(c, s, pruneAt).0, used, id, key, createdAt);
  }

  lemma DeleteKeepsOwners(s: Index, used: set<Id>, id: Id, forget: bool)
    requires Owned(s, used)
    ensures Owned(Delete(s, id, forget), used)
  {
    var d := Delete(s, id, forget);
    forall k | k in d.markers ensures OwnerOk(d, used, k) {
      assert OwnerOk(s, used, k);
    }
  }

  lemma TouchKeepsOwners(c: Config, s: Index, used: set<Id>, id: Id, t: Task, now: int, byRequest: map<Request, Id>)
    requires LockStep(c, s) && Owned(s, used) && id in s.tasks && id in used && t.key == s.tasks[id].key
    ensures Owned(TouchMarker(c, s.(tasks := s.tasks[id := t], byRequest := byRequest), id, now), used)
  {
    assert KeyOk(s, id);
    var d := TouchMarker(c, s.(tasks := s.tasks[id := t], byRequest := byRequest), id, now);
    forall k | k in d.markers ensures OwnerOk(d, used, k) {
      assert OwnerOk(s, used, k);
    }
  }

  /** A task operation on a live task, as the change of the task and the touch of its marker. */
  lemma ProgressIsTouch(c: Config, s: Index, op: TaskIndex.Op) returns (t: Task, now: int, byRequest: map<Request, Id>)
    requires TaskOp(op).Some? && TaskOp(op).value.0 in s.tasks && TaskIndex.Apply(c, s, op) != s
    ensures t.key == s.tasks[TaskOp(op).value.0].key
    ensures TaskIndex.Apply(c, s, op)
            == TouchMarker(c, s.(tasks := s.tasks[TaskOp(op).value.0 := t], byRequest := byRequest), TaskOp(op).value.0, now)
  {
    var (id, change) := TaskOp(op).value;
    t := TaskLog.Apply(s.tasks[id], change);
    now := ReplayGuard.Readings(op)[0];
    byRequest := if op.ToStart? then s.byRequest[op.request := id] else s.byRequest;
  }

  lemma LiveProgressKeepsOwners(c: Config, s: Index, used: set<Id>, op: TaskIndex.Op)
    requires LockStep(c, s) && Owned(s, used) && TaskOp(op).Some?
    requires TaskOp(op).value.0 in s.tasks && TaskOp(op).value.0 in used && TaskIndex.Apply(c, s, op) != s
    ensures Owned(TaskIndex.Apply(c, s, op), used)
  {
    var t, now, byRequest := ProgressIsTouch(c, s, op);
    TouchKeepsOwners(c, s, used, TaskOp(op).value.0, t, now, byRequest);
  }

  lemma ProgressKeepsOwners(c: Config, s: Index, used: set<Id>, op: TaskIndex.Op, d: Index)
    requires LockStep(c, s) && Owned(s, used) && s.tasks.Keys <= used && TaskOp(op).Some? && d == TaskIndex.Apply(c, s, op)
    ensures Owned(d, used)
  {
    if d != s {
      MissingIsSkipped(c, s, op);
      LiveProgressKeepsOwners(c, s, used, op);
    }
  }

  lemma MissingIsSkipped(c: Config, s: Index, op: TaskIndex.Op)
    requires TaskOp(op).Some?
    ensures TaskOp(op).value.0 !in s.tasks ==> TaskIndex.Apply(c, s, op) == s
  {}

  lemma TasksAreUsed(c: Config, v: Server)
    requires TaskServer.Inv(c, v)
    ensures v.index.tasks.Keys <= v.used
  {
    forall x | x in v.index.tasks ensures x in v.used {
      assert TaskInv(v, x, v.index.tasks[x]);
    }
  }

  lemma AcceptKeepsOwners(c: Config, v: Server, e: TaskServer.Event)
    requires TaskServer.Inv(c, v) && Owned(v.index, v.used) && Enabled(v, e) && e.Accepted?
    ensures Owned(TaskServer.Step(c, v, e).index, TaskServer.Step(c, v, e).used)
  {
    CreateKeepsOwners(c, v.index, v.used, e.id, e.key, e.pruneAt, e.createdAt);
    var (d, err) := Create(c, v.index, e.id, e.key, e.pruneAt, e.createdAt);
    assert AfterCall(c, v, e) == d;
    if err.None? { DeleteKeepsOwners(d, v.used + {e.id}, e.id, true); }
  }

  lemma StepKeepsOwners(c: Config, v: Server, e: TaskServer.Event)
    requires TaskServer.Inv(c, v) && Owned(v.index, v.used) && Enabled(v, e)
    ensures Owned(TaskServer.Step(c, v, e).index, TaskServer.Step(c, v, e).used)
  {
    if e.Accepted? {
      AcceptKeepsOwners(c, v, e);
    } else {
      OtherStep(c, v, e);
      UsedStays(c, v, e);
      TasksAreUsed(c, v);
      if e.LookedUp? {
        PruneKeepsOwners(c, v.index, v.used, e.now);
      } else if Call(v, e).Some? {
        ProgressKeepsOwners(c, v.index, v.used, Call(v, e).value, TaskServer.Step(c, v, e).index);
      }
    }
  }

  lemma UsedStays(c: Config, v: Server, e: TaskServer.Event)
    requires !e.Accepted?
    ensures TaskServer.Step(c, v, e).used == v.used
  {}

  // ---- Runs --------------------------------------------------------------------------------

  lemma {:induction false} RunKeepsOwners(c: Config, v: Server, es: seq<TaskServer.Event>)
    requires TaskServer.Inv(c, v) && Owned(v.index, v.used) && IsRun(c, v, es)
    ensures TaskServer.Inv(c, TaskServer.Run(c, v, es))
    ensures Owned(TaskServer.Run(c, v, es).index, TaskServer.Run(c, v, es).used)
    decreases |es|
  {
    if es != [] {
      StepKeepsOwners(c, v, es[0]);
      TaskServer.StepKeepsInv(c, v, es[0]);
      RunKeepsOwners(c, TaskServer.Step(c, v, es[0]), es[1..]);
    }
  }

  /** In every run of the server exactly one marker names a live task that has a message key, and none names one without. */
  lemma EachTaskHasItsOneMarker(c: Config, es: seq<TaskServer.Event>, id: Id)
    requires IsRun(c, IDLE, es) && id in TaskServer.Run(c, IDLE, es).index.tasks
    ensures var s := TaskServer.Run(c, IDLE, es).index;
            forall k | k in s.markers :: s.markers[k].taskId == id <==> s.tasks[id].key == Some(k)
    ensures var s := TaskServer.Run(c, IDLE, es).index;
            s.tasks[id].key.Some? ==> s.tasks[id].key.value in s.markers
  {
    EmptyIsInLockStep(c);
    RunKeepsOwners(c, IDLE, es);
    var v := TaskServer.Run(c, IDLE, es);
    assert MarkerOk(c, v.index, id);
    forall k | k in v.index.markers ensures v.index.markers[k].taskId == id <==> v.index.tasks[id].key == Some(k) {
      assert OwnerOk(v.index, v.used, k);
    }
  }
}
