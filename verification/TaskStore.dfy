/**
 The A2A task store as the object it is: task records changed in place and four
 maps kept beside them. Each method is proved against the function on indexes
 that `TaskIndex` states the lock-step results about.
 */
module TaskStore {
  import opened Outcomes
  import opened TaskLog
  import opened TaskIndex

  class A2aTask {
    const id: Id
    const key: Option<Key>
    var status: Status
    var lastModified: int
    var truynRequestId: Option<Request>
    var providerNodeId: Option<Node>
    var streamArtifactId: Option<Id>
    var streamEvents: seq<StreamEvent>
    var nextStreamSequence: nat

    ghost function View(): Task
      reads this
    {
      Task(id, key, status, lastModified, truynRequestId, providerNodeId, streamArtifactId, streamEvents, nextStreamSequence)
    }

    constructor (id: Id, key: Option<Key>, now: int)
      ensures View() == NewTask(id, key, now) && this.id == id
    {
      this.id := id;
      this.key := key;
      status := Submitted;
      lastModified := now;
      truynRequestId := None;
      providerNodeId := None;
      streamArtifactId := None;
      streamEvents := [];
      nextStreamSequence := 0;
    }
  }

  datatype StartError = TaskNotFound | RequestIdRequired

  /** A verified event of the compact channel about a request. */
  datatype CompactEvent =
    | PartialEvent(p: Partial)
    | ResultEvent(failed: bool, mapped: bool)
    | OtherEvent

  class A2aTaskStore {
    const config: Config
    var order: seq<Id>
    var tasks: map<Id, A2aTask>
    var byTruynRequestId: map<Request, Id>
    var byMessageCorrelation: map<Key, Marker>
    var messageCorrelationByTaskId: map<Id, Key>

    ghost predicate Valid()
      reads this
    {
      IsConfig(config) && forall id | id in tasks :: tasks[id].id == id
    }

    ghost function View(): Index
      reads this, tasks.Values
    {
      Index(order, map id | id in tasks :: tasks[id].View(), byTruynRequestId, byMessageCorrelation, messageCorrelationByTaskId)
    }

    constructor (config: Config)
      requires IsConfig(config)
      ensures Valid() && View() == EMPTY && this.config == config
    {
      this.config := config;
      order, tasks, byTruynRequestId, byMessageCorrelation, messageCorrelationByTaskId := [], map[], map[], map[], map[];
    }

    method TouchReplayMarker(taskId: Id, now: int)
      modifies this`byMessageCorrelation
      ensures View() == TouchMarker(config, old(View()), taskId, now)
    {
      if taskId in messageCorrelationByTaskId {
        var key := messageCorrelationByTaskId[taskId];
        if key in byMessageCorrelation {
          byMessageCorrelation := byMessageCorrelation[key := Marker(taskId, now + config.ttlMs)];
        }
      }
    }

    method DeleteTask(taskId: Id, forget: bool) returns (found: bool)
      requires Valid()
      modifies this
      ensures Valid() && found == (taskId in old(tasks))
      ensures View() == Delete(old(View()), taskId, forget)
      ensures tasks == old(tasks) - {taskId}
    {
      if taskId !in tasks {
        assert tasks - {taskId} == tasks;
        return false;
      }
      ghost var before := View();
      var task := tasks[taskId];
      if task.truynRequestId.Some? {
        byTruynRequestId := byTruynRequestId - {task.truynRequestId.value};
      }
      if forget && taskId in messageCorrelationByTaskId {
        byMessageCorrelation := byMessageCorrelation - {messageCorrelationByTaskId[taskId]};
      }
      messageCorrelationByTaskId := messageCorrelationByTaskId - {taskId};
      tasks := tasks - {taskId};
      order := Without(order, taskId);
      assert View().tasks == before.tasks - {taskId};
      return true;
    }

    method DropExpiredMarkers(now: int)
      modifies this`byMessageCorrelation
      ensures View() == old(View()).(markers := UnexpiredMarkers(old(View()).markers, now))
    {
      ghost var was := byMessageCorrelation;
      var todo := byMessageCorrelation.Keys;
      while todo != {}
        invariant todo <= was.Keys
        invariant forall k :: k in byMessageCorrelation <==> k in was && (k in todo || now <= was[k].expiresAt)
        invariant forall k | k in byMessageCorrelation :: byMessageCorrelation[k] == was[k]
        decreases todo
      {
        var k :| k in todo;
        if byMessageCorrelation[k].expiresAt < now {
          byMessageCorrelation := byMessageCorrelation - {k};
        }
        todo := todo - {k};
      }
      assert byMessageCorrelation == UnexpiredMarkers(was, now);
    }

    method DropExpiredTasks(now: int)
      requires Valid()
      modifies this
      ensures Valid() && View() == DropExpired(config, old(View()), old(order), now)
      ensures tasks.Values <= old(tasks.Values)
    {
      var ids := order;
      var i := 0;
      assert ids[0..] == ids;
      while i < |ids|
        invariant 0 <= i <= |ids| && Valid() && tasks.Values <= old(tasks.Values)
        invariant DropExpired(config, View(), ids[i..], now) == DropExpired(config, old(View()), ids, now)
      {
        ghost var before := View();
        assert ids[i..][0] == ids[i] && ids[i..][1..] == ids[i+1..];
        if ids[i] in tasks && tasks[ids[i]].lastModified < now - config.ttlMs {
          var _ := DeleteTask(ids[i], true);
        }
        i := i + 1;
      }
    }

    method FindTerminal() returns (found: Option<Id>)
      requires Valid()
      ensures found == FirstTerminal(View(), order)
    {
      var i := 0;
      assert order[0..] == order;
      while i < |order|
        invariant 0 <= i <= |order|
        invariant FirstTerminal(View(), order[i..]) == FirstTerminal(View(), order)
      {
        assert order[i..][0] == order[i] && order[i..][1..] == order[i+1..];
        if order[i] in tasks && IsTerminal(tasks[order[i]].status) {
          return Some(order[i]);
        }
        i := i + 1;
      }
      return None;
    }

    method EvictTerminal() returns (ok: bool)
      requires Valid()
      modifies this
      ensures Valid() && (View(), ok) == Evict(config, old(View()))
      ensures tasks.Values <= old(tasks.Values)
    {
      SameSize();
      while |tasks| >= config.maxTasks
        invariant Valid() && tasks.Values <= old(tasks.Values)
        invariant Evict(config, View()) == Evict(config, old(View()))
        decreases |tasks|
      {
        SameSize();
        var terminal := FindTerminal();
        if terminal.None? {
          return false;
        }
        ghost var before := tasks;
        var _ := DeleteTask(terminal.value, false);
        ShrinksBy(before, terminal.value);
      }
      SameSize();
      return true;
    }

    lemma SameSize()
      ensures |View().tasks| == |tasks|
    {
      assert View().tasks.Keys == tasks.Keys;
      assert |View().tasks.Keys| == |tasks.Keys|;
    }

    lemma ShrinksBy(m: map<Id, A2aTask>, id: Id)
      requires id in m
      ensures |m - {id}| < |m|
    {
      assert (m - {id}).Keys == m.Keys - {id};
      assert |(m - {id}).Keys| < |m.Keys|;
    }

    /** Expired markers, expired tasks, then terminal tasks until there is room; false when it throws. */
    method PruneStore(now: int) returns (ok: bool)
      requires Valid()
      modifies this
      ensures Valid() && (View(), ok) == Prune(config, old(View()), now)
      ensures tasks.Values <= old(tasks.Values)
    {
      DropExpiredMarkers(now);
      DropExpiredTasks(now);
      ok := EvictTerminal();
    }

    method InsertTask(id: Id, key: Option<Key>, createdAt: int) returns (task: A2aTask)
      requires Valid()
      modifies this
      ensures Valid() && View() == Insert(config, old(View()), id, key, createdAt)
      ensures fresh(task) && task.View() == NewTask(id, key, createdAt) && id in tasks && tasks[id] == task
    {
      ghost var before := View();
      task := new A2aTask(id, key, createdAt);
      order, tasks := order + [id], tasks[id := task];
      assert View().tasks == before.tasks[id := NewTask(id, key, createdAt)];
      if key.Some? {
        RememberMessage(id, key.value, createdAt + config.ttlMs);
      }
    }

    method RememberMessage(id: Id, key: Key, expiresAt: int)
      modifies this`byMessageCorrelation, this`messageCorrelationByTaskId
      ensures View() == old(View()).(markers := old(View()).markers[key := Marker(id, expiresAt)],
                                     keyOf := old(View()).keyOf[id := key])
    {
      byMessageCorrelation := byMessageCorrelation[key := Marker(id, expiresAt)];
      messageCorrelationByTaskId := messageCorrelationByTaskId[id := key];
    }

    method CreateTask(id: Id, key: Option<Key>, pruneAt: int, createdAt: int) returns (r: Result<A2aTask, CreateError>)
      requires Valid() && id !in tasks
      modifies this
      ensures Valid()
      ensures View() == Create(config, old(View()), id, key, pruneAt, createdAt).0
      ensures match Create(config, old(View()), id, key, pruneAt, createdAt).1
              case Some(e) => r == Err(e)
              case None => r.Ok? && fresh(r.value) && r.value.View() == NewTask(id, key, createdAt)
                           && id in tasks && tasks[id] == r.value
    {
      var room := PruneStore(pruneAt);
      if !room {
        return Err(CapacityReached);
      }
      if key.Some? && key.value in byMessageCorrelation {
        return Err(MessageReplay);
      }
      if key.Some? && |byMessageCorrelation| >= config.maxMarkers {
        return Err(ReplayCapacityReached);
      }
      var task := InsertTask(id, key, createdAt);
      return Ok(task);
    }

    /** A lookup prunes first, and so may evict a terminal task or throw. */
    method Get(taskId: Id, now: int) returns (r: Result<Option<A2aTask>, CreateError>)
      requires Valid()
      modifies this
      ensures Valid() && View() == Prune(config, old(View()), now).0
      ensures r.Err? <==> !Prune(config, old(View()), now).1
      ensures r.Ok? ==> r.value == if taskId in tasks then Some(tasks[taskId]) else None
    {
      var ok := PruneStore(now);
      if !ok {
        return Err(CapacityReached);
      }
      return Ok(if taskId in tasks then Some(tasks[taskId]) else None);
    }

    method StartDispatched(taskId: Id, request: Option<Request>, provider: Option<Node>, now: int) returns (r: Result<A2aTask, StartError>)
      requires Valid()
      modifies this, tasks.Values
      ensures Valid() && tasks == old(tasks)
      ensures r == (if taskId !in tasks then Err(TaskNotFound) else if request.None? then Err(RequestIdRequired)
                    else Ok(tasks[taskId]))
      ensures r.Ok? ==> r.value.status == Working && r.value.truynRequestId == request && r.value.providerNodeId == provider
      ensures View() == if request.Some? then TaskIndex.Start(config, old(View()), taskId, request.value, provider, now) else old(View())
    {
      if taskId !in tasks {
        return Err(TaskNotFound);
      }
      if request.None? {
        return Err(RequestIdRequired);
      }
      ghost var before := View();
      var task := tasks[taskId];
      task.truynRequestId := request;
      task.providerNodeId := provider;
      task.status := Working;
      task.lastModified := now;
      byTruynRequestId := byTruynRequestId[request.value := task.id];
      assert View().tasks == before.tasks[taskId := StartTask(before.tasks[taskId], request.value, provider, now)];
      TouchReplayMarker(task.id, now);
      return Ok(task);
    }

    /** Status, timestamp and the logged status change, as every ending operation does it. */
    method End(task: A2aTask, status: Status, now: int)
      modifies task
      ensures task.View() == EndTask(old(task.View()), status, now)
    {
      task.status := status;
      task.lastModified := now;
      task.streamEvents := task.streamEvents + [StatusUpdate(status, now)];
    }

    method RejectDispatched(taskId: Id, now: int) returns (r: Option<A2aTask>)
      requires Valid()
      modifies this, tasks.Values
      ensures Valid() && tasks == old(tasks) && View() == TaskIndex.Reject(config, old(View()), taskId, now)
      ensures taskId in tasks ==>
        && tasks[taskId].status == Rejected && tasks[taskId].lastModified == now
        && tasks[taskId].streamEvents == old(tasks[taskId].streamEvents) + [StatusUpdate(Rejected, now)]
      ensures r == if taskId in tasks then Some(tasks[taskId]) else None
    {
      if taskId !in tasks {
        return None;
      }
      ghost var before := View();
      var task := tasks[taskId];
      End(task, Rejected, now);
      assert View().tasks == before.tasks[taskId := RejectTask(before.tasks[taskId], now)];
      TouchReplayMarker(taskId, now);
      return Some(task);
    }

    method CancelRequested(taskId: Id, now: int) returns (r: Option<A2aTask>)
      requires Valid()
      modifies this, tasks.Values
      ensures Valid() && tasks == old(tasks) && View() == TaskIndex.Cancel(config, old(View()), taskId, now)
      ensures taskId in tasks && !old(IsTerminal(tasks[taskId].status)) ==>
        && tasks[taskId].status == Canceled && tasks[taskId].lastModified == now
        && tasks[taskId].streamEvents == old(tasks[taskId].streamEvents) + [StatusUpdate(Canceled, now)]
      ensures r == if taskId in tasks && (tasks[taskId].status == Canceled) then Some(tasks[taskId]) else None
    {
      if taskId !in tasks {
        return None;
      }
      ghost var before := View();
      var task := tasks[taskId];
      if task.status == Canceled {
        return Some(task);
      }
      if IsTerminal(task.status) {
        return None;
      }
      End(task, Canceled, now);
      assert View().tasks == before.tasks[taskId := CancelTask(before.tasks[taskId], now)];
      TouchReplayMarker(taskId, now);
      return Some(task);
    }

    method EndWithResult(task: A2aTask, provider: Option<Node>, failed: bool, mapped: bool, now: int)
      requires !IsTerminal(task.status)
      modifies task
      ensures task.View() == CompleteTask(old(task.View()), provider, !failed && mapped, now)
    {
      if provider.Some? {
        task.providerNodeId := provider;
      }
      task.lastModified := now;
      if failed {
        End(task, Failed, now);
      } else if mapped {
        End(task, Completed, now);
      } else {
        End(task, Failed, now);
      }
    }

    method CompleteResult(task: A2aTask, provider: Option<Node>, failed: bool, mapped: bool, now: int)
      requires Valid() && task.id in tasks && tasks[task.id] == task
      modifies this, tasks.Values
      ensures Valid() && tasks == old(tasks)
      ensures View() == TaskIndex.Complete(config, old(View()), task.id, provider, !failed && mapped, now)
      ensures !old(IsTerminal(task.status)) ==>
        && task.status == (if !failed && mapped then Completed else Failed) && task.lastModified == now
        && task.providerNodeId == (if provider.Some? then provider else old(task.providerNodeId))
        && task.streamEvents == old(task.streamEvents) + [StatusUpdate(task.status, now)]
      ensures old(IsTerminal(task.status)) ==> task.View() == old(task.View())
    {
      if IsTerminal(task.status) {
        return;
      }
      ghost var before := View();
      EndWithResult(task, provider, failed, mapped, now);
      assert View().tasks == before.tasks[task.id := CompleteTask(before.tasks[task.id], provider, !failed && mapped, now)];
      TouchReplayMarker(task.id, now);
    }

    method CompleteFromTruynEvent(verified: bool, request: Request, from: Option<Node>, failed: bool, mapped: bool, now: int)
      returns (r: Option<A2aTask>)
      requires Valid()
      modifies this, tasks.Values
      ensures Valid() && tasks == old(tasks)
      ensures var target := old(ResultTarget(View(), request, from));
              if verified && target.Some?
              then View() == TaskIndex.Complete(config, old(View()), target.value, from, !failed && mapped, now)
                   && target.value in tasks && r == Some(tasks[target.value])
              else View() == old(View()) && r == None
      ensures request in old(byTruynRequestId) && old(byTruynRequestId)[request] in tasks ==>
              var id := old(byTruynRequestId)[request];
              && (old(tasks[id].providerNodeId).Some? && from != old(tasks[id].providerNodeId) ==> r == None && View() == old(View()))
              && (verified && (old(tasks[id].providerNodeId).None? || from == old(tasks[id].providerNodeId))
                  && !old(IsTerminal(tasks[id].status)) ==>
                    tasks[id].status == if !failed && mapped then Completed else Failed)
    {
      if !verified || request !in byTruynRequestId || byTruynRequestId[request] !in tasks {
        return None;
      }
      var task := tasks[byTruynRequestId[request]];
      if task.providerNodeId.Some? && from != task.providerNodeId {
        return None;
      }
      CompleteResult(task, from, failed, mapped, now);
      return Some(task);
    }

    method AppendPartial(task: A2aTask, p: Partial, newArtifactId: Id, now: int)
      requires !IsTerminal(task.status)
      modifies task
      ensures task.View() == PartialTask(old(task.View()), p, newArtifactId, now)
    {
      if p.sequence.None? || p.sequence.value < 0 || !p.hasDelta || p.sequence.value != task.nextStreamSequence {
        End(task, Failed, now);
      } else {
        if task.streamArtifactId.None? {
          task.streamArtifactId := Some(newArtifactId);
        }
        if p.mapped {
          task.streamEvents := task.streamEvents
            + [ArtifactUpdate(task.streamArtifactId.value, p.sequence.value, p.sequence.value > 0)];
          task.nextStreamSequence := task.nextStreamSequence + 1;
          task.lastModified := now;
        } else {
          End(task, Failed, now);
        }
      }
    }

    method RecordPartialResult(task: A2aTask, p: Partial, newArtifactId: Id, now: int)
      requires Valid() && task.id in tasks && tasks[task.id] == task && !IsTerminal(task.status)
      modifies this, tasks.Values
      ensures Valid() && tasks == old(tasks)
      ensures View() == TaskIndex.RecordPartial(config, old(View()), task.id, p, newArtifactId, now)
      ensures p.sequence != Some(old(task.nextStreamSequence) as int) || !p.hasDelta || !p.mapped ==>
        task.status == Failed && task.streamEvents == old(task.streamEvents) + [StatusUpdate(Failed, now)]
      ensures p.sequence == Some(old(task.nextStreamSequence) as int) && p.hasDelta && p.mapped ==>
        && task.status == old(task.status) && task.streamArtifactId.Some?
        && task.streamEvents == old(task.streamEvents)
             + [ArtifactUpdate(task.streamArtifactId.value, p.sequence.value, p.sequence.value > 0)]
    {
      ghost var before := View();
      AppendPartial(task, p, newArtifactId, now);
      assert View().tasks == before.tasks[task.id := PartialTask(before.tasks[task.id], p, newArtifactId, now)];
      TouchReplayMarker(task.id, now);
    }

    /** What a compact event does to the store. */
    static ghost function Recorded(c: Config, s: Index, request: Request, from: Option<Node>, e: CompactEvent, newArtifactId: Id, now: int): Index
    {
      match CompactTarget(s, request, from)
      case None => s
      case Some(id) =>
        match e
        case PartialEvent(p) => TaskIndex.RecordPartial(c, s, id, p, newArtifactId, now)
        case ResultEvent(failed, mapped) => TaskIndex.Complete(c, s, id, from, !failed && mapped, now)
        case OtherEvent => s
    }

    method RecordCompactEvent(verified: bool, request: Request, from: Option<Node>, e: CompactEvent, newArtifactId: Id, now: int)
      returns (r: Option<A2aTask>)
      requires Valid()
      modifies this, tasks.Values
      ensures Valid() && tasks == old(tasks)
      ensures View() == if verified then Recorded(config, old(View()), request, from, e, newArtifactId, now) else old(View())
      ensures var target := old(CompactTarget(View(), request, from));
              r.Some? <==> verified && target.Some? && (!e.OtherEvent? || old(target.value in View().tasks && IsTerminal(View().tasks[target.value].status)))
      ensures request in old(byTruynRequestId) && old(byTruynRequestId)[request] in tasks ==>
              var id := old(byTruynRequestId)[request];
              && (from.Some? && old(tasks[id].providerNodeId).Some? && from != old(tasks[id].providerNodeId)
                  ==> r == None && View() == old(View()))
              && (verified && (from.None? || old(tasks[id].providerNodeId).None? || from == old(tasks[id].providerNodeId))
                  && !old(IsTerminal(tasks[id].status)) && e.ResultEvent? ==>
                    tasks[id].status == if !e.failed && e.mapped then Completed else Failed)
      ensures r.Some? ==> old(CompactTarget(View(), request, from)) == Some(r.value.id) && r.value.id in tasks && tasks[r.value.id] == r.value
    {
      if !verified || request !in byTruynRequestId || byTruynRequestId[request] !in tasks {
        return None;
      }
      var task := tasks[byTruynRequestId[request]];
      if task.providerNodeId.Some? && from.Some? && from != task.providerNodeId {
        return None;
      }
      if IsTerminal(task.status) {
        return Some(task);
      }
      match e
      case PartialEvent(p) =>
        RecordPartialResult(task, p, newArtifactId, now);
        return Some(task);
      case ResultEvent(failed, mapped) =>
        CompleteResult(task, from, failed, mapped, now);
        return Some(task);
      case OtherEvent =>
        return None;
    }

    /** The events from a cursor on; a cursor that is not a safe integer, or is negative, reads from the start. */
    method StreamEventsSince(task: A2aTask, cursor: Option<int>) returns (events: seq<StreamEvent>, next: nat)
      ensures next == |task.streamEvents|
      ensures cursor.Some? && 0 <= cursor.value <= next ==> task.streamEvents[..cursor.value] + events == task.streamEvents
      ensures cursor.Some? && next < cursor.value ==> events == []
      ensures cursor.None? || cursor.value < 0 ==> events == task.streamEvents
    {
      next := |task.streamEvents|;
      var start := if cursor.Some? && cursor.value >= 0 then if cursor.value < next then cursor.value else next else 0;
      events := task.streamEvents[start..];
    }
  }
}
