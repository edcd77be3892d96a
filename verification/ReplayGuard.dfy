/**
 Replay protection of the A2A task store: while the clock does not run
 backwards, a message that was accepted once is refused until the time-to-live
 after the last touch of its task, even when the task itself was evicted.
 */
module ReplayGuard {
  import opened Outcomes
  import opened TaskLog
  import opened TaskIndex

  // ---- Pruning drops exactly the expired markers ------------------------------------------

  lemma {:induction false} DropExpiredKeepsMarkers(c: Config, s: Index, ids: seq<Id>, now: int)
    requires forall id | id in s.tasks && IsExpired(c, s.tasks[id], now) && id in s.keyOf :: s.keyOf[id] !in s.markers
    ensures DropExpired(c, s, ids, now).markers == s.markers
    decreases |ids|
  {
    if ids != [] {
      var id := ids[0];
      if id in s.tasks && IsExpired(c, s.tasks[id], now) {
        var d := Delete(s, id, true);
        assert d.markers == s.markers;
        DropExpiredKeepsMarkers(c, d, ids[1..], now);
      } else {
        DropExpiredKeepsMarkers(c, s, ids[1..], now);
      }
    }
  }

  lemma {:induction false} EvictKeepsMarkers(c: Config, s: Index)
    ensures Evict(c, s).0.markers == s.markers
    decreases |s.tasks|
  {
    if |s.tasks| >= c.maxTasks && FirstTerminal(s, s.order).Some? {
      EvictKeepsMarkers(c, Delete(s, FirstTerminal(s, s.order).value, false));
    }
  }

  /** Dropping an expired task never forgets an unexpired marker, and eviction forgets none. */
  lemma PruneDropsOnlyExpired(c: Config, s: Index, now: int)
    requires LockStep(c, s)
    ensures Prune(c, s, now).0.markers == UnexpiredMarkers(s.markers, now)
  {
    var s1 := s.(markers := UnexpiredMarkers(s.markers, now));
    forall id | id in s1.tasks && IsExpired(c, s1.tasks[id], now) && id in s1.keyOf ensures s1.keyOf[id] !in s1.markers {
      assert MarkerOk(c, s, id);
    }
    DropExpiredKeepsMarkers(c, s1, s1.order, now);
    EvictKeepsMarkers(c, DropExpired(c, s1, s1.order, now));
  }

  /** With room for a task, a message is called a replay exactly while its marker is unexpired. */
  lemma RefusedExactlyWhileMarked(c: Config, s: Index, id: Id, key: Key, pruneAt: int, createdAt: int)
    requires LockStep(c, s) && Prune(c, s, pruneAt).1
    ensures Create(c, s, id, Some(key), pruneAt, createdAt).1 == Some(MessageReplay)
            <==> key in s.markers && pruneAt <= s.markers[key].expiresAt
  {
    PruneDropsOnlyExpired(c, s, pruneAt);
  }

  // ---- Time ------------------------------------------------------------------------------------

  /** No marker expires later than the time-to-live from now, so that a touch never shortens its life. */
  predicate Young(c: Config, markers: map<Key, Marker>, clock: int) {
    forall k | k in markers :: markers[k].expiresAt <= clock + c.ttlMs
  }

  predicate Marked(markers: map<Key, Marker>, key: Key, until: int) {
    key in markers && until <= markers[key].expiresAt
  }

  /** The clock readings of an operation, in order. */
  function Readings(op: TaskIndex.Op): seq<int> {
    match op
    case ToCreate(_, _, pruneAt, createdAt) => [pruneAt, createdAt]
    case ToGet(now) => [now]
    case ToDelete(_, _) => []
    case ToStart(_, _, _, now) => [now]
    case ToReject(_, now) => [now]
    case ToCancel(_, now) => [now]
    case ToComplete(_, _, _, now) => [now]
    case ToRecord(_, _, _, now) => [now]
  }

  predicate Forward(clock: int, readings: seq<int>) {
    && (|readings| > 0 ==> clock <= readings[0])
    && forall i | 0 < i < |readings| :: readings[i-1] <= readings[i]
  }

  function ClockAfter(clock: int, op: TaskIndex.Op): int {
    var rs := Readings(op);
    if rs == [] then clock else rs[|rs| - 1]
  }

  /** `delete` told to forget the very task that holds the marker. */
  predicate Forgets(s: Index, op: TaskIndex.Op, key: Key) {
    op.ToDelete? && op.forget && op.id in s.keyOf && s.keyOf[op.id] == key
  }

  // ---- One operation ----------------------------------------------------------------------------

  /** What a touch at `now` does to the markers: the same keys, each expiry unchanged or renewed. */
  predicate Renewed(c: Config, before: map<Key, Marker>, after: map<Key, Marker>, now: int) {
    && before.Keys == after.Keys
    && forall k | k in before :: after[k].expiresAt == before[k].expiresAt || after[k].expiresAt == now + c.ttlMs
  }

  lemma ProgressRenews(c: Config, s: Index, op: TaskIndex.Op)
    requires op.ToStart? || op.ToReject? || op.ToCancel? || op.ToComplete? || op.ToRecord?
    ensures Renewed(c, s.markers, TaskIndex.Apply(c, s, op).markers, Readings(op)[0])
  {}

  lemma RenewalKeeps(c: Config, before: map<Key, Marker>, after: map<Key, Marker>, now: int, clock: int)
    requires Renewed(c, before, after, now) && Young(c, before, clock) && clock <= now
    ensures Young(c, after, now)
    ensures forall key, until :: Marked(before, key, until) ==> Marked(after, key, until)
  {}

  /** A creation leaves the markers that pruning left, and may add its own. */
  lemma CreatedMarkers(c: Config, s: Index, op: TaskIndex.Op)
    requires op.ToCreate?
    ensures var p, d := Prune(c, s, op.pruneAt).0.markers, TaskIndex.Apply(c, s, op).markers;
            d == p || (op.key.Some? && op.key.value !in p && d == p[op.key.value := Marker(op.id, op.createdAt + c.ttlMs)])
  {}

  lemma CreateKeepsMark(c: Config, s: Index, op: TaskIndex.Op, key: Key, until: int)
    requires LockStep(c, s) && op.ToCreate? && Marked(s.markers, key, until) && op.pruneAt <= until
    ensures Marked(TaskIndex.Apply(c, s, op).markers, key, until)
  {
    PruneDropsOnlyExpired(c, s, op.pruneAt);
    CreatedMarkers(c, s, op);
  }

  lemma CreateStaysYoung(c: Config, s: Index, op: TaskIndex.Op, clock: int)
    requires LockStep(c, s) && Young(c, s.markers, clock) && op.ToCreate? && clock <= op.pruneAt <= op.createdAt
    ensures Young(c, TaskIndex.Apply(c, s, op).markers, op.createdAt)
  {
    PruneDropsOnlyExpired(c, s, op.pruneAt);
    CreatedMarkers(c, s, op);
  }

  lemma StepStaysYoung(c: Config, s: Index, op: TaskIndex.Op, clock: int)
    requires LockStep(c, s) && Young(c, s.markers, clock) && Forward(clock, Readings(op))
    ensures Young(c, TaskIndex.Apply(c, s, op).markers, ClockAfter(clock, op))
  {
    match op
    case ToCreate(id, k, pruneAt, createdAt) =>
      assert Readings(op)[0] <= Readings(op)[1];
      CreateStaysYoung(c, s, op, clock);
    case ToGet(now) => PruneDropsOnlyExpired(c, s, now);
    case ToDelete(id, forget) => assert ClockAfter(clock, op) == clock;
    case _ =>
      ProgressRenews(c, s, op);
      RenewalKeeps(c, s.markers, TaskIndex.Apply(c, s, op).markers, Readings(op)[0], clock);
  }

  lemma StepKeepsMark(c: Config, s: Index, op: TaskIndex.Op, key: Key, until: int, clock: int)
    requires LockStep(c, s) && !Forgets(s, op, key)
    requires Marked(s.markers, key, until) && Young(c, s.markers, clock)
    requires Forward(clock, Readings(op)) && forall r | r in Readings(op) :: r <= until
    ensures Marked(TaskIndex.Apply(c, s, op).markers, key, until)
  {
    match op
    case ToCreate(id, k, pruneAt, createdAt) =>
      assert pruneAt in Readings(op);
      CreateKeepsMark(c, s, op, key, until);
    case ToGet(now) =>
      assert now in Readings(op);
      PruneDropsOnlyExpired(c, s, now);
    case ToDelete(id, forget) =>
    case _ =>
      ProgressRenews(c, s, op);
      RenewalKeeps(c, s.markers, TaskIndex.Apply(c, s, op).markers, Readings(op)[0], clock);
  }

  // ---- Runs ---------------------------------------------------------------------------------------

  /** The clock never runs backwards nor past `until`, and nothing forgets the key. */
  predicate TimelyRun(c: Config, s: Index, ops: seq<TaskIndex.Op>, key: Key, clock: int, until: int)
    decreases |ops|
  {
    ops == []
    || (&& !Forgets(s, ops[0], key) && Forward(clock, Readings(ops[0])) && (forall r | r in Readings(ops[0]) :: r <= until)
        && TimelyRun(c, TaskIndex.Apply(c, s, ops[0]), ops[1..], key, ClockAfter(clock, ops[0]), until))
  }

  lemma {:induction false} RunKeepsMark(c: Config, s: Index, ops: seq<TaskIndex.Op>, key: Key, clock: int, until: int)
    requires LockStep(c, s) && TaskIndex.OrderedRun(c, s, ops)
    requires Marked(s.markers, key, until) && Young(c, s.markers, clock)
    requires TimelyRun(c, s, ops, key, clock, until)
    ensures LockStep(c, TaskIndex.Run(c, s, ops)) && Marked(TaskIndex.Run(c, s, ops).markers, key, until)
    decreases |ops|
  {
    if ops != [] {
      StepKeepsMark(c, s, ops[0], key, until, clock);
      StepStaysYoung(c, s, ops[0], clock);
      TaskIndex.ApplyKeeps(c, s, ops[0]);
      RunKeepsMark(c, TaskIndex.Apply(c, s, ops[0]), ops[1..], key, ClockAfter(clock, ops[0]), until);
    }
  }

  /**
   A message whose marker lives until `until` is refused at every clock reading
   up to then, after any operations that neither forget it nor read the clock
   backwards: completions, expiry of other tasks, and evictions of its own task.
   */
  lemma ReplayIsRefused(c: Config, s: Index, ops: seq<TaskIndex.Op>, key: Key, clock: int, until: int,
                        id: Id, pruneAt: int, createdAt: int)
    requires LockStep(c, s) && TaskIndex.OrderedRun(c, s, ops)
    requires key in s.markers && until == s.markers[key].expiresAt && Young(c, s.markers, clock)
    requires TimelyRun(c, s, ops, key, clock, until) && pruneAt <= until
    ensures var err := Create(c, TaskIndex.Run(c, s, ops), id, Some(key), pruneAt, createdAt).1;
            err == Some(MessageReplay) || err == Some(CapacityReached)
  {
    RunKeepsMark(c, s, ops, key, clock, until);
    var last := TaskIndex.Run(c, s, ops);
    if Prune(c, last, pruneAt).1 {
      RefusedExactlyWhileMarked(c, last, id, key, pruneAt, createdAt);
    }
  }

  /** What `ReplayIsRefused` needs of the clock holds from the first operation on. */
  lemma {:induction false} MarkersStayYoung(c: Config, s: Index, ops: seq<TaskIndex.Op>, clocks: seq<int>)
    requires LockStep(c, s) && TaskIndex.OrderedRun(c, s, ops)
    requires |clocks| == |ops| + 1 && Young(c, s.markers, clocks[0])
    requires forall i | 0 <= i < |ops| :: Forward(clocks[i], Readings(ops[i])) && clocks[i+1] == ClockAfter(clocks[i], ops[i])
    ensures Young(c, TaskIndex.Run(c, s, ops).markers, clocks[|ops|])
    decreases |ops|
  {
    if ops != [] {
      assert clocks[0+1] == ClockAfter(clocks[0], ops[0]) && Forward(clocks[0], Readings(ops[0]));
      StepStaysYoung(c, s, ops[0], clocks[0]);
      TaskIndex.ApplyKeeps(c, s, ops[0]);
      var rest := ops[1..];
      forall i | 0 <= i < |rest|
        ensures Forward(clocks[1..][i], Readings(rest[i])) && clocks[1..][i+1] == ClockAfter(clocks[1..][i], rest[i])
      {
        assert rest[i] == ops[i+1] && clocks[1..][i] == clocks[i+1] && clocks[1..][i+1] == clocks[i+1+1];
      }
      MarkersStayYoung(c, TaskIndex.Apply(c, s, ops[0]), rest, clocks[1..]);
    }
  }
}
