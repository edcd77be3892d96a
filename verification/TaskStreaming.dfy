/**
 Streaming of one task: the server reads the log of the task through a cursor
 while the task goes on changing at every suspension point.
 */
module TaskStreaming {
  import opened Outcomes
  import opened TaskLog

  /** What the stream sees of its task over time: one state for each suspension point. */
  type World = nat -> Task

  /** Between two suspension points the server may run any operations on the task, in its own order. */
  ghost predicate Follows(before: Task, after: Task) {
    exists ops: seq<Op> :: OrderedRun(before, ops) && Run(before, ops) == after
  }

  ghost predicate IsWorld(world: World) {
    LogShape(world(0)) && forall i: nat :: Follows(world(i), world(i + 1))
  }

  lemma FollowsKeeps(before: Task, after: Task)
    requires LogShape(before) && Follows(before, after)
    ensures LogShape(after) && before.log <= after.log
    ensures IsTerminal(before.status) ==> after == before
  {
    var ops: seq<Op> :| OrderedRun(before, ops) && Run(before, ops) == after;
    RunKeepsShape(before, ops);
    LogOnlyGrows(before, ops);
    if IsTerminal(before.status) { TerminalIsFinal(before, ops); }
  }

  /** The log only grows, keeps its shape, and stops changing when the task is terminal. */
  lemma {:induction false} WorldFacts(world: World, i: nat, j: nat)
    requires IsWorld(world) && i <= j
    ensures LogShape(world(i)) && LogShape(world(j)) && world(i).log <= world(j).log
    ensures IsTerminal(world(i).status) ==> world(j) == world(i)
    decreases j
  {
    if i < j {
      WorldFacts(world, i, j - 1);
      FollowsKeeps(world(j - 1), world((j - 1) + 1));
    } else if j > 0 {
      WorldFacts(world, j - 1, j - 1);
      FollowsKeeps(world(j - 1), world((j - 1) + 1));
    }
  }

  datatype End = Finished | Aborted | TimedOut

  /** Where a clamped cursor starts reading. */
  function From(cursor: nat, log: seq<StreamEvent>): (k: nat)
    ensures k <= |log|
  {
    if cursor < |log| then cursor else |log|
  }

  /**
   Yields the events of one batch, a suspension point after each; the client may
   abort before any of them.
   */
  method YieldBatch(events: seq<StreamEvent>, aborted: nat -> bool, start: nat)
    returns (yielded: seq<StreamEvent>, stopped: bool, now: nat)
    ensures now >= start && yielded <= events
    ensures !stopped ==> yielded == events
    ensures stopped ==> exists i :: start <= i <= now && aborted(i)
  {
    yielded, stopped, now := [], false, start;
    var k := 0;
    while k < |events|
      invariant 0 <= k <= |events| && now >= start && !stopped && yielded == events[..k]
    {
      if aborted(now) { return yielded, true, now; }
      yielded := yielded + [events[k]];
      now := now + 1;
      k := k + 1;
    }
  }

  /** Everything from the cursor on up to `next` has been yielded, once and in order. */
  ghost predicate Delivered(log: seq<StreamEvent>, cursor: nat, next: nat, yielded: seq<StreamEvent>) {
    cursor <= next <= |log| && yielded == log[cursor..next]
  }

  lemma DeliveredLater(world: World, now: nat, later: nat, cursor: nat, next: nat, yielded: seq<StreamEvent>)
    requires IsWorld(world) && now <= later && Delivered(world(now).log, cursor, next, yielded)
    ensures Delivered(world(later).log, cursor, next, yielded)
  {
    WorldFacts(world, now, later);
    assert world(now).log[cursor..next] == world(later).log[cursor..next];
  }

  /** One read of the log from the cursor `next`, and the yields of what it found. */
  method ReadOn(world: World, aborted: nat -> bool, now: nat, cursor: nat, next: nat, yielded: seq<StreamEvent>)
    returns (all: seq<StreamEvent>, newNext: nat, stopped: bool, later: nat)
    requires IsWorld(world) && Delivered(world(now).log, cursor, next, yielded)
    ensures later >= now && newNext == |world(now).log| <= |world(later).log|
    ensures yielded <= all && Delivered(world(later).log, cursor, cursor + |all|, all)
    ensures !stopped ==> cursor + |all| == newNext
    ensures stopped ==> exists i :: now <= i <= later && aborted(i)
  {
    var log := world(now).log;
    newNext := |log|;
    var batch;
    batch, stopped, later := YieldBatch(log[From(next, log)..], aborted, now);
    all := yielded + batch;
    assert log[cursor..next] + batch == log[cursor..next + |batch|];
    DeliveredLater(world, now, later, cursor, cursor + |all|, all);
    WorldFacts(world, now, later);
  }

  /**
   The stream of a task from a cursor within its log, with at most `polls`
   waits before the deadline. It never yields an event twice, out of order or from
   before the cursor. A stream of an unfinished task that finishes has yielded
   everything, up to the terminal event, exactly when the task was still
   unfinished as the client resumed after the opening snapshot; otherwise it has
   yielded nothing.
   */
  method StreamTask(world: World, cursor: nat, aborted: nat -> bool, polls: nat)
    returns (yielded: seq<StreamEvent>, end: End, now: nat)
    requires IsWorld(world) && cursor <= |world(0).log|
    ensures Delivered(world(now).log, cursor, cursor + |yielded|, yielded)
    ensures end == Finished ==> now >= 1 && IsTerminal(world(now).status)
    ensures end == Finished && !IsTerminal(world(1).status) ==> yielded == world(now).log[cursor..]
    ensures end == Finished && IsTerminal(world(1).status) ==> yielded == []
    ensures end == Finished && !IsTerminal(world(0).status)
            ==> (yielded == world(now).log[cursor..] <==> !IsTerminal(world(1).status))
    ensures end == Aborted ==> exists i :: 0 <= i <= now && aborted(i)
    ensures end == TimedOut ==> !IsTerminal(world(now).status)
  {
    yielded, now := [], 0;
    if aborted(0) { return yielded, Aborted, now; }
    now := 1;
    WorldFacts(world, 0, 1);
    if aborted(1) { return yielded, Aborted, now; }
    if IsTerminal(world(1).status) {
      if !IsTerminal(world(0).status) { TerminalAddsAnEvent(world, 1); }
      return yielded, Finished, now;
    }
    yielded, end, now := StreamRunning(world, cursor, aborted, polls);
  }

  /** The stream after the client has resumed on an unfinished task. */
  method StreamRunning(world: World, cursor: nat, aborted: nat -> bool, polls: nat)
    returns (yielded: seq<StreamEvent>, end: End, now: nat)
    requires IsWorld(world) && cursor <= |world(1).log|
    ensures now >= 1 && Delivered(world(now).log, cursor, cursor + |yielded|, yielded)
    ensures end == Finished ==> IsTerminal(world(now).status) && yielded == world(now).log[cursor..]
    ensures end == Aborted ==> exists i :: 0 <= i <= now && aborted(i)
    ensures end == TimedOut ==> !IsTerminal(world(now).status)
  {
    yielded, now := [], 1;
    var next, left := cursor, polls;
    var stopped;
    while !IsTerminal(world(now).status)
      invariant 1 <= now && Delivered(world(now).log, cursor, next, yielded)
      decreases left
    {
      if aborted(now) { return yielded, Aborted, now; }
      DeliveredLater(world, now, now + 1, cursor, next, yielded);
      now := now + 1;
      if aborted(now) { return yielded, Aborted, now; }
      yielded, next, stopped, now := ReadOn(world, aborted, now, cursor, next, yielded);
      if stopped { return yielded, Aborted, now; }
      if aborted(now) { return yielded, Aborted, now; }
      if IsTerminal(world(now).status) { break; }
      if left == 0 { return yielded, TimedOut, now; }
      left := left - 1;
      DeliveredLater(world, now, now + 1, cursor, next, yielded);
      now := now + 1;
    }
    if aborted(now) { return yielded, Aborted, now; }
    yielded, end, now := StreamRest(world, aborted, now, cursor, next, yielded);
  }

  /** The last read of a finished task. */
  method StreamRest(world: World, aborted: nat -> bool, last: nat, cursor: nat, next: nat, before: seq<StreamEvent>)
    returns (yielded: seq<StreamEvent>, end: End, now: nat)
    requires IsWorld(world) && IsTerminal(world(last).status) && Delivered(world(last).log, cursor, next, before)
    ensures now >= last && IsTerminal(world(now).status) && Delivered(world(now).log, cursor, cursor + |yielded|, yielded)
    ensures (end == Finished && yielded == world(now).log[cursor..]) || (end == Aborted && exists i :: last <= i <= now && aborted(i))
  {
    var stopped;
    var all: nat;
    yielded, all, stopped, now := ReadOn(world, aborted, last, cursor, next, before);
    WorldFacts(world, last, now);
    end := if stopped then Aborted else Finished;
  }

  /** A task that has finished since has a terminal event beyond any cursor within its earlier log. */
  lemma TerminalAddsAnEvent(world: World, now: nat)
    requires IsWorld(world) && !IsTerminal(world(0).status) && IsTerminal(world(now).status)
    ensures var log := world(now).log;
            |world(0).log| < |log| && log[|log| - 1] == StatusUpdate(world(now).status, world(now).lastModified)
  {
    WorldFacts(world, 0, now);
    var a, b := world(0), world(now);
    assert b.log[b.nextSequence].StatusUpdate?;
    assert forall i | 0 <= i < |a.log| :: a.log[i].ArtifactUpdate? && a.log[i] == b.log[i];
  }

  lemma OneOpFollows(t: Task, op: Op)
    requires InOrder(t, op)
    ensures Follows(t, TaskLog.Apply(t, op))
  {
    var ops := [op];
    assert ops[1..] == [];
    assert OrderedRun(TaskLog.Apply(t, op), ops[1..]) && Run(TaskLog.Apply(t, op), ops[1..]) == TaskLog.Apply(t, op);
    assert OrderedRun(t, ops) && Run(t, ops) == TaskLog.Apply(t, op);
  }

  /** Such worlds exist: a partial result and the final one arrive while the opening snapshot is being sent. */
  lemma StreamCanDropEverything(t: Task, provider: Option<Node>, now: int) returns (world: World)
    requires LogShape(t) && t.status == Working
    ensures IsWorld(world) && world(0) == t && IsTerminal(world(1).status) && |world(1).log| > |t.log|
  {
    var done := CompleteTask(t, provider, true, now);
    world := (i: nat) => if i == 0 then t else done;
    OneOpFollows(t, Complete(provider, true, now));
    var none: seq<Op> := [];
    assert OrderedRun(done, none) && Run(done, none) == done;
    assert Follows(done, done);
  }
}
