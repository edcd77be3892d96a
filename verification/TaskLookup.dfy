/**
 What a lookup does to the A2A task store: it prunes first, and so a full store may
 evict a task, possibly the very task that is asked for.
 */
module TaskLookup {
  import opened Outcomes
  import opened TaskLog
  import opened TaskIndex
  import ReplayGuard

  // ---- The order of what expiry leaves ---------------------------------------------------

  function Survivors(order: seq<Id>, gone: set<Id>): (r: seq<Id>) {
    if order == [] then []
    else (if order[0] in gone then [] else [order[0]]) + Survivors(order[1..], gone)
  }

  function Expired(c: Config, s: Index, ids: seq<Id>, now: int): set<Id> {
    set id | id in ids && id in s.tasks && IsExpired(c, s.tasks[id], now)
  }

  lemma {:induction false} SurvivorsOfWithout(order: seq<Id>, id: Id, gone: set<Id>)
    ensures Survivors(Without(order, id), gone) == Survivors(order, gone + {id})
  {
    if order != [] {
      SurvivorsOfWithout(order[1..], id, gone);
      var rest := Without(order[1..], id);
      if order[0] == id {
        assert Without(order, id) == rest;
      } else {
        assert Without(order, id) == [order[0]] + rest;
        assert ([order[0]] + rest)[1..] == rest;
      }
    }
  }

  lemma {:induction false} NoneGone(order: seq<Id>)
    ensures Survivors(order, {}) == order
  {
    if order != [] {
      NoneGone(order[1..]);
      assert order == [order[0]] + order[1..];
    }
  }

  lemma OneExpired(c: Config, s: Index, id: Id, rest: seq<Id>, now: int)
    requires id in s.tasks && IsExpired(c, s.tasks[id], now)
    ensures Expired(c, s, [id] + rest, now) == Expired(c, Delete(s, id, true), rest, now) + {id}
  {}

  /** Expiry removes exactly the expired tasks and keeps the insertion order of the others. */
  lemma {:induction false} DropExpiredExactly(c: Config, s: Index, ids: seq<Id>, now: int)
    ensures var d, gone := DropExpired(c, s, ids, now), Expired(c, s, ids, now);
            d.tasks == s.tasks - gone && d.order == Survivors(s.order, gone)
    decreases |ids|
  {
    if ids == [] {
      NoneGone(s.order);
      assert Expired(c, s, ids, now) == {};
      assert s.tasks - {} == s.tasks;
    } else {
      assert ids == [ids[0]] + ids[1..];
      if ids[0] in s.tasks && IsExpired(c, s.tasks[ids[0]], now) {
        var next := Delete(s, ids[0], true);
        DropExpiredExactly(c, next, ids[1..], now);
        SurvivorsOfWithout(s.order, ids[0], Expired(c, next, ids[1..], now));
        OneExpired(c, s, ids[0], ids[1..], now);
      } else {
        DropExpiredExactly(c, s, ids[1..], now);
        assert Expired(c, s, ids, now) == Expired(c, s, ids[1..], now);
      }
    }
  }

  // ---- The task that makes room -----------------------------------------------------------

  predicate IsLive(c: Config, s: Index, id: Id, now: int) {
    id in s.tasks && !IsExpired(c, s.tasks[id], now)
  }

  ghost function LiveIds(c: Config, s: Index, now: int): set<Id> {
    set id | id in s.tasks && IsLive(c, s, id, now)
  }

  /** The task at position `i` is the oldest one that is unexpired and terminal. */
  ghost predicate IsOldestTerminal(c: Config, s: Index, order: seq<Id>, i: nat, now: int) {
    && i < |order| && IsLive(c, s, order[i], now) && IsTerminal(s.tasks[order[i]].status)
    && forall j | 0 <= j < i :: IsLive(c, s, order[j], now) ==> !IsTerminal(s.tasks[order[j]].status)
  }

  /** The task that makes room when the store is full. */
  ghost predicate MakesRoom(c: Config, s: Index, id: Id, now: int) {
    exists i :: 0 <= i < |s.order| && s.order[i] == id && IsOldestTerminal(c, s, s.order, i, now)
  }

  lemma {:induction false} FirstTerminalIsOldest(c: Config, s: Index, d: Index, order: seq<Id>, now: int) returns (i: nat)
    requires d.tasks == s.tasks - Expired(c, s, s.order, now)
    requires forall id | id in order :: id in s.order && id in s.tasks
    requires FirstTerminal(d, Survivors(order, Expired(c, s, s.order, now))).Some?
    ensures IsOldestTerminal(c, s, order, i, now)
    ensures FirstTerminal(d, Survivors(order, Expired(c, s, s.order, now))) == Some(order[i])
  {
    var gone := Expired(c, s, s.order, now);
    var rest := Survivors(order[1..], gone);
    assert order == [order[0]] + order[1..];
    if order[0] !in gone {
      assert Survivors(order, gone)[0] == order[0] && Survivors(order, gone)[1..] == rest;
    } else {
      assert Survivors(order, gone) == rest;
    }
    if order[0] !in gone && IsTerminal(s.tasks[order[0]].status) {
      i := 0;
    } else {
      var k := FirstTerminalIsOldest(c, s, d, order[1..], now);
      i := k + 1;
      forall j | 0 <= j < i && IsLive(c, s, order[j], now) ensures !IsTerminal(s.tasks[order[j]].status) {
        if j > 0 { assert order[j] == order[1..][j - 1]; }
      }
    }
  }

  /** One task too many at most: eviction removes the first terminal task of a full store, or finds none and fails. */
  lemma EvictOne(c: Config, s: Index)
    requires LockStep(c, s) && IsConfig(c)
    ensures var (d, ok) := Evict(c, s);
            && d.tasks == (if |s.tasks| < c.maxTasks || FirstTerminal(s, s.order).None? then s.tasks
                           else s.tasks - {FirstTerminal(s, s.order).value})
            && (ok <==> |s.tasks| < c.maxTasks || FirstTerminal(s, s.order).Some?)
  {
    if |s.tasks| >= c.maxTasks && FirstTerminal(s, s.order).Some? {
      var id := FirstTerminal(s, s.order).value;
      var d := Delete(s, id, false);
      assert d.tasks.Keys == s.tasks.Keys - {id};
      assert |d.tasks.Keys| == |s.tasks.Keys| - 1;
      assert Evict(c, d) == (d, true);
    }
  }

  /** The store after both time-to-live passes, before eviction. */
  function AfterTtl(c: Config, s: Index, now: int): Index {
    var s1 := s.(markers := UnexpiredMarkers(s.markers, now));
    DropExpired(c, s1, s1.order, now)
  }

  lemma PruneIsEviction(c: Config, s: Index, now: int)
    ensures Prune(c, s, now) == Evict(c, AfterTtl(c, s, now))
  {}

  lemma AfterTtlTasks(c: Config, s: Index, now: int)
    requires Ordered(s)
    ensures var d := AfterTtl(c, s, now);
            && d.tasks == s.tasks - Expired(c, s, s.order, now) && d.order == Survivors(s.order, Expired(c, s, s.order, now))
            && d.tasks.Keys == LiveIds(c, s, now)
  {
    var s1 := s.(markers := UnexpiredMarkers(s.markers, now));
    DropExpiredExactly(c, s1, s1.order, now);
    assert Expired(c, s1, s1.order, now) == Expired(c, s, s.order, now);
  }

  lemma AfterTtlKeeps(c: Config, s: Index, now: int)
    requires LockStep(c, s)
    ensures LockStep(c, AfterTtl(c, s, now))
  {
    var s1 := s.(markers := UnexpiredMarkers(s.markers, now));
    MarkerPassKeeps(c, s, now);
    DropExpiredKeeps(c, s1, s1.order, now, ExpiredIds(c, s, now));
    AfterTtlTasks(c, s, now);
    SurvivorsAreExact(c, AfterTtl(c, s, now), ExpiredIds(c, s, now));
  }

  lemma SurvivorsAreExact(c: Config, d: Index, lax: set<Id>)
    requires LockStepBut(c, d, lax) && lax !! d.tasks.Keys
    ensures LockStep(c, d)
  {}

  lemma OldestIsFirst(c: Config, s: Index, d: Index, now: int)
    requires Ordered(s) && LockStep(c, d) && d.tasks == s.tasks - Expired(c, s, s.order, now)
    requires d.order == Survivors(s.order, Expired(c, s, s.order, now)) && d.tasks.Keys == LiveIds(c, s, now)
    ensures forall id: Id :: MakesRoom(c, s, id, now) <==> FirstTerminal(d, d.order) == Some(id)
  {
    if FirstTerminal(d, d.order).Some? {
      var i := FirstTerminalIsOldest(c, s, d, s.order, now);
      OldestIsUnique(c, s, i, now);
      assert MakesRoom(c, s, s.order[i], now);
    } else {
      NoOldest(c, s, d, now);
    }
  }

  lemma OldestIsUnique(c: Config, s: Index, i: nat, now: int)
    requires IsOldestTerminal(c, s, s.order, i, now)
    ensures forall j: nat | IsOldestTerminal(c, s, s.order, j, now) :: j == i
  {}

  lemma NoOldest(c: Config, s: Index, d: Index, now: int)
    requires LockStep(c, d) && d.tasks.Keys == LiveIds(c, s, now) && (forall id | id in d.tasks :: id in s.tasks && d.tasks[id] == s.tasks[id])
    requires FirstTerminal(d, d.order).None?
    ensures forall j: nat :: !IsOldestTerminal(c, s, s.order, j, now)
  {
    forall j: nat ensures !IsOldestTerminal(c, s, s.order, j, now) {
      if j < |s.order| && IsLive(c, s, s.order[j], now) {
        assert s.order[j] in d.tasks;
        assert s.order[j] in d.order;
      }
    }
  }

  /** Pruning in terms of the live tasks: what it leaves, and whether it throws. */
  lemma PruneOutcome(c: Config, s: Index, now: int) returns (first: Option<Id>)
    requires LockStep(c, s) && IsConfig(c)
    ensures forall id: Id :: MakesRoom(c, s, id, now) <==> first == Some(id)
    ensures Prune(c, s, now).1 <==> |LiveIds(c, s, now)| < c.maxTasks || first.Some?
    ensures forall id :: id in Prune(c, s, now).0.tasks <==>
              IsLive(c, s, id, now) && !(|LiveIds(c, s, now)| >= c.maxTasks && first == Some(id))
  {
    var d := AfterTtl(c, s, now);
    PruneIsEviction(c, s, now);
    AfterTtlTasks(c, s, now);
    AfterTtlKeeps(c, s, now);
    EvictOne(c, d);
    OldestIsFirst(c, s, d, now);
    first := FirstTerminal(d, d.order);
    SurvivesEviction(c, d.tasks, Prune(c, s, now).0.tasks, first, LiveIds(c, s, now));
  }

  lemma SurvivesEviction(c: Config, before: map<Id, Task>, after: map<Id, Task>, first: Option<Id>, live: set<Id>)
    requires before.Keys == live
    requires after == if |before| < c.maxTasks || first.None? then before else before - {first.value}
    ensures |before| == |live|
    ensures forall id :: id in after <==> id in live && !(|live| >= c.maxTasks && first == Some(id))
  {
    assert |before| == |before.Keys|;
  }

  /** A lookup throws exactly when the store is full of unexpired tasks none of which is terminal. */
  lemma LookupThrowsExactly(c: Config, s: Index, now: int)
    requires LockStep(c, s) && IsConfig(c)
    ensures !Prune(c, s, now).1 <==>
            |LiveIds(c, s, now)| >= c.maxTasks && forall id | id in LiveIds(c, s, now) :: !IsTerminal(s.tasks[id].status)
  {
    var first := PruneOutcome(c, s, now);
    NoneMakesRoom(c, s, now);
  }

  /** Some task makes room exactly when some live task is terminal. */
  lemma NoneMakesRoom(c: Config, s: Index, now: int)
    requires LockStep(c, s) && IsConfig(c)
    ensures (forall id: Id :: !MakesRoom(c, s, id, now)) <==>
            forall id | id in LiveIds(c, s, now) :: !IsTerminal(s.tasks[id].status)
  {
    var d := AfterTtl(c, s, now);
    AfterTtlTasks(c, s, now);
    AfterTtlKeeps(c, s, now);
    OldestIsFirst(c, s, d, now);
    var first := FirstTerminal(d, d.order);
    if first.Some? {
      assert first.value in d.tasks && MakesRoom(c, s, first.value, now);
    } else {
      forall id | id in LiveIds(c, s, now) ensures !IsTerminal(s.tasks[id].status) {
        assert id in d.tasks && id in d.order && d.tasks[id] == s.tasks[id];
      }
    }
  }

  /**
   A lookup finds a task exactly when the task is unexpired and, in a store full of
   unexpired tasks, another one is the oldest terminal one and makes room. If there is
   none it throws, whatever it is asked for; if it is the task itself, that is evicted.
   */
  lemma LookupFindsExactly(c: Config, s: Index, id: Id, now: int)
    requires LockStep(c, s) && IsConfig(c)
    ensures Prune(c, s, now).1 && id in Prune(c, s, now).0.tasks <==>
            && IsLive(c, s, id, now)
            && (|LiveIds(c, s, now)| < c.maxTasks || exists other: Id :: MakesRoom(c, s, other, now) && other != id)
  {
    var first := PruneOutcome(c, s, now);
    assert first.Some? ==> MakesRoom(c, s, first.value, now);
  }

  /** The smallest case: with room for one task, a submitted task makes every lookup throw until it expires. */
  lemma OneUnfinishedTaskBlocksLookups(c: Config, id: Id, createdAt: int, now: int)
    requires IsConfig(c) && c.maxTasks == 1 && createdAt <= now <= createdAt + c.ttlMs
    ensures var (s, err) := Create(c, EMPTY, id, None, createdAt, createdAt);
            err.None? && LockStep(c, s) && IsLive(c, s, id, now) && !Prune(c, s, now).1
  {
    EmptyIsInLockStep(c);
    CreateKeeps(c, EMPTY, id, None, createdAt, createdAt);
    assert UnexpiredMarkers(map[], createdAt) == map[];
    assert Prune(c, EMPTY, createdAt) == (EMPTY, true);
    var s := Create(c, EMPTY, id, None, createdAt, createdAt).0;
    assert s == Insert(c, EMPTY, id, None, createdAt);
    assert LiveIds(c, s, now) == {id};
    LookupThrowsExactly(c, s, now);
  }

  /**
   What a creation answers: no capacity in a store full of unexpired, unfinished tasks; a replay
   for a message whose marker is unexpired; no room for markers; and otherwise the new task.
   */
  lemma CreateAnswers(c: Config, s: Index, id: Id, key: Option<Key>, pruneAt: int, createdAt: int)
    requires LockStep(c, s) && IsConfig(c)
    ensures var (d, err) := Create(c, s, id, key, pruneAt, createdAt);
            var full := |LiveIds(c, s, pruneAt)| >= c.maxTasks && forall x | x in LiveIds(c, s, pruneAt) :: !IsTerminal(s.tasks[x].status);
            var replay := key.Some? && key.value in s.markers && pruneAt <= s.markers[key.value].expiresAt;
            var crowded := key.Some? && |UnexpiredMarkers(s.markers, pruneAt)| >= c.maxMarkers;
            && (err == Some(CapacityReached) <==> full)
            && (err == Some(MessageReplay) <==> !full && replay)
            && (err == Some(ReplayCapacityReached) <==> !full && !replay && crowded)
            && (err == None <==> !full && !replay && !crowded)
            && (err == None ==> id in d.tasks && d.tasks[id] == Task(id, key, Submitted, createdAt, None, None, None, [], 0))
  {
    LookupThrowsExactly(c, s, pruneAt);
    ReplayGuard.PruneDropsOnlyExpired(c, s, pruneAt);
  }
}
