/**
 The four maps of the A2A task store, which must stay in lock-step: tasks in
 insertion order, tasks by request, replay markers by message key, and the key
 of each live task.
 */
module TaskIndex {
  import opened Outcomes
  import opened TaskLog

  datatype Marker = Marker(taskId: Id, expiresAt: int)

  datatype Config = Config(maxTasks: nat, maxMarkers: nat, ttlMs: nat)

  datatype Index = Index(order: seq<Id>, tasks: map<Id, Task>, byRequest: map<Request, Id>,
                         markers: map<Key, Marker>, keyOf: map<Id, Key>)

  const EMPTY := Index([], map[], map[], map[], map[])

  predicate IsConfig(c: Config) {
    c.maxTasks >= 1 && c.maxMarkers >= 1 && c.ttlMs >= 1
  }

  function Without(order: seq<Id>, id: Id): seq<Id> {
    if order == [] then []
    else (if order[0] == id then [] else [order[0]]) + Without(order[1..], id)
  }

  // ---- Operations -----------------------------------------------------------------------

  function Delete(s: Index, id: Id, forget: bool): Index {
    if id !in s.tasks then s
    else
      var request := s.tasks[id].requestId;
      s.(order := Without(s.order, id), tasks := s.tasks - {id},
         byRequest := if request.Some? then s.byRequest - {request.value} else s.byRequest,
         markers := if forget && id in s.keyOf then s.markers - {s.keyOf[id]} else s.markers,
         keyOf := s.keyOf - {id})
  }

  function UnexpiredMarkers(markers: map<Key, Marker>, now: int): map<Key, Marker> {
    map k | k in markers && now <= markers[k].expiresAt :: markers[k]
  }

  predicate IsExpired(c: Config, t: Task, now: int) {
    t.lastModified < now - c.ttlMs
  }

  /** The time-to-live pass over the tasks in insertion order. */
  function DropExpired(c: Config, s: Index, ids: seq<Id>, now: int): Index
    decreases |ids|
  {
    if ids == [] then s
    else
      var next := if ids[0] in s.tasks && IsExpired(c, s.tasks[ids[0]], now) then Delete(s, ids[0], true) else s;
      DropExpired(c, next, ids[1..], now)
  }

  /** The first terminal task in insertion order. */
  function FirstTerminal(s: Index, order: seq<Id>): (r: Option<Id>)
    ensures r.Some? ==> r.value in order && r.value in s.tasks && IsTerminal(s.tasks[r.value].status)
    ensures r.None? ==> forall id | id in order && id in s.tasks :: !IsTerminal(s.tasks[id].status)
  {
    if order == [] then None
    else if order[0] in s.tasks && IsTerminal(s.tasks[order[0]].status) then Some(order[0])
    else FirstTerminal(s, order[1..])
  }

  /** Terminal tasks are evicted, oldest first, until there is room; their markers stay. */
  function Evict(c: Config, s: Index): (r: (Index, bool))
    decreases |s.tasks|
  {
    if |s.tasks| < c.maxTasks then (s, true)
    else
      match FirstTerminal(s, s.order)
      case None => (s, false)
      case Some(id) => Evict(c, Delete(s, id, false))
  }

  /** `prune`; the flag is false when it throws because no task can be evicted. */
  function Prune(c: Config, s: Index, now: int): (Index, bool) {
    var s1 := s.(markers := UnexpiredMarkers(s.markers, now));
    Evict(c, DropExpired(c, s1, s1.order, now))
  }

  datatype CreateError = CapacityReached | MessageReplay | ReplayCapacityReached

  /** A new task with its marker, if it has a message key. */
  function Insert(c: Config, p: Index, id: Id, key: Option<Key>, createdAt: int): Index {
    var q := p.(order := p.order + [id], tasks := p.tasks[id := NewTask(id, key, createdAt)]);
    if key.Some?
    then q.(markers := q.markers[key.value := Marker(id, createdAt + c.ttlMs)], keyOf := q.keyOf[id := key.value])
    else q
  }

  function Create(c: Config, s: Index, id: Id, key: Option<Key>, pruneAt: int, createdAt: int): (Index, Option<CreateError>) {
    var (p, ok) := Prune(c, s, pruneAt);
    if !ok then (p, Some(CapacityReached))
    else if key.Some? && key.value in p.markers then (p, Some(MessageReplay))
    else if key.Some? && |p.markers| >= c.maxMarkers then (p, Some(ReplayCapacityReached))
    else (Insert(c, p, id, key, createdAt), None)
  }

  function TouchMarker(c: Config, s: Index, id: Id, now: int): Index {
    if id in s.keyOf && s.keyOf[id] in s.markers
    then s.(markers := s.markers[s.keyOf[id] := Marker(id, now + c.ttlMs)])
    else s
  }

  function Start(c: Config, s: Index, id: Id, request: Request, provider: Option<Node>, now: int): Index {
    if id !in s.tasks then s
    else
      TouchMarker(c, s.(tasks := s.tasks[id := StartTask(s.tasks[id], request, provider, now)],
                        byRequest := s.byRequest[request := id]), id, now)
  }

  function Reject(c: Config, s: Index, id: Id, now: int): Index {
    if id !in s.tasks then s
    else TouchMarker(c, s.(tasks := s.tasks[id := RejectTask(s.tasks[id], now)]), id, now)
  }

  function Cancel(c: Config, s: Index, id: Id, now: int): Index {
    if id !in s.tasks || IsTerminal(s.tasks[id].status) then s
    else TouchMarker(c, s.(tasks := s.tasks[id := CancelTask(s.tasks[id], now)]), id, now)
  }

  function Complete(c: Config, s: Index, id: Id, provider: Option<Node>, ok: bool, now: int): Index {
    if id !in s.tasks || IsTerminal(s.tasks[id].status) then s
    else TouchMarker(c, s.(tasks := s.tasks[id := CompleteTask(s.tasks[id], provider, ok, now)]), id, now)
  }

  function RecordPartial(c: Config, s: Index, id: Id, p: Partial, newArtifactId: Id, now: int): Index {
    if id !in s.tasks || IsTerminal(s.tasks[id].status) then s
    else TouchMarker(c, s.(tasks := s.tasks[id := PartialTask(s.tasks[id], p, newArtifactId, now)]), id, now)
  }

  /** The task a compact event concerns: an unnamed sender passes, a named one must be the provider. */
  function CompactTarget(s: Index, request: Request, from: Option<Node>): Option<Id> {
    if request !in s.byRequest || s.byRequest[request] !in s.tasks then None
    else
      var provider := s.tasks[s.byRequest[request]].provider;
      if provider.Some? && from.Some? && from != provider then None else Some(s.byRequest[request])
  }

  /** The task a result event concerns: with a known provider even an unnamed sender is refused. */
  function ResultTarget(s: Index, request: Request, from: Option<Node>): Option<Id> {
    if request !in s.byRequest || s.byRequest[request] !in s.tasks then None
    else
      var provider := s.tasks[s.byRequest[request]].provider;
      if provider.Some? && from != provider then None else Some(s.byRequest[request])
  }

  // ---- Lock-step ------------------------------------------------------------------------------

  ghost predicate Ordered(s: Index) {
    && (forall id :: id in s.order <==> id in s.tasks)
    && (forall i, j | 0 <= i < j < |s.order| :: s.order[i] != s.order[j])
  }

  /** A live task with a message key has its marker, with its own id and an expiry of last-modified plus TTL. */
  ghost predicate MarkerOk(c: Config, s: Index, id: Id)
    requires id in s.tasks
  {
    var t := s.tasks[id];
    && (t.key.Some? <==> id in s.keyOf)
    && (t.key.Some? ==>
          && s.keyOf[id] == t.key.value && t.key.value in s.markers
          && s.markers[t.key.value] == Marker(id, t.lastModified + c.ttlMs))
  }

  /** The request map holds exactly the requests of the live tasks. */
  ghost predicate RequestsOk(s: Index) {
    && (forall r | r in s.byRequest :: s.byRequest[r] in s.tasks && s.tasks[s.byRequest[r]].requestId == Some(r))
    && (forall id | id in s.tasks && s.tasks[id].requestId.Some? ::
          s.tasks[id].requestId.value in s.byRequest && s.byRequest[s.tasks[id].requestId.value] == id)
    && (forall id | id in s.tasks && s.tasks[id].status == Submitted :: s.tasks[id].requestId.None?)
  }

  ghost predicate EachOk(c: Config, s: Index, lax: set<Id>) {
    forall id | id in s.tasks :: s.tasks[id].id == id && KeyOk(s, id) && (id !in lax ==> MarkerOk(c, s, id))
  }

  /** The maps agree, except that the tasks in `lax` may have lost their marker. */
  ghost predicate LockStepBut(c: Config, s: Index, lax: set<Id>) {
    && Ordered(s) && s.keyOf.Keys <= s.tasks.Keys && EachOk(c, s, lax) && RequestsOk(s)
    && |s.tasks| <= c.maxTasks && |s.markers| <= c.maxMarkers
  }

  ghost predicate LockStep(c: Config, s: Index) {
    LockStepBut(c, s, {})
  }

  /** What remains of `MarkerOk` for a task whose marker may be gone. */
  ghost predicate KeyOk(s: Index, id: Id)
    requires id in s.tasks
  {
    var t := s.tasks[id];
    && (t.key.Some? <==> id in s.keyOf)
    && (t.key.Some? ==>
          s.keyOf[id] == t.key.value && (t.key.value in s.markers ==> s.markers[t.key.value].taskId == id))
  }

  // ---- Deleting ---------------------------------------------------------------------------------

  lemma {:induction false} WithoutContents(order: seq<Id>, id: Id)
    requires forall i, j | 0 <= i < j < |order| :: order[i] != order[j]
    ensures forall x :: x in Without(order, id) <==> x in order && x != id
    ensures forall i, j | 0 <= i < j < |Without(order, id)| :: Without(order, id)[i] != Without(order, id)[j]
  {
    if order != [] {
      WithoutContents(order[1..], id);
      assert order == [order[0]] + order[1..];
      assert order[0] !in Without(order[1..], id);
    }
  }

  lemma RestrictSize<X, Y>(m: map<X, Y>, n: map<X, Y>)
    requires m.Keys <= n.Keys
    ensures |m| <= |n|
  {
    assert |m.Keys| == |m| && |n.Keys| == |n|;
    SubsetSize(m.Keys, n.Keys);
  }

  lemma {:induction false} SubsetSize<X>(a: set<X>, b: set<X>)
    requires a <= b
    ensures |a| <= |b|
  {
    if a != {} {
      var x :| x in a;
      SubsetSize(a - {x}, b - {x});
    }
  }

  lemma DeleteEach(c: Config, s: Index, id: Id, forget: bool, lax: set<Id>)
    requires EachOk(c, s, lax) && id in s.tasks
    ensures EachOk(c, Delete(s, id, forget), lax)
  {
    var d := Delete(s, id, forget);
    forall x | x in d.tasks ensures d.tasks[x].id == x && KeyOk(d, x) && (x !in lax ==> MarkerOk(c, d, x)) {
      assert KeyOk(s, x) && KeyOk(s, id);
      assert x !in lax ==> MarkerOk(c, s, x);
    }
  }

  lemma DeleteRequests(s: Index, id: Id, forget: bool)
    requires RequestsOk(s) && id in s.tasks
    ensures RequestsOk(Delete(s, id, forget))
  {}

  lemma DeleteOrdered(s: Index, id: Id, forget: bool)
    requires Ordered(s) && id in s.tasks
    ensures Ordered(Delete(s, id, forget))
  {
    WithoutContents(s.order, id);
  }

  lemma DeleteKeeps(c: Config, s: Index, id: Id, forget: bool, lax: set<Id>)
    requires LockStepBut(c, s, lax)
    ensures LockStepBut(c, Delete(s, id, forget), lax)
    ensures Delete(s, id, forget).tasks == s.tasks - {id}
    ensures Delete(s, id, forget).markers.Keys <= s.markers.Keys
  {
    if id in s.tasks {
      var d := Delete(s, id, forget);
      DeleteOrdered(s, id, forget);
      RestrictSize(d.markers, s.markers);
      RestrictSize(d.tasks, s.tasks);
      DeleteEach(c, s, id, forget, lax);
      DeleteRequests(s, id, forget);
    } else {
      assert s.tasks - {id} == s.tasks;
    }
  }

  /** The markers after a deletion: that of the task goes exactly when told to forget. */
  lemma DeleteMarkers(c: Config, s: Index, id: Id, forget: bool, k: Key)
    requires EachOk(c, s, {})
    ensures k in Delete(s, id, forget).markers <==> k in s.markers && !(forget && id in s.tasks && s.tasks[id].key == Some(k))
    ensures k in Delete(s, id, forget).markers ==> Delete(s, id, forget).markers[k] == s.markers[k]
  {
    if id in s.tasks { assert MarkerOk(c, s, id) && KeyOk(s, id); }
  }

  lemma DeleteRequestMap(s: Index, id: Id, forget: bool, r: Request)
    requires RequestsOk(s)
    ensures r in Delete(s, id, forget).byRequest <==> r in s.byRequest && s.byRequest[r] != id
  {}

  /** Deleting a task removes it, its request and its key; its marker goes exactly when told to forget. */
  lemma DeleteForgetsExactly(c: Config, s: Index, id: Id, forget: bool)
    requires LockStep(c, s)
    ensures var d := Delete(s, id, forget);
            && d.tasks == s.tasks - {id} && id !in d.order
            && (forall k :: k in d.markers <==> k in s.markers && !(forget && id in s.tasks && s.tasks[id].key == Some(k)))
            && (forall r :: r in d.byRequest <==> r in s.byRequest && s.byRequest[r] != id)
  {
    var d := Delete(s, id, forget);
    DeleteKeeps(c, s, id, forget, {});
    forall k ensures k in d.markers <==> k in s.markers && !(forget && id in s.tasks && s.tasks[id].key == Some(k)) {
      DeleteMarkers(c, s, id, forget, k);
    }
    forall r ensures r in d.byRequest <==> r in s.byRequest && s.byRequest[r] != id {
      DeleteRequestMap(s, id, forget, r);
    }
  }

  // ---- Pruning -----------------------------------------------------------------------------------

  ghost function ExpiredIds(c: Config, s: Index, now: int): set<Id> {
    set id | id in s.tasks && IsExpired(c, s.tasks[id], now)
  }

  lemma MarkerPassKeeps(c: Config, s: Index, now: int)
    requires LockStep(c, s)
    ensures LockStepBut(c, s.(markers := UnexpiredMarkers(s.markers, now)), ExpiredIds(c, s, now))
  {
    var s' := s.(markers := UnexpiredMarkers(s.markers, now));
    RestrictSize(s'.markers, s.markers);
    forall id | id in s'.tasks
      ensures s'.tasks[id].id == id && KeyOk(s', id) && (id !in ExpiredIds(c, s, now) ==> MarkerOk(c, s', id))
    {
      assert KeyOk(s, id) && MarkerOk(c, s, id);
    }
  }

  lemma {:induction false} DropExpiredKeeps(c: Config, s: Index, ids: seq<Id>, now: int, lax: set<Id>)
    requires LockStepBut(c, s, lax)
    ensures LockStepBut(c, DropExpired(c, s, ids, now), lax)
    decreases |ids|
  {
    if ids != [] {
      DeleteKeeps(c, s, ids[0], true, lax);
      DropExpiredKeeps(c, if ids[0] in s.tasks && IsExpired(c, s.tasks[ids[0]], now) then Delete(s, ids[0], true) else s,
                       ids[1..], now, lax);
    }
  }

  /** What is left was there before, unchanged, and is not expired; no marker is new. */
  ghost predicate Dropped(c: Config, s: Index, d: Index, ids: seq<Id>, now: int) {
    && d.markers.Keys <= s.markers.Keys
    && (forall id | id in d.tasks :: id in s.tasks && d.tasks[id] == s.tasks[id])
    && (forall id | id in d.tasks && id in ids :: !IsExpired(c, d.tasks[id], now))
  }

  lemma {:induction false} DropExpiredDrops(c: Config, s: Index, ids: seq<Id>, now: int)
    ensures Dropped(c, s, DropExpired(c, s, ids, now), ids, now)
    decreases |ids|
  {
    if ids != [] {
      var next := if ids[0] in s.tasks && IsExpired(c, s.tasks[ids[0]], now) then Delete(s, ids[0], true) else s;
      assert Dropped(c, s, next, ids[..1], now);
      DropExpiredDrops(c, next, ids[1..], now);
      DroppedTwice(c, s, next, DropExpired(c, next, ids[1..], now), ids, now);
    }
  }

  lemma DroppedTwice(c: Config, s: Index, m: Index, d: Index, ids: seq<Id>, now: int)
    requires ids != [] && Dropped(c, s, m, ids[..1], now) && Dropped(c, m, d, ids[1..], now)
    ensures Dropped(c, s, d, ids, now)
  {
    assert ids == ids[..1] + ids[1..];
  }

  lemma {:induction false} EvictKeepsLockStep(c: Config, s: Index)
    requires LockStep(c, s)
    ensures LockStep(c, Evict(c, s).0)
    decreases |s.tasks|
  {
    if |s.tasks| >= c.maxTasks && FirstTerminal(s, s.order).Some? {
      var id := FirstTerminal(s, s.order).value;
      DeleteKeeps(c, s, id, false, {});
      EvictKeepsLockStep(c, Delete(s, id, false));
    }
  }

  /** What eviction leaves was there before, unchanged, and what it removes was terminal. */
  lemma {:induction false} EvictDrops(c: Config, s: Index)
    ensures var (d, ok) := Evict(c, s);
            && d.markers == s.markers
            && (forall id | id in d.tasks :: id in s.tasks && d.tasks[id] == s.tasks[id])
            && (forall id | id in s.tasks && id !in d.tasks :: IsTerminal(s.tasks[id].status))
            && (ok <==> |d.tasks| < c.maxTasks)
            && (!ok ==> FirstTerminal(d, d.order).None?)
    decreases |s.tasks|
  {
    if |s.tasks| >= c.maxTasks && FirstTerminal(s, s.order).Some? {
      EvictDrops(c, Delete(s, FirstTerminal(s, s.order).value, false));
    }
  }

  lemma EvictKeeps(c: Config, s: Index)
    requires LockStep(c, s)
    ensures var (d, ok) := Evict(c, s);
            && LockStep(c, d) && d.markers == s.markers
            && (forall id | id in d.tasks :: id in s.tasks && d.tasks[id] == s.tasks[id])
            && (forall id | id in s.tasks && id !in d.tasks :: IsTerminal(s.tasks[id].status))
            && (ok <==> |d.tasks| < c.maxTasks)
            && (!ok ==> forall id | id in d.tasks :: !IsTerminal(d.tasks[id].status))
  {
    EvictKeepsLockStep(c, s);
    EvictDrops(c, s);
  }

  /**
   Pruning keeps the maps in lock-step at any reading of the clock. Afterwards no
   task and no marker is expired, and there is room for a task unless all live
   tasks are unfinished.
   */
  lemma PruneKeeps(c: Config, s: Index, now: int)
    requires LockStep(c, s)
    ensures var (d, ok) := Prune(c, s, now);
            && LockStep(c, d) && d.markers.Keys <= UnexpiredMarkers(s.markers, now).Keys
            && (forall id | id in d.tasks :: id in s.tasks && d.tasks[id] == s.tasks[id] && !IsExpired(c, d.tasks[id], now))
            && (ok <==> |d.tasks| < c.maxTasks)
            && (!ok ==> forall id | id in d.tasks :: !IsTerminal(d.tasks[id].status))
  {
    var lax := ExpiredIds(c, s, now);
    var s1 := s.(markers := UnexpiredMarkers(s.markers, now));
    MarkerPassKeeps(c, s, now);
    DropExpiredKeeps(c, s1, s1.order, now, lax);
    DropExpiredDrops(c, s1, s1.order, now);
    var s2 := DropExpired(c, s1, s1.order, now);
    forall id | id in s2.tasks ensures !IsExpired(c, s2.tasks[id], now) && id !in lax {
      assert id in s1.order;
    }
    assert LockStep(c, s2);
    EvictKeeps(c, s2);
  }

  // ---- The other operations -----------------------------------------------------------------------

  lemma GrowSize<X, Y>(m: map<X, Y>, x: X, y: Y)
    requires x !in m
    ensures |m[x := y]| == |m| + 1
  {
    assert m[x := y].Keys == m.Keys + {x};
    assert |m[x := y].Keys| == |m.Keys| + 1;
  }

  lemma InsertSizes(c: Config, p: Index, id: Id, key: Option<Key>, createdAt: int)
    requires id !in p.tasks && (key.Some? ==> key.value !in p.markers)
    ensures var d := Insert(c, p, id, key, createdAt);
            && |d.tasks| == |p.tasks| + 1
            && |d.markers| == if key.Some? then |p.markers| + 1 else |p.markers|
  {
    GrowSize(p.tasks, id, NewTask(id, key, createdAt));
    if key.Some? {
      GrowSize(p.markers, key.value, Marker(id, createdAt + c.ttlMs));
    }
  }

  lemma InsertOrdered(c: Config, p: Index, id: Id, key: Option<Key>, createdAt: int)
    requires Ordered(p) && id !in p.tasks
    ensures Ordered(Insert(c, p, id, key, createdAt))
  {
    var d := Insert(c, p, id, key, createdAt);
    assert d.order == p.order + [id];
    assert forall x :: x in d.order <==> x in p.order || x == id;
  }

  lemma InsertMarker(c: Config, p: Index, id: Id, key: Option<Key>, createdAt: int, x: Id)
    requires id !in p.tasks && id !in p.keyOf && (key.Some? ==> key.value !in p.markers)
    requires x == id || (x in p.tasks && p.tasks[x].id == x && KeyOk(p, x) && MarkerOk(c, p, x))
    ensures var d := Insert(c, p, id, key, createdAt); d.tasks[x].id == x && KeyOk(d, x) && MarkerOk(c, d, x)
  {}

  lemma InsertRequests(c: Config, p: Index, id: Id, key: Option<Key>, createdAt: int)
    requires RequestsOk(p) && id !in p.tasks
    ensures RequestsOk(Insert(c, p, id, key, createdAt))
  {}

  lemma InsertEach(c: Config, p: Index, id: Id, key: Option<Key>, createdAt: int)
    requires EachOk(c, p, {}) && id !in p.tasks && id !in p.keyOf && (key.Some? ==> key.value !in p.markers)
    ensures EachOk(c, Insert(c, p, id, key, createdAt), {})
  {
    var d := Insert(c, p, id, key, createdAt);
    assert d.tasks.Keys == p.tasks.Keys + {id};
    forall x | x in d.tasks ensures d.tasks[x].id == x && KeyOk(d, x) && MarkerOk(c, d, x) {
      InsertMarker(c, p, id, key, createdAt, x);
    }
  }

  lemma InsertKeeps(c: Config, p: Index, id: Id, key: Option<Key>, createdAt: int)
    requires LockStep(c, p) && id !in p.tasks && (key.Some? ==> key.value !in p.markers)
    requires |p.tasks| < c.maxTasks && (key.Some? ==> |p.markers| < c.maxMarkers)
    ensures LockStep(c, Insert(c, p, id, key, createdAt))
  {
    InsertSizes(c, p, id, key, createdAt);
    InsertOrdered(c, p, id, key, createdAt);
    InsertRequests(c, p, id, key, createdAt);
    InsertEach(c, p, id, key, createdAt);
  }

  lemma CreateKeeps(c: Config, s: Index, id: Id, key: Option<Key>, pruneAt: int, createdAt: int)
    requires LockStep(c, s) && id !in s.tasks
    ensures LockStep(c, Create(c, s, id, key, pruneAt, createdAt).0)
  {
    PruneKeeps(c, s, pruneAt);
    if Create(c, s, id, key, pruneAt, createdAt).1.None? {
      InsertKeeps(c, Prune(c, s, pruneAt).0, id, key, createdAt);
    }
  }

  lemma TouchedMarker(c: Config, s: Index, id: Id, t: Task, now: int, byRequest: map<Request, Id>, x: Id)
    requires id in s.tasks && x in s.tasks && t.id == id && t.key == s.tasks[id].key && t.lastModified == now
    requires KeyOk(s, id) && MarkerOk(c, s, id) && s.tasks[x].id == x && KeyOk(s, x) && MarkerOk(c, s, x)
    ensures var d := TouchMarker(c, s.(tasks := s.tasks[id := t], byRequest := byRequest), id, now);
            x in d.tasks && d.tasks[x].id == x && KeyOk(d, x) && MarkerOk(c, d, x)
  {}

  lemma TouchedSizes(c: Config, s: Index, id: Id, t: Task, now: int, byRequest: map<Request, Id>)
    requires id in s.tasks
    ensures var d := TouchMarker(c, s.(tasks := s.tasks[id := t], byRequest := byRequest), id, now);
            && d.tasks.Keys == s.tasks.Keys && d.markers.Keys == s.markers.Keys
            && |d.tasks| == |s.tasks| && |d.markers| == |s.markers|
            && d.keyOf == s.keyOf && d.order == s.order && d.byRequest == byRequest && d.tasks == s.tasks[id := t]
  {
    var d := TouchMarker(c, s.(tasks := s.tasks[id := t], byRequest := byRequest), id, now);
    assert d.tasks.Keys == s.tasks.Keys;
    assert d.markers.Keys == s.markers.Keys;
    assert |d.tasks.Keys| == |s.tasks.Keys| && |d.markers.Keys| == |s.markers.Keys|;
  }

  lemma TouchedEach(c: Config, s: Index, id: Id, t: Task, now: int, byRequest: map<Request, Id>)
    requires EachOk(c, s, {}) && id in s.tasks && t.id == id && t.key == s.tasks[id].key && t.lastModified == now
    ensures EachOk(c, TouchMarker(c, s.(tasks := s.tasks[id := t], byRequest := byRequest), id, now), {})
  {
    var d := TouchMarker(c, s.(tasks := s.tasks[id := t], byRequest := byRequest), id, now);
    TouchedSizes(c, s, id, t, now, byRequest);
    forall x | x in d.tasks ensures d.tasks[x].id == x && KeyOk(d, x) && MarkerOk(c, d, x) {
      TouchedMarker(c, s, id, t, now, byRequest, x);
    }
  }

  lemma TouchedRequests(c: Config, s: Index, id: Id, now: int)
    requires RequestsOk(s)
    ensures RequestsOk(TouchMarker(c, s, id, now))
  {}

  /** A changed task with a touched marker keeps lock-step, whatever the operation did to status and log. */
  lemma TouchKeeps(c: Config, s: Index, id: Id, t: Task, now: int, byRequest: map<Request, Id>)
    requires LockStep(c, s) && id in s.tasks
    requires t.id == id && t.key == s.tasks[id].key && t.lastModified == now
    requires RequestsOk(s.(tasks := s.tasks[id := t], byRequest := byRequest))
    ensures LockStep(c, TouchMarker(c, s.(tasks := s.tasks[id := t], byRequest := byRequest), id, now))
  {
    TouchedSizes(c, s, id, t, now, byRequest);
    TouchedEach(c, s, id, t, now, byRequest);
    TouchedRequests(c, s.(tasks := s.tasks[id := t], byRequest := byRequest), id, now);
  }

  lemma StartKeepsRequests(s: Index, id: Id, t: Task, request: Request)
    requires RequestsOk(s) && id in s.tasks && s.tasks[id].status == Submitted && request !in s.byRequest
    requires t.requestId == Some(request) && t.status != Submitted
    ensures RequestsOk(s.(tasks := s.tasks[id := t], byRequest := s.byRequest[request := id]))
  {}

  /** The server's order: a task is started once, while it is submitted, for a request of its own. */
  lemma StartKeeps(c: Config, s: Index, id: Id, request: Request, provider: Option<Node>, now: int)
    requires LockStep(c, s) && (id in s.tasks ==> s.tasks[id].status == Submitted && request !in s.byRequest)
    ensures LockStep(c, Start(c, s, id, request, provider, now))
  {
    if id in s.tasks {
      var t := StartTask(s.tasks[id], request, provider, now);
      StartKeepsRequests(s, id, t, request);
      TouchKeeps(c, s, id, t, now, s.byRequest[request := id]);
    }
  }

  /** A submitted task may be started for a request exactly when no live task has it. */
  lemma StartKeepsExactly(c: Config, s: Index, id: Id, request: Request, provider: Option<Node>, now: int)
    requires LockStep(c, s) && id in s.tasks && s.tasks[id].status == Submitted
    ensures LockStep(c, Start(c, s, id, request, provider, now)) <==>
            forall other | other in s.tasks :: s.tasks[other].requestId != Some(request)
  {
    if request in s.byRequest {
      var d := Start(c, s, id, request, provider, now);
      var other := s.byRequest[request];
      assert s.tasks[other].requestId == Some(request) && other != id;
      assert d.tasks[other].requestId == Some(request) && d.byRequest[request] == id;
    } else {
      StartKeeps(c, s, id, request, provider, now);
    }
  }

  lemma RejectKeeps(c: Config, s: Index, id: Id, now: int)
    requires LockStep(c, s)
    ensures LockStep(c, Reject(c, s, id, now))
  {
    if id in s.tasks {
      TouchKeeps(c, s, id, RejectTask(s.tasks[id], now), now, s.byRequest);
    }
  }

  lemma ProgressKeeps(c: Config, s: Index, id: Id, t: Task, now: int)
    requires LockStep(c, s) && id in s.tasks
    requires t.id == id && t.key == s.tasks[id].key && t.lastModified == now
    requires t.requestId == s.tasks[id].requestId && (t.status == Submitted ==> s.tasks[id].status == Submitted)
    ensures LockStep(c, TouchMarker(c, s.(tasks := s.tasks[id := t]), id, now))
  {
    TouchKeeps(c, s, id, t, now, s.byRequest);
  }

  // ---- Whose events count -------------------------------------------------------------------------

  /**
   A result concerns a task exactly when the task is live, has that request, and is
   without a provider yet or has the sender as its provider.
   */
  lemma ResultConcernsExactly(c: Config, s: Index, request: Request, from: Option<Node>, id: Id)
    requires LockStep(c, s)
    ensures ResultTarget(s, request, from) == Some(id) <==>
            && id in s.tasks && s.tasks[id].requestId == Some(request)
            && (s.tasks[id].provider.None? || s.tasks[id].provider == from)
  {}

  /** A compact event, in addition, may come without a sender. */
  lemma CompactEventConcernsExactly(c: Config, s: Index, request: Request, from: Option<Node>, id: Id)
    requires LockStep(c, s)
    ensures CompactTarget(s, request, from) == Some(id) <==>
            && id in s.tasks && s.tasks[id].requestId == Some(request)
            && (s.tasks[id].provider.None? || from.None? || s.tasks[id].provider == from)
  {}

  // ---- Runs --------------------------------------------------------------------------------------------

  datatype Op =
    | ToCreate(id: Id, key: Option<Key>, pruneAt: int, createdAt: int)
    | ToGet(now: int)
    | ToDelete(id: Id, forget: bool)
    | ToStart(id: Id, request: Request, provider: Option<Node>, now: int)
    | ToReject(id: Id, now: int)
    | ToCancel(id: Id, now: int)
    | ToComplete(id: Id, provider: Option<Node>, ok: bool, now: int)
    | ToRecord(id: Id, p: Partial, newArtifactId: Id, now: int)

  function Apply(c: Config, s: Index, op: Op): Index {
    match op
    case ToCreate(id, key, pruneAt, createdAt) => Create(c, s, id, key, pruneAt, createdAt).0
    case ToGet(now) => Prune(c, s, now).0
    case ToDelete(id, forget) => Delete(s, id, forget)
    case ToStart(id, request, provider, now) => Start(c, s, id, request, provider, now)
    case ToReject(id, now) => Reject(c, s, id, now)
    case ToCancel(id, now) => Cancel(c, s, id, now)
    case ToComplete(id, provider, ok, now) => Complete(c, s, id, provider, ok, now)
    case ToRecord(id, p, newArtifactId, now) => RecordPartial(c, s, id, p, newArtifactId, now)
  }

  /** Task and request ids are fresh, and the server starts a task only while it is submitted. */
  predicate InOrder(s: Index, op: Op) {
    match op
    case ToCreate(id, _, _, _) => id !in s.tasks
    case ToStart(id, request, _, _) => id in s.tasks ==> s.tasks[id].status == Submitted && request !in s.byRequest
    case _ => true
  }

  predicate OrderedRun(c: Config, s: Index, ops: seq<Op>)
    decreases |ops|
  {
    ops == [] || (InOrder(s, ops[0]) && OrderedRun(c, Apply(c, s, ops[0]), ops[1..]))
  }

  function Run(c: Config, s: Index, ops: seq<Op>): Index
    decreases |ops|
  {
    if ops == [] then s else Run(c, Apply(c, s, ops[0]), ops[1..])
  }

  lemma CancelKeeps(c: Config, s: Index, id: Id, now: int)
    requires LockStep(c, s)
    ensures LockStep(c, Cancel(c, s, id, now))
  {
    if id in s.tasks && !IsTerminal(s.tasks[id].status) {
      ProgressKeeps(c, s, id, CancelTask(s.tasks[id], now), now);
    }
  }

  lemma CompleteKeeps(c: Config, s: Index, id: Id, provider: Option<Node>, ok: bool, now: int)
    requires LockStep(c, s)
    ensures LockStep(c, Complete(c, s, id, provider, ok, now))
  {
    if id in s.tasks && !IsTerminal(s.tasks[id].status) {
      ProgressKeeps(c, s, id, CompleteTask(s.tasks[id], provider, ok, now), now);
    }
  }

  lemma RecordKeeps(c: Config, s: Index, id: Id, p: Partial, newArtifactId: Id, now: int)
    requires LockStep(c, s)
    ensures LockStep(c, RecordPartial(c, s, id, p, newArtifactId, now))
  {
    if id in s.tasks && !IsTerminal(s.tasks[id].status) {
      ProgressKeeps(c, s, id, PartialTask(s.tasks[id], p, newArtifactId, now), now);
    }
  }

  lemma ApplyKeeps(c: Config, s: Index, op: Op)
    requires LockStep(c, s) && InOrder(s, op)
    ensures LockStep(c, Apply(c, s, op))
  {
    match op
    case ToCreate(id, key, pruneAt, createdAt) => CreateKeeps(c, s, id, key, pruneAt, createdAt);
    case ToGet(now) => PruneKeeps(c, s, now);
    case ToDelete(id, forget) => DeleteKeeps(c, s, id, forget, {});
    case ToStart(id, request, provider, now) => StartKeeps(c, s, id, request, provider, now);
    case ToReject(id, now) => RejectKeeps(c, s, id, now);
    case ToCancel(id, now) => CancelKeeps(c, s, id, now);
    case ToComplete(id, provider, ok, now) => CompleteKeeps(c, s, id, provider, ok, now);
    case ToRecord(id, p, newArtifactId, now) => RecordKeeps(c, s, id, p, newArtifactId, now);
  }

  /** After any operations in any order, at any readings of the clock, the maps are in lock-step and within capacity. */
  lemma {:induction false} RunKeepsLockStep(c: Config, s: Index, ops: seq<Op>)
    requires LockStep(c, s) && OrderedRun(c, s, ops)
    ensures LockStep(c, Run(c, s, ops))
    decreases |ops|
  {
    if ops != [] {
      ApplyKeeps(c, s, ops[0]);
      RunKeepsLockStep(c, Apply(c, s, ops[0]), ops[1..]);
    }
  }

  lemma EmptyIsInLockStep(c: Config)
    ensures LockStep(c, EMPTY)
  {
    assert |EMPTY.tasks| == 0 && |EMPTY.markers| == 0;
  }

  /** Two live tasks never share a message key, so each key has exactly one marker and at most one task. */
  lemma LiveKeysAreDistinct(c: Config, ops: seq<Op>, a: Id, b: Id)
    requires OrderedRun(c, EMPTY, ops)
    requires var s := Run(c, EMPTY, ops); a in s.tasks && b in s.tasks && s.tasks[a].key.Some? && s.tasks[a].key == s.tasks[b].key
    ensures a == b
  {
    EmptyIsInLockStep(c);
    RunKeepsLockStep(c, EMPTY, ops);
    var s := Run(c, EMPTY, ops);
    assert MarkerOk(c, s, a) && MarkerOk(c, s, b);
  }
}
