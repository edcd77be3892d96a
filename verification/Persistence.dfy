/**
 Generation-numbered persistence of a network node: background changes are
 debounced up to a checkpoint, one flush runs at a time, and an explicit barrier
 waits until its own generation is stored. Steps are atomic between awaits.
 */
module Persistence {
  import opened Outcomes
  import Reach

  // ---- The node's persistence fields ------------------------------------------------

  datatype Timer = Timer(armedAt: int, due: int)

  /** `flush` names the pending `persistFlushPromise`. */
  datatype Fields = Fields(requested: nat, persisted: nat, flush: Option<nat>, timer: Option<Timer>,
                           firstPendingAt: Option<int>, ready: bool, closing: bool)

  datatype Config = Config(debounceMs: nat, checkpointMs: nat)

  const FRESH := Fields(0, 0, None, None, None, false, false)

  function Min(a: int, b: int): int {
    if a <= b then a else b
  }

  function Max(a: int, b: int): int {
    if a <= b then b else a
  }

  function RequestPersist(f: Fields): Fields {
    f.(requested := f.requested + 1)
  }

  function ScheduleCheckpoint(c: Config, f: Fields, now: int): Fields {
    if !f.ready || f.closing || f.flush.Some? then f
    else if f.persisted >= f.requested then f.(firstPendingAt := None, timer := None)
    else
      var first := f.firstPendingAt.UnwrapOr(now);
      var delay := Max(0, Min(c.debounceMs, c.checkpointMs - (now - first)));
      f.(firstPendingAt := Some(first), timer := Some(Timer(now, now + delay)))
  }

  /** Joins the pending flush, or starts the one named `id`. */
  function EnsureFlush(f: Fields, id: nat): Fields {
    if f.flush.Some? then f else f.(timer := None, flush := Some(id))
  }

  function SchedulePersist(c: Config, f: Fields, now: int): Fields {
    if !f.ready || f.closing then f else ScheduleCheckpoint(c, RequestPersist(f), now)
  }

  /** A save of `generation` came back: what is still pending counts from now. */
  function Saved(f: Fields, generation: nat, now: int): Fields {
    if generation >= f.requested then f.(persisted := generation, firstPendingAt := None)
    else if f.ready && !f.closing then f.(persisted := generation, firstPendingAt := Some(now))
    else f.(persisted := generation)
  }

  /** The flush promise settles. */
  function Settled(c: Config, f: Fields, now: int): Fields {
    var g := f.(flush := None);
    if g.persisted < g.requested && g.ready && !g.closing then ScheduleCheckpoint(c, g, now) else g
  }

  // ---- The node, its callers and its store ---------------------------------------------

  /** What a save writes: the peer-record sequence and the set of state changes it contains. */
  datatype Snapshot = Snapshot(sequence: nat, changes: set<nat>)

  /** A running flush. `Renamed`: the file is replaced but the call has not returned. */
  datatype Phase =
    | Queued
    | Saving(generation: nat, snapshot: Snapshot)
    | Renamed(generation: nat, snapshot: Snapshot)
    | Ended(ok: bool)

  /** A call of `persistState`: its generation, and in `seen` the node's state when it was made. */
  datatype Barrier =
    | Waiting(target: nat, seen: Snapshot, flush: nat)
    | Returned(target: nat, seen: Snapshot)
    | Failed(target: nat, seen: Snapshot)

  /**
   `idle`: the node is not started and no start is under way. `closer` names the
   barrier of the last close.
   */
  datatype State = State(f: Fields, jobs: map<nat, Phase>, settled: map<nat, bool>, barriers: map<nat, Barrier>,
                         live: Snapshot, stored: Snapshot, clock: int, nextId: nat, idle: bool, closer: Option<nat>)

  datatype Event =
    | Change(id: nat, now: int)
    | Persist(barrier: nat)
    | Fire(now: int)
    | Begin(job: nat)
    | Rename(job: nat)
    | Return(job: nat, now: int)
    | Fail(job: nat)
    | Settle(job: nat, now: int)
    | Resume(barrier: nat)
    | Bump
    | Hydrate
    | Close
    | CloseSaves(barrier: nat)
    | CloseDone
    | Open
    | StartFails
    | Crash

  const INITIAL := State(FRESH, map[], map[], map[], Snapshot(0, {}), Snapshot(0, {}), 0, 0, true, None)

  predicate Within(a: Snapshot, b: Snapshot) {
    a.sequence <= b.sequence && a.changes <= b.changes
  }

  function Join(a: Snapshot, b: Snapshot): Snapshot {
    Snapshot(if a.sequence <= b.sequence then b.sequence else a.sequence, a.changes + b.changes)
  }

  /** `EnsureFlush` on the whole state: a new flush is a new job. */
  function WithFlush(s: State): State {
    if s.f.flush.Some? then s
    else s.(f := EnsureFlush(s.f, s.nextId), jobs := s.jobs[s.nextId := Queued], nextId := s.nextId + 1)
  }

  function Step(c: Config, s: State, e: Event): State {
    match e
    case Change(id, now) =>
      if now < s.clock then s
      else s.(f := SchedulePersist(c, s.f, now), live := s.live.(changes := s.live.changes + {id}), clock := now)
    case Bump => s.(live := s.live.(sequence := s.live.sequence + 1))
    case Persist(b) => if b in s.barriers then s else PersistCall(s, b)
    case Fire(now) =>
      if now < s.clock || s.f.timer.None? || now < s.f.timer.value.due then s
      else WithFlush(s.(f := s.f.(timer := None), clock := now))
    case Begin(j) =>
      if j !in s.jobs || !s.jobs[j].Queued? then s
      else if s.f.persisted >= s.f.requested then s.(jobs := s.jobs[j := Ended(true)])
      else s.(jobs := s.jobs[j := Saving(s.f.requested, s.live)])
    case Rename(j) =>
      if j !in s.jobs || !s.jobs[j].Saving? then s
      else s.(jobs := s.jobs[j := Renamed(s.jobs[j].generation, s.jobs[j].snapshot)], stored := s.jobs[j].snapshot)
    case Return(j, now) =>
      if now < s.clock || j !in s.jobs || !s.jobs[j].Renamed? then s
      else s.(f := Saved(s.f, s.jobs[j].generation, now), jobs := s.jobs[j := Ended(true)], clock := now)
    case Fail(j) =>
      if j !in s.jobs || !s.jobs[j].Saving? then s
      else s.(jobs := s.jobs[j := Ended(false)])
    case Settle(j, now) =>
      if now < s.clock || j !in s.jobs || !s.jobs[j].Ended? then s
      else s.(f := Settled(c, s.f, now), jobs := s.jobs - {j}, settled := s.settled[j := s.jobs[j].ok], clock := now)
    case Resume(b) => ResumeBarrier(s, b)
    case Hydrate => s.(f := s.f.(ready := true), live := Join(s.live, s.stored))
    case Close => if s.idle || !s.f.ready || s.f.closing then s else s.(f := s.f.(closing := true), closer := None)
    case CloseSaves(b) =>
      // The close's own save; a close that failed can be called again.
      if s.idle || !s.f.closing || b in s.barriers || (s.closer.Some? && !HasFailed(s, s.closer.value)) then s
      else PersistCall(s, b).(closer := Some(b))
    case CloseDone =>
      if !s.idle && s.f.closing && s.closer.Some? && HasReturned(s, s.closer.value)
      then s.(f := s.f.(timer := None), idle := true) else s
    case Open => if s.idle then s.(f := s.f.(closing := false), idle := false, closer := None) else s
    case StartFails => s.(idle := !s.f.closing)
    case Crash =>
      s.(f := FRESH, jobs := map[], settled := map[], barriers := map[], live := Snapshot(0, {}), idle := true,
           closer := None)
  }

  predicate HasReturned(s: State, b: nat) {
    b in s.barriers && s.barriers[b].Returned?
  }

  predicate HasFailed(s: State, b: nat) {
    b in s.barriers && s.barriers[b].Failed?
  }

  /** `persistState` up to its first await. */
  function PersistCall(s: State, b: nat): State {
    var s1 := s.(f := RequestPersist(s.f).(timer := None));
    var s2 := WithFlush(s1);
    s2.(barriers := s2.barriers[b := Waiting(s1.f.requested, s.live, s2.f.flush.value)])
  }

  /** The loop of `persistState` after its flush settled. */
  function ResumeBarrier(s: State, b: nat): State {
    if b !in s.barriers || !s.barriers[b].Waiting? || s.barriers[b].flush !in s.settled then s
    else
      var Waiting(target, seen, flush) := s.barriers[b];
      if !s.settled[flush] then s.(barriers := s.barriers[b := Failed(target, seen)])
      else if s.f.persisted >= target then s.(barriers := s.barriers[b := Returned(target, seen)])
      else
        var s1 := WithFlush(s);
        s1.(barriers := s1.barriers[b := Waiting(target, seen, s1.f.flush.value)])
  }

  function Run(c: Config, s: State, events: seq<Event>): State
    decreases |events|
  {
    if events == [] then s else Run(c, Step(c, s, events[0]), events[1..])
  }

  // ---- What every step keeps ---------------------------------------------------------------

  /** The pending promise and the running flush are the same thing, and generations are ordered. */
  ghost predicate FlushOk(s: State) {
    && s.f.persisted <= s.f.requested
    && s.jobs.Keys == (if s.f.flush.Some? then {s.f.flush.value} else {})
    && (forall j | j in s.jobs :: j < s.nextId && j !in s.settled)
    && (forall j | j in s.settled :: j < s.nextId)
    && (forall j | j in s.jobs && (s.jobs[j].Saving? || s.jobs[j].Renamed?) ::
          s.f.persisted < s.jobs[j].generation <= s.f.requested && Within(s.jobs[j].snapshot, s.live))
    && (forall j | j in s.jobs && s.jobs[j].Renamed? :: s.stored == s.jobs[j].snapshot)
  }

  /** What is being saved holds `seen`. */
  ghost predicate SavesHold(s: State, seen: Snapshot, target: nat) {
    forall j | j in s.jobs && (s.jobs[j].Saving? || s.jobs[j].Renamed?) && s.jobs[j].generation >= target ::
      Within(seen, s.jobs[j].snapshot)
  }

  ghost predicate BarrierOk(s: State, b: nat)
    requires b in s.barriers
  {
    && s.barriers[b].target <= s.f.requested && Within(s.barriers[b].seen, s.live)
    && SavesHold(s, s.barriers[b].seen, s.barriers[b].target)
    && (s.f.persisted >= s.barriers[b].target ==> Within(s.barriers[b].seen, s.stored))
    && (s.barriers[b].Returned? ==> s.barriers[b].target <= s.f.persisted)
    && (s.barriers[b].Waiting? ==> s.barriers[b].flush in s.settled || s.f.flush == Some(s.barriers[b].flush))
  }

  /** The armed timer is due by the checkpoint of the oldest pending change, or was overdue when armed. */
  ghost predicate TimerOk(c: Config, s: State) {
    && (s.f.firstPendingAt.Some? ==> s.f.firstPendingAt.value <= s.clock)
    && (s.f.timer.Some? ==>
          && s.f.ready && s.f.flush.None? && s.f.firstPendingAt.Some? && s.f.timer.value.armedAt <= s.clock
          && s.f.timer.value.due <= Max(s.f.firstPendingAt.value + c.checkpointMs, s.f.timer.value.armedAt))
  }

  ghost predicate Inv(c: Config, s: State) {
    && FlushOk(s)
    && (forall b | b in s.barriers :: BarrierOk(s, b))
    && TimerOk(c, s)
  }

  lemma FlushStepJob(c: Config, s: State, e: Event)
    requires FlushOk(s) && (e.Begin? || e.Rename? || e.Fail?)
    ensures FlushOk(Step(c, s, e))
  {}

  lemma FlushStepReturn(c: Config, s: State, j: nat, now: int)
    requires FlushOk(s)
    ensures FlushOk(Step(c, s, Return(j, now)))
  {}

  lemma FlushStepSettle(c: Config, s: State, e: Event)
    requires FlushOk(s) && e.Settle?
    ensures FlushOk(Step(c, s, e))
  {
    var s' := Step(c, s, e);
    if s' != s {
      assert s.jobs.Keys == {e.job};
      assert s'.jobs.Keys == {};
    }
  }

  lemma WithFlushKeeps(s: State)
    requires FlushOk(s)
    ensures FlushOk(WithFlush(s))
  {}

  lemma PersistCallKeeps(s: State, b: nat)
    requires FlushOk(s)
    ensures FlushOk(PersistCall(s, b))
  {
    WithFlushKeeps(s.(f := RequestPersist(s.f).(timer := None)));
  }

  /** FlushOk does not look at the calls that wait, nor at the timer and the clock. */
  lemma FlushLooksAway(s: State, t: State)
    requires FlushOk(s) && t == s.(f := s.f.(timer := t.f.timer), clock := t.clock, barriers := t.barriers, closer := t.closer)
    ensures FlushOk(t)
  {}

  /** Resuming a call changes its record, and may start a flush. */
  lemma ResumeCases(s: State, b: nat)
    ensures var t := ResumeBarrier(s, b);
            || t == s
            || (b in t.barriers && t == s.(barriers := s.barriers[b := t.barriers[b]]))
            || (b in t.barriers && t == WithFlush(s).(barriers := s.barriers[b := t.barriers[b]]))
  {}

  lemma FlushStepResume(s: State, b: nat)
    requires FlushOk(s)
    ensures FlushOk(ResumeBarrier(s, b))
  {
    ResumeCases(s, b);
    WithFlushKeeps(s);
    var t := ResumeBarrier(s, b);
    if t == s.(barriers := t.barriers) { FlushLooksAway(s, t); } else { FlushLooksAway(WithFlush(s), t); }
  }

  lemma FlushStepFire(c: Config, s: State, now: int)
    requires FlushOk(s)
    ensures FlushOk(Step(c, s, Fire(now)))
  {
    var t := s.(f := s.f.(timer := None), clock := now);
    FlushLooksAway(s, t);
    WithFlushKeeps(t);
  }

  lemma FlushStepCall(c: Config, s: State, e: Event)
    requires FlushOk(s) && IsCall(e)
    ensures FlushOk(Step(c, s, e))
  {
    match e
    case Persist(b) => PersistCallKeeps(s, b);
    case CloseSaves(b) => PersistCallKeeps(s, b);
    case Fire(now) => FlushStepFire(c, s, now);
    case Resume(b) => FlushStepResume(s, b);
  }

  lemma FlushStepOther(c: Config, s: State, e: Event)
    requires FlushOk(s) && !IsJobStep(e) && !IsCall(e)
    ensures FlushOk(Step(c, s, e))
  {}

  /** The steps of a running flush. */
  predicate IsJobStep(e: Event) {
    e.Begin? || e.Rename? || e.Return? || e.Fail? || e.Settle?
  }

  /** The steps that may start a flush. */
  predicate IsCall(e: Event) {
    e.Persist? || e.CloseSaves? || e.Fire? || e.Resume?
  }

  lemma FlushStep(c: Config, s: State, e: Event)
    requires FlushOk(s)
    ensures FlushOk(Step(c, s, e))
  {
    match e
    case Return(j, now) => FlushStepReturn(c, s, j, now);
    case Settle(_, _) => FlushStepSettle(c, s, e);
    case _ =>
      if IsJobStep(e) {
        FlushStepJob(c, s, e);
      } else if IsCall(e) {
        FlushStepCall(c, s, e);
      } else {
        FlushStepOther(c, s, e);
      }
  }

  lemma BarrierStepJob(c: Config, s: State, e: Event, b: nat)
    requires FlushOk(s) && b in s.barriers && BarrierOk(s, b) && IsJobStep(e)
    ensures BarrierOk(Step(c, s, e), b)
  {}

  /** A call of `persistState` is new and waits for the pending flush; it leaves the others alone. */
  lemma BarrierStepPersist(s: State, n: nat, b: nat)
    requires FlushOk(s) && n !in s.barriers && b in PersistCall(s, n).barriers && (b in s.barriers ==> BarrierOk(s, b))
    ensures BarrierOk(PersistCall(s, n), b)
  {}

  lemma FlushKeepsBarrier(s: State, b: nat)
    requires FlushOk(s) && b in s.barriers && BarrierOk(s, b)
    ensures BarrierOk(WithFlush(s), b)
  {}

  lemma ResumedBarrier(s: State, b: nat)
    requires FlushOk(s) && b in s.barriers && BarrierOk(s, b)
    ensures BarrierOk(ResumeBarrier(s, b), b)
  {
    FlushKeepsBarrier(s, b);
  }

  lemma BarrierStepResume(c: Config, s: State, n: nat, b: nat)
    requires FlushOk(s) && b in s.barriers && BarrierOk(s, b)
    ensures b in ResumeBarrier(s, n).barriers && BarrierOk(ResumeBarrier(s, n), b)
  {
    if b == n {
      ResumedBarrier(s, b);
    } else {
      ResumeCases(s, n);
      FlushKeepsBarrier(s, b);
    }
  }

  lemma BarrierStepOther(c: Config, s: State, e: Event, b: nat)
    requires FlushOk(s) && b in Step(c, s, e).barriers && (b in s.barriers ==> BarrierOk(s, b))
    requires !IsJobStep(e) && !e.Persist? && !e.CloseSaves? && !e.Resume?
    ensures BarrierOk(Step(c, s, e), b)
  {}

  lemma BarrierStepCall(c: Config, s: State, e: Event, n: nat, b: nat)
    requires FlushOk(s) && b in Step(c, s, e).barriers && (b in s.barriers ==> BarrierOk(s, b))
    requires e == Persist(n) || e == CloseSaves(n)
    ensures BarrierOk(Step(c, s, e), b)
  {
    if n !in s.barriers && Step(c, s, e) != s { BarrierStepPersist(s, n, b); }
  }

  lemma BarrierStep(c: Config, s: State, e: Event, b: nat)
    requires FlushOk(s) && b in Step(c, s, e).barriers && (b in s.barriers ==> BarrierOk(s, b))
    ensures BarrierOk(Step(c, s, e), b)
  {
    if e.Persist? || e.CloseSaves? {
      BarrierStepCall(c, s, e, e.barrier, b);
    } else if e.Resume? {
      ResumeCases(s, e.barrier);
      BarrierStepResume(c, s, e.barrier, b);
    } else {
      BarrierStepRest(c, s, e, b);
    }
  }

  lemma BarrierStepRest(c: Config, s: State, e: Event, b: nat)
    requires FlushOk(s) && b in Step(c, s, e).barriers && (b in s.barriers ==> BarrierOk(s, b))
    requires !e.Persist? && !e.CloseSaves? && !e.Resume?
    ensures BarrierOk(Step(c, s, e), b)
  {
    if IsJobStep(e) { BarrierStepJob(c, s, e, b); } else { BarrierStepOther(c, s, e, b); }
  }

  lemma TimerStep(c: Config, s: State, e: Event)
    requires FlushOk(s) && TimerOk(c, s)
    ensures TimerOk(c, Step(c, s, e))
  {}

  lemma StepKeepsInv(c: Config, s: State, e: Event)
    requires Inv(c, s)
    ensures Inv(c, Step(c, s, e))
  {
    FlushStep(c, s, e);
    TimerStep(c, s, e);
    forall b | b in Step(c, s, e).barriers ensures BarrierOk(Step(c, s, e), b) {
      assert b in s.barriers ==> BarrierOk(s, b);
      BarrierStep(c, s, e, b);
    }
  }

  lemma {:induction false} RunKeepsInv(c: Config, s: State, events: seq<Event>)
    requires Inv(c, s)
    ensures Inv(c, Run(c, s, events))
    decreases |events|
  {
    if events != [] {
      StepKeepsInv(c, s, events[0]);
      RunKeepsInv(c, Step(c, s, events[0]), events[1..]);
    }
  }

  // ---- Every run -----------------------------------------------------------------------------

  /**
   The durability barrier: when a call of `persistState` has returned, the store
   holds everything the node knew when the call was made.
   */
  lemma BarrierStoresTheCall(c: Config, events: seq<Event>, b: nat)
    requires HasReturned(Run(c, INITIAL, events), b)
    ensures var s := Run(c, INITIAL, events); Within(s.barriers[b].seen, s.stored)
  {
    RunKeepsInv(c, INITIAL, events);
    assert BarrierOk(Run(c, INITIAL, events), b);
  }

  /** A barrier records the state at the time of the call, until the process ends. */
  lemma BarrierRecordsTheCall(c: Config, s: State, b: nat)
    requires b !in s.barriers
    ensures var s' := Step(c, s, Persist(b)); b in s'.barriers && s'.barriers[b].Waiting? && s'.barriers[b].seen == s.live
  {}

  lemma BarrierKeepsItsRecord(c: Config, s: State, e: Event, b: nat)
    requires b in s.barriers && !e.Crash?
    ensures var s' := Step(c, s, e); b in s'.barriers && s'.barriers[b].seen == s.barriers[b].seen
  {}

  /** In every run saves never overlap and no generation is persisted before it was requested. */
  lemma SavesNeverOverlap(c: Config, events: seq<Event>, i: nat, j: nat)
    requires i in Run(c, INITIAL, events).jobs && j in Run(c, INITIAL, events).jobs
    ensures i == j
    ensures Run(c, INITIAL, events).f.persisted <= Run(c, INITIAL, events).f.requested
  {
    RunKeepsInv(c, INITIAL, events);
  }

  /**
   A call of `persistState` on a node without a pending flush can return: its flush
   saves everything, the call returns, and the generations are persisted.
   */
  lemma BarrierCanReturn(c: Config, s: State, b: nat)
    requires Inv(c, s) && s.f.flush.None? && b !in s.barriers
    ensures var j, now := s.nextId, s.clock;
            var s' := Run(c, s, [Persist(b), Begin(j), Rename(j), Return(j, now), Settle(j, now), Resume(b)]);
            HasReturned(s', b) && s'.stored == s.live && s'.f.persisted == s'.f.requested == s.f.requested + 1 && s'.f.flush.None?
  {
    var j, now := s.nextId, s.clock;
    var s1 := Step(c, s, Persist(b));
    assert s.jobs.Keys == {};
    assert s1.jobs == map[j := Queued];
    var s4 := SavedAtOnce(c, s1, j);
    FlushReturns(c, s4, j, b);
    RunStep(c, s, Persist(b), [Begin(j), Rename(j), Return(j, now), Settle(j, now), Resume(b)]);
    RunStep(c, s1, Begin(j), [Rename(j), Return(j, now), Settle(j, now), Resume(b)]);
    RunStep(c, Step(c, s1, Begin(j)), Rename(j), [Return(j, now), Settle(j, now), Resume(b)]);
    RunStep(c, Step(c, Step(c, s1, Begin(j)), Rename(j)), Return(j, now), [Settle(j, now), Resume(b)]);
  }

  lemma RunStep(c: Config, s: State, e: Event, rest: seq<Event>)
    ensures Run(c, s, [e] + rest) == Run(c, Step(c, s, e), rest)
  {
    assert ([e] + rest)[1..] == rest;
  }

  /** The flush of the call saves everything there is. */
  lemma SavedAtOnce(c: Config, s: State, j: nat) returns (t: State)
    requires s.f.flush == Some(j) && s.jobs == map[j := Queued] && s.f.persisted < s.f.requested
    ensures t == Step(c, Step(c, Step(c, s, Begin(j)), Rename(j)), Return(j, s.clock))
    ensures t.f.persisted == s.f.requested == t.f.requested && t.jobs == map[j := Ended(true)] && t.stored == s.live
    ensures t.barriers == s.barriers && t.clock == s.clock && t.f.flush == s.f.flush && t.settled == s.settled
  {
    var s1 := Step(c, s, Begin(j));
    var s2 := Step(c, s1, Rename(j));
    t := Step(c, s2, Return(j, s.clock));
  }

  lemma FlushReturns(c: Config, s: State, j: nat, b: nat)
    requires s.f.flush == Some(j) && s.jobs == map[j := Ended(true)] && s.f.persisted == s.f.requested
    requires b in s.barriers && s.barriers[b].Waiting? && s.barriers[b].flush == j && s.barriers[b].target <= s.f.persisted
    ensures var t := Run(c, s, [Settle(j, s.clock), Resume(b)]);
            HasReturned(t, b) && t.stored == s.stored && t.f.persisted == s.f.persisted && t.f.requested == s.f.requested && t.f.flush.None?
  {
    RunStep(c, s, Settle(j, s.clock), [Resume(b)]);
    RunStep(c, Step(c, s, Settle(j, s.clock)), Resume(b), []);
  }

  // ---- A failed save ----------------------------------------------------------------------------

  /** The flush ended without saving. */
  ghost predicate EndedBadly(s: State, j: nat) {
    (j in s.settled && !s.settled[j]) || (j in s.jobs && s.jobs[j] == Ended(false))
  }

  /** The call still waits for that flush, or has failed. */
  ghost predicate Doomed(s: State, b: nat, j: nat) {
    b in s.barriers && (s.barriers[b].Failed? || (s.barriers[b].Waiting? && s.barriers[b].flush == j))
  }

  lemma DoomedStep(c: Config, s: State, e: Event, b: nat, j: nat)
    requires FlushOk(s) && EndedBadly(s, j) && Doomed(s, b, j) && !e.Crash?
    ensures EndedBadly(Step(c, s, e), j) && Doomed(Step(c, s, e), b, j)
  {}

  /**
   A call of `persistState` that waits for a flush whose save failed never returns,
   whatever happens until the process ends: it still waits for that flush, or it has
   failed, and resuming it makes it fail.
   */
  lemma {:induction false} FailedSaveFailsTheBarrier(c: Config, s: State, b: nat, j: nat, events: seq<Event>)
    requires Inv(c, s) && EndedBadly(s, j) && Doomed(s, b, j)
    requires forall i | 0 <= i < |events| :: !events[i].Crash?
    ensures Doomed(Run(c, s, events), b, j) && !HasReturned(Run(c, s, events), b)
    ensures j in Run(c, s, events).settled ==> HasFailed(Step(c, Run(c, s, events), Resume(b)), b)
    decreases |events|
  {
    if events != [] {
      DoomedStep(c, s, events[0], b, j);
      StepKeepsInv(c, s, events[0]);
      FailedSaveFailsTheBarrier(c, Step(c, s, events[0]), b, j, events[1..]);
    }
  }

  // ---- Loading before persisting ----------------------------------------------------------------

  /** `persistState` is called only after the stored state was loaded; the code does not check this. */
  predicate LoadsFirst(s: State, e: Event) {
    e.Persist? ==> s.f.ready
  }

  predicate LoadsFirstRun(c: Config, s: State, events: seq<Event>)
    decreases |events|
  {
    events == [] || (LoadsFirst(s, events[0]) && LoadsFirstRun(c, Step(c, s, events[0]), events[1..]))
  }

  /** Nothing is saved before loading, and what is saved contains what is stored. */
  ghost predicate LoadedOk(s: State) {
    && (!s.f.ready ==> s.f.requested == 0 && s.jobs == map[] && s.barriers == map[] && s.f.timer.None? && !s.f.closing)
    && (s.f.ready ==> Within(s.stored, s.live))
    && (forall j | j in s.jobs && s.jobs[j].Saving? :: Within(s.stored, s.jobs[j].snapshot))
  }

  lemma LoadedStepJob(c: Config, s: State, e: Event)
    requires FlushOk(s) && LoadedOk(s) && IsJobStep(e)
    ensures LoadedOk(Step(c, s, e)) && Within(s.stored, Step(c, s, e).stored)
  {}

  lemma LoadedStepCall(c: Config, s: State, e: Event)
    requires FlushOk(s) && LoadedOk(s) && LoadsFirst(s, e) && IsCall(e)
    ensures LoadedOk(Step(c, s, e)) && Within(s.stored, Step(c, s, e).stored)
  {}

  lemma LoadedStepOther(c: Config, s: State, e: Event)
    requires FlushOk(s) && LoadedOk(s) && !IsJobStep(e) && !IsCall(e)
    ensures LoadedOk(Step(c, s, e)) && Within(s.stored, Step(c, s, e).stored)
  {}

  lemma LoadedStep(c: Config, s: State, e: Event)
    requires FlushOk(s) && LoadedOk(s) && LoadsFirst(s, e)
    ensures LoadedOk(Step(c, s, e)) && Within(s.stored, Step(c, s, e).stored)
  {
    if IsJobStep(e) {
      LoadedStepJob(c, s, e);
    } else if IsCall(e) {
      LoadedStepCall(c, s, e);
    } else {
      LoadedStepOther(c, s, e);
    }
  }

  lemma {:induction false} RunKeepsLoaded(c: Config, s: State, events: seq<Event>)
    requires Inv(c, s) && LoadedOk(s) && LoadsFirstRun(c, s, events)
    ensures Inv(c, Run(c, s, events)) && LoadedOk(Run(c, s, events))
    decreases |events|
  {
    if events != [] {
      LoadedStep(c, s, events[0]);
      StepKeepsInv(c, s, events[0]);
      RunKeepsLoaded(c, Step(c, s, events[0]), events[1..]);
    }
  }

  /** With loading first, what is stored never falls back: neither the sequence nor any change is ever lost from the store. */
  lemma {:induction false} StoredGrows(c: Config, s: State, events: seq<Event>)
    requires Inv(c, s) && LoadedOk(s) && LoadsFirstRun(c, s, events)
    ensures Within(s.stored, Run(c, s, events).stored)
    decreases |events|
  {
    if events != [] {
      LoadedStep(c, s, events[0]);
      StepKeepsInv(c, s, events[0]);
      StoredGrows(c, Step(c, s, events[0]), events[1..]);
    }
  }

  /** With loading first, what a returned call stored stays stored, through crashes too. */
  lemma BarrierIsDurable(c: Config, before: seq<Event>, b: nat, after: seq<Event>)
    requires LoadsFirstRun(c, INITIAL, before) && LoadsFirstRun(c, Run(c, INITIAL, before), after)
    requires HasReturned(Run(c, INITIAL, before), b)
    ensures Within(Run(c, INITIAL, before).barriers[b].seen, Run(c, Run(c, INITIAL, before), after).stored)
  {
    BarrierStoresTheCall(c, before, b);
    RunKeepsLoaded(c, INITIAL, before);
    StoredGrows(c, Run(c, INITIAL, before), after);
  }

  /**
   Loading first matters: whatever is stored, a new process that persists before
   it loads replaces all of it by an empty state.
   */
  lemma PersistingBeforeLoadingErases(c: Config, s: State, b: nat)
    ensures var s1 := Step(c, s, Crash);
            var s2 := Step(c, s1, Persist(b));
            var s3 := Step(c, s2, Begin(s1.nextId));
            Step(c, s3, Rename(s1.nextId)).stored == Snapshot(0, {})
  {}

  // ---- Unsaved changes --------------------------------------------------------------------------

  /** Unsaved changes of an open, ready node are on their way: a flush is pending or a timer is armed. */
  ghost predicate NoLostDirt(s: State) {
    s.f.ready && !s.f.closing && s.f.persisted < s.f.requested ==> s.f.flush.Some? || s.f.timer.Some?
  }

  /** Every start after a close finds all generations saved, which a caller can look up. */
  predicate ReopensClean(s: State, e: Event) {
    e.Open? && s.idle && s.f.closing ==> s.f.persisted == s.f.requested
  }

  predicate ReopensCleanRun(c: Config, s: State, events: seq<Event>)
    decreases |events|
  {
    events == [] || (ReopensClean(s, events[0]) && ReopensCleanRun(c, Step(c, s, events[0]), events[1..]))
  }

  /** No step loses unsaved changes, except reopening a closed node that has unsaved generations. */
  lemma DirtIsNeverLost(c: Config, s: State, e: Event)
    requires FlushOk(s) && LoadedOk(s) && NoLostDirt(s) && LoadsFirst(s, e) && ReopensClean(s, e)
    ensures NoLostDirt(Step(c, s, e))
  {}

  /**
   In every run, with any closes, crashes and restarts, in which a node is reopened
   only with all its generations saved, unsaved changes always have a flush or a timer.
   */
  lemma {:induction false} NoLostDirtInRuns(c: Config, s: State, events: seq<Event>)
    requires Inv(c, s) && LoadedOk(s) && NoLostDirt(s)
    requires LoadsFirstRun(c, s, events) && ReopensCleanRun(c, s, events)
    ensures NoLostDirt(Run(c, s, events))
    decreases |events|
  {
    if events != [] {
      LoadedStep(c, s, events[0]);
      DirtIsNeverLost(c, s, events[0]);
      StepKeepsInv(c, s, events[0]);
      NoLostDirtInRuns(c, Step(c, s, events[0]), events[1..]);
    }
  }

  /** Since the close's own call, every further generation was requested by a call of `persistState`. */
  ghost predicate CloseOk(s: State) {
    && (s.closer.Some? ==>
          && s.f.closing && s.closer.value in s.barriers
          && exists b :: b in s.barriers && s.barriers[b].target == s.f.requested >= s.barriers[s.closer.value].target)
    && (s.idle && s.f.closing ==> s.f.timer.None? && s.closer.Some? && HasReturned(s, s.closer.value))
  }

  lemma CloseStepCall(c: Config, s: State, e: Event)
    requires CloseOk(s) && (e.Persist? || e.CloseSaves?)
    requires forall b | b in s.barriers :: BarrierOk(s, b)
    ensures CloseOk(Step(c, s, e))
  {
    var s' := Step(c, s, e);
    if s' != s {
      var n := if e.Persist? then e.barrier else e.barrier;
      assert n in s'.barriers && s'.barriers[n].target == s'.f.requested;
    }
  }

  lemma CloseStepResume(c: Config, s: State, n: nat)
    requires CloseOk(s)
    ensures CloseOk(Step(c, s, Resume(n)))
  {
    var s' := Step(c, s, Resume(n));
    assert forall b | b in s.barriers :: b in s'.barriers && s'.barriers[b].target == s.barriers[b].target;
  }

  lemma CloseStepOther(c: Config, s: State, e: Event)
    requires CloseOk(s) && !e.Persist? && !e.CloseSaves? && !e.Resume?
    ensures CloseOk(Step(c, s, e))
  {}

  lemma CloseStep(c: Config, s: State, e: Event)
    requires Inv(c, s) && CloseOk(s)
    ensures CloseOk(Step(c, s, e))
  {
    if e.Persist? || e.CloseSaves? {
      CloseStepCall(c, s, e);
    } else if e.Resume? {
      CloseStepResume(c, s, e.barrier);
    } else {
      CloseStepOther(c, s, e);
    }
  }

  lemma {:induction false} RunKeepsClose(c: Config, s: State, events: seq<Event>)
    requires Inv(c, s) && CloseOk(s)
    ensures Inv(c, Run(c, s, events)) && CloseOk(Run(c, s, events))
    decreases |events|
  {
    if events != [] {
      CloseStep(c, s, events[0]);
      StepKeepsInv(c, s, events[0]);
      RunKeepsClose(c, Step(c, s, events[0]), events[1..]);
    }
  }

  /** A call of `persistState` made after the close's own one that has failed or not yet returned, its generation unsaved. */
  ghost predicate IsLeftOver(s: State, b: nat) {
    && b in s.barriers && !s.barriers[b].Returned? && s.barriers[b].target > s.f.persisted
    && s.closer.Some? && s.closer.value in s.barriers && s.barriers[b].target > s.barriers[s.closer.value].target
  }

  /**
   In every run, reopening a closed node loses unsaved changes exactly when no flush is
   pending and some call of `persistState`, made after the close's own, has failed or
   not yet returned with its generation unsaved.
   */
  lemma ReopeningLosesDirtExactlyWhen(c: Config, events: seq<Event>)
    requires LoadsFirstRun(c, INITIAL, events)
    requires Run(c, INITIAL, events).idle && Run(c, INITIAL, events).f.closing
    ensures var s := Run(c, INITIAL, events);
            !NoLostDirt(Step(c, s, Open)) <==> s.f.flush.None? && exists b :: IsLeftOver(s, b)
  {
    RunKeepsClose(c, INITIAL, events);
    RunKeepsLoaded(c, INITIAL, events);
    LeftOverExactlyWhen(Run(c, INITIAL, events));
  }

  /** At the end of a close some call is left over exactly when some generation is unsaved. */
  lemma LeftOverExactlyWhen(s: State)
    requires CloseOk(s) && s.idle && s.f.closing && s.f.persisted <= s.f.requested
    requires forall b | b in s.barriers :: BarrierOk(s, b)
    ensures s.f.persisted < s.f.requested <==> exists b :: IsLeftOver(s, b)
  {
    assert BarrierOk(s, s.closer.value);
    var b :| b in s.barriers && s.barriers[b].target == s.f.requested;
    assert BarrierOk(s, b);
    if s.f.persisted < s.f.requested { assert IsLeftOver(s, b); }
    forall b' | IsLeftOver(s, b') ensures s.f.persisted < s.f.requested {
      assert BarrierOk(s, b');
    }
  }

  // ---- A run that loses them ----------------------------------------------------------------------

  function Runs(c: Config): (State, seq<Event>) -> State {
    (s, events) => Run(c, s, events)
  }

  function Steps(c: Config): (State, Event) -> State {
    (s, e) => Step(c, s, e)
  }

  lemma RunsAreRuns(c: Config)
    ensures Reach.IsRunOf(Runs(c), Steps(c))
  {}

  /** The state after one more step of a run that loads first. */
  lemma Then(c: Config, t: State, e: Event) returns (u: State)
    requires IsReached(c, t) && LoadsFirst(t, e)
    ensures u == Step(c, t, e) && IsReached(c, u)
  {
    u := Step(c, t, e);
    var events :| Run(c, INITIAL, events) == t && LoadsFirstRun(c, INITIAL, events);
    RunsAreRuns(c);
    assert [e][1..] == [];
    assert Run(c, t, [e]) == u;
    Reach.RunConcat(Runs(c), Steps(c), INITIAL, events, [e]);
    LoadsFirstConcat(c, INITIAL, events, [e]);
  }

  lemma {:induction false} LoadsFirstConcat(c: Config, s: State, a: seq<Event>, b: seq<Event>)
    requires LoadsFirstRun(c, s, a) && LoadsFirstRun(c, Run(c, s, a), b)
    ensures LoadsFirstRun(c, s, a + b)
    decreases |a|
  {
    if a == [] {
      assert a + b == b;
    } else {
      assert (a + b)[0] == a[0] && (a + b)[1..] == a[1..] + b;
      LoadsFirstConcat(c, Step(c, s, a[0]), a[1..], b);
    }
  }

  /** Some run that loads first reaches the state. */
  ghost predicate IsReached(c: Config, t: State) {
    exists events :: Run(c, INITIAL, events) == t && LoadsFirstRun(c, INITIAL, events)
  }

  /** The fields of a closing node: its own save under way; another caller's save under way; that save failed. */
  const CLOSING := Fields(2, 0, Some(0), None, None, true, true)
  const CLOSED := Fields(2, 1, Some(1), None, None, true, true)
  const DIRTY := Fields(2, 1, None, None, None, true, true)

  /**
   The condition is reachable: a caller's barrier overlaps a close, the close's
   own save succeeds, the caller's save fails, and the node is started again. It is
   then dirty, open and ready with nothing on the way.
   */
  lemma ReopeningCanLoseDirt(c: Config)
    ensures exists events :: LoadsFirstRun(c, INITIAL, events) && !NoLostDirt(Run(c, INITIAL, events))
  {
    var closing := ClosingNode(c);
    var closed := ClosedNode(c, closing);
    var dirty := DirtyNode(c, closed);
    var open := Then(c, dirty, Open);
    assert !NoLostDirt(open);
  }

  lemma OpenNode(c: Config) returns (s: State)
    ensures IsReached(c, s) && s == INITIAL.(f := FRESH.(ready := true, closing := true), idle := false)
  {
    assert Run(c, INITIAL, []) == INITIAL && LoadsFirstRun(c, INITIAL, []);
    var s1 := Then(c, INITIAL, Open);
    var s2 := Then(c, s1, Hydrate);
    s := Then(c, s2, Close);
  }

  /** Two barriers on one flush, which was begun for the first, the close's own. */
  ghost predicate IsClosingNode(s: State) {
    && s.f == CLOSING && s.jobs.Keys == {0} && s.clock == 0 && s.settled == map[] && s.nextId == 1
    && s.jobs[0].Saving? && s.jobs[0].generation == 1 && s.barriers.Keys == {0, 1}
    && s.barriers[0].Waiting? && s.barriers[0].target == 1 && s.barriers[0].flush == 0
    && s.barriers[1].Waiting? && s.barriers[1].target == 2 && s.barriers[1].flush == 0
    && !s.idle && s.closer == Some(0)
  }

  lemma ClosingNode(c: Config) returns (s: State)
    ensures IsReached(c, s) && IsClosingNode(s)
  {
    var s3 := OpenNode(c);
    var s4 := Then(c, s3, CloseSaves(0));
    var s5 := Then(c, s4, Begin(0));
    s := Then(c, s5, Persist(1));
  }

  lemma SavedNode(c: Config, s: State) returns (t: State)
    requires IsReached(c, s) && IsClosingNode(s)
    ensures IsReached(c, t) && t.f == CLOSING.(persisted := 1, flush := None) && t.jobs == map[] && t.clock == 0
    ensures t.settled == map[0 := true] && t.nextId == 1 && t.barriers == s.barriers && !t.idle && t.closer == Some(0)
  {
    var s1 := Then(c, s, Rename(0));
    var s2 := Then(c, s1, Return(0, 0));
    t := Then(c, s2, Settle(0, 0));
    assert t.jobs == map[];
  }

  lemma ClosedNode(c: Config, s: State) returns (t: State)
    requires IsReached(c, s) && IsClosingNode(s)
    ensures IsReached(c, t) && t.f == CLOSED && t.idle && t.clock == 0 && t.jobs == map[1 := Queued]
  {
    var s3 := SavedNode(c, s);
    var s4 := Then(c, s3, Resume(0));
    var s5 := Then(c, s4, CloseDone);
    t := Then(c, s5, Resume(1));
  }

  lemma DirtyNode(c: Config, s: State) returns (t: State)
    requires IsReached(c, s) && s.f == CLOSED && s.idle && s.clock == 0 && s.jobs == map[1 := Queued]
    ensures IsReached(c, t) && t.f == DIRTY && t.idle
  {
    var s1 := Then(c, s, Begin(1));
    var s2 := Then(c, s1, Fail(1));
    t := Then(c, s2, Settle(1, 0));
  }

  // ---- Bounded delay ------------------------------------------------------------------------------

  /**
   Bounded delay: once the checkpoint of the oldest pending change has passed, the
   armed timer is already due, however often churn re-armed it.
   */
  lemma CheckpointIsNeverOverrun(c: Config, events: seq<Event>)
    requires var f := Run(c, INITIAL, events).f;
             f.timer.Some? && f.firstPendingAt.Some? && f.firstPendingAt.value + c.checkpointMs <= Run(c, INITIAL, events).clock
    ensures var s := Run(c, INITIAL, events);
            s.f.timer.value.due <= s.clock && Step(c, s, Fire(s.clock)).f.flush.Some?
  {
    RunKeepsInv(c, INITIAL, events);
  }

  /**
   A change on a ready, open node without a pending flush asks for one more generation and
   arms the timer: for a first change at the smaller of debounce and checkpoint, for a later
   one at the debounce too, but never past the checkpoint of the first.
   */
  lemma ChangeArmsTheTimer(c: Config, s: State, id: nat, now: int)
    requires Inv(c, s) && s.f.ready && !s.f.closing && s.f.flush.None? && now >= s.clock
    ensures var s' := Step(c, s, Change(id, now));
            var first := if s.f.firstPendingAt.Some? then s.f.firstPendingAt.value else now;
            && s'.f.requested == s.f.requested + 1 && s'.live.changes == s.live.changes + {id}
            && s'.f.firstPendingAt == Some(first) && s'.f.timer.Some?
            && (s.f.firstPendingAt.None? ==>
                  s'.f.timer.value.due == now + if c.debounceMs <= c.checkpointMs then c.debounceMs else c.checkpointMs)
            && (now + c.debounceMs <= first + c.checkpointMs ==> s'.f.timer.value.due == now + c.debounceMs)
            && (now <= first + c.checkpointMs < now + c.debounceMs ==> s'.f.timer.value.due == first + c.checkpointMs)
            && (first + c.checkpointMs < now ==> s'.f.timer.value.due == now)
  {}

  /** While a flush is pending a change only asks for one more generation. */
  lemma ChangeJoinsTheFlush(c: Config, s: State, id: nat, now: int)
    requires s.f.ready && !s.f.closing && s.f.flush.Some? && now >= s.clock
    ensures Step(c, s, Change(id, now)).f == s.f.(requested := s.f.requested + 1)
  {}

  /** When a save came back, what was asked for meanwhile counts from now; otherwise nothing is pending. */
  lemma SavedCountsFromNow(c: Config, s: State, j: nat, now: int)
    requires Inv(c, s) && j in s.jobs && s.jobs[j].Renamed? && now >= s.clock
    ensures var f := Step(c, s, Return(j, now)).f;
            && f.persisted == s.jobs[j].generation
            && (s.jobs[j].generation == s.f.requested ==> f.firstPendingAt.None?)
            && (s.jobs[j].generation < s.f.requested && s.f.ready && !s.f.closing ==> f.firstPendingAt == Some(now))
  {}

  /** When a flush has settled with more to save, a ready, open node arms the timer for it. */
  lemma SettledArmsTheTimer(c: Config, s: State, j: nat, now: int)
    requires Inv(c, s) && j in s.jobs && s.jobs[j].Ended? && now >= s.clock && s.f.ready && !s.f.closing
    ensures var f := Step(c, s, Settle(j, now)).f;
            && f.flush.None?
            && (s.f.persisted == s.f.requested ==> f.timer == s.f.timer)
            && (s.f.persisted < s.f.requested ==>
                  var first := if s.f.firstPendingAt.Some? then s.f.firstPendingAt.value else now;
                  f.firstPendingAt == Some(first)
                  && f.timer == Some(Timer(now, Max(now, Min(now + c.debounceMs, first + c.checkpointMs)))))
  {}

  predicate IsChurn(events: seq<Event>) {
    forall i | 0 <= i < |events| :: events[i].Change?
  }

  /** Churn of any length keeps the timer armed and never moves the time the delay is counted from. */
  lemma {:induction false} ChurnKeepsTheDeadline(c: Config, s: State, churn: seq<Event>)
    requires Inv(c, s) && s.f.timer.Some? && !s.f.closing && s.f.persisted < s.f.requested && IsChurn(churn)
    ensures var s' := Run(c, s, churn);
            && s'.f.timer.Some? && s'.f.firstPendingAt == s.f.firstPendingAt
            && s'.f.timer.value.due <= Max(s.f.firstPendingAt.value + c.checkpointMs, s'.clock)
    decreases |churn|
  {
    if churn != [] {
      StepKeepsInv(c, s, churn[0]);
      ChurnKeepsTheDeadline(c, Step(c, s, churn[0]), churn[1..]);
    }
  }
}
