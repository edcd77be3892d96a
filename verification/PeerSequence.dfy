/**
 Sequence numbers of a node's own peer records across crashes and restarts: a
 record is to be announced only after the store holds its sequence, so that no
 other record ever reuses it.
 */
module PeerSequence {
  import opened Outcomes
  import P = Persistence
  import Reach

  /** Where a call of `start` stands; `Storing` waits for its barrier. */
  datatype Start = NoStart | Loading | Opening | Storing(barrier: nat) | Recovering

  /** A renewal of the local record to `sequence`, waiting for its barrier. */
  datatype Renewal = Renewal(sequence: nat, barrier: nat)

  /** A record that was sent out: in one life of the node a sequence names one record. */
  datatype Announcement = Announcement(life: nat, sequence: nat)

  /** `life` counts the crashes, `local` is the sequence of the current local record. */
  datatype Node = Node(p: P.State, life: nat, started: bool, local: Option<nat>, start: Start, renewal: Option<Renewal>,
                       announced: seq<Announcement>)

  datatype Event =
    | Background(e: P.Event)
    | StartCall
    | Loaded
    | Listening(barrier: nat)
    | StartStored
    | StartPublishes
    | StartFails
    | Refresh(change: nat, now: int)
    | RenewCall(barrier: nat)
    | RenewStored
    | CloseCall
    | CloseSaves(barrier: nat)
    | CloseEnd
    | Crash

  const INITIAL := Node(P.INITIAL, 0, false, None, NoStart, None, [])

  /** The persistence events that happen on their own or through other callers. */
  predicate IsBackground(e: P.Event) {
    e.Change? || e.Persist? || e.Fire? || P.IsJobStep(e) || e.Resume?
  }

  /** A new local record: the next sequence number. */
  function NextRecord(s: Node): Node {
    s.(p := s.p.(live := s.p.live.(sequence := s.p.live.sequence + 1)), local := Some(s.p.live.sequence + 1))
  }

  function Step(c: P.Config, s: Node, e: Event): Node {
    match e
    case Background(b) => if IsBackground(b) then s.(p := P.Step(c, s.p, b)) else s
    case StartCall =>
      if s.started || !s.start.NoStart? || !s.p.idle then s else s.(p := P.Step(c, s.p, P.Open), start := Loading)
    case Loaded =>
      if s.start.Loading? then s.(p := P.Step(c, s.p, P.Hydrate), start := Opening) else s
    case Listening(b) =>
      if !s.start.Opening? || b in s.p.barriers then s
      else
        var s1 := NextRecord(s);
        s1.(p := P.Step(c, s1.p, P.Persist(b)), started := true, start := Storing(b))
    case StartStored =>
      if !s.start.Storing? then s
      else if P.HasReturned(s.p, s.start.barrier) then s.(start := Recovering)
      else if P.HasFailed(s.p, s.start.barrier) then s.(start := NoStart)
      else s
    case StartPublishes =>
      // The record sent is whatever the local record is by now.
      if s.start.Recovering? then Publish(s).(start := NoStart) else s
    case StartFails =>
      if s.start.Loading? || s.start.Opening? then s.(p := P.Step(c, s.p, P.StartFails), start := NoStart) else s
    case Refresh(change, now) =>
      if !s.started || now < s.p.clock then s
      else
        var s1 := NextRecord(s);
        s1.(p := P.Step(c, s1.p, P.Change(change, now)))
    case RenewCall(b) =>
      if !s.started || s.p.f.closing || s.renewal.Some? || b in s.p.barriers then s
      else
        var s1 := NextRecord(s);
        s1.(p := P.Step(c, s1.p, P.Persist(b)), renewal := Some(Renewal(s1.p.live.sequence, b)))
    case RenewStored =>
      if s.renewal.None? then s
      else
        var Renewal(n, b) := s.renewal.value;
        if P.HasReturned(s.p, b) then (if s.local == Some(n) then Publish(s) else s).(renewal := None)
        else if P.HasFailed(s.p, b) then s.(renewal := None)
        else s
    case CloseCall => if s.started then s.(p := P.Step(c, s.p, P.Close)) else s
    case CloseSaves(b) =>
      // A close waits for the renewal in flight.
      if s.started && s.renewal.None? then s.(p := P.Step(c, s.p, P.CloseSaves(b))) else s
    case CloseEnd =>
      if s.started && s.renewal.None? then
        var p := P.Step(c, s.p, P.CloseDone);
        s.(p := p, started := !p.idle)
      else s
    case Crash => Node(P.Step(c, s.p, P.Crash), s.life + 1, false, None, NoStart, None, s.announced)
  }

  predicate Publishes(s: Node) {
    s.started && !s.p.f.closing && s.local.Some?
  }

  /** Sends the local record, unless the node is closing. */
  function Publish(s: Node): Node {
    if Publishes(s) then s.(announced := s.announced + [Announcement(s.life, s.local.value)]) else s
  }

  function Run(c: P.Config, s: Node, events: seq<Event>): Node
    decreases |events|
  {
    if events == [] then s else Run(c, Step(c, s, events[0]), events[1..])
  }

  // ---- What a run must keep to ---------------------------------------------------------------

  /** A start sends its record only when that is stored. */
  predicate StartsStored(s: Node, e: Event) {
    e.StartPublishes? && s.start.Recovering? && Publishes(s) ==> s.local.value <= s.p.stored.sequence
  }

  predicate Sound(s: Node, e: Event) {
    StartsStored(s, e) && (e.Background? ==> P.LoadsFirst(s.p, e.e))
  }

  predicate SoundRun(c: P.Config, s: Node, events: seq<Event>)
    decreases |events|
  {
    events == [] || (Sound(s, events[0]) && SoundRun(c, Step(c, s, events[0]), events[1..]))
  }

  // ---- What every step keeps ------------------------------------------------------------------

  /** Two announcements of one sequence are of one record; otherwise sequences increase. */
  ghost predicate Fresh(a: seq<Announcement>) {
    forall i, j | 0 <= i < j < |a| :: a[i].sequence < a[j].sequence || a[i] == a[j]
  }

  ghost predicate AnnouncementOk(s: Node, a: Announcement) {
    && 1 <= a.sequence <= s.p.stored.sequence && a.life <= s.life
    && (s.local.None? ==> a.life < s.life)
    && (s.local.Some? ==> if a.life == s.life then a.sequence <= s.local.value else a.sequence < s.local.value)
  }

  ghost predicate AnnouncedOk(s: Node) {
    forall i | 0 <= i < |s.announced| :: AnnouncementOk(s, s.announced[i])
  }

  ghost predicate RecordOk(s: Node) {
    && (s.local.Some? ==> 1 <= s.local.value <= s.p.live.sequence && s.p.f.ready)
    && (s.started || s.start.Storing? || s.start.Recovering? ==> s.local.Some?)
    && (s.start.Opening? ==> s.p.f.ready)
    && (s.renewal.Some? ==>
          var Renewal(n, b) := s.renewal.value;
          s.local.Some? && b in s.p.barriers && n <= s.p.barriers[b].seen.sequence)
  }

  ghost predicate Inv(c: P.Config, s: Node) {
    P.Inv(c, s.p) && P.LoadedOk(s.p) && Fresh(s.announced) && AnnouncedOk(s) && RecordOk(s)
  }

  ghost predicate PersistenceOk(c: P.Config, p: P.State) {
    P.Inv(c, p) && P.LoadedOk(p)
  }

  lemma PersistenceStep(c: P.Config, p: P.State, e: P.Event)
    requires PersistenceOk(c, p) && P.LoadsFirst(p, e)
    ensures PersistenceOk(c, P.Step(c, p, e)) && p.stored.sequence <= P.Step(c, p, e).stored.sequence
  {
    P.StepKeepsInv(c, p, e);
    P.LoadedStep(c, p, e);
  }

  /** What a step of persistence leaves to the records. */
  lemma PersistenceKeeps(c: P.Config, p: P.State, e: P.Event)
    requires !e.Crash?
    ensures p.f.ready ==> P.Step(c, p, e).f.ready
    ensures p.live.sequence <= P.Step(c, p, e).live.sequence
    ensures forall b | b in p.barriers :: b in P.Step(c, p, e).barriers && P.Step(c, p, e).barriers[b].seen == p.barriers[b].seen
  {
    forall b | b in p.barriers ensures b in P.Step(c, p, e).barriers && P.Step(c, p, e).barriers[b].seen == p.barriers[b].seen {
      P.BarrierKeepsItsRecord(c, p, e, b);
    }
  }

  /** A step that changes only the persistence state, and where the start and the close stand. */
  lemma PersistenceAloneKeeps(c: P.Config, s: Node, e: P.Event, s': Node)
    requires Inv(c, s) && P.LoadsFirst(s.p, e) && !e.Crash?
    requires s' == s.(p := P.Step(c, s.p, e), start := s'.start, started := s'.started)
    requires s'.started || s'.start.Storing? || s'.start.Recovering? ==> s.local.Some?
    requires s'.start.Opening? ==> s'.p.f.ready
    ensures Inv(c, s')
  {
    PersistenceStep(c, s.p, e);
    PersistenceKeeps(c, s.p, e);
    forall i | 0 <= i < |s'.announced| ensures AnnouncementOk(s', s'.announced[i]) {
      assert AnnouncementOk(s, s.announced[i]);
    }
  }

  lemma StartEventKeepsInv(c: P.Config, s: Node, e: Event)
    requires Inv(c, s) && (e.StartCall? || e.Loaded? || e.StartFails?)
    ensures Inv(c, Step(c, s, e))
  {
    var s' := Step(c, s, e);
    if s' != s {
      match e
      case StartCall => PersistenceAloneKeeps(c, s, P.Open, s');
      case Loaded => PersistenceAloneKeeps(c, s, P.Hydrate, s');
      case StartFails => PersistenceAloneKeeps(c, s, P.StartFails, s');
    }
  }

  lemma CloseEventKeepsInv(c: P.Config, s: Node, e: Event)
    requires Inv(c, s) && (e.CloseCall? || e.CloseSaves? || e.CloseEnd?)
    ensures Inv(c, Step(c, s, e))
  {
    var s' := Step(c, s, e);
    if s' != s {
      match e
      case CloseCall => PersistenceAloneKeeps(c, s, P.Close, s');
      case CloseSaves(b) => PersistenceAloneKeeps(c, s, P.CloseSaves(b), s');
      case CloseEnd => PersistenceAloneKeeps(c, s, P.CloseDone, s');
    }
  }

  lemma BackgroundKeepsInv(c: P.Config, s: Node, e: P.Event)
    requires Inv(c, s) && P.LoadsFirst(s.p, e)
    ensures Inv(c, Step(c, s, Background(e)))
  {
    if IsBackground(e) { PersistenceAloneKeeps(c, s, e, Step(c, s, Background(e))); }
  }

  /** A new record on a node with its state loaded is newer than every announced one. */
  lemma NextRecordKeeps(c: P.Config, s: Node)
    requires Inv(c, s) && s.p.f.ready
    ensures Inv(c, NextRecord(s)) && s.p.stored.sequence < NextRecord(s).local.value
    ensures forall i | 0 <= i < |s.announced| :: s.announced[i].sequence < NextRecord(s).local.value
  {
    var s' := NextRecord(s);
    P.StepKeepsInv(c, s.p, P.Bump);
    P.LoadedStep(c, s.p, P.Bump);
    forall i | 0 <= i < |s.announced| ensures AnnouncementOk(s', s.announced[i]) && s.announced[i].sequence < s'.local.value {
      assert AnnouncementOk(s, s.announced[i]);
    }
  }

  lemma ListeningKeepsInv(c: P.Config, s: Node, b: nat)
    requires Inv(c, s) && s.start.Opening? && b !in s.p.barriers
    ensures Inv(c, Step(c, s, Listening(b)))
  {
    NextRecordKeeps(c, s);
    PersistenceAloneKeeps(c, NextRecord(s), P.Persist(b), Step(c, s, Listening(b)));
  }

  lemma RefreshKeepsInv(c: P.Config, s: Node, change: nat, now: int)
    requires Inv(c, s) && s.started && now >= s.p.clock
    ensures Inv(c, Step(c, s, Refresh(change, now)))
  {
    NextRecordKeeps(c, s);
    PersistenceAloneKeeps(c, NextRecord(s), P.Change(change, now), Step(c, s, Refresh(change, now)));
  }

  lemma RenewKeepsInv(c: P.Config, s: Node, b: nat)
    requires Inv(c, s) && s.started && !s.p.f.closing && s.renewal.None? && b !in s.p.barriers
    ensures Inv(c, Step(c, s, RenewCall(b)))
  {
    var s1 := NextRecord(s);
    NextRecordKeeps(c, s);
    PersistenceAloneKeeps(c, s1, P.Persist(b), s1.(p := P.Step(c, s1.p, P.Persist(b))));
    P.BarrierRecordsTheCall(c, s1.p, b);
  }

  /** Sending the local record keeps everything, once that record is stored. */
  lemma PublishKeeps(c: P.Config, s: Node)
    requires Inv(c, s) && (Publishes(s) ==> s.local.value <= s.p.stored.sequence)
    ensures Inv(c, Publish(s))
  {
    if Publishes(s) {
      var s' := Publish(s);
      assert AnnouncementOk(s', Announcement(s.life, s.local.value));
      forall i | 0 <= i < |s.announced| ensures AnnouncementOk(s', s'.announced[i]) {
        assert AnnouncementOk(s, s.announced[i]);
      }
    }
  }

  lemma RenewStoredKeepsInv(c: P.Config, s: Node)
    requires Inv(c, s)
    ensures Inv(c, Step(c, s, RenewStored))
  {
    if s.renewal.Some? && P.HasReturned(s.p, s.renewal.value.barrier) && s.local == Some(s.renewal.value.sequence) {
      assert P.BarrierOk(s.p, s.renewal.value.barrier);
      PublishKeeps(c, s);
    }
  }

  lemma CrashKeepsInv(c: P.Config, s: Node)
    requires Inv(c, s)
    ensures Inv(c, Step(c, s, Crash))
  {
    var s' := Step(c, s, Crash);
    PersistenceStep(c, s.p, P.Crash);
    forall i | 0 <= i < |s.announced| ensures AnnouncementOk(s', s'.announced[i]) {
      assert AnnouncementOk(s, s.announced[i]);
    }
  }

  lemma RecordStepKeepsInv(c: P.Config, s: Node, e: Event)
    requires Inv(c, s) && (e.Listening? || e.Refresh? || e.RenewCall?)
    ensures Inv(c, Step(c, s, e))
  {
    if Step(c, s, e) != s {
      match e
      case Listening(b) => ListeningKeepsInv(c, s, b);
      case Refresh(change, now) => RefreshKeepsInv(c, s, change, now);
      case RenewCall(b) => RenewKeepsInv(c, s, b);
    }
  }

  lemma StartStoredKeepsInv(c: P.Config, s: Node)
    requires Inv(c, s)
    ensures Inv(c, Step(c, s, StartStored))
  {}

  lemma StartPublishesKeepsInv(c: P.Config, s: Node)
    requires Inv(c, s) && StartsStored(s, StartPublishes)
    ensures Inv(c, Step(c, s, StartPublishes))
  {
    if s.start.Recovering? { PublishKeeps(c, s); }
  }

  lemma StoredStepKeepsInv(c: P.Config, s: Node, e: Event)
    requires Inv(c, s) && Sound(s, e) && (e.StartStored? || e.StartPublishes? || e.RenewStored?)
    ensures Inv(c, Step(c, s, e))
  {
    match e
    case StartStored => StartStoredKeepsInv(c, s);
    case StartPublishes => StartPublishesKeepsInv(c, s);
    case RenewStored => RenewStoredKeepsInv(c, s);
  }

  lemma StepKeepsInv(c: P.Config, s: Node, e: Event)
    requires Inv(c, s) && Sound(s, e)
    ensures Inv(c, Step(c, s, e))
  {
    match e
    case Background(b) => BackgroundKeepsInv(c, s, b);
    case Crash => CrashKeepsInv(c, s);
    case _ =>
      if e.Listening? || e.Refresh? || e.RenewCall? {
        RecordStepKeepsInv(c, s, e);
      } else if e.StartStored? || e.StartPublishes? || e.RenewStored? {
        StoredStepKeepsInv(c, s, e);
      } else if e.StartCall? || e.Loaded? || e.StartFails? {
        StartEventKeepsInv(c, s, e);
      } else {
        CloseEventKeepsInv(c, s, e);
      }
  }

  lemma {:induction false} RunKeepsInv(c: P.Config, s: Node, events: seq<Event>)
    requires Inv(c, s) && SoundRun(c, s, events)
    ensures Inv(c, Run(c, s, events))
    decreases |events|
  {
    if events != [] {
      StepKeepsInv(c, s, events[0]);
      RunKeepsInv(c, Step(c, s, events[0]), events[1..]);
    }
  }

  // ---- Every run -------------------------------------------------------------------------------

  /**
   In every run with any saves, failures, refreshes, renewals, crashes and restarts, in
   which a start sends only a stored record: no two records are announced with one
   sequence, later ones have larger sequences, those of a later life strictly so, and
   every announced sequence is in the store.
   */
  lemma AnnouncedSequencesAreFresh(c: P.Config, events: seq<Event>)
    requires SoundRun(c, INITIAL, events)
    ensures var s := Run(c, INITIAL, events);
            && Fresh(s.announced)
            && (forall i | 0 <= i < |s.announced| :: s.announced[i].sequence <= s.p.stored.sequence)
            && (forall i, j | 0 <= i < j < |s.announced| && s.announced[i].life != s.announced[j].life ::
                  s.announced[i].sequence < s.announced[j].sequence)
  {
    RunKeepsInv(c, INITIAL, events);
    var s := Run(c, INITIAL, events);
    forall i | 0 <= i < |s.announced| ensures s.announced[i].sequence <= s.p.stored.sequence {
      assert AnnouncementOk(s, s.announced[i]);
    }
  }

  /** The record of every start is newer than all that was ever announced or stored. */
  lemma EveryStartIsNewer(c: P.Config, events: seq<Event>, b: nat)
    requires SoundRun(c, INITIAL, events)
    requires var s := Run(c, INITIAL, events); s.start.Opening? && b !in s.p.barriers
    ensures var s := Run(c, INITIAL, events);
            var s' := Step(c, s, Listening(b));
            && s'.local.Some? && s.p.stored.sequence < s'.local.value
            && forall i | 0 <= i < |s.announced| :: s.announced[i].sequence < s'.local.value
  {
    RunKeepsInv(c, INITIAL, events);
    NextRecordKeeps(c, Run(c, INITIAL, events));
  }

  /**
   A renewal whose barrier returned announces its record, if that is still the local one and
   the node is not closing; a superseded one, and one whose barrier failed, announces nothing.
   */
  lemma RenewalAnnounces(c: P.Config, s: Node)
    requires s.renewal.Some? && s.started
    ensures var Renewal(n, b) := s.renewal.value;
            var s' := Step(c, s, RenewStored);
            && (P.HasReturned(s.p, b) && s.local == Some(n) && !s.p.f.closing ==>
                  s'.announced == s.announced + [Announcement(s.life, n)] && s'.renewal.None?)
            && (P.HasReturned(s.p, b) && (s.local != Some(n) || s.p.f.closing) ==> s'.announced == s.announced && s'.renewal.None?)
            && (P.HasFailed(s.p, b) ==> s'.announced == s.announced && s'.renewal.None?)
            && (!P.HasReturned(s.p, b) && !P.HasFailed(s.p, b) ==> s' == s)
  {}

  /** A renewal makes the next record and waits for a barrier that holds it; a refresh makes it and schedules a save. */
  lemma RenewalMakesARecord(c: P.Config, s: Node, b: nat, change: nat, now: int)
    requires s.started && !s.p.f.closing && b !in s.p.barriers
    ensures s.renewal.None? ==>
              var s' := Step(c, s, RenewCall(b));
              && s'.local == Some(s.p.live.sequence + 1) && s'.renewal == Some(Renewal(s.p.live.sequence + 1, b))
              && b in s'.p.barriers && s'.p.barriers[b].Waiting? && s'.p.barriers[b].seen.sequence == s.p.live.sequence + 1
    ensures now >= s.p.clock ==>
              var s' := Step(c, s, Refresh(change, now));
              s'.local == Some(s.p.live.sequence + 1) && s'.announced == s.announced && change in s'.p.live.changes
  {}

  /** The end of a start announces the local record. */
  lemma StartAnnounces(c: P.Config, s: Node)
    requires s.start.Recovering? && Publishes(s)
    ensures Step(c, s, StartPublishes).announced == s.announced + [Announcement(s.life, s.local.value)]
  {}

  // ---- Callers that wait for start ---------------------------------------------------------------

  /** A caller that makes new records only when no start is under way, and persists only after loading. */
  predicate Calm(s: Node, e: Event) {
    && (e.Refresh? || e.RenewCall? ==> s.start.NoStart?)
    && (e.Background? ==> P.LoadsFirst(s.p, e.e))
  }

  predicate CalmRun(c: P.Config, s: Node, events: seq<Event>)
    decreases |events|
  {
    events == [] || (Calm(s, events[0]) && CalmRun(c, Step(c, s, events[0]), events[1..]))
  }

  /** The record a start has stored, or is storing, is still the local one. */
  ghost predicate CalmOk(s: Node) {
    match s.start
    case Storing(b) => s.local.Some? && b in s.p.barriers && s.local.value <= s.p.barriers[b].seen.sequence
    case Recovering => s.local.Some? && s.local.value <= s.p.stored.sequence
    case _ => true
  }

  lemma CalmStepAlone(c: P.Config, s: Node, e: P.Event)
    requires Inv(c, s) && CalmOk(s) && P.LoadsFirst(s.p, e) && !e.Crash?
    ensures CalmOk(s.(p := P.Step(c, s.p, e)))
  {
    PersistenceStep(c, s.p, e);
    PersistenceKeeps(c, s.p, e);
  }

  lemma CalmStep(c: P.Config, s: Node, e: Event)
    requires Inv(c, s) && CalmOk(s) && Calm(s, e)
    ensures Sound(s, e) && CalmOk(Step(c, s, e))
  {
    match e
    case Background(b) => if IsBackground(b) { CalmStepAlone(c, s, b); }
    case CloseCall => CalmStepAlone(c, s, P.Close);
    case CloseSaves(b) => CalmStepAlone(c, s, P.CloseSaves(b));
    case CloseEnd => CalmStepAlone(c, s, P.CloseDone);
    case StartStored => if s.start.Storing? && s.start.barrier in s.p.barriers { assert P.BarrierOk(s.p, s.start.barrier); }
    case _ =>
  }

  /** A run whose callers wait for `start` to return keeps to the condition, and so announces only fresh sequences. */
  lemma {:induction false} CalmRunsAreSound(c: P.Config, s: Node, events: seq<Event>)
    requires Inv(c, s) && CalmOk(s) && CalmRun(c, s, events)
    ensures SoundRun(c, s, events)
    decreases |events|
  {
    if events != [] {
      CalmStep(c, s, events[0]);
      StepKeepsInv(c, s, events[0]);
      CalmRunsAreSound(c, Step(c, s, events[0]), events[1..]);
    }
  }

  /** A refresh or renewal while a start recovers puts a record in its way that is not stored. */
  lemma NewRecordIsUnstored(c: P.Config, s: Node, e: Event)
    requires Inv(c, s) && s.start.Recovering? && (e.Refresh? || e.RenewCall?) && Step(c, s, e) != s
    ensures var s' := Step(c, s, e); s'.start.Recovering? && s'.local.Some? && s'.p.stored.sequence < s'.local.value
    ensures Publishes(s) ==> Publishes(Step(c, s, e))
  {
    NextRecordKeeps(c, s);
  }

  // ---- Where the condition fails -----------------------------------------------------------------

  function Runs(c: P.Config): (Node, seq<Event>) -> Node {
    (s, events) => Run(c, s, events)
  }

  function Steps(c: P.Config): (Node, Event) -> Node {
    (s, e) => Step(c, s, e)
  }

  lemma RunsAreRuns(c: P.Config)
    ensures Reach.IsRunOf(Runs(c), Steps(c))
  {}

  /** Some run that keeps to the condition leads from one node to the other. */
  ghost predicate Leads(c: P.Config, s: Node, t: Node) {
    exists events :: Run(c, s, events) == t && SoundRun(c, s, events)
  }

  lemma {:induction false} SoundConcat(c: P.Config, s: Node, a: seq<Event>, b: seq<Event>)
    requires SoundRun(c, s, a) && SoundRun(c, Run(c, s, a), b)
    ensures SoundRun(c, s, a + b)
    decreases |a|
  {
    if a == [] {
      assert a + b == b;
    } else {
      assert (a + b)[0] == a[0] && (a + b)[1..] == a[1..] + b;
      SoundConcat(c, Step(c, s, a[0]), a[1..], b);
    }
  }

  lemma Then(c: P.Config, s: Node, t: Node, e: Event) returns (u: Node)
    requires Leads(c, s, t) && Sound(t, e)
    ensures u == Step(c, t, e) && Leads(c, s, u)
  {
    u := Step(c, t, e);
    var events :| Run(c, s, events) == t && SoundRun(c, s, events);
    RunsAreRuns(c);
    assert [e][1..] == [];
    assert Run(c, t, [e]) == u;
    Reach.RunConcat(Runs(c), Steps(c), s, events, [e]);
    SoundConcat(c, s, events, [e]);
  }

  /** A node that has begun to store the record of its start. */
  ghost predicate IsStoring(t: Node, n: nat) {
    && t.start == Storing(0) && t.started && t.local == Some(n) && t.p.live.sequence == n
    && t.p.f.requested == 1 && t.p.f.persisted == 0 && t.p.f.flush.Some? && !t.p.f.closing
    && t.p.jobs == map[t.p.f.flush.value := P.Queued] && t.p.settled == map[]
    && 0 in t.p.barriers && t.p.barriers[0].Waiting? && t.p.barriers[0].flush == t.p.f.flush.value && t.p.barriers[0].target == 1
  }

  lemma RestartStores(c: P.Config, s: Node, t: Node) returns (u: Node)
    requires Leads(c, s, t)
    ensures Leads(c, s, u) && IsStoring(u, t.p.stored.sequence + 1) && u.announced == t.announced && u.life == t.life + 1
  {
    var t1 := RestartLoads(c, s, t);
    u := Then(c, s, t1, Listening(0));
  }

  lemma RestartLoads(c: P.Config, s: Node, t: Node) returns (u: Node)
    requires Leads(c, s, t)
    ensures Leads(c, s, u) && u.announced == t.announced && u.life == t.life + 1 && u.start == Opening
    ensures u.p.f == P.FRESH.(ready := true) && u.p.jobs == map[] && u.p.settled == map[] && u.p.barriers == map[]
    ensures u.p.live.sequence == t.p.stored.sequence
  {
    var t1 := Restarts(c, s, t);
    u := Then(c, s, t1, Loaded);
  }

  lemma Restarts(c: P.Config, s: Node, t: Node) returns (u: Node)
    requires Leads(c, s, t)
    ensures Leads(c, s, u) && u.announced == t.announced && u.life == t.life + 1 && u.start == Loading
    ensures u.p.f == P.FRESH && u.p.jobs == map[] && u.p.settled == map[] && u.p.barriers == map[]
    ensures u.p.live == P.Snapshot(0, {}) && u.p.stored == t.p.stored
  {
    var t1 := Then(c, s, t, Crash);
    u := Then(c, s, t1, StartCall);
  }

  /** One run after a crash: the next start announces the sequence after the stored one. */
  lemma RestartAnnounces(c: P.Config, s: Node, t: Node) returns (u: Node)
    requires Leads(c, s, t)
    ensures Leads(c, s, u) && u.announced == t.announced + [Announcement(t.life + 1, t.p.stored.sequence + 1)]
  {
    var t1 := RestartStores(c, s, t);
    u := SaveThenPublish(c, s, t1, t.p.stored.sequence + 1);
  }

  lemma SaveThenPublish(c: P.Config, s: Node, t: Node, n: nat) returns (u: Node)
    requires Leads(c, s, t) && IsStoring(t, n)
    ensures Leads(c, s, u) && u.announced == t.announced + [Announcement(t.life, n)]
  {
    var j := t.p.f.flush.value;
    var t1 := Then(c, s, t, Background(P.Begin(j)));
    var t2 := Then(c, s, t1, Background(P.Rename(j)));
    var t3 := Then(c, s, t2, Background(P.Return(j, t.p.clock)));
    u := SettleThenPublish(c, s, t3, j, n);
  }

  lemma SettleThenPublish(c: P.Config, s: Node, t: Node, j: nat, n: nat) returns (u: Node)
    requires Leads(c, s, t) && t.start == Storing(0) && t.started && t.local == Some(n) && t.p.stored.sequence == n
    requires t.p.f.requested == 1 == t.p.f.persisted && !t.p.f.closing
    requires t.p.jobs == map[j := P.Ended(true)] && t.p.settled == map[]
    requires 0 in t.p.barriers && t.p.barriers[0].Waiting? && t.p.barriers[0].flush == j && t.p.barriers[0].target == 1
    ensures Leads(c, s, u) && u.announced == t.announced + [Announcement(t.life, n)]
  {
    var t1 := Then(c, s, t, Background(P.Settle(j, t.p.clock)));
    var t2 := Then(c, s, t1, Background(P.Resume(0)));
    var t3 := Then(c, s, t2, StartStored);
    u := Then(c, s, t3, StartPublishes);
  }

  lemma LeadsNowhere(c: P.Config, s: Node)
    ensures Leads(c, s, s)
  {
    assert Run(c, s, []) == s && SoundRun(c, s, []);
  }

  /** Sending an unstored record can be followed by a crash and another record under its sequence, or an older one. */
  lemma UnstoredRecordIsReused(c: P.Config, s: Node) returns (more: seq<Event>)
    requires s.start.Recovering? && Publishes(s) && s.p.stored.sequence < s.local.value
    ensures var s' := Step(c, s, StartPublishes); SoundRun(c, s', more) && !Fresh(Run(c, s', more).announced)
  {
    var s' := Step(c, s, StartPublishes);
    LeadsNowhere(c, s');
    var u := RestartAnnounces(c, s', s');
    more :| Run(c, s', more) == u && SoundRun(c, s', more);
    var k := |s.announced|;
    assert u.announced[k] == Announcement(s.life, s.local.value);
    assert u.announced[k + 1] == Announcement(s.life + 1, s.p.stored.sequence + 1);
  }

  /**
   The condition is exact: at the end of a start, sending the local record is safe, in
   that no later run reuses a sequence, exactly when the store holds that record's sequence.
   */
  lemma StartPublishesSafelyExactlyWhen(c: P.Config, events: seq<Event>)
    requires SoundRun(c, INITIAL, events)
    requires var s := Run(c, INITIAL, events); s.start.Recovering? && Publishes(s)
    ensures var s := Run(c, INITIAL, events);
            var s' := Step(c, s, StartPublishes);
            (forall more :: SoundRun(c, s', more) ==> Fresh(Run(c, s', more).announced))
            <==> s.local.value <= s.p.stored.sequence
  {
    RunKeepsInv(c, INITIAL, events);
    var s := Run(c, INITIAL, events);
    var s' := Step(c, s, StartPublishes);
    if s.local.value <= s.p.stored.sequence {
      StepKeepsInv(c, s, StartPublishes);
      forall more | SoundRun(c, s', more) ensures Fresh(Run(c, s', more).announced) {
        RunKeepsInv(c, s', more);
      }
    } else {
      var more := UnstoredRecordIsReused(c, s);
      assert SoundRun(c, s', more);
    }
  }

  /**
   So a refresh or renewal during the end of a start, which is enough to make the condition
   fail, can lead to a reused sequence.
   */
  lemma NewRecordDuringStartCanReuse(c: P.Config, events: seq<Event>, e: Event) returns (more: seq<Event>)
    requires SoundRun(c, INITIAL, events)
    requires var s := Run(c, INITIAL, events);
             s.start.Recovering? && Publishes(s) && (e.Refresh? || e.RenewCall?) && Step(c, s, e) != s
    ensures |more| >= 2 && more[0] == e && more[1] == StartPublishes
    ensures !Fresh(Run(c, Run(c, INITIAL, events), more).announced)
  {
    RunKeepsInv(c, INITIAL, events);
    var s := Run(c, INITIAL, events);
    NewRecordIsUnstored(c, s, e);
    var rest := UnstoredRecordIsReused(c, Step(c, s, e));
    more := [e, StartPublishes] + rest;
    assert more[1..][0] == StartPublishes && more[1..][1..] == rest;
  }

  /** A process that has persisted before loading. */
  function Erased(c: P.Config, s: Node): Node {
    var s1 := Step(c, s, Crash);
    var s2 := Step(c, s1, Background(P.Persist(0)));
    var s3 := Step(c, s2, Background(P.Begin(s1.p.nextId)));
    Step(c, s3, Background(P.Rename(s1.p.nextId)))
  }

  lemma BackgroundAlone(c: P.Config, s: Node, e: P.Event)
    requires IsBackground(e)
    ensures Step(c, s, Background(e)) == s.(p := P.Step(c, s.p, e))
  {}

  lemma ErasedForgets(c: P.Config, s: Node)
    ensures var t := Erased(c, s); t.announced == s.announced && t.life == s.life + 1 && t.p.stored.sequence == 0
  {
    var s1 := Step(c, s, Crash);
    var s2 := Step(c, s1, Background(P.Persist(0)));
    var s3 := Step(c, s2, Background(P.Begin(s1.p.nextId)));
    BackgroundAlone(c, s1, P.Persist(0));
    BackgroundAlone(c, s2, P.Begin(s1.p.nextId));
    BackgroundAlone(c, s3, P.Rename(s1.p.nextId));
    P.PersistingBeforeLoadingErases(c, s.p, 0);
  }

  /**
   Loading first matters: after any run that announced something, a new process
   that persists before it loads makes a later start reuse a sequence.
   */
  lemma PersistingBeforeLoadingReuses(c: P.Config, events: seq<Event>) returns (more: seq<Event>)
    requires SoundRun(c, INITIAL, events) && Run(c, INITIAL, events).announced != []
    ensures !Fresh(Run(c, Erased(c, Run(c, INITIAL, events)), more).announced)
  {
    RunKeepsInv(c, INITIAL, events);
    var s := Run(c, INITIAL, events);
    ErasedForgets(c, s);
    var t := Erased(c, s);
    LeadsNowhere(c, t);
    var u := RestartAnnounces(c, t, t);
    more :| Run(c, t, more) == u && SoundRun(c, t, more);
    var k := |s.announced|;
    assert AnnouncementOk(s, s.announced[k - 1]);
    assert u.announced[k - 1] == s.announced[k - 1] && u.announced[k] == Announcement(s.life + 2, 1);
  }
}
