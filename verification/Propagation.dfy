/**
 Readiness of a node's own peer record: acknowledgements are tied to the
 immutable record id and survive every change of the required placement set.
 */
module Propagation {
  import opened Outcomes

  type RecordId = nat
  type Peer = nat

  datatype Acked = Acked(recordId: Option<RecordId>, nodeIds: set<Peer>)

  /** The id lists of the source are sorted and free of repetitions, hence sets. */
  datatype Placement = Placement(recordId: Option<RecordId>, targets: set<Peer>, acknowledged: set<Peer>,
                                 pending: set<Peer>, ready: bool)

  datatype Fields = Fields(started: bool, closing: bool, local: Option<RecordId>, acked: Acked, placement: Placement)

  const FRESH := Fields(false, false, None, Acked(None, {}), Placement(None, {}, {}, {}, true))

  /** Acknowledgements of another record are dropped when a record is looked at. */
  function AckedFor(acked: Acked, recordId: Option<RecordId>): Acked {
    if acked.recordId == recordId then acked else Acked(recordId, {})
  }

  function PlacementOf(recordId: Option<RecordId>, targets: set<Peer>, acked: set<Peer>): Placement {
    Placement(recordId, targets, targets * acked, targets - acked, targets - acked == {})
  }

  function Reset(f: Fields, record: Option<RecordId>, peers: set<Peer>): Fields {
    var acked := AckedFor(f.acked, record);
    f.(acked := acked, placement := PlacementOf(record, peers, acked.nodeIds))
  }

  /** Staging a placement set changes nothing when the record and the set are already staged. */
  function Stage(f: Fields, peers: set<Peer>): Fields {
    if f.local.None? || !f.started || f.closing then f
    else if f.placement.recordId == f.local && f.placement.targets == peers then f
    else Reset(f, f.local, peers)
  }

  function Fulfilled(candidates: seq<Peer>, settled: seq<bool>): set<Peer>
    requires |candidates| == |settled|
  {
    set i | 0 <= i < |candidates| && settled[i] :: candidates[i]
  }

  function ToSet(peers: seq<Peer>): set<Peer> {
    set i | 0 <= i < |peers| :: peers[i]
  }

  /** The outcome of one announcement round is counted only for the current record. */
  function Record(f: Fields, record: RecordId, candidates: seq<Peer>, settled: seq<bool>, replaceTargets: bool): Fields
    requires |candidates| == |settled|
  {
    if f.local != Some(record) then f
    else
      var targets := if replaceTargets || f.placement.recordId != Some(record) then ToSet(candidates) else f.placement.targets;
      var acked := Acked(Some(record), AckedFor(f.acked, Some(record)).nodeIds + Fulfilled(candidates, settled));
      f.(acked := acked, placement := PlacementOf(Some(record), targets, acked.nodeIds))
  }

  predicate IsReady(f: Fields) {
    f.started && f.local.Some? && f.placement.recordId == f.local && f.placement.ready
  }

  // ---- The protocol -----------------------------------------------------------------------

  /** A running announcement: the replies so far, in candidate order as far as they came. */
  datatype Round = Round(record: RecordId, candidates: seq<Peer>, settled: seq<Option<bool>>, replaceTargets: bool, track: bool)

  /**
   What the node should wait for: the peers last required, for which record, and those
   that answered it in a round that has ended.
   */
  datatype Duty = Duty(record: Option<RecordId>, required: set<Peer>, answered: set<Peer>)

  /** `fulfilled` lists which peers really acknowledged which record; `duty` is kept without looking at the node's fields for it. */
  datatype State = State(f: Fields, rounds: map<nat, Round>, fulfilled: set<(RecordId, Peer)>, used: set<RecordId>, duty: Duty)

  datatype Event =
    | NewRecord(id: RecordId, peers: set<Peer>, starting: bool)
    | Discover(peers: set<Peer>)
    | Announce(round: nat, record: RecordId, candidates: seq<Peer>, replaceTargets: bool, track: bool)
    | Reply(round: nat, index: nat, ok: bool)
    | Finish(round: nat)
    | ResetTo(record: RecordId, peers: set<Peer>)
    | Close
    | Open

  const INITIAL := State(FRESH, map[], {}, {}, Duty(None, {}, {}))

  predicate AllSettled(settled: seq<Option<bool>>) {
    forall i | 0 <= i < |settled| :: settled[i].Some?
  }

  function Values(settled: seq<Option<bool>>): seq<bool>
    requires AllSettled(settled)
  {
    seq(|settled|, i requires 0 <= i < |settled| => settled[i].value)
  }

  /** A placement set is required for a record; answers for another record are forgotten. */
  function Require(duty: Duty, record: RecordId, peers: set<Peer>): Duty {
    Duty(Some(record), peers, if duty.record == Some(record) then duty.answered else {})
  }

  /** A round ended: who said yes has answered, and who did not is required as before. */
  function Answered(duty: Duty, round: Round): Duty {
    var yes := set i | 0 <= i < |round.candidates| && i < |round.settled| && round.settled[i] == Some(true) :: round.candidates[i];
    if duty.record == Some(round.record) then
      Duty(duty.record, if round.replaceTargets then ToSet(round.candidates) else duty.required, duty.answered + yes)
    else Duty(Some(round.record), ToSet(round.candidates), yes)
  }

  function Step(s: State, e: Event): State {
    match e
    case NewRecord(id, peers, starting) =>
      // Record ids are never used twice.
      if id in s.used || (!starting && !s.f.started) then s
      else
        s.(f := Reset(s.f.(started := true, local := Some(id)), Some(id), peers), used := s.used + {id},
           duty := Duty(Some(id), peers, {}))
    case Discover(peers) =>
      s.(f := Stage(s.f, peers),
         duty := if s.f.local.Some? && s.f.started && !s.f.closing then Require(s.duty, s.f.local.value, peers) else s.duty)
    case Announce(r, record, candidates, replaceTargets, track) =>
      if r in s.rounds || !s.f.started || record !in s.used then s
      else
        var waiting := seq(|candidates|, _ => None);
        s.(rounds := s.rounds[r := Round(record, candidates, waiting, replaceTargets, track)])
    case Reply(r, i, ok) =>
      if r !in s.rounds || i >= |s.rounds[r].candidates| || |s.rounds[r].settled| != |s.rounds[r].candidates|
         || s.rounds[r].settled[i].Some? then s
      else
        var round := s.rounds[r];
        s.(rounds := s.rounds[r := round.(settled := round.settled[i := Some(ok)])],
           fulfilled := s.fulfilled + if ok then {(round.record, round.candidates[i])} else {})
    case Finish(r) =>
      if r !in s.rounds || |s.rounds[r].settled| != |s.rounds[r].candidates| || !AllSettled(s.rounds[r].settled) then s
      else
        var round := s.rounds[r];
        var f := if round.track
                 then Record(s.f, round.record, round.candidates, Values(round.settled), round.replaceTargets) else s.f;
        s.(f := f, rounds := s.rounds - {r},
           duty := if round.track && s.f.local == Some(round.record) then Answered(s.duty, round) else s.duty)
    case ResetTo(record, peers) =>
      if record in s.used then s.(f := Reset(s.f, Some(record), peers), duty := Require(s.duty, record, peers)) else s
    case Close => s.(f := s.f.(closing := true))
    case Open => s.(f := s.f.(closing := false))
  }

  function Run(s: State, events: seq<Event>): State
    decreases |events|
  {
    if events == [] then s else Run(Step(s, events[0]), events[1..])
  }

  ghost predicate PlacementOk(s: State) {
    var p := s.f.placement;
    && p.targets == p.acknowledged + p.pending && p.acknowledged !! p.pending
    && p.ready == (p.pending == {})
    && (forall n | n in p.acknowledged :: p.recordId.Some? && (p.recordId.value, n) in s.fulfilled)
  }

  ghost predicate AckedOk(s: State) {
    forall n | n in s.f.acked.nodeIds :: s.f.acked.recordId.Some? && (s.f.acked.recordId.value, n) in s.fulfilled
  }

  ghost predicate RoundOk(s: State, round: Round) {
    && |round.settled| == |round.candidates|
    && forall i | 0 <= i < |round.settled| && round.settled[i] == Some(true) ::
         (round.record, round.candidates[i]) in s.fulfilled
  }

  /** The node's own books are those of its duty. */
  ghost predicate DutyOk(s: State) {
    && s.f.acked == Acked(s.duty.record, s.duty.answered)
    && s.f.placement == PlacementOf(s.duty.record, s.duty.required, s.duty.answered)
    && (forall r | r in s.rounds :: |s.rounds[r].settled| == |s.rounds[r].candidates|)
    && (s.f.local.Some? ==> s.f.local.value in s.used) && (s.duty.record.Some? ==> s.duty.record.value in s.used)
  }

  lemma DutyStepFinish(s: State, r: nat)
    requires DutyOk(s)
    ensures DutyOk(Step(s, Finish(r)))
  {
    var s' := Step(s, Finish(r));
    if s' != s {
      var round := s.rounds[r];
      var yes := set i | 0 <= i < |round.candidates| && i < |round.settled| && round.settled[i] == Some(true) :: round.candidates[i];
      assert Fulfilled(round.candidates, Values(round.settled)) == yes;
    }
  }

  lemma DutyStep(s: State, e: Event)
    requires DutyOk(s)
    ensures DutyOk(Step(s, e))
  {
    if e.Finish? { DutyStepFinish(s, e.round); }
  }

  lemma {:induction false} RunKeepsDuty(s: State, events: seq<Event>)
    requires DutyOk(s)
    ensures DutyOk(Run(s, events))
    decreases |events|
  {
    if events != [] {
      DutyStep(s, events[0]);
      RunKeepsDuty(Step(s, events[0]), events[1..]);
    }
  }

  ghost predicate Inv(s: State) {
    PlacementOk(s) && AckedOk(s) && forall r | r in s.rounds :: RoundOk(s, s.rounds[r])
  }

  lemma ResetKeeps(s: State, record: Option<RecordId>, peers: set<Peer>)
    requires AckedOk(s)
    ensures AckedOk(s.(f := Reset(s.f, record, peers))) && PlacementOk(s.(f := Reset(s.f, record, peers)))
  {}

  lemma FinishKeepsInv(s: State, r: nat)
    requires Inv(s)
    ensures Inv(Step(s, Finish(r)))
  {
    var s' := Step(s, Finish(r));
    if s' != s {
      var round := s.rounds[r];
      assert RoundOk(s, round);
      forall n | n in Fulfilled(round.candidates, Values(round.settled)) ensures (round.record, n) in s.fulfilled {
        var i :| 0 <= i < |round.candidates| && Values(round.settled)[i] && round.candidates[i] == n;
        assert round.settled[i] == Some(true);
      }
    }
  }

  lemma StepKeepsInv(s: State, e: Event)
    requires Inv(s)
    ensures Inv(Step(s, e))
  {
    match e
    case NewRecord(id, peers, _) => ResetKeeps(s.(f := s.f.(started := true, local := Some(id))), Some(id), peers);
    case Discover(peers) => ResetKeeps(s, s.f.local, peers);
    case ResetTo(record, peers) => ResetKeeps(s, Some(record), peers);
    case Finish(r) => FinishKeepsInv(s, r);
    case _ =>
  }

  lemma {:induction false} RunKeepsInv(s: State, events: seq<Event>)
    requires Inv(s)
    ensures Inv(Run(s, events))
    decreases |events|
  {
    if events != [] {
      StepKeepsInv(s, events[0]);
      RunKeepsInv(Step(s, events[0]), events[1..]);
    }
  }

  /**
   Readiness in every run: the node reports ready if and only if it is started and every
   peer last required for the current record has answered it in a round that ended; the
   targets are exactly the required peers, and those who have not answered are pending.
   */
  lemma ReadyExactlyWhen(events: seq<Event>)
    ensures var s := Run(INITIAL, events);
            && (IsReady(s.f) <==>
                  s.f.started && s.f.local.Some? && s.duty.record == s.f.local && s.duty.required <= s.duty.answered)
            && s.f.placement.targets == s.duty.required
            && s.f.placement.pending == s.duty.required - s.duty.answered
            && s.f.placement.acknowledged == s.duty.required * s.duty.answered
  {
    RunKeepsDuty(INITIAL, events);
    var s := Run(INITIAL, events);
    assert s.duty.required - s.duty.answered == {} <==> s.duty.required <= s.duty.answered by {
      forall n | n in s.duty.required && n !in s.duty.answered ensures s.duty.required - s.duty.answered != {} {
        assert n in s.duty.required - s.duty.answered;
      }
    }
  }

  /**
   Readiness is sound in every run: when the node reports ready, every required peer
   really acknowledged exactly the current record, as has every peer that counts as
   having answered.
   */
  lemma ReadyMeansAcknowledged(events: seq<Event>)
    ensures var s := Run(INITIAL, events);
            && (IsReady(s.f) ==> forall n | n in s.duty.required :: (s.f.local.value, n) in s.fulfilled)
            && (IsReady(s.f) ==> forall n | n in s.f.placement.targets :: (s.f.local.value, n) in s.fulfilled)
            && (forall n | n in s.duty.answered :: s.duty.record.Some? && (s.duty.record.value, n) in s.fulfilled)
            && s.f.placement.targets == s.f.placement.acknowledged + s.f.placement.pending
            && s.f.placement.acknowledged !! s.f.placement.pending
  {
    RunKeepsInv(INITIAL, events);
    RunKeepsDuty(INITIAL, events);
    ReadyExactlyWhen(events);
  }

  /**
   When a round for the current record ends, its targets are the required peers as
   before, or the candidates of a replacing round; a target that did not say yes and had
   not answered before is pending, so the node is not ready.
   */
  lemma RejectedTargetsStayPending(f: Fields, record: RecordId, candidates: seq<Peer>, settled: seq<bool>, replaceTargets: bool, n: Peer)
    requires |candidates| == |settled| && f.local == Some(record)
    ensures var g := Record(f, record, candidates, settled, replaceTargets);
            && g.placement.targets == (if replaceTargets || f.placement.recordId != Some(record)
                                       then set i | 0 <= i < |candidates| :: candidates[i] else f.placement.targets)
            && (n in g.placement.targets && !(f.acked.recordId == Some(record) && n in f.acked.nodeIds)
                && (forall i | 0 <= i < |candidates| && candidates[i] == n :: !settled[i])
                ==> n in g.placement.pending && !IsReady(g))
  {}

  /** A round for a record that is no longer the current one changes nothing when it ends. */
  lemma LateAckNeverCounts(s: State, r: nat)
    requires r in s.rounds && s.f.local != Some(s.rounds[r].record)
    ensures Step(s, Finish(r)).f == s.f
  {}

  /** The events during the life of one record. */
  predicate SameRecord(s: State, e: Event) {
    && !(e.NewRecord? && e.id !in s.used && (e.starting || s.f.started))
    && (e.ResetTo? ==> s.f.local == Some(e.record))
  }

  predicate SameRecordRun(s: State, events: seq<Event>)
    decreases |events|
  {
    events == [] || (SameRecord(s, events[0]) && SameRecordRun(Step(s, events[0]), events[1..]))
  }

  lemma AckSurvivesStep(s: State, e: Event, n: Peer)
    requires SameRecord(s, e) && s.f.local.Some? && s.f.acked.recordId == s.f.local && n in s.f.acked.nodeIds
    ensures var f := Step(s, e).f; f.local == s.f.local && f.acked.recordId == f.local && n in f.acked.nodeIds
  {}

  /**
   Acknowledgements survive every reshuffle of the placement set during the life
   of a record: a target that once acknowledged is acknowledged whenever it is a target.
   */
  lemma {:induction false} AcksSurviveChurn(s: State, churn: seq<Event>, n: Peer, peers: set<Peer>)
    requires Inv(s) && SameRecordRun(s, churn)
    requires s.f.local.Some? && s.f.acked.recordId == s.f.local && n in s.f.acked.nodeIds
    ensures var f := Run(s, churn).f;
            && f.local == s.f.local && f.acked.recordId == f.local && n in f.acked.nodeIds
            && n !in Reset(f, f.local, peers).placement.pending
    decreases |churn|
  {
    if churn != [] {
      AckSurvivesStep(s, churn[0], n);
      StepKeepsInv(s, churn[0]);
      AcksSurviveChurn(Step(s, churn[0]), churn[1..], n, peers);
    }
  }

  /** The one way to lose them: a reset to another record, which a renewal without announcement makes when superseded. */
  lemma ResetKeepsAcksExactly(f: Fields, record: RecordId, peers: set<Peer>)
    requires f.local.Some? && f.acked.recordId == f.local && f.acked.nodeIds != {}
    ensures Reset(f, Some(record), peers).acked == f.acked <==> Some(record) == f.local
  {}
}
