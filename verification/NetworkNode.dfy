/**
 The node object whose methods update the fields that the persistence,
 propagation and rebalance protocols are about. Each method does what the
 protocol's step says to its group of fields, and nothing to the others.
 */
module NetworkNode {
  import opened Outcomes
  import P = Persistence
  import A = Propagation
  import R = Rebalance

  class TruynNetworkNode {
    const persistence: P.Config

    // Life cycle
    var started: bool
    var closing: bool
    var sequence: nat
    var localPeerRecord: Option<A.RecordId>

    // Persistence generations
    var stateReady: bool
    var persistRequestedGeneration: nat
    var persistedGeneration: nat
    var persistFlushPromise: Option<nat>
    var persistTimer: Option<P.Timer>
    var persistFirstPendingAt: Option<int>

    // Peer-record propagation
    var peerRecordAcked: A.Acked
    var propagation: A.Placement

    // Record rebalance
    var dhtRebalanceTimer: Option<int>
    var dhtRebalanceInFlight: Option<nat>
    var dhtRebalanceDirty: bool
    var dhtRebalanceRetryAttempt: nat

    constructor (config: P.Config)
      ensures PersistenceFields() == P.FRESH && PropagationFields() == A.FRESH && RebalanceFields() == R.FRESH
      ensures persistence == config && sequence == 0 && Valid()
    {
      persistence := config;
      started, closing, sequence, localPeerRecord := false, false, 0, None;
      stateReady, persistRequestedGeneration, persistedGeneration := false, 0, 0;
      persistFlushPromise, persistTimer, persistFirstPendingAt := None, None, None;
      peerRecordAcked := A.Acked(None, {});
      propagation := A.Placement(None, {}, {}, {}, true);
      dhtRebalanceTimer, dhtRebalanceInFlight, dhtRebalanceDirty, dhtRebalanceRetryAttempt := None, None, false, 0;
    }

    ghost function PersistenceFields(): P.Fields
      reads this
    {
      P.Fields(persistRequestedGeneration, persistedGeneration, persistFlushPromise, persistTimer,
               persistFirstPendingAt, stateReady, closing)
    }

    ghost function PropagationFields(): A.Fields
      reads this
    {
      A.Fields(started, closing, localPeerRecord, peerRecordAcked, propagation)
    }

    /** The placement is the one that the acknowledgements of its record give, and these are of no other record. */
    ghost predicate Valid()
      reads this
    {
      peerRecordAcked.recordId == propagation.recordId
      && propagation == A.PlacementOf(propagation.recordId, propagation.targets, peerRecordAcked.nodeIds)
    }

    ghost function RebalanceFields(): R.Fields
      reads this
    {
      R.Fields(started, closing, dhtRebalanceTimer, dhtRebalanceInFlight, dhtRebalanceDirty, dhtRebalanceRetryAttempt)
    }

    // ---- Persistence ---------------------------------------------------------------------

    method RequestPersist() returns (generation: nat)
      modifies this`persistRequestedGeneration
      ensures PersistenceFields() == P.RequestPersist(old(PersistenceFields()))
      ensures generation == persistRequestedGeneration > old(persistRequestedGeneration)
    {
      persistRequestedGeneration := persistRequestedGeneration + 1;
      generation := persistRequestedGeneration;
    }

    method ClearPersistTimer()
      modifies this`persistTimer
      ensures PersistenceFields() == old(PersistenceFields()).(timer := None)
    {
      if persistTimer.None? {
        return;
      }
      persistTimer := None;
    }

    method SchedulePersistCheckpoint(now: int)
      modifies this`persistTimer, this`persistFirstPendingAt
      ensures PersistenceFields() == P.ScheduleCheckpoint(persistence, old(PersistenceFields()), now)
    {
      if !stateReady || closing || persistFlushPromise.Some? {
        return;
      }
      if persistedGeneration >= persistRequestedGeneration {
        persistFirstPendingAt := None;
        ClearPersistTimer();
        return;
      }
      if persistFirstPendingAt.None? {
        persistFirstPendingAt := Some(now);
      }
      var ageMs := now - persistFirstPendingAt.value;
      var delayMs := P.Max(0, P.Min(persistence.debounceMs, persistence.checkpointMs - ageMs));
      ClearPersistTimer();
      persistTimer := Some(P.Timer(now, now + delayMs));
    }

    /** `id` names the promise in case a new flush starts. */
    method EnsurePersistFlush(id: nat) returns (promise: nat)
      modifies this`persistTimer, this`persistFlushPromise
      ensures PersistenceFields() == P.EnsureFlush(old(PersistenceFields()), id)
      ensures persistFlushPromise == Some(promise)
      ensures old(persistFlushPromise).Some? ==> old(persistFlushPromise) == Some(promise)
    {
      if persistFlushPromise.Some? {
        return persistFlushPromise.value;
      }
      ClearPersistTimer();
      persistFlushPromise := Some(id);
      promise := id;
    }

    method SchedulePersist(now: int)
      modifies this`persistRequestedGeneration, this`persistTimer, this`persistFirstPendingAt
      ensures PersistenceFields() == P.SchedulePersist(persistence, old(PersistenceFields()), now)
    {
      if !stateReady || closing {
        return;
      }
      var _ := RequestPersist();
      SchedulePersistCheckpoint(now);
    }

    /** `persistState` up to its first await: the barrier's generation and the flush it waits for. */
    method PersistState(id: nat) returns (target: nat, promise: nat)
      requires persistedGeneration <= persistRequestedGeneration
      modifies this`persistRequestedGeneration, this`persistTimer, this`persistFlushPromise
      ensures PersistenceFields() == P.EnsureFlush(P.RequestPersist(old(PersistenceFields())).(timer := None), id)
      ensures target == persistRequestedGeneration > persistedGeneration
      ensures persistFlushPromise == Some(promise)
    {
      target := RequestPersist();
      ClearPersistTimer();
      promise := EnsurePersistFlush(id);
    }

    /** The flush after its save came back. */
    method FlushSaved(generation: nat, now: int)
      modifies this`persistedGeneration, this`persistFirstPendingAt, this`persistTimer
      requires persistFlushPromise.Some?
      ensures PersistenceFields() == P.Saved(old(PersistenceFields()), generation, now)
    {
      persistedGeneration := generation;
      if persistedGeneration >= persistRequestedGeneration {
        persistFirstPendingAt := None;
      } else if stateReady && !closing {
        persistFirstPendingAt := Some(now);
        SchedulePersistCheckpoint(now);
      }
    }

    /** The `finally` of the flush. */
    method FlushSettled(now: int)
      modifies this`persistFlushPromise, this`persistFirstPendingAt, this`persistTimer
      ensures PersistenceFields() == P.Settled(persistence, old(PersistenceFields()), now)
    {
      persistFlushPromise := None;
      if persistedGeneration < persistRequestedGeneration && stateReady && !closing {
        SchedulePersistCheckpoint(now);
      }
    }

    /** `hydrateState` with the stored sequence, if there is a stored state. */
    method HydrateState(storedSequence: Option<nat>)
      modifies this`sequence, this`stateReady
      ensures PersistenceFields() == old(PersistenceFields()).(ready := true)
      ensures sequence == (if storedSequence.Some? && storedSequence.value > old(sequence) then storedSequence.value else old(sequence))
    {
      if storedSequence.Some? && storedSequence.value > sequence {
        sequence := storedSequence.value;
      }
      stateReady := true;
    }

    // ---- Peer-record propagation ---------------------------------------------------------------

    method AckedNodeIdsFor(recordId: Option<A.RecordId>) returns (nodeIds: set<A.Peer>)
      modifies this`peerRecordAcked
      ensures peerRecordAcked == A.AckedFor(old(peerRecordAcked), recordId) && nodeIds == peerRecordAcked.nodeIds
    {
      if peerRecordAcked.recordId != recordId {
        peerRecordAcked := A.Acked(recordId, {});
      }
      nodeIds := peerRecordAcked.nodeIds;
    }

    method ResetPeerRecordPropagation(record: Option<A.RecordId>, peers: set<A.Peer>)
      modifies this`peerRecordAcked, this`propagation
      ensures PropagationFields() == A.Reset(old(PropagationFields()), record, peers) && Valid()
    {
      var acked := AckedNodeIdsFor(record);
      var pending := peers - acked;
      propagation := A.Placement(record, peers, peers * acked, pending, pending == {});
    }

    /** The outcome of one announcement round; every fulfilled candidate is acknowledged one by one. */
    method RecordPeerRecordPropagation(record: A.RecordId, candidates: seq<A.Peer>, settled: seq<bool>, replaceTargets: bool)
      requires |candidates| == |settled| && Valid()
      modifies this`peerRecordAcked, this`propagation
      ensures Valid()
      ensures PropagationFields() == A.Record(old(PropagationFields()), record, candidates, settled, replaceTargets)
      ensures localPeerRecord == Some(record) ==>
        && propagation.targets == (if replaceTargets || old(propagation).recordId != Some(record)
                                   then set i | 0 <= i < |candidates| :: candidates[i] else old(propagation).targets)
        && forall i | 0 <= i < |candidates| :: settled[i] ==> candidates[i] in peerRecordAcked.nodeIds
    {
      if localPeerRecord != Some(record) {
        return;
      }
      var sameRecord := propagation.recordId == Some(record);
      var targets := if replaceTargets || !sameRecord then A.ToSet(candidates) else propagation.targets;
      var known := AckedNodeIdsFor(Some(record));
      for i := 0 to |candidates|
        invariant peerRecordAcked == A.Acked(Some(record), known + A.Fulfilled(candidates[..i], settled[..i]))
      {
        FulfilledStep(candidates, settled, i);
        if settled[i] {
          peerRecordAcked := A.Acked(Some(record), peerRecordAcked.nodeIds + {candidates[i]});
        }
      }
      assert candidates[..|candidates|] == candidates && settled[..|settled|] == settled;
      var acked := peerRecordAcked.nodeIds;
      var pending := targets - acked;
      propagation := A.Placement(Some(record), targets, targets * acked, pending, pending == {});
    }

    static lemma FulfilledStep(candidates: seq<A.Peer>, settled: seq<bool>, i: nat)
      requires i < |candidates| == |settled|
      ensures A.Fulfilled(candidates[..i + 1], settled[..i + 1]) ==
              A.Fulfilled(candidates[..i], settled[..i]) + if settled[i] then {candidates[i]} else {}
    {
      var before, after := A.Fulfilled(candidates[..i], settled[..i]), A.Fulfilled(candidates[..i + 1], settled[..i + 1]);
      forall n | n in before ensures n in after {
        var k :| 0 <= k < i && settled[..i][k] && candidates[..i][k] == n;
        assert settled[..i + 1][k] && candidates[..i + 1][k] == n;
      }
      forall n | n in after ensures n in before || (settled[i] && n == candidates[i]) {
        var k :| 0 <= k < i + 1 && settled[..i + 1][k] && candidates[..i + 1][k] == n;
        if k < i { assert settled[..i][k] && candidates[..i][k] == n; }
      }
      if settled[i] {
        assert settled[..i + 1][i] && candidates[..i + 1][i] == candidates[i];
      }
    }

    method StagePeerRecordPropagation(peers: set<A.Peer>) returns (changed: bool)
      requires Valid()
      modifies this`peerRecordAcked, this`propagation
      ensures PropagationFields() == A.Stage(old(PropagationFields()), peers) && Valid()
      ensures !changed ==> PropagationFields() == old(PropagationFields())
    {
      if localPeerRecord.None? || !started || closing {
        return false;
      }
      if propagation.recordId == localPeerRecord && propagation.targets == peers {
        return false;
      }
      ResetPeerRecordPropagation(localPeerRecord, peers);
      changed := true;
    }

    /** Ready means that every target is among the peers that acknowledged the current record. */
    method PeerRecordPropagationReady() returns (ready: bool)
      requires Valid()
      ensures ready <==>
        && started && localPeerRecord.Some? && peerRecordAcked.recordId == localPeerRecord
        && propagation.targets <= peerRecordAcked.nodeIds
    {
      NoneMissing(propagation.targets, peerRecordAcked.nodeIds);
      ready := started && localPeerRecord.Some? && propagation.recordId == localPeerRecord && propagation.ready;
    }

    static lemma NoneMissing(a: set<A.Peer>, b: set<A.Peer>)
      ensures a - b == {} <==> a <= b
    {
      forall n | n in a && n !in b ensures a - b != {} {
        assert n in a - b;
      }
    }

    /**
     A new record: the next sequence number, its own id, acknowledgements from nobody,
     and a scheduled save unless the caller persists on its own.
     */
    method RefreshPeerRecord(id: A.RecordId, peers: set<A.Peer>, persist: bool, now: int) returns (issued: bool)
      requires Some(id) != peerRecordAcked.recordId && Valid()
      modifies this`sequence, this`localPeerRecord, this`peerRecordAcked, this`propagation
      modifies this`persistRequestedGeneration, this`persistTimer, this`persistFirstPendingAt
      ensures issued == old(started) && Valid()
      ensures !issued ==> sequence == old(sequence) && PropagationFields() == old(PropagationFields())
      ensures issued ==>
        && sequence == old(sequence) + 1 && localPeerRecord == Some(id)
        && PropagationFields() == A.Reset(old(PropagationFields()).(local := Some(id)), Some(id), peers)
        && propagation.pending == peers
      ensures PersistenceFields() == if issued && persist then P.SchedulePersist(persistence, old(PersistenceFields()), now)
                                     else old(PersistenceFields())
    {
      if !started {
        return false;
      }
      sequence := sequence + 1;
      localPeerRecord := Some(id);
      ResetPeerRecordPropagation(localPeerRecord, peers);
      if persist {
        SchedulePersist(now);
      }
      issued := true;
    }

    // ---- Record rebalance -------------------------------------------------------------------------

    method ScheduleDhtRecordRebalance(delayMs: int)
      modifies this`dhtRebalanceTimer, this`dhtRebalanceDirty
      ensures RebalanceFields() == R.Schedule(old(RebalanceFields()), delayMs)
    {
      if !started || closing {
        return;
      }
      if dhtRebalanceInFlight.Some? {
        dhtRebalanceDirty := true;
        return;
      }
      dhtRebalanceTimer := Some(R.Clamp(delayMs));
    }

    /** The timer callback up to the pass it starts. */
    method RunDhtRecordRebalance(pass: nat) returns (ran: bool)
      modifies this`dhtRebalanceTimer, this`dhtRebalanceDirty, this`dhtRebalanceInFlight
      ensures RebalanceFields() == R.RunPass(old(RebalanceFields()), pass)
      ensures ran ==> dhtRebalanceInFlight == Some(pass) && old(dhtRebalanceInFlight).None?
    {
      dhtRebalanceTimer := None;
      if !started || closing {
        return false;
      }
      if dhtRebalanceInFlight.Some? {
        dhtRebalanceDirty := true;
        return false;
      }
      dhtRebalanceDirty := false;
      dhtRebalanceInFlight := Some(pass);
      ran := true;
    }

    /** The pass's own bookkeeping, before its `finally`. */
    method CompleteDhtPass(result: R.PassResult) returns (retryDelayMs: Option<int>)
      modifies this`dhtRebalanceRetryAttempt
      ensures (retryDelayMs, dhtRebalanceRetryAttempt) == R.Retry(old(dhtRebalanceRetryAttempt), result)
    {
      retryDelayMs := None;
      if !result.Succeeded? && dhtRebalanceRetryAttempt < R.MAX_RETRIES {
        dhtRebalanceRetryAttempt := dhtRebalanceRetryAttempt + 1;
        retryDelayMs := Some(if dhtRebalanceRetryAttempt == 1 then 5_000 else 15_000);
      } else if result.Succeeded? {
        dhtRebalanceRetryAttempt := 0;
      }
    }

    method FinishDhtPass(retryDelayMs: Option<int>)
      modifies this`dhtRebalanceInFlight, this`dhtRebalanceDirty, this`dhtRebalanceTimer
      ensures RebalanceFields() == R.FinishPass(old(RebalanceFields()), retryDelayMs)
    {
      dhtRebalanceInFlight := None;
      if !started || closing {
        return;
      }
      if dhtRebalanceDirty {
        dhtRebalanceDirty := false;
        ScheduleDhtRecordRebalance(1_500);
      } else if retryDelayMs.Some? {
        ScheduleDhtRecordRebalance(retryDelayMs.value);
      }
    }
  }
}
