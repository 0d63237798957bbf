/**
 The store object. Each method is one transaction over the three tables, updating the
 item record in place, and is proved to be exactly the transaction `Step` describes: the
 same new tables, the same reply, the same error with nothing changed. `Valid` is the
 consistency that `WorkflowStore.ReachableConsistent` gives every reachable store.
 */
module WorkflowRuntime {
  import opened Prelude
  import opened WorkflowItem
  import opened WorkflowStore

  class WorkflowEventStore {
    const allowed: Scope
    var items: map<Digest, Item>
    var ingress: map<string, IngressRow>
    var journal: seq<Entry>

    ghost function State(): Db
      reads this
    {
      Db(items, ingress, journal)
    }

    ghost predicate Valid()
      reads this
    {
      Consistent(State())
    }

    constructor (allowed: Scope)
      ensures Valid() && State() == EMPTY && this.allowed == allowed
    {
      this.allowed := allowed;
      items, ingress, journal := map[], map[], [];
    }

    /** Replace the item row and append the journal row. */
    method Save(item: Item, action: Action)
      modifies this`items, this`journal
      ensures items == old(items)[item.sourceKey := item]
      ensures journal == old(journal) + [Entry(item.sourceKey, action, item)]
    {
      items := items[item.sourceKey := item];
      journal := journal + [Entry(item.sourceKey, action, item)];
    }

    /** Decide what one source observation does to its row, and write it. */
    method ApplySource(key: Digest, source: Source) returns (r: Result<Reply, Error>)
      modifies this`items, this`journal
      ensures
        var outcome := ObserveStep(key, Row(old(State()), key), source);
        State() == Commit(old(State()), key, outcome).0 && r == Commit(old(State()), key, outcome).1
    {
      if key in items && source.revision < items[key].source.revision {
        return Ok(Reply(items[key], Stale));
      }
      if key in items && source.revision == items[key].source.revision {
        if source != items[key].source {
          return Err(ERevision);
        }
        return Ok(Reply(items[key], Unchanged));
      }
      var epoch, run, phase, status := 1, None, RuntimePhase(source), Created;
      if key in items {
        epoch, run, status := items[key].epoch + 1, items[key].run, Updated;
      }
      if run.Some? {
        run := Some(run.value.(invalidated := true));
        phase := RetirementRequired;
      }
      var item := Item(key, source, epoch, phase, run, 0, None, None, []);
      Save(item, SourceObserved);
      r := Ok(Reply(item, status));
    }

    method IntakeEvent(eventId: string, source: Source) returns (r: Result<Reply, Error>)
      requires Valid()
      modifies this
      ensures Valid()
      ensures State() == Step(old(State()), allowed, Deliver(eventId, source)).0
      ensures r == Step(old(State()), allowed, Deliver(eventId, source)).1
    {
      StepConsistent(State(), allowed, Deliver(eventId, source));
      if !Admissible(source, allowed) {
        return Err(ESource);
      }
      var key := SourceKey(source.id);
      if eventId in ingress {
        var prior := ingress[eventId];
        if prior.seal != SourceSha(source) || prior.key != key {
          return Err(EEventReuse);
        }
        if key !in items {
          return Err(ENotFound);
        }
        return Ok(Reply(items[key], Duplicate));
      }
      r := ApplySource(key, source);
      if r.Ok? {
        ingress := ingress[eventId := IngressRow(SourceSha(source), key, r.value.status)];
      }
    }

    /** The checks before a claim, in order. */
    method ValidateClaim(item: Item, key: Digest, op: Op) returns (error: Option<Error>)
      requires op.Claim?
      ensures error == ClaimError(item, key, op)
    {
      if op.expectedEpoch.Some? && item.epoch != op.expectedEpoch.value {
        return Some(EFenced);
      }
      if op.expectedSource.Some? && SourceSha(item.source) != op.expectedSource.value {
        return Some(EFenced);
      }
      if item.run.Some? {
        return Some(ERecoveryRequired);
      }
      if !AdmitsWork(item.phase) {
        return Some(EPhase);
      }
      if item.attempts >= 3 {
        return Some(ERetry);
      }
      if op.binding.Some? {
        return BindingError(op.binding.value, key, SourceSha(item.source));
      }
      return None;
    }

    method ClaimRun(key: Digest, owner: string, ttl: int, now: int, binding: Option<Binding>,
                    expectedEpoch: Option<nat>, expectedSource: Option<Digest>)
      returns (r: Result<Reply, Error>)
      requires Valid()
      modifies this`items, this`journal
      ensures Valid()
      ensures
        var event := Apply(key, Claim(owner, ttl, now, binding, expectedEpoch, expectedSource));
        State() == Step(old(State()), allowed, event).0 && r == Step(old(State()), allowed, event).1
    {
      ghost var before := State();
      var op := Claim(owner, ttl, now, binding, expectedEpoch, expectedSource);
      if !ValidTtl(ttl) {
        return Err(ELease);
      }
      if key !in items {
        return Err(ENotFound);
      }
      KeyedRow(before, key);
      var item := items[key];
      var error := ValidateClaim(item, key, op);
      if error.Some? {
        return Err(error.value);
      }
      item := item.(epoch := item.epoch + 1);
      item := item.(attempts := item.attempts + 1);
      item := item.(run := Some(Run(RunId(key, item.epoch), SourceSha(item.source), owner, item.epoch,
                                    now + ttl, None, false, binding)));
      if item.phase == Intake {
        item := item.(phase := Triage);
      }
      assert Transition(key, Row(before, key), op) == Write(item, RunClaimed, Claimed);
      Save(item, RunClaimed);
      r := Ok(Reply(item, Claimed));
      StepConsistent(before, allowed, Apply(key, op));
    }

    method RenewLease(key: Digest, owner: string, epoch: nat, ttl: int, now: int, handle: Option<string>)
      returns (r: Result<Reply, Error>)
      requires Valid()
      modifies this`items, this`journal
      ensures Valid()
      ensures
        var event := Apply(key, Heartbeat(owner, epoch, ttl, now, handle));
        State() == Step(old(State()), allowed, event).0 && r == Step(old(State()), allowed, event).1
    {
      StepConsistent(State(), allowed, Apply(key, Heartbeat(owner, epoch, ttl, now, handle)));
      KeyedRow(State(), key);
      if !ValidTtl(ttl) {
        return Err(ELease);
      }
      if key !in items {
        return Err(ENotFound);
      }
      var item := items[key];
      if !Owned(item, owner, epoch) {
        return Err(EFenced);
      }
      var run := item.run.value;
      if run.expiresAt <= now {
        return Err(ERecoveryRequired);
      }
      if handle.Some? {
        if run.handle.Some? && run.handle != handle {
          return Err(EHandle);
        }
        run := run.(handle := handle);
      }
      run := run.(expiresAt := now + ttl);
      item := item.(run := Some(run));
      Save(item, RunHeartbeat);
      r := Ok(Reply(item, LiveRun));
    }

    /** The read half of every operation that looks outside the transaction. */
    method Get(key: Digest) returns (r: Result<Item, Error>)
      ensures r == if key in items then Ok(items[key]) else Err(ENotFound)
    {
      if key !in items {
        return Err(ENotFound);
      }
      return Ok(items[key]);
    }

    /** The commit half of a reconciliation, given the snapshot read before the probe. */
    method ReconcileObservation(key: Digest, snapshot: Item, observation: Observation)
      returns (r: Result<Reply, Error>)
      requires Valid()
      modifies this`items, this`journal
      ensures Valid()
      ensures
        var event := Apply(key, Reconcile(snapshot, observation));
        State() == Step(old(State()), allowed, event).0 && r == Step(old(State()), allowed, event).1
    {
      StepConsistent(State(), allowed, Apply(key, Reconcile(snapshot, observation)));
      KeyedRow(State(), key);
      if key !in items {
        return Err(ENotFound);
      }
      if snapshot.run.None? {
        return Ok(Reply(snapshot, Idle));
      }
      if !ObservationMatches(snapshot.run.value, observation) {
        return Err(EObservation);
      }
      var item := items[key];
      if item != snapshot {
        return Err(EFenced);
      }
      var run := item.run.value;
      if run.handle.None? && observation.handle.Some? {
        run := run.(handle := observation.handle);
      }
      item := item.(run := Some(run));
      var state := observation.state;
      if state == Live || state == Unknown {
        if run.handle != snapshot.run.value.handle {
          Save(item, RunHandleReconciled);
        }
        return Ok(Reply(item, Kept(state)));
      }
      item := item.(lastRun := Some(RetiredRun(run, state)));
      item := item.(run := None);
      item := item.(epoch := item.epoch + 1);
      if item.phase == RetirementRequired {
        item := item.(phase := RuntimePhase(item.source));
      }
      Save(item, RunRetired(state));
      r := Ok(Reply(item, Retired));
    }

    /** The commit half of a phase advance, after the host confirmed source and evidence. */
    method CommitAdvance(key: Digest, snapshot: Item, target: Phase, evidence: Evidence)
      returns (r: Result<Reply, Error>)
      requires Valid()
      modifies this`items, this`journal
      ensures Valid()
      ensures
        var event := Apply(key, Advance(snapshot, target, evidence));
        State() == Step(old(State()), allowed, event).0 && r == Step(old(State()), allowed, event).1
    {
      StepConsistent(State(), allowed, Apply(key, Advance(snapshot, target, evidence)));
      KeyedRow(State(), key);
      if key !in items {
        return Err(ENotFound);
      }
      var error := EvidenceError(snapshot, target, evidence);
      if error.Some? {
        return Err(error.value);
      }
      var item := items[key];
      if item != snapshot {
        return Err(EFenced);
      }
      item := item.(phase := target);
      item := item.(phaseEvidence := Some(evidence));
      item := item.(lastRun := None);
      item := item.(attempts := 0);
      Save(item, PhaseAdvanced(target));
      r := Ok(Reply(item, Advanced));
    }

    /** The commit half of an incident checkpoint. */
    method PersistCheckpoint(key: Digest, snapshot: Item, owner: string, phase: IncidentPhase,
                             outcome: CheckpointEvidence)
      returns (r: Result<Reply, Error>)
      requires Valid()
      modifies this`items, this`journal
      ensures Valid()
      ensures
        var event := Apply(key, SaveCheckpoint(snapshot, owner, phase, outcome));
        State() == Step(old(State()), allowed, event).0 && r == Step(old(State()), allowed, event).1
    {
      StepConsistent(State(), allowed, Apply(key, SaveCheckpoint(snapshot, owner, phase, outcome)));
      KeyedRow(State(), key);
      if key !in items {
        return Err(ENotFound);
      }
      var error := CheckpointError(snapshot, owner, phase, outcome);
      if error.Some? {
        return Err(error.value);
      }
      var run := snapshot.lastRun.value.run;
      var binding := run.binding.value;
      var checkpoint := Checkpoint(phase, run.sourceSha, binding.policySha, binding.actionSha, binding.intentSha,
                                   outcome.resultSha, outcome.verifierId, binding.driverId, run.id, run.epoch);
      var item := items[key];
      if item != snapshot {
        return Err(EFenced);
      }
      item := item.(incident := item.incident + [checkpoint]);
      item := item.(attempts := 0);
      Save(item, IncidentCheckpoint(phase));
      r := Ok(Reply(item, Checkpointed));
    }

    // The three operations that look outside the store, run without interference. The
    // probes are arbitrary functions. Runs with interference are sequences of the methods
    // above with any snapshot, which `WorkflowSafety` covers.

    /** Probe the driver about the active run, then commit what it reported. */
    method ReconcileRun(key: Digest, observer: Run -> Observation) returns (r: Result<Reply, Error>)
      requires Valid()
      modifies this`items, this`journal
      ensures Valid()
      ensures key !in old(items) ==> r == Err(ENotFound) && State() == old(State())
      ensures key in old(items) && old(items)[key].run.None? ==>
        r == Ok(Reply(old(items)[key], Idle)) && State() == old(State())
      ensures key in old(items) && old(items)[key].run.Some? ==>
        var event := Apply(key, Reconcile(old(items)[key], observer(old(items)[key].run.value)));
        State() == Step(old(State()), allowed, event).0 && r == Step(old(State()), allowed, event).1
    {
      var snapshot := Get(key);
      if snapshot.Err? {
        return Err(snapshot.error);
      }
      if snapshot.value.run.None? {
        return Ok(Reply(snapshot.value, Idle));
      }
      r := ReconcileObservation(key, snapshot.value, observer(snapshot.value.run.value));
    }

    /** Advance one phase. It commits only when the freshly observed source is the stored one
        and the registered verifier returns exactly the evidence; a changed source is taken in
        instead. Without an observer or a verifier of that name nothing is observed at all. */
    method AdvancePhase(key: Digest, target: Phase, evidence: Evidence, sourceObserver: Option<Source -> Source>,
                        verifiers: map<string, Evidence -> Option<Evidence>>, observedId: Source -> string)
      returns (r: Result<Reply, Error>)
      requires Valid()
      modifies this
      ensures Valid()
      ensures key !in old(items) ==> r == Err(ENotFound) && State() == old(State())
      ensures key in old(items) ==>
        var item := old(items)[key];
        if EvidenceError(item, target, evidence).Some? then
          r == Err(EvidenceError(item, target, evidence).value) && State() == old(State())
        else if sourceObserver.None? || evidence.verifierId !in verifiers then
          r == Err(ETrust) && State() == old(State())
        else
          var seen := sourceObserver.value(item.source);
          && (r.Ok? <==> seen == item.source && Admissible(seen, allowed)
                         && verifiers[evidence.verifierId](evidence) == Some(evidence))
          && (if r.Ok? then State() == Step(old(State()), allowed, Apply(key, Advance(item, target, evidence))).0
              else if seen != item.source
              then State() == Step(old(State()), allowed, Deliver(observedId(seen), seen)).0
              else State() == old(State()))
    {
      var snapshot := Get(key);
      if snapshot.Err? {
        return Err(snapshot.error);
      }
      var item := snapshot.value;
      var error := EvidenceError(item, target, evidence);
      if error.Some? {
        return Err(error.value);
      }
      if sourceObserver.None? || evidence.verifierId !in verifiers {
        return Err(ETrust);
      }
      var seen := sourceObserver.value(item.source);
      if !Admissible(seen, allowed) {
        return Err(ESource);
      }
      if seen != item.source {
        var taken := IntakeEvent(observedId(seen), seen);
        return Err(if taken.Err? then taken.error else EFenced);
      }
      if verifiers[evidence.verifierId](evidence) != Some(evidence) {
        return Err(EEvidence);
      }
      r := CommitAdvance(key, item, target, evidence);
    }

    /** Checkpoint one incident phase: permission, fresh source and the outcome confirmed by a
        verifier registered for the phase first, permission again inside the transaction. */
    method CheckpointPhase(key: Digest, owner: string, phase: IncidentPhase, outcome: CheckpointEvidence,
                           permitted: bool, stillPermitted: bool, sourceObserver: Source -> Source,
                           verifiers: map<string, CheckpointEvidence -> Option<CheckpointEvidence>>)
      returns (r: Result<Reply, Error>)
      requires Valid()
      modifies this`items, this`journal
      ensures Valid()
      ensures key !in old(items) ==> r == Err(ENotFound) && State() == old(State())
      ensures key in old(items) ==>
        var item := old(items)[key];
        var seen := sourceObserver(item.source);
        && (r.Ok? <==> CheckpointError(item, owner, phase, outcome) == None && permitted && stillPermitted
                       && seen == item.source && Admissible(seen, allowed)
                       && outcome.verifierId in verifiers
                       && verifiers[outcome.verifierId](outcome) == Some(outcome))
        && (if r.Ok?
            then State() == Step(old(State()), allowed, Apply(key, SaveCheckpoint(item, owner, phase, outcome))).0
            else State() == old(State()))
    {
      var snapshot := Get(key);
      if snapshot.Err? {
        return Err(snapshot.error);
      }
      var item := snapshot.value;
      var error := CheckpointError(item, owner, phase, outcome);
      if error.Some? {
        return Err(error.value);
      }
      if !permitted {
        return Err(EAuthority);
      }
      var seen := sourceObserver(item.source);
      if !Admissible(seen, allowed) {
        return Err(ESource);
      }
      if seen != item.source {
        return Err(EIncidentSource);
      }
      if outcome.verifierId !in verifiers {
        return Err(EIncidentTrust);
      }
      if verifiers[outcome.verifierId](outcome) != Some(outcome) {
        return Err(EIncidentEvidence);
      }
      if !stillPermitted {
        return Err(EAuthority);
      }
      r := PersistCheckpoint(key, item, owner, phase, outcome);
    }
  }
}
