/**
 One source item of the workflow event store and the atomic changes to it.

 Every transaction of `WorkflowEventStore` reads one item row, decides, and writes at
 most one new row. `Transition` is that decision, for every operation at once. The
 operations that look outside the transaction (reconcile, advance, checkpoint) carry the
 snapshot they read earlier; the snapshot is an arbitrary item, so every interleaving
 with other actors, and every crash before the commit, is a value of `Op`.
 */
module WorkflowItem {
  import opened Prelude

  datatype SourceState = SourceOpen | SourceClosed | SourceMerged | SourceAbsent

  datatype SourceKind = Issue | PullRequest

  datatype SourceId = SourceId(
    provider: string, account: string, repository: string, kind: SourceKind, externalId: string)

  datatype Source = Source(id: SourceId, revision: int, headSha: Option<string>, state: SourceState, title: string)

  /** Digests are symbolic: each constructor is the SHA-256 of one kind of canonical JSON,
      so equal digests come from equal contents. `Text` is any other digest string. */
  datatype Digest =
    | SourceSha(source: Source)
    | SourceKey(id: SourceId)
    | RunId(key: Digest, epoch: nat)
    | IntentSha(intent: Intent)
    | Text(text: string)

  datatype IncidentPhase = Detect | Investigate | Reproduce | Repair | Verify | Review

  const INCIDENT_PHASES: seq<IncidentPhase> := [Detect, Investigate, Reproduce, Repair, Verify, Review]

  datatype Intent = Intent(
    sourceKey: Digest, sourceSha: Digest, phase: IncidentPhase,
    driverId: string, policySha: Digest, actionSha: Digest)

  datatype Binding = Binding(
    driverId: string, phase: IncidentPhase, sourceSha: Digest,
    policySha: Digest, actionSha: Digest, intentSha: Digest)

  datatype Phase =
    | Intake | Triage | Planning | Building | Auditing | Reviewing | ReadyForMerge
    | RetirementRequired | ClosedExternal | MergedExternal | SourceMissing

  datatype Run = Run(
    id: Digest, sourceSha: Digest, owner: string, epoch: nat, expiresAt: int,
    handle: Option<string>, invalidated: bool, binding: Option<Binding>)

  datatype Observed = Live | Terminal | Missing | Unknown

  datatype RetiredRun = RetiredRun(run: Run, state: Observed)

  datatype Evidence = Evidence(
    sourceSha: Digest, runId: Digest, phase: Phase, kind: string,
    artifactSha: Digest, verifierId: string)

  datatype CheckpointEvidence = CheckpointEvidence(
    runId: Digest, intentSha: Digest, sourceSha: Digest, policySha: Digest,
    outcome: string, resultSha: Digest, verifierId: string)

  datatype Checkpoint = Checkpoint(
    phase: IncidentPhase, sourceSha: Digest, policySha: Digest, actionSha: Digest,
    intentSha: Digest, resultSha: Digest, verifierId: string, driverId: string,
    runId: Digest, ownerEpoch: nat)

  /** `incident` is the checkpoint list; the source leaves the field out while it is empty. */
  datatype Item = Item(
    sourceKey: Digest, source: Source, epoch: nat, phase: Phase, run: Option<Run>,
    attempts: nat, lastRun: Option<RetiredRun>, phaseEvidence: Option<Evidence>,
    incident: seq<Checkpoint>)

  datatype Observation = Observation(runId: Digest, handle: Option<string>, state: Observed)

  datatype Error =
    | ENotFound | EFenced | ERecoveryRequired | EPhase | ERetry | ELease | EHandle
    | EObservation | ERevision | EEventReuse | ESource | EEvidence
    | EIncidentPhase | EIncidentSource | EIncidentIntent | EIncidentEvidence
    | EIncidentTrust | EAuthority | ETrust | ECursor | EIntegrity

  datatype Action =
    | SourceObserved | RunClaimed | RunHeartbeat | RunHandleReconciled
    | RunRetired(state: Observed) | PhaseAdvanced(target: Phase) | IncidentCheckpoint(phase: IncidentPhase)

  datatype Status =
    | Created | Updated | Stale | Unchanged | Duplicate | Claimed | LiveRun
    | Idle | Kept(state: Observed) | Retired | Advanced | Checkpointed

  datatype Op =
    | ObserveSource(source: Source)
    | Claim(owner: string, ttl: int, now: int, binding: Option<Binding>,
            expectedEpoch: Option<nat>, expectedSource: Option<Digest>)
    | Heartbeat(owner: string, epoch: nat, ttl: int, now: int, handle: Option<string>)
    | Reconcile(snapshot: Item, observation: Observation)
    | Advance(snapshot: Item, target: Phase, evidence: Evidence)
    | SaveCheckpoint(snapshot: Item, owner: string, phase: IncidentPhase, outcome: CheckpointEvidence)

  datatype Outcome =
    | Write(item: Item, action: Action, status: Status)
    | Keep(item: Item, status: Status)
    | Reject(error: Error)

  function RuntimePhase(source: Source): Phase {
    match source.state
    case SourceOpen => Intake
    case SourceClosed => ClosedExternal
    case SourceMerged => MergedExternal
    case SourceAbsent => SourceMissing
  }

  predicate AdmitsWork(phase: Phase) {
    || phase == Intake || phase == Triage || phase == Planning
    || phase == Building || phase == Auditing || phase == Reviewing
  }

  /** The only phase that evidence can move `phase` to, with the evidence kind it needs. */
  function NextPhase(phase: Phase): Option<(Phase, string)> {
    match phase
    case Triage => Some((Planning, "triage"))
    case Planning => Some((Building, "approved_plan"))
    case Building => Some((Auditing, "isolated_build"))
    case Auditing => Some((Reviewing, "six_lane_audit"))
    case Reviewing => Some((ReadyForMerge, "independent_review"))
    case _ => None
  }

  // ---------------------------------------------------------------- intake

  function ObserveStep(key: Digest, current: Option<Item>, source: Source): Outcome {
    if current.Some? && source.revision < current.value.source.revision then
      Keep(current.value, Stale)
    else if current.Some? && source.revision == current.value.source.revision then
      if source != current.value.source then Reject(ERevision) else Keep(current.value, Unchanged)
    else
      var epoch := if current.Some? then current.value.epoch + 1 else 1;
      var run := if current.Some? && current.value.run.Some?
                 then Some(current.value.run.value.(invalidated := true)) else None;
      var phase := if run.Some? then RetirementRequired else RuntimePhase(source);
      Write(Item(key, source, epoch, phase, run, 0, None, None, []),
            SourceObserved, if current.Some? then Updated else Created)
  }

  // ----------------------------------------------------------------- claim

  /** Lease durations are checked before the item is read. */
  predicate ValidTtl(ttl: int) {
    1 <= ttl <= 3600
  }

  function BindingError(binding: Binding, key: Digest, sourceSha: Digest): Option<Error> {
    if binding.sourceSha != sourceSha then Some(EIncidentSource)
    else if binding.intentSha != IntentSha(Intent(key, sourceSha, binding.phase, binding.driverId,
                                                  binding.policySha, binding.actionSha))
    then Some(EIncidentIntent)
    else None
  }

  function ClaimError(item: Item, key: Digest, op: Op): Option<Error>
    requires op.Claim?
  {
    if op.expectedEpoch.Some? && item.epoch != op.expectedEpoch.value then Some(EFenced)
    else if op.expectedSource.Some? && SourceSha(item.source) != op.expectedSource.value then Some(EFenced)
    else if item.run.Some? then Some(ERecoveryRequired)
    else if !AdmitsWork(item.phase) then Some(EPhase)
    else if item.attempts >= 3 then Some(ERetry)
    else if op.binding.Some? then BindingError(op.binding.value, key, SourceSha(item.source))
    else None
  }

  function ClaimStep(key: Digest, item: Item, op: Op): Outcome
    requires op.Claim?
  {
    var error := ClaimError(item, key, op);
    if error.Some? then Reject(error.value)
    else
      var epoch := item.epoch + 1;
      var run := Run(RunId(key, epoch), SourceSha(item.source), op.owner, epoch, op.now + op.ttl,
                     None, false, op.binding);
      Write(item.(epoch := epoch, attempts := item.attempts + 1, run := Some(run),
                  phase := if item.phase == Intake then Triage else item.phase),
            RunClaimed, Claimed)
  }

  // ------------------------------------------------------------- heartbeat

  predicate Owned(item: Item, owner: string, epoch: nat) {
    && item.run.Some?
    && item.run.value.owner == owner
    && item.run.value.epoch == epoch
    && item.epoch == epoch
    && !item.run.value.invalidated
  }

  function HeartbeatStep(item: Item, op: Op): Outcome
    requires op.Heartbeat?
  {
    if !Owned(item, op.owner, op.epoch) then Reject(EFenced)
    else if item.run.value.expiresAt <= op.now then Reject(ERecoveryRequired)
    else if op.handle.Some? && item.run.value.handle.Some? && item.run.value.handle != op.handle then
      Reject(EHandle)
    else
      var run := item.run.value;
      var handle := if op.handle.Some? then op.handle else run.handle;
      Write(item.(run := Some(run.(handle := handle, expiresAt := op.now + op.ttl))), RunHeartbeat, LiveRun)
  }

  // ------------------------------------------------------------- reconcile

  predicate ObservationMatches(run: Run, o: Observation) {
    && o.runId == run.id
    && (o.handle == run.handle
        || (run.handle.None? && (o.state == Live || o.state == Terminal) && o.handle.Some?))
  }

  function ReconcileStep(item: Item, snapshot: Item, o: Observation): Outcome {
    if snapshot.run.None? then Keep(snapshot, Idle)
    else if !ObservationMatches(snapshot.run.value, o) then Reject(EObservation)
    else if item != snapshot then Reject(EFenced)
    else
      var run := if item.run.value.handle.None? then item.run.value.(handle := o.handle) else item.run.value;
      if o.state == Live || o.state == Unknown then
        if run.handle != snapshot.run.value.handle
        then Write(item.(run := Some(run)), RunHandleReconciled, Kept(o.state))
        else Keep(item, Kept(o.state))
      else
        Write(item.(lastRun := Some(RetiredRun(run, o.state)), run := None, epoch := item.epoch + 1,
                    phase := if item.phase == RetirementRequired then RuntimePhase(item.source) else item.phase),
              RunRetired(o.state), Retired)
  }

  // --------------------------------------------------------------- advance

  function EvidenceError(item: Item, target: Phase, evidence: Evidence): Option<Error> {
    if NextPhase(item.phase).None? || NextPhase(item.phase).value.0 != target then Some(EPhase)
    else if item.run.Some? || item.lastRun.None? || item.lastRun.value.state != Terminal
            || item.lastRun.value.run.handle.None? then Some(EEvidence)
    else
      var run := item.lastRun.value.run;
      if evidence.sourceSha != SourceSha(item.source)
         || evidence.runId != run.id
         || evidence.phase != item.phase
         || evidence.kind != NextPhase(item.phase).value.1
         || run.sourceSha != evidence.sourceSha
         || run.invalidated
      then Some(EEvidence) else None
  }

  function AdvanceStep(item: Item, snapshot: Item, target: Phase, evidence: Evidence): Outcome {
    var error := EvidenceError(snapshot, target, evidence);
    if error.Some? then Reject(error.value)
    else if item != snapshot then Reject(EFenced)
    else Write(item.(phase := target, phaseEvidence := Some(evidence), lastRun := None, attempts := 0),
               PhaseAdvanced(target), Advanced)
  }

  // ------------------------------------------------------------ checkpoint

  /** The check made before any incident launch or checkpoint: `phase` is the next one. */
  function IncidentPhaseError(item: Item, phase: IncidentPhase): Option<Error> {
    if |item.incident| >= |INCIDENT_PHASES| then Some(EIncidentPhase)
    else if phase != INCIDENT_PHASES[|item.incident|] then Some(EIncidentPhase)
    else if item.incident != [] && item.incident[|item.incident| - 1].sourceSha != SourceSha(item.source) then
      Some(EIncidentSource)
    else None
  }

  function CheckpointError(item: Item, owner: string, phase: IncidentPhase, e: CheckpointEvidence): Option<Error> {
    var order := IncidentPhaseError(item, phase);
    if order.Some? then order
    else if item.run.Some? || item.lastRun.None? then Some(EIncidentEvidence)
    else
      var last := item.lastRun.value;
      if last.state != Terminal || last.run.owner != owner || last.run.binding.None?
         || last.run.binding.value.phase != phase || last.run.sourceSha != SourceSha(item.source)
      then Some(EIncidentEvidence)
      else if e != CheckpointEvidence(last.run.id, last.run.binding.value.intentSha, SourceSha(item.source),
                                      last.run.binding.value.policySha, "succeeded", e.resultSha, e.verifierId)
      then Some(EIncidentEvidence)
      else None
  }

  function CheckpointStep(item: Item, snapshot: Item, owner: string, phase: IncidentPhase,
                          e: CheckpointEvidence): Outcome {
    var error := CheckpointError(snapshot, owner, phase, e);
    if error.Some? then Reject(error.value)
    else if item != snapshot then Reject(EFenced)
    else
      var run := item.lastRun.value.run;
      var b := run.binding.value;
      var c := Checkpoint(phase, run.sourceSha, b.policySha, b.actionSha, b.intentSha, e.resultSha,
                          e.verifierId, b.driverId, run.id, run.epoch);
      Write(item.(incident := item.incident + [c], attempts := 0), IncidentCheckpoint(phase), Checkpointed)
  }

  // ------------------------------------------------------- all operations

  function Transition(key: Digest, current: Option<Item>, op: Op): Outcome {
    if op.ObserveSource? then ObserveStep(key, current, op.source)
    else if (op.Claim? || op.Heartbeat?) && !ValidTtl(op.ttl) then Reject(ELease)
    else if current.None? then Reject(ENotFound)
    else
      var item := current.value;
      match op
      case Claim(_, _, _, _, _, _) => ClaimStep(key, item, op)
      case Heartbeat(_, _, _, _, _) => HeartbeatStep(item, op)
      case Reconcile(snapshot, o) => ReconcileStep(item, snapshot, o)
      case Advance(snapshot, target, evidence) => AdvanceStep(item, snapshot, target, evidence)
      case SaveCheckpoint(snapshot, owner, phase, e) => CheckpointStep(item, snapshot, owner, phase, e)
  }
}
