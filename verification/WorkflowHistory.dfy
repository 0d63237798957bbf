/**
 What every legal journal trace of one item satisfies. Each lemma is an induction over
 the trace, one journal entry at a time.
 */
module WorkflowHistory {
  import opened Prelude
  import opened WorkflowItem
  import opened WorkflowStore

  // ------------------------------------------- what each journal action records

  ghost predicate SourceUpdated(key: Digest, current: Option<Item>, next: Item) {
    var s := next.source;
    && SourceKey(s.id) == key
    && (current.None? ==> next == Item(key, s, 1, RuntimePhase(s), None, 0, None, None, []))
    && (current.Some? ==>
          var was := current.value;
          var run := if was.run.Some? then Some(was.run.value.(invalidated := true)) else None;
          && was.source.revision < s.revision
          && next == Item(key, s, was.epoch + 1, if run.Some? then RetirementRequired else RuntimePhase(s),
                          run, 0, None, None, []))
  }

  ghost predicate RunStarted(key: Digest, was: Item, next: Item) {
    && was.run.None? && AdmitsWork(was.phase) && was.attempts < 3 && next.run.Some?
    && var run := next.run.value;
       && run.id == RunId(key, run.epoch) && run.epoch == was.epoch + 1
       && run.sourceSha == SourceSha(was.source) && run.handle.None? && !run.invalidated
       && (run.binding.Some? ==> BindingError(run.binding.value, key, run.sourceSha) == None)
       && next == was.(epoch := was.epoch + 1, attempts := was.attempts + 1, run := Some(run),
                       phase := if was.phase == Intake then Triage else was.phase)
  }

  ghost predicate RunRenewed(was: Item, next: Item) {
    && was.run.Some? && next.run.Some?
    && next.run.value == was.run.value.(handle := next.run.value.handle, expiresAt := next.run.value.expiresAt)
    && (was.run.value.handle.Some? ==> next.run.value.handle == was.run.value.handle)
    && next == was.(run := next.run)
  }

  ghost predicate RunEnded(was: Item, next: Item, state: Observed) {
    && was.run.Some? && next.lastRun.Some? && (state == Terminal || state == Missing)
    && var last := next.lastRun.value;
       && last.state == state && last.run == was.run.value.(handle := last.run.handle)
       && (was.run.value.handle.Some? ==> last.run.handle == was.run.value.handle)
       && next == was.(lastRun := Some(last), run := None, epoch := was.epoch + 1,
                       phase := if was.phase == RetirementRequired then RuntimePhase(was.source) else was.phase)
  }

  /** The five steps to the merge: from a phase to the next one, on one kind of evidence. */
  predicate MergeStep(phase: Phase, target: Phase, kind: string) {
    || (phase == Triage && target == Planning && kind == "triage")
    || (phase == Planning && target == Building && kind == "approved_plan")
    || (phase == Building && target == Auditing && kind == "isolated_build")
    || (phase == Auditing && target == Reviewing && kind == "six_lane_audit")
    || (phase == Reviewing && target == ReadyForMerge && kind == "independent_review")
  }

  /** Evidence for one step, about the last run of the item and its present source. */
  ghost predicate EvidenceFits(was: Item, target: Phase, e: Evidence) {
    && was.run.None? && was.lastRun.Some?
    && var last := was.lastRun.value;
       && last.state == Terminal && last.run.handle.Some? && !last.run.invalidated
       && last.run.sourceSha == SourceSha(was.source)
       && e.sourceSha == SourceSha(was.source) && e.runId == last.run.id
       && e.phase == was.phase && MergeStep(was.phase, target, e.kind)
  }

  ghost predicate EvidenceUsed(was: Item, next: Item, target: Phase) {
    && next.phaseEvidence.Some? && EvidenceFits(was, target, next.phaseEvidence.value)
    && next == was.(phase := target, phaseEvidence := next.phaseEvidence, lastRun := None, attempts := 0)
  }

  ghost predicate CheckpointSaved(was: Item, next: Item, phase: IncidentPhase) {
    && was.run.None? && was.lastRun.Some? && IncidentPhaseError(was, phase) == None
    && var last := was.lastRun.value;
       && last.state == Terminal && last.run.sourceSha == SourceSha(was.source)
       && last.run.binding.Some? && last.run.binding.value.phase == phase
       && |next.incident| == |was.incident| + 1
       && var b, c := last.run.binding.value, next.incident[|was.incident|];
          && c.phase == phase && c.sourceSha == SourceSha(was.source)
          && c.runId == last.run.id && c.ownerEpoch == last.run.epoch
          && c.driverId == b.driverId && c.policySha == b.policySha
          && c.actionSha == b.actionSha && c.intentSha == b.intentSha
          && next == was.(incident := was.incident + [c], attempts := 0)
  }

  /** One journal entry against the item before it, said by the entry's action alone. */
  ghost predicate Effect(key: Digest, current: Option<Item>, e: Entry) {
    && e.key == key
    && (!e.action.SourceObserved? ==> current.Some?)
    && match e.action
       case SourceObserved => SourceUpdated(key, current, e.item)
       case RunClaimed => RunStarted(key, current.value, e.item)
       case RunHeartbeat => RunRenewed(current.value, e.item)
       case RunHandleReconciled => RunRenewed(current.value, e.item)
       case RunRetired(state) => RunEnded(current.value, e.item, state)
       case PhaseAdvanced(target) => EvidenceUsed(current.value, e.item, target)
       case IncidentCheckpoint(phase) => CheckpointSaved(current.value, e.item, phase)
  }

  lemma WriteHasEffect(key: Digest, current: Option<Item>, op: Op, e: Entry)
    requires Writes(key, current, op, e)
    ensures Effect(key, current, e)
  {
    match op
    case ObserveSource(_) =>
    case Claim(_, _, _, _, _, _) => assert ClaimError(current.value, key, op) == None;
    case Heartbeat(_, _, _, _, _) =>
    case Reconcile(_, _) =>
    case Advance(snapshot, target, evidence) => assert EvidenceError(snapshot, target, evidence) == None;
    case SaveCheckpoint(snapshot, owner, phase, outcome) =>
      assert CheckpointError(snapshot, owner, phase, outcome) == None;
  }

  ghost predicate Trace(key: Digest, h: seq<Entry>) {
    h != [] ==>
      var n := |h| - 1;
      Trace(key, h[..n]) && Effect(key, Current(h[..n]), h[n])
  }

  lemma {:induction false} LegalIsTrace(key: Digest, h: seq<Entry>)
    requires Legal(key, h)
    ensures Trace(key, h)
  {
    if h == [] {
    } else {
      var n := |h| - 1;
      LegalIsTrace(key, h[..n]);
      var op :| Writes(key, Current(h[..n]), op, h[n]);
      WriteHasEffect(key, Current(h[..n]), op, h[n]);
    }
  }

  // ------------------------------------------------------- the item invariant

  ghost predicate RunOk(key: Digest, run: Run, source: Source) {
    && run.id == RunId(key, run.epoch)
    && (run.invalidated ==> run.sourceSha.SourceSha? && run.sourceSha.source.revision < source.revision)
    && (!run.invalidated ==> run.sourceSha == SourceSha(source))
    && (run.binding.Some? ==> BindingError(run.binding.value, key, run.sourceSha) == None)
  }

  /** Fencing: a run that is not invalidated holds the current epoch and source; a run is
      invalidated exactly while its retirement is required, and then its epoch has passed. */
  ghost predicate RunFenced(key: Digest, item: Item) {
    && (item.phase == RetirementRequired ==> item.run.Some?)
    && (item.run.Some? ==>
          var run := item.run.value;
          && RunOk(key, run, item.source)
          && (run.invalidated <==> item.phase == RetirementRequired)
          && (run.invalidated ==> run.epoch < item.epoch)
          && (!run.invalidated ==> run.epoch == item.epoch && AdmitsWork(item.phase) && item.phase != Intake))
    && (item.lastRun.Some? ==>
          && RunOk(key, item.lastRun.value.run, item.source)
          && item.lastRun.value.run.epoch < item.epoch
          && (item.lastRun.value.state == Terminal || item.lastRun.value.state == Missing))
  }

  ghost predicate PhaseOk(item: Item) {
    if AdmitsWork(item.phase) || item.phase == ReadyForMerge then item.source.state == SourceOpen
    else item.phase == RetirementRequired || item.phase == RuntimePhase(item.source)
  }

  /** Checkpoints are a prefix of the incident phases, all bound to the current source and
      to runs of strictly increasing epochs. */
  ghost predicate IncidentOk(key: Digest, item: Item) {
    var cs := item.incident;
    && |cs| <= |INCIDENT_PHASES|
    && (forall i | 0 <= i < |cs| ::
          && cs[i].phase == INCIDENT_PHASES[i]
          && cs[i].sourceSha == SourceSha(item.source)
          && cs[i].runId == RunId(key, cs[i].ownerEpoch)
          && cs[i].ownerEpoch < item.epoch)
    && (forall i, j | 0 <= i < j < |cs| :: cs[i].ownerEpoch < cs[j].ownerEpoch)
  }

  ghost predicate ItemOk(key: Digest, item: Item) {
    && item.sourceKey == key
    && SourceKey(item.source.id) == key
    && 1 <= item.epoch
    && item.attempts <= 3
    && RunFenced(key, item)
    && PhaseOk(item)
  }

  lemma EffectKeepsItemOk(key: Digest, current: Option<Item>, e: Entry)
    requires current.Some? ==> ItemOk(key, current.value)
    requires Effect(key, current, e)
    ensures ItemOk(key, e.item)
  {
  }

  lemma {:induction false} TraceItemOk(key: Digest, h: seq<Entry>)
    requires Trace(key, h) && h != []
    ensures ItemOk(key, h[|h| - 1].item)
  {
    var n := |h| - 1;
    if n > 0 { TraceItemOk(key, h[..n]); }
    EffectKeepsItemOk(key, Current(h[..n]), h[n]);
  }

  // ----------------------------------------------------------- retry accounting

  /** Claims recorded since the last source update, phase advance or incident checkpoint. */
  function ClaimsSinceReset(h: seq<Entry>): nat {
    if h == [] then 0
    else
      var n := |h| - 1;
      match h[n].action
      case SourceObserved => 0
      case PhaseAdvanced(_) => 0
      case IncidentCheckpoint(_) => 0
      case RunClaimed => ClaimsSinceReset(h[..n]) + 1
      case _ => ClaimsSinceReset(h[..n])
  }

  lemma {:induction false} AttemptsCounted(key: Digest, h: seq<Entry>)
    requires Trace(key, h) && h != []
    ensures h[|h| - 1].item.attempts == ClaimsSinceReset(h) <= 3
  {
    var n := |h| - 1;
    if n > 0 { AttemptsCounted(key, h[..n]); }
    TraceItemOk(key, h);
  }

  // ------------------------------------------------------------- phase advances

  datatype Advancement = Advancement(target: Phase, used: Option<RetiredRun>, evidence: Option<Evidence>)

  function AddAdvance(before: seq<Advancement>, current: Option<Item>, e: Entry): seq<Advancement> {
    match e.action
    case SourceObserved => []
    case PhaseAdvanced(target) =>
      before + [Advancement(target, if current.Some? then current.value.lastRun else None, e.item.phaseEvidence)]
    case _ => before
  }

  /** The phase advances since the last source update, each with the retired run it used. */
  function Advances(h: seq<Entry>): seq<Advancement> {
    if h == [] then []
    else
      var n := |h| - 1;
      AddAdvance(Advances(h[..n]), Current(h[..n]), h[n])
  }

  function AddRetirement(before: seq<RetiredRun>, e: Entry): seq<RetiredRun> {
    match e.action
    case SourceObserved => []
    case RunRetired(_) => before + (if e.item.lastRun.Some? then [e.item.lastRun.value] else [])
    case _ => before
  }

  /** The runs whose retirement was journalled since the last source update. */
  function Retirements(h: seq<Entry>): seq<RetiredRun> {
    if h == [] then []
    else AddRetirement(Retirements(h[..|h| - 1]), h[|h| - 1])
  }

  const MERGE_CHAIN: seq<Phase> := [Planning, Building, Auditing, Reviewing, ReadyForMerge]

  const EVIDENCE_KINDS: seq<string> :=
    ["triage", "approved_plan", "isolated_build", "six_lane_audit", "independent_review"]

  /** How many phases of the chain an item in this phase has passed. */
  function ChainLength(phase: Phase): nat {
    match phase
    case Planning => 1
    case Building => 2
    case Auditing => 3
    case Reviewing => 4
    case ReadyForMerge => 5
    case _ => 0
  }

  /** A run that evidence may consume: observed terminal, with a handle, on this source. */
  ghost predicate Usable(key: Digest, r: RetiredRun, source: Source) {
    && r.state == Terminal
    && r.run.handle.Some?
    && !r.run.invalidated
    && r.run.sourceSha == SourceSha(source)
    && r.run.id == RunId(key, r.run.epoch)
  }

  ghost predicate AdvancesOk(key: Digest, item: Item, adv: seq<Advancement>, rs: seq<RetiredRun>) {
    && |adv| == ChainLength(item.phase)
    && (forall i | 0 <= i < |adv| ::
          && adv[i].target == MERGE_CHAIN[i]
          && adv[i].used.Some?
          && Usable(key, adv[i].used.value, item.source)
          && adv[i].evidence.Some?
          && adv[i].evidence.value.kind == EVIDENCE_KINDS[i]
          && adv[i].evidence.value.runId == adv[i].used.value.run.id
          && adv[i].evidence.value.sourceSha == SourceSha(item.source)
          && adv[i].used.value in rs
          && adv[i].used.value.run.epoch < item.epoch
          && (item.run.Some? ==> adv[i].used.value.run.epoch < item.run.value.epoch)
          && (item.lastRun.Some? ==> adv[i].used.value.run.epoch < item.lastRun.value.run.epoch))
    && (forall i, j | 0 <= i < j < |adv| :: adv[i].used.value.run.epoch < adv[j].used.value.run.epoch)
    && (item.lastRun.Some? ==> item.lastRun.value in rs)
  }

  lemma EffectKeepsAdvances(key: Digest, current: Option<Item>, e: Entry,
                            adv: seq<Advancement>, rs: seq<RetiredRun>)
    requires Effect(key, current, e)
    requires current.Some? ==> ItemOk(key, current.value) && AdvancesOk(key, current.value, adv, rs)
    ensures AdvancesOk(key, e.item, AddAdvance(adv, current, e), AddRetirement(rs, e))
  {
    match e.action
    case SourceObserved =>
    case RunClaimed =>
    case RunHeartbeat =>
    case RunHandleReconciled =>
    case RunRetired(_) =>
    case PhaseAdvanced(_) =>
    case IncidentCheckpoint(_) =>
  }

  lemma {:induction false} AdvancesEarned(key: Digest, h: seq<Entry>)
    requires Trace(key, h) && h != []
    ensures AdvancesOk(key, h[|h| - 1].item, Advances(h), Retirements(h))
  {
    var n := |h| - 1;
    if n > 0 {
      AdvancesEarned(key, h[..n]);
      TraceItemOk(key, h[..n]);
    }
    EffectKeepsAdvances(key, Current(h[..n]), h[n], Advances(h[..n]), Retirements(h[..n]));
  }

  // ----------------------------------------------------- incident checkpoints

  function AddCheckpoint(before: nat, e: Entry): nat {
    if e.action.IncidentCheckpoint? && e.item.incident != []
    then e.item.incident[|e.item.incident| - 1].ownerEpoch else before
  }

  /** Owner epoch of the last checkpoint in the whole trace, across source updates. */
  function LastCheckpointEpoch(h: seq<Entry>): nat {
    if h == [] then 0
    else AddCheckpoint(LastCheckpointEpoch(h[..|h| - 1]), h[|h| - 1])
  }

  /** The last run never predates the last checkpoint, and equals it only by being the
      very run that was checkpointed. */
  ghost predicate CheckpointOrder(item: Item, last: nat) {
    && last < item.epoch
    && (item.incident != [] ==> item.incident[|item.incident| - 1].ownerEpoch == last)
    && (item.run.Some? ==> last < item.run.value.epoch)
    && (item.lastRun.Some? ==>
          var run := item.lastRun.value.run;
          && last <= run.epoch
          && (last == run.epoch ==>
                && item.incident != [] && run.binding.Some?
                && run.binding.value.phase == item.incident[|item.incident| - 1].phase))
  }

  lemma EffectKeepsCheckpoints(key: Digest, current: Option<Item>, e: Entry, last: nat)
    requires Effect(key, current, e) && !e.action.IncidentCheckpoint?
    requires current.None? ==> last == 0
    requires current.Some? ==>
      ItemOk(key, current.value) && IncidentOk(key, current.value) && CheckpointOrder(current.value, last)
    ensures IncidentOk(key, e.item) && CheckpointOrder(e.item, last)
  {
    match e.action
    case SourceObserved =>
    case RunClaimed =>
    case RunHeartbeat =>
    case RunHandleReconciled =>
    case RunRetired(_) =>
    case PhaseAdvanced(_) =>
  }

  lemma CheckpointExtends(key: Digest, item: Item, e: Entry, last: nat)
    requires Effect(key, Some(item), e) && e.action.IncidentCheckpoint?
    requires ItemOk(key, item) && IncidentOk(key, item) && CheckpointOrder(item, last)
    ensures IncidentOk(key, e.item) && CheckpointOrder(e.item, AddCheckpoint(last, e))
    ensures last < AddCheckpoint(last, e)
  {
    var n := |item.incident|;
    var c := e.item.incident[n];
    assert e.item.incident == item.incident + [c];
    assert IncidentPhaseError(item, c.phase) == None && c.phase == INCIDENT_PHASES[n];
    assert n > 0 ==> item.incident[n - 1].phase == INCIDENT_PHASES[n - 1] != INCIDENT_PHASES[n];
    assert last < c.ownerEpoch;
    assert n > 0 ==> item.incident[n - 1].ownerEpoch == last;
  }

  lemma {:induction false} CheckpointsOrdered(key: Digest, h: seq<Entry>)
    requires Trace(key, h) && h != []
    ensures IncidentOk(key, h[|h| - 1].item)
    ensures CheckpointOrder(h[|h| - 1].item, LastCheckpointEpoch(h))
    ensures h[|h| - 1].action.IncidentCheckpoint? ==> LastCheckpointEpoch(h[..|h| - 1]) < LastCheckpointEpoch(h)
  {
    var n := |h| - 1;
    if n > 0 {
      CheckpointsOrdered(key, h[..n]);
      TraceItemOk(key, h[..n]);
    }
    if h[n].action.IncidentCheckpoint? {
      CheckpointExtends(key, h[n - 1].item, h[n], LastCheckpointEpoch(h[..n]));
    } else {
      EffectKeepsCheckpoints(key, Current(h[..n]), h[n], LastCheckpointEpoch(h[..n]));
    }
  }
}
