/**
 When each operation of the store succeeds, and what it then leaves, said over the fields of
 the row and of the request alone. Each lemma is an if-and-only-if about one transaction on
 an arbitrary database, so on every reachable one; a refused operation changes no table.
 */
module WorkflowAdmission {
  import opened Prelude
  import opened WorkflowItem
  import opened WorkflowStore
  import opened WorkflowHistory
  import opened WorkflowSafety

  /** The database after one item is saved under one action. */
  function Saved(db: Db, key: Digest, action: Action, item: Item): Db {
    db.(items := db.items[key := item], journal := db.journal + [Entry(key, action, item)])
  }

  // ------------------------------------------------------------- deliveries

  /** What a normalised source must be: in scope, with a bounded revision, and when merged a
      pull request with a head. */
  lemma SourceAdmitted(db: Db, allowed: Scope, id: string, source: Source)
    ensures
      var r := Step(db, allowed, Deliver(id, source));
      && (r.1 == Err(ESource) <==>
            || (source.id.provider, source.id.account, source.id.repository) !in allowed
            || source.revision < 0 || source.revision >= 9223372036854775808
            || (source.state == SourceMerged && (source.id.kind == Issue || source.headSha.None?)))
      && (r.1 == Err(ESource) ==> r.0 == db)
  {
  }

  /** The answer to a delivery with a new event id: by comparison of revisions alone. */
  lemma DeliveryAnswered(db: Db, allowed: Scope, id: string, source: Source)
    requires Admissible(source, allowed) && id !in db.ingress
    ensures
      var key := SourceKey(source.id);
      var r := Step(db, allowed, Deliver(id, source));
      if key !in db.items then
        r.1.Ok? && r.1.value.status == Created && key in r.0.items && r.0.items[key].source == source
      else
        var stored := db.items[key].source;
        if source.revision < stored.revision then
          r.1 == Ok(Reply(db.items[key], Stale)) && r.0.items == db.items && r.0.journal == db.journal
        else if source.revision > stored.revision then
          r.1.Ok? && r.1.value.status == Updated && key in r.0.items && r.0.items[key].source == source
        else if source == stored then
          r.1 == Ok(Reply(db.items[key], Unchanged)) && r.0.items == db.items && r.0.journal == db.journal
        else r.1 == Err(ERevision) && r.0 == db
    ensures
      var r := Step(db, allowed, Deliver(id, source));
      r.1.Ok? ==>
        r.0.ingress == db.ingress[id := IngressRow(SourceSha(source), SourceKey(source.id), r.1.value.status)]
    ensures
      var r := Step(db, allowed, Deliver(id, source));
      r.1.Ok? && r.1.value.status in {Created, Updated} ==>
        var next := r.1.value.item;
        && r.0.items == db.items[SourceKey(source.id) := next]
        && r.0.journal == db.journal + [Entry(SourceKey(source.id), SourceObserved, next)]
        && if next.run.None? then EntryPhase(source, next.phase) else next.phase == RetirementRequired
  {
  }

  /** The phase in which an item starts on a source that no run is bound to. */
  predicate EntryPhase(source: Source, phase: Phase) {
    && (source.state == SourceOpen ==> phase == Intake)
    && (source.state == SourceClosed ==> phase == ClosedExternal)
    && (source.state == SourceMerged ==> phase == MergedExternal)
    && (source.state == SourceAbsent ==> phase == SourceMissing)
  }

  /** What the phase of a reachable item says about its source, and the other way round. */
  lemma PhaseMeaning(allowed: Scope, events: seq<Event>, key: Digest)
    requires key in Execute(allowed, events).items
    ensures
      var item := Execute(allowed, events).items[key];
      item.phase != RetirementRequired ==>
        && (item.phase == ClosedExternal <==> item.source.state == SourceClosed)
        && (item.phase == MergedExternal <==> item.source.state == SourceMerged)
        && (item.phase == SourceMissing <==> item.source.state == SourceAbsent)
        && (item.phase in {Intake, Triage, Planning, Building, Auditing, Reviewing, ReadyForMerge}
            <==> item.source.state == SourceOpen)
  {
    ReachableTrace(allowed, events, key);
    TraceItemOk(key, History(Execute(allowed, events).journal, key));
  }

  // ------------------------------------------------------------------- claim

  /** The binding repeats the source the item has and seals its own fields as one intent. */
  predicate BindingHonest(key: Digest, source: Source, b: Binding) {
    && b.sourceSha == SourceSha(source)
    && b.intentSha == IntentSha(Intent(
         sourceKey := key, sourceSha := SourceSha(source), phase := b.phase,
         driverId := b.driverId, policySha := b.policySha, actionSha := b.actionSha))
  }

  /** A claim with whatever expectations and binding, on the row alone. */
  lemma ClaimDecided(db: Db, allowed: Scope, key: Digest, owner: string, ttl: int, now: int,
                     binding: Option<Binding>, expectedEpoch: Option<nat>, expectedSource: Option<Digest>)
    requires key in db.items
    ensures
      var item := db.items[key];
      var r := Step(db, allowed, Apply(key, Claim(owner, ttl, now, binding, expectedEpoch, expectedSource)));
      && (r.1.Ok? <==>
            && 1 <= ttl <= 3600
            && item.run == None
            && item.phase in {Intake, Triage, Planning, Building, Auditing, Reviewing}
            && item.attempts < 3
            && (expectedEpoch.None? || expectedEpoch.value == item.epoch)
            && (expectedSource.None? || expectedSource.value == SourceSha(item.source))
            && (binding.None? || BindingHonest(key, item.source, binding.value)))
      && (r.1.Err? ==> r.0 == db)
      && (r.1.Ok? ==>
            var run := Run(
              id := RunId(key, item.epoch + 1), sourceSha := SourceSha(item.source), owner := owner,
              epoch := item.epoch + 1, expiresAt := now + ttl, handle := None, invalidated := false,
              binding := binding);
            var next := item.(epoch := item.epoch + 1, attempts := item.attempts + 1, run := Some(run),
                              phase := if item.phase == Intake then Triage else item.phase);
            r.1 == Ok(Reply(next, Claimed)) && r.0 == Saved(db, key, RunClaimed, next))
  {
    var op := Claim(owner, ttl, now, binding, expectedEpoch, expectedSource);
    assert ClaimError(db.items[key], key, op).None? ==>
        (binding.None? || BindingError(binding.value, key, SourceSha(db.items[key].source)).None?);
  }

  /** In a reachable store a claim is accepted exactly when no run is on the item (expired or
      not), its source is open, it is not already ready for merge, the retry budget is not
      spent, and what the caller expects and binds is what the row says. */
  lemma ClaimAdmitted(allowed: Scope, events: seq<Event>, key: Digest, owner: string, ttl: int, now: int,
                      binding: Option<Binding>, expectedEpoch: Option<nat>, expectedSource: Option<Digest>)
    requires key in Execute(allowed, events).items
    ensures
      var db := Execute(allowed, events);
      var item := db.items[key];
      Step(db, allowed, Apply(key, Claim(owner, ttl, now, binding, expectedEpoch, expectedSource))).1.Ok? <==>
      && 1 <= ttl <= 3600
      && item.run == None
      && item.source.state == SourceOpen
      && item.phase != ReadyForMerge
      && ClaimsSinceReset(History(db.journal, key)) < 3
      && (expectedEpoch.None? || expectedEpoch.value == item.epoch)
      && (expectedSource.None? || expectedSource.value == SourceSha(item.source))
      && (binding.None? || BindingHonest(key, item.source, binding.value))
  {
    var db := Execute(allowed, events);
    ClaimDecided(db, allowed, key, owner, ttl, now, binding, expectedEpoch, expectedSource);
    FencingInvariant(allowed, events, key);
    PhaseMeaning(allowed, events, key);
    RetryAccounting(allowed, events, key);
  }

  // --------------------------------------------------------------- reconcile

  /** The observation is about this run: it gives the handle the run has, or, when the run has
      none yet, the first one with the news that the action lives or has ended. */
  predicate About(run: Run, o: Observation) {
    && o.runId == run.id
    && (o.handle == run.handle || (run.handle == None && o.handle.Some? && o.state in {Live, Terminal}))
  }

  /** The handle known once the observation is in. */
  function KnownHandle(run: Run, o: Observation): Option<string> {
    if run.handle.Some? then run.handle else o.handle
  }

  /** A reconciliation of the row as it stands succeeds exactly for an observation about its
      run. Life and uncertainty keep the run and its epoch and at most bind the handle; an end
      is recorded as the observer reported it, with the handle known by then. */
  lemma ReconcileAdmitted(db: Db, allowed: Scope, key: Digest, o: Observation)
    requires key in db.items && db.items[key].run.Some?
    ensures
      var item := db.items[key];
      var run := item.run.value;
      var r := Step(db, allowed, Apply(key, Reconcile(item, o)));
      && (r.1.Ok? <==> About(run, o))
      && (r.1.Err? ==> r.1 == Err(EObservation) && r.0 == db)
      && (r.1.Ok? && o.state in {Live, Unknown} ==>
            var kept := item.(run := Some(run.(handle := KnownHandle(run, o))));
            && r.1 == Ok(Reply(kept, Kept(o.state)))
            && r.0 == if kept == item then db else Saved(db, key, RunHandleReconciled, kept))
      && (r.1.Ok? && o.state in {Terminal, Missing} ==>
            && r.1.value.status == Retired
            && var next := r.1.value.item;
               && next.run == None && next.epoch == item.epoch + 1
               && next.lastRun == Some(RetiredRun(run.(handle := KnownHandle(run, o)), o.state))
               && (item.phase != RetirementRequired ==> next.phase == item.phase)
               && (item.phase == RetirementRequired ==> EntryPhase(item.source, next.phase))
               && next.(run := item.run, epoch := item.epoch, lastRun := item.lastRun, phase := item.phase) == item
               && r.0 == Saved(db, key, RunRetired(o.state), next))
  {
  }

  /** With any other snapshot nothing changes: the caller is fenced, unless its observation
      does not even fit the run it had seen, or it had seen none. */
  lemma ReconcileFenced(db: Db, allowed: Scope, key: Digest, snapshot: Item, o: Observation)
    requires key in db.items && db.items[key] != snapshot
    ensures
      var r := Step(db, allowed, Apply(key, Reconcile(snapshot, o)));
      && r.0 == db
      && r.1 == (if snapshot.run.None? then Ok(Reply(snapshot, Idle))
                 else if About(snapshot.run.value, o) then Err(EFenced) else Err(EObservation))
  {
  }

  // ------------------------------------------------------------------ advance

  /** An advance succeeds exactly on the row as it stands, one step along the merge chain, with
      evidence of the kind of that step which names the present source, the present phase and
      the last run; that run was observed terminal, had a handle and ran on this source. The
      evidence is recorded as submitted. */
  lemma AdvanceAdmitted(db: Db, allowed: Scope, key: Digest, snapshot: Item, target: Phase, e: Evidence)
    requires key in db.items
    ensures
      var item := db.items[key];
      var r := Step(db, allowed, Apply(key, Advance(snapshot, target, e)));
      && (r.1.Ok? <==>
            && snapshot == item
            && item.run == None && item.lastRun.Some?
            && item.lastRun.value.state == Terminal
            && item.lastRun.value.run.handle.Some?
            && !item.lastRun.value.run.invalidated
            && item.lastRun.value.run.sourceSha == SourceSha(item.source)
            && e.sourceSha == SourceSha(item.source)
            && e.runId == item.lastRun.value.run.id
            && e.phase == item.phase
            && (|| (item.phase == Triage && target == Planning && e.kind == "triage")
                || (item.phase == Planning && target == Building && e.kind == "approved_plan")
                || (item.phase == Building && target == Auditing && e.kind == "isolated_build")
                || (item.phase == Auditing && target == Reviewing && e.kind == "six_lane_audit")
                || (item.phase == Reviewing && target == ReadyForMerge && e.kind == "independent_review")))
      && (r.1.Err? ==> r.0 == db)
      && (r.1.Ok? ==>
            var next := item.(phase := target, phaseEvidence := Some(e), lastRun := None, attempts := 0);
            r.1 == Ok(Reply(next, Advanced)) && r.0 == Saved(db, key, PhaseAdvanced(target), next))
  {
  }

  // --------------------------------------------------------------- checkpoint

  /** The checkpoint record of a run and its verified outcome: what was to be done is copied
      from the run's binding, what came of it from the evidence. */
  ghost predicate RecordOf(c: Checkpoint, phase: IncidentPhase, run: Run, b: Binding, e: CheckpointEvidence) {
    && c.phase == phase
    && c.sourceSha == run.sourceSha && c.runId == run.id && c.ownerEpoch == run.epoch
    && c.driverId == b.driverId && c.policySha == b.policySha && c.actionSha == b.actionSha
    && c.intentSha == b.intentSha
    && c.resultSha == e.resultSha && c.verifierId == e.verifierId
  }

  /** A checkpoint succeeds exactly on the row as it stands, for the next of the six phases,
      with no active run, after a terminal run of this owner for this phase and source, on
      evidence that names that run, its intent and policy and this source, and says
      "succeeded". */
  lemma CheckpointAdmitted(db: Db, allowed: Scope, key: Digest, snapshot: Item, owner: string,
                           phase: IncidentPhase, e: CheckpointEvidence)
    requires key in db.items
    ensures
      var item := db.items[key];
      var n := |item.incident|;
      var r := Step(db, allowed, Apply(key, SaveCheckpoint(snapshot, owner, phase, e)));
      && (r.1.Ok? <==>
            && snapshot == item
            && n < 6 && phase == [Detect, Investigate, Reproduce, Repair, Verify, Review][n]
            && (n > 0 ==> item.incident[n - 1].sourceSha == SourceSha(item.source))
            && item.run == None && item.lastRun.Some?
            && item.lastRun.value.state == Terminal
            && var run := item.lastRun.value.run;
               && run.owner == owner && run.sourceSha == SourceSha(item.source)
               && run.binding.Some? && run.binding.value.phase == phase
               && e.runId == run.id && e.sourceSha == SourceSha(item.source)
               && e.intentSha == run.binding.value.intentSha && e.policySha == run.binding.value.policySha
               && e.outcome == "succeeded")
      && (r.1.Err? ==> r.0 == db)
      && (r.1.Ok? ==>
            var run := item.lastRun.value.run;
            && r.1.value.status == Checkpointed
            && var next := r.1.value.item;
               && |next.incident| == n + 1
               && RecordOf(next.incident[n], phase, run, run.binding.value, e)
               && next == item.(incident := item.incident + [next.incident[n]], attempts := 0)
               && r.0 == Saved(db, key, IncidentCheckpoint(phase), next))
  {
    var item := db.items[key];
    if Step(db, allowed, Apply(key, SaveCheckpoint(snapshot, owner, phase, e))).1.Ok? {
      assert CheckpointError(snapshot, owner, phase, e) == None;
    } else if snapshot == item {
      assert CheckpointError(item, owner, phase, e).Some?;
    }
  }
}
