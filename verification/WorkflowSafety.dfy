/**
 Safety of whole runs: what holds in every store reachable by any sequence of
 transactions of any actors, at any interleaving and with crashes anywhere between them.
 */
module WorkflowSafety {
  import opened Prelude
  import opened WorkflowItem
  import opened WorkflowStore
  import opened WorkflowHistory

  lemma ReachableHistory(allowed: Scope, events: seq<Event>, key: Digest)
    ensures Trace(key, History(Execute(allowed, events).journal, key))
  {
    ReachableConsistent(allowed, events);
    ConsistentHistory(Execute(allowed, events), key);
  }

  lemma ConsistentHistory(db: Db, key: Digest)
    requires Consistent(db)
    ensures Trace(key, History(db.journal, key)) && Current(History(db.journal, key)) == Row(db, key)
  {
    assert Legal(key, History(db.journal, key)) && Current(History(db.journal, key)) == Row(db, key);
    LegalIsTrace(key, History(db.journal, key));
  }

  /** Every row is the last journal row of its key, and a key with journal rows has a row. */
  lemma RowIsLastJournalEntry(allowed: Scope, events: seq<Event>, key: Digest)
    ensures
      var db := Execute(allowed, events);
      var h := History(db.journal, key);
      && (key in db.items <==> h != [])
      && (key in db.items ==> h[|h| - 1].item == db.items[key] && db.items[key].sourceKey == key)
  {
    ReachableConsistent(allowed, events);
    var db := Execute(allowed, events);
    ConsistentHistory(db, key);
    KeyedRow(db, key);
  }

  lemma ReachableTrace(allowed: Scope, events: seq<Event>, key: Digest)
    requires key in Execute(allowed, events).items
    ensures
      var db := Execute(allowed, events);
      var h := History(db.journal, key);
      Trace(key, h) && h != [] && h[|h| - 1].item == db.items[key]
  {
    ReachableHistory(allowed, events, key);
    RowIsLastJournalEntry(allowed, events, key);
  }

  /** Fencing over every interleaving. A live run carries the current epoch and source
      digest; an invalidated run exists exactly while retirement is required, and its
      epoch has already passed. */
  lemma FencingInvariant(allowed: Scope, events: seq<Event>, key: Digest)
    requires key in Execute(allowed, events).items
    ensures
      var item := Execute(allowed, events).items[key];
      && (item.phase == RetirementRequired <==> item.run.Some? && item.run.value.invalidated)
      && (item.run.Some? && !item.run.value.invalidated ==>
            && item.run.value.epoch == item.epoch
            && item.run.value.sourceSha == SourceSha(item.source)
            && item.run.value.id == RunId(key, item.epoch)
            && item.source.state == SourceOpen)
      && (item.run.Some? && item.run.value.invalidated ==>
            item.run.value.epoch < item.epoch && item.run.value.sourceSha != SourceSha(item.source))
  {
    ReachableTrace(allowed, events, key);
    TraceItemOk(key, History(Execute(allowed, events).journal, key));
  }

  /** The retry budget counts exactly the claims journalled since the last source update,
      phase advance or incident checkpoint, and is never overdrawn. */
  lemma RetryAccounting(allowed: Scope, events: seq<Event>, key: Digest)
    requires key in Execute(allowed, events).items
    ensures
      var db := Execute(allowed, events);
      db.items[key].attempts == ClaimsSinceReset(History(db.journal, key)) <= 3
  {
    ReachableTrace(allowed, events, key);
    AttemptsCounted(key, History(Execute(allowed, events).journal, key));
  }

  /** An item is ready for merge only when its source is open and, since its last source
      update, the journal holds exactly the five advances in order, each on the kind of evidence
      of its phase and consuming its own run, which the evidence names and which was journalled
      as observed terminal, had a handle, and ran on this source. */
  lemma ReadyForMergeEarned(allowed: Scope, events: seq<Event>, key: Digest)
    requires key in Execute(allowed, events).items
    requires Execute(allowed, events).items[key].phase == ReadyForMerge
    ensures
      var db := Execute(allowed, events);
      var item, h := db.items[key], History(db.journal, key);
      var adv := Advances(h);
      && item.source.state == SourceOpen
      && item.run.None?
      && |adv| == 5
      && (forall i | 0 <= i < 5 ::
            && adv[i].target == [Planning, Building, Auditing, Reviewing, ReadyForMerge][i]
            && adv[i].used.Some?
            && adv[i].used.value in Retirements(h)
            && adv[i].used.value.state == Terminal
            && adv[i].used.value.run.handle.Some?
            && adv[i].used.value.run.sourceSha == SourceSha(item.source)
            && adv[i].evidence.Some?
            && adv[i].evidence.value.kind
               == ["triage", "approved_plan", "isolated_build", "six_lane_audit", "independent_review"][i]
            && adv[i].evidence.value.runId == adv[i].used.value.run.id
            && adv[i].evidence.value.sourceSha == SourceSha(item.source))
      && (forall i, j | 0 <= i < j < 5 :: adv[i].used.value.run.id != adv[j].used.value.run.id)
  {
    ReachableTrace(allowed, events, key);
    var h := History(Execute(allowed, events).journal, key);
    TraceItemOk(key, h);
    AdvancesEarned(key, h);
  }

  // ---------------------------------------------------------------- epochs

  predicate Supersedes(action: Action) {
    action.SourceObserved? || action.RunClaimed? || action.RunRetired?
  }

  ghost predicate EpochsOrdered(first: Item, last: Item) {
    && first.epoch <= last.epoch
    && (first.epoch == last.epoch ==> first.source == last.source)
    && (first.epoch == last.epoch && first.run.None? ==> last.run.None?)
  }

  lemma EffectEpochs(key: Digest, was: Item, e: Entry)
    requires Effect(key, Some(was), e)
    ensures EpochsOrdered(was, e.item)
    ensures Supersedes(e.action) ==> was.epoch < e.item.epoch
  {
  }

  /** Along a trace epochs never fall; while the epoch stands still the source stands still
      and no run appears. Every source update, claim and retirement raises the epoch. */
  lemma {:induction false} TraceEpochs(key: Digest, h: seq<Entry>, i: nat, j: nat)
    requires Trace(key, h) && i <= j < |h|
    ensures EpochsOrdered(h[i].item, h[j].item)
    ensures i < j && Supersedes(h[j].action) ==> h[i].item.epoch < h[j].item.epoch
  {
    var n := |h| - 1;
    if j < n {
      TraceEpochs(key, h[..n], i, j);
    } else if i < n {
      TraceEpochs(key, h[..n], i, n - 1);
      assert Current(h[..n]) == Some(h[n - 1].item);
      EffectEpochs(key, h[n - 1].item, h[n]);
    }
  }

  lemma {:induction false} ClaimEntry(key: Digest, h: seq<Entry>, i: nat)
    requires Trace(key, h) && i < |h| && h[i].action == RunClaimed
    ensures
      var item := h[i].item;
      item.run.Some? && item.run.value.epoch == item.epoch && item.run.value.id == RunId(key, item.epoch)
  {
    var n := |h| - 1;
    if i < n { ClaimEntry(key, h[..n], i); }
  }

  /** No two claims of one item, in the whole journal, produce the same run id. */
  lemma ClaimedRunsDistinct(allowed: Scope, events: seq<Event>, key: Digest, i: nat, j: nat)
    requires
      var h := History(Execute(allowed, events).journal, key);
      i < j < |h| && h[i].action == RunClaimed && h[j].action == RunClaimed
    ensures
      var h := History(Execute(allowed, events).journal, key);
      && h[i].item.run.Some? && h[j].item.run.Some?
      && h[i].item.run.value.epoch < h[j].item.run.value.epoch
      && h[i].item.run.value.id != h[j].item.run.value.id
  {
    ReachableHistory(allowed, events, key);
    var h := History(Execute(allowed, events).journal, key);
    ClaimEntry(key, h, i);
    ClaimEntry(key, h, j);
    TraceEpochs(key, h, i, j);
  }

  /** A run stays on the item, with its id, owner, epoch and bound handle, until retired. */
  lemma {:induction false} RunStays(key: Digest, h: seq<Entry>, i: nat, j: nat)
    requires Trace(key, h) && i <= j < |h| && h[i].item.run.Some?
    requires forall k | i < k <= j :: !h[k].action.RunRetired?
    ensures h[j].item.run.Some?
    ensures
      var first, last := h[i].item.run.value, h[j].item.run.value;
      && last.id == first.id && last.owner == first.owner && last.epoch == first.epoch
      && last.sourceSha == first.sourceSha && last.binding == first.binding
      && (first.handle.Some? ==> last.handle == first.handle)
    ensures i < j ==> !h[j].action.RunClaimed?
  {
    var n := |h| - 1;
    if j < n {
      RunStays(key, h[..n], i, j);
    } else if i < n {
      RunStays(key, h[..n], i, n - 1);
      assert Current(h[..n]) == Some(h[n - 1].item);
    }
  }

  /** The run on the item at `m` is retired at `k` with the handle it has at `m`, if any. */
  ghost predicate EndsWithHandle(h: seq<Entry>, m: nat, k: nat)
    requires m < |h| && k < |h|
  {
    && h[m].item.run.Some? && h[k].item.lastRun.Some?
    && (h[m].item.run.value.handle.Some? ==> h[k].item.lastRun.value.run.handle == h[m].item.run.value.handle)
  }

  /** The entry `h[k]` retires, as observed ended, the run claimed at `i`; whenever that run had
      a handle in between, the retired run still has it. */
  ghost predicate RetiresClaim(key: Digest, h: seq<Entry>, i: nat, k: nat)
    requires i < k < |h|
  {
    && h[k].action.RunRetired? && (h[k].action.state == Terminal || h[k].action.state == Missing)
    && h[k].item.lastRun.Some?
    && h[k].item.lastRun.value.state == h[k].action.state
    && h[k].item.lastRun.value.run.id == RunId(key, h[i].item.epoch)
    && forall m | i <= m < k :: EndsWithHandle(h, m, k)
  }

  /** Ownership passes only through an observed end: between two claims of one item lies a
      journalled retirement of the earlier run, as terminated or missing, however long its
      lease has expired; and the retired run still has every handle it was ever bound to. */
  lemma OwnershipNeedsRetirement(allowed: Scope, events: seq<Event>, key: Digest, i: nat, j: nat)
    requires
      var h := History(Execute(allowed, events).journal, key);
      i < j < |h| && h[i].action == RunClaimed && h[j].action == RunClaimed
    ensures
      var h := History(Execute(allowed, events).journal, key);
      exists k :: i < k < j && RetiresClaim(key, h, i, k)
  {
    ReachableHistory(allowed, events, key);
    ClaimsNeedRetirement(key, History(Execute(allowed, events).journal, key), i, j);
  }

  lemma ClaimsNeedRetirement(key: Digest, h: seq<Entry>, i: nat, j: nat)
    requires Trace(key, h) && i < j < |h| && h[i].action == RunClaimed && h[j].action == RunClaimed
    ensures exists k :: i < k < j && RetiresClaim(key, h, i, k)
  {
    ClaimEntry(key, h, i);
    if forall k | i < k <= j :: !h[k].action.RunRetired? {
      RunStays(key, h, i, j);
    } else {
      var k := FirstRetirement(h, i, j);
      FirstRetirementRetires(key, h, i, k);
      assert k < j && RetiresClaim(key, h, i, k);
    }
  }

  lemma FirstRetirementRetires(key: Digest, h: seq<Entry>, i: nat, k: nat)
    requires Trace(key, h) && i < k < |h| && h[k].action.RunRetired?
    requires h[i].item.run.Some? && h[i].item.run.value.id == RunId(key, h[i].item.epoch)
    requires forall m | i < m < k :: !h[m].action.RunRetired?
    ensures RetiresClaim(key, h, i, k)
  {
    ClaimedRunEnds(key, h, i, k);
    forall m | i <= m < k ensures EndsWithHandle(h, m, k) { HandleKept(key, h, i, m, k); }
  }

  lemma ClaimedRunEnds(key: Digest, h: seq<Entry>, i: nat, k: nat)
    requires Trace(key, h) && i < k < |h| && h[k].action.RunRetired? && h[i].item.run.Some?
    requires forall m | i < m < k :: !h[m].action.RunRetired?
    ensures h[k].action.state == Terminal || h[k].action.state == Missing
    ensures h[k].item.lastRun.Some? && h[k].item.lastRun.value.state == h[k].action.state
    ensures h[k].item.lastRun.value.run.id == h[i].item.run.value.id
    ensures EndsWithHandle(h, i, k)
  {
    RunStays(key, h, i, k - 1);
    RetirementEntry(key, h, k);
  }

  lemma HandleKept(key: Digest, h: seq<Entry>, i: nat, m: nat, k: nat)
    requires Trace(key, h) && i <= m < k < |h| && h[k].action.RunRetired? && h[i].item.run.Some?
    requires forall m | i < m < k :: !h[m].action.RunRetired?
    ensures EndsWithHandle(h, m, k)
  {
    RunStays(key, h, i, m);
    ClaimedRunEnds(key, h, m, k);
  }

  lemma {:induction false} FirstRetirement(h: seq<Entry>, i: nat, j: nat) returns (k: nat)
    requires i < j < |h| && exists m :: i < m <= j && h[m].action.RunRetired?
    ensures i < k <= j && h[k].action.RunRetired? && forall m | i < m < k :: !h[m].action.RunRetired?
    decreases j - i
  {
    if h[i + 1].action.RunRetired? {
      k := i + 1;
    } else {
      k := FirstRetirement(h, i + 1, j);
    }
  }

  lemma {:induction false} RetirementEntry(key: Digest, h: seq<Entry>, k: nat)
    requires Trace(key, h) && 0 < k < |h| && h[k].action.RunRetired? && h[k - 1].item.run.Some?
    ensures RunEnded(h[k - 1].item, h[k].item, h[k].action.state)
  {
    var n := |h| - 1;
    if k < n {
      RetirementEntry(key, h[..n], k);
    } else {
      assert Current(h[..n]) == Some(h[n - 1].item);
    }
  }

  lemma StepKeepsEpochs(db: Db, allowed: Scope, event: Event, key: Digest)
    requires key in db.items
    ensures
      var next := Step(db, allowed, event).0;
      && key in next.items && db.items[key].epoch <= next.items[key].epoch
      && (|next.journal| > |db.journal| && next.journal[|db.journal|].key == key
          && Supersedes(next.journal[|db.journal|].action) ==>
            next.items[key].epoch == db.items[key].epoch + 1)
  {
  }

  lemma ExecuteSplit(allowed: Scope, events: seq<Event>, event: Event)
    ensures Execute(allowed, events + [event]) == Step(Execute(allowed, events), allowed, event).0
  {
    assert (events + [event])[..|events|] == events;
  }

  lemma {:induction false} EpochsNeverFall(allowed: Scope, events: seq<Event>, more: seq<Event>, key: Digest)
    requires key in Execute(allowed, events).items
    ensures key in Execute(allowed, events + more).items
    ensures Execute(allowed, events).items[key].epoch <= Execute(allowed, events + more).items[key].epoch
  {
    if more == [] {
      assert events + more == events;
    } else {
      var n := |more| - 1;
      EpochsNeverFall(allowed, events, more[..n], key);
      assert events + more == (events + more[..n]) + [more[n]];
      ExecuteSplit(allowed, events + more[..n], more[n]);
      StepKeepsEpochs(Execute(allowed, events + more[..n]), allowed, more[n], key);
    }
  }

  /** Once a source update, a retirement or another claim has been committed after an
      owner's epoch, no heartbeat of that epoch succeeds at any later time, whatever the
      owner sends and whatever happens in between. */
  lemma SupersededOwnerStaysFenced(allowed: Scope, events: seq<Event>, event: Event, more: seq<Event>, key: Digest,
                                   owner: string, epoch: nat, ttl: int, now: int, handle: Option<string>)
    requires key in Execute(allowed, events).items
    requires epoch <= Execute(allowed, events).items[key].epoch
    requires
      var db, next := Execute(allowed, events), Execute(allowed, events + [event]);
      && |next.journal| > |db.journal|
      && next.journal[|db.journal|].key == key
      && Supersedes(next.journal[|db.journal|].action)
    ensures
      var late := Execute(allowed, events + [event] + more);
      var r := Step(late, allowed, Apply(key, Heartbeat(owner, epoch, ttl, now, handle)));
      r.0 == late && r.1.Err? && (1 <= ttl <= 3600 ==> r.1 == Err(EFenced))
  {
    ExecuteSplit(allowed, events, event);
    StepKeepsEpochs(Execute(allowed, events), allowed, event, key);
    EpochsNeverFall(allowed, events + [event], more, key);
  }

  /** A heartbeat on the row alone. */
  lemma HeartbeatDecided(db: Db, allowed: Scope, key: Digest,
                         owner: string, epoch: nat, ttl: int, now: int, handle: Option<string>)
    requires key in db.items
    ensures
      var item := db.items[key];
      var r := Step(db, allowed, Apply(key, Heartbeat(owner, epoch, ttl, now, handle)));
      && (r.1.Ok? <==>
            && 1 <= ttl <= 3600
            && item.run.Some? && !item.run.value.invalidated
            && item.run.value.owner == owner && item.run.value.epoch == epoch == item.epoch
            && now < item.run.value.expiresAt
            && (handle.None? || item.run.value.handle.None? || item.run.value.handle == handle))
      && (r.1.Err? ==> r.0 == db)
      && (r.1.Ok? ==>
            && key in r.0.items && r.0.items[key].run.Some?
            && r.0.items[key].run.value.expiresAt == now + ttl
            && r.0.items[key].run.value.handle == (if handle.Some? then handle else item.run.value.handle)
            && r.0.items[key].(run := item.run) == item
            && r.0.items[key].run.value.(expiresAt := item.run.value.expiresAt, handle := item.run.value.handle)
               == item.run.value)
  {
  }

  /** In a reachable store a heartbeat is accepted exactly from the owner of the live run, at
      its epoch, before its lease runs out and without a change of handle; it then moves the
      expiry, may bind the handle, and leaves the rest of the row alone. */
  lemma HeartbeatAdmitted(allowed: Scope, events: seq<Event>, key: Digest,
                          owner: string, epoch: nat, ttl: int, now: int, handle: Option<string>)
    requires key in Execute(allowed, events).items
    ensures
      var db := Execute(allowed, events);
      var item := db.items[key];
      var r := Step(db, allowed, Apply(key, Heartbeat(owner, epoch, ttl, now, handle)));
      && (r.1.Ok? <==>
            && 1 <= ttl <= 3600
            && item.run.Some? && item.phase != RetirementRequired
            && item.run.value.owner == owner && item.run.value.epoch == epoch
            && now < item.run.value.expiresAt
            && (handle.None? || item.run.value.handle.None? || item.run.value.handle == handle))
      && (r.1.Ok? ==>
            && key in r.0.items && r.0.items[key].run.Some?
            && r.0.items[key].run.value.expiresAt == now + ttl
            && r.0.items[key].run.value.handle == (if handle.Some? then handle else item.run.value.handle)
            && r.0.items[key].(run := item.run) == item)
  {
    HeartbeatDecided(Execute(allowed, events), allowed, key, owner, epoch, ttl, now, handle);
    FencingInvariant(allowed, events, key);
  }

  /** After a claim the claimant, and nobody else, can renew, at the new epoch and until its
      lease runs out; every earlier epoch is fenced at once. */
  lemma ClaimGrantsLease(db: Db, allowed: Scope, key: Digest, claim: Op,
                         owner: string, epoch: nat, ttl: int, now: int, handle: Option<string>)
    requires claim.Claim? && Step(db, allowed, Apply(key, claim)).1.Ok?
    ensures
      var next := Step(db, allowed, Apply(key, claim)).0;
      && key in db.items
      && (Step(next, allowed, Apply(key, Heartbeat(owner, epoch, ttl, now, handle))).1.Ok? <==>
            && 1 <= ttl <= 3600 && owner == claim.owner
            && epoch == db.items[key].epoch + 1
            && now < claim.now + claim.ttl)
  {
    var item := Step(db, allowed, Apply(key, claim)).0.items[key];
    assert item.run.Some? && item.run.value.owner == claim.owner;
  }

  // ------------------------------------------------------------ checkpoints

  /** The incident checkpoints of every reachable item are a prefix of the six phases, all
      bound to the current source, with strictly increasing epochs and distinct runs. */
  lemma CheckpointPrefix(allowed: Scope, events: seq<Event>, key: Digest)
    requires key in Execute(allowed, events).items
    ensures
      var item := Execute(allowed, events).items[key];
      var cs := item.incident;
      && |cs| <= 6
      && (forall i | 0 <= i < |cs| :: cs[i].phase == INCIDENT_PHASES[i] && cs[i].sourceSha == SourceSha(item.source))
      && (forall i, j | 0 <= i < j < |cs| :: cs[i].ownerEpoch < cs[j].ownerEpoch && cs[i].runId != cs[j].runId)
  {
    ReachableTrace(allowed, events, key);
    CheckpointsOrdered(key, History(Execute(allowed, events).journal, key));
  }

  ghost predicate CheckpointEntryOk(key: Digest, e: Entry) {
    e.action.IncidentCheckpoint? ==>
      && e.item.incident != []
      && var c := e.item.incident[|e.item.incident| - 1];
         c.runId == RunId(key, c.ownerEpoch)
  }

  lemma LastCheckpointEntry(key: Digest, h: seq<Entry>)
    requires Trace(key, h) && h != []
    ensures CheckpointEntryOk(key, h[|h| - 1])
  {
    var n := |h| - 1;
    CheckpointsOrdered(key, h);
  }

  /** Every checkpoint entry of a trace is at or below the trace's last checkpoint epoch. */
  lemma {:induction false} CheckpointBelowLast(key: Digest, h: seq<Entry>, i: nat)
    requires Trace(key, h) && i < |h| && h[i].action.IncidentCheckpoint?
    ensures CheckpointEntryOk(key, h[i])
    ensures h[i].item.incident[|h[i].item.incident| - 1].ownerEpoch <= LastCheckpointEpoch(h)
  {
    var n := |h| - 1;
    LastCheckpointEntry(key, h);
    if i < n {
      CheckpointBelowLast(key, h[..n], i);
      CheckpointsOrdered(key, h);
    }
  }

  lemma {:induction false} CheckpointPairs(key: Digest, h: seq<Entry>, i: nat, j: nat)
    requires Trace(key, h) && i < j < |h|
    requires h[i].action.IncidentCheckpoint? && h[j].action.IncidentCheckpoint?
    ensures h[i].item.incident != [] && h[j].item.incident != []
    ensures
      var c, d := h[i].item.incident[|h[i].item.incident| - 1], h[j].item.incident[|h[j].item.incident| - 1];
      c.ownerEpoch < d.ownerEpoch && c.runId != d.runId
  {
    var n := |h| - 1;
    if j < n {
      CheckpointPairs(key, h[..n], i, j);
    } else {
      LastCheckpointEntry(key, h);
      CheckpointBelowLast(key, h[..n], i);
      CheckpointsOrdered(key, h);
    }
  }

  /** Across source updates that drop the list: two checkpoint entries anywhere in one
      item's journal belong to different runs, the later with the higher epoch. */
  lemma CheckpointRunsDistinct(allowed: Scope, events: seq<Event>, key: Digest, i: nat, j: nat)
    requires
      var h := History(Execute(allowed, events).journal, key);
      i < j < |h| && h[i].action.IncidentCheckpoint? && h[j].action.IncidentCheckpoint?
    ensures
      var h := History(Execute(allowed, events).journal, key);
      && h[i].item.incident != [] && h[j].item.incident != []
      && (var c, d := h[i].item.incident[|h[i].item.incident| - 1], h[j].item.incident[|h[j].item.incident| - 1];
          c.ownerEpoch < d.ownerEpoch && c.runId != d.runId)
  {
    ReachableHistory(allowed, events, key);
    CheckpointPairs(key, History(Execute(allowed, events).journal, key), i, j);
  }
}
