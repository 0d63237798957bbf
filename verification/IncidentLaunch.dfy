/**
 Launch admission of the durable incident driver, as a protocol between any number of
 launch attempts and any other actors of the store. An attempt is a small state machine: its
 moves are the reads, each with the authorizer's verdict made beside it, the driver's lookup,
 the claim, the launch call and the heartbeat after it. Other moves interleave freely between
 them, and a crash may drop an attempt in any state. The log records the reads and verdicts,
 what reached the driver, and which claims were committed.
 */
module IncidentLaunch {
  import opened Prelude
  import opened WorkflowItem
  import opened WorkflowStore
  import opened WorkflowHistory
  import opened WorkflowSafety

  datatype Request = Request(
    key: Digest, owner: string, phase: IncidentPhase, driverId: string,
    policySha: Digest, actionSha: Digest, ttl: int)

  function IntentOf(item: Item, q: Request): Intent {
    Intent(item.sourceKey, SourceSha(item.source), q.phase, q.driverId, q.policySha, q.actionSha)
  }

  function BindingOf(item: Item, q: Request): Binding {
    Binding(q.driverId, q.phase, SourceSha(item.source), q.policySha, q.actionSha, IntentSha(IntentOf(item, q)))
  }

  // ------------------------------------------------------------ admission checks

  datatype Check = Proceed | CheckpointRequired | Refused(error: Error)

  function PreviousCheck(item: Item, q: Request, previous: RetiredRun): Check {
    var b := previous.run.binding;
    if b.Some? && b.value.phase == q.phase then
      if previous.state != Missing then CheckpointRequired
      else if b.value != BindingOf(item, q) then Refused(EIncidentIntent)
      else Proceed
    else if b.None? && item.incident == [] then Refused(EIncidentIntent)
    else Proceed
  }

  function LaunchCheck(item: Item, q: Request): Check {
    var order := IncidentPhaseError(item, q.phase);
    if order.Some? then Refused(order.value)
    else if item.run.Some? then
      if item.run.value.binding != Some(BindingOf(item, q)) then Refused(EIncidentIntent)
      else if item.run.value.owner != q.owner then Refused(EFenced)
      else Proceed
    else if item.lastRun.Some? then PreviousCheck(item, q, item.lastRun.value)
    else Proceed
  }

  /** What the driver's lookup returned; malformed answers and exceptions are `NoAnswer`. */
  datatype Answer = NoAnswer | Answer(intentSha: Digest, state: Observed, handle: Option<string>, authoritative: bool)

  /** Anything but a well-formed answer for this intent counts as unknown, and absence,
      life and termination count only when the driver vouches for them. */
  function Normalize(a: Answer, intentSha: Digest): (o: (Observed, Option<string>))
    ensures o.0 == Missing <==> a == Answer(intentSha, Missing, None, true)
    ensures o.0 == Live || o.0 == Terminal ==> a == Answer(intentSha, o.0, o.1, true) && o.1.Some?
  {
    if a.NoAnswer? || a.intentSha != intentSha then (Unknown, None)
    else if a.state == Missing && a.handle.Some? then (Unknown, None)
    else if (a.state == Live || a.state == Terminal) && a.handle.None? then (Unknown, None)
    else if a.state != Unknown && !a.authoritative then (Unknown, None)
    else (a.state, a.handle)
  }

  // -------------------------------------------------------------- the protocol

  /** Where in the log an attempt first read the item, looked up its intent, and read the
      item again. */
  datatype Trail = Trail(startAt: nat, lookupAt: nat, recheckAt: nat)

  /** `readAt`, `trail` and the other positions are history variables: where in the item's
      journal and in the log the attempt's facts were established. */
  datatype Attempt =
    | Prepared(q: Request, item: Item, readAt: nat, startAt: nat)
    | LookedUp(q: Request, item: Item, readAt: nat, startAt: nat, lookupAt: nat,
               state: Observed, reported: Option<string>)
    | Reconciling(q: Request, item: Item, state: Observed, reported: Option<string>)
    | Admitted(q: Request, item: Item, readAt: nat, trail: Trail)
    | Holding(q: Request, item: Item, claimed: Item, trail: Trail, claimAt: nat)
    | Cleared(q: Request, item: Item, claimed: Item, trail: Trail, claimAt: nat, clearAt: nat)
    | Launching(q: Request, claimed: Item, handle: string)

  /** `CheckEffect` is a read of the item's row together with the authorizer's verdict. */
  datatype LogEntry =
    | CheckEffect(pid: nat, row: Option<Item>, permitted: bool)
    | LookupEffect(pid: nat, intentSha: Digest, answer: Answer)
    | ClaimEffect(pid: nat, q: Request, observed: Item, before: Item, claimed: Item)
    | LaunchEffect(pid: nat, runId: Digest, intentSha: Digest, trail: Trail, claimAt: nat, clearAt: nat)

  datatype System = System(db: Db, attempts: map<nat, Attempt>, started: set<nat>, log: seq<LogEntry>)

  /** The booleans are the verdicts of the caller authorizer and the driver registry. */
  datatype Move =
    | Other(event: Event)
    | Start(pid: nat, q: Request, permitted: bool)
    | Lookup(pid: nat, answer: Answer)
    | Recheck(pid: nat, permitted: bool)
    | TakeClaim(pid: nat, now: int)
    | ClearLaunch(pid: nat, permitted: bool)
    | Launch(pid: nat, handle: Option<string>)
    | Confirm(pid: nat, now: int)
    | ReconcileActive(pid: nat, snapshot: Item)
    | Crash(pid: nat)

  const INITIAL := System(EMPTY, map[], {}, [])

  function Drop(s: System, pid: nat): System {
    s.(attempts := s.attempts - {pid})
  }

  function Put(s: System, pid: nat, a: Attempt): System {
    s.(attempts := s.attempts[pid := a])
  }

  function StartMove(s: System, pid: nat, q: Request, permitted: bool): System {
    if pid in s.started || q.key !in s.db.items then s
    else
      var item := s.db.items[q.key];
      var h := History(s.db.journal, q.key);
      if !permitted || LaunchCheck(item, q) != Proceed || h == [] then s
      else
        Put(s, pid, Prepared(q, item, |h| - 1, |s.log|))
        .(started := s.started + {pid}, log := s.log + [CheckEffect(pid, Some(item), permitted)])
  }

  function LookupMove(s: System, pid: nat, answer: Answer): System {
    if pid !in s.attempts || !s.attempts[pid].Prepared? then s
    else
      var a := s.attempts[pid];
      var intentSha := IntentSha(IntentOf(a.item, a.q));
      var (state, handle) := Normalize(answer, intentSha);
      Put(s, pid, LookedUp(a.q, a.item, a.readAt, a.startAt, |s.log|, state, handle))
      .(log := s.log + [LookupEffect(pid, intentSha, answer)])
  }

  /** After the lookup: the row must still be the one read, the caller still permitted, and
      only an authoritative absence with no active run leads on to a claim. */
  function RecheckMove(s: System, pid: nat, permitted: bool): System {
    if pid !in s.attempts || !s.attempts[pid].LookedUp? then s
    else
      var a := s.attempts[pid];
      var row := Row(s.db, a.q.key);
      var next := s.(log := s.log + [CheckEffect(pid, row, permitted)]);
      if row != Some(a.item) || !permitted || a.state == Unknown then Drop(next, pid)
      else if a.item.run.Some? then Put(next, pid, Reconciling(a.q, a.item, a.state, a.reported))
      else if a.state != Missing then Drop(next, pid)
      else Put(next, pid, Admitted(a.q, a.item, a.readAt, Trail(a.startAt, a.lookupAt, |s.log|)))
  }

  /** With an active run the lookup result is fed to reconciliation, which reads again. */
  function ReconcileMove(s: System, allowed: Scope, pid: nat, snapshot: Item): System {
    if pid !in s.attempts || !s.attempts[pid].Reconciling? || s.attempts[pid].item.run.None? then s
    else
      var a := s.attempts[pid];
      var run := a.item.run.value;
      var o := Observation(run.id, if a.reported.Some? then a.reported else run.handle, a.state);
      Drop(s.(db := Step(s.db, allowed, Apply(a.q.key, Reconcile(snapshot, o))).0), pid)
  }

  function ClaimMove(s: System, allowed: Scope, pid: nat, now: int): System {
    if pid !in s.attempts || !s.attempts[pid].Admitted? then s
    else
      var a := s.attempts[pid];
      var op := Claim(a.q.owner, a.q.ttl, now, Some(BindingOf(a.item, a.q)), Some(a.item.epoch),
                      Some(SourceSha(a.item.source)));
      var (db, reply) := Step(s.db, allowed, Apply(a.q.key, op));
      if reply.Err? || a.q.key !in s.db.items then Drop(s, pid)
      else
        Put(s.(db := db), pid, Holding(a.q, a.item, reply.value.item, a.trail, |s.log|))
        .(log := s.log + [ClaimEffect(pid, a.q, a.item, s.db.items[a.q.key], reply.value.item)])
  }

  function ClearMove(s: System, pid: nat, permitted: bool): System {
    if pid !in s.attempts || !s.attempts[pid].Holding? then s
    else
      var a := s.attempts[pid];
      var row := Row(s.db, a.q.key);
      var next := s.(log := s.log + [CheckEffect(pid, row, permitted)]);
      if !permitted || row != Some(a.claimed) then Drop(next, pid)
      else Put(next, pid, Cleared(a.q, a.item, a.claimed, a.trail, a.claimAt, |s.log|))
  }

  /** The effect a launch call of this attempt leaves in the log. */
  function LaunchOf(pid: nat, a: Attempt): LogEntry
    requires a.Cleared? && a.claimed.run.Some?
  {
    LaunchEffect(pid, a.claimed.run.value.id, IntentSha(IntentOf(a.item, a.q)), a.trail, a.claimAt, a.clearAt)
  }

  /** The call reaches the driver whether or not it then raises (no handle). */
  function LaunchMove(s: System, pid: nat, handle: Option<string>): System {
    if pid !in s.attempts || !s.attempts[pid].Cleared? || s.attempts[pid].claimed.run.None? then s
    else
      var a := s.attempts[pid];
      var next := s.(log := s.log + [LaunchOf(pid, a)]);
      if handle.None? then Drop(next, pid) else Put(next, pid, Launching(a.q, a.claimed, handle.value))
  }

  function ConfirmMove(s: System, allowed: Scope, pid: nat, now: int): System {
    if pid !in s.attempts || !s.attempts[pid].Launching? || s.attempts[pid].claimed.run.None? then s
    else
      var a := s.attempts[pid];
      var op := Heartbeat(a.q.owner, a.claimed.run.value.epoch, a.q.ttl, now, Some(a.handle));
      Drop(s.(db := Step(s.db, allowed, Apply(a.q.key, op)).0), pid)
  }

  function Next(s: System, allowed: Scope, move: Move): System {
    match move
    case Other(event) => s.(db := Step(s.db, allowed, event).0)
    case Start(pid, q, permitted) => StartMove(s, pid, q, permitted)
    case Lookup(pid, answer) => LookupMove(s, pid, answer)
    case Recheck(pid, permitted) => RecheckMove(s, pid, permitted)
    case TakeClaim(pid, now) => ClaimMove(s, allowed, pid, now)
    case ClearLaunch(pid, permitted) => ClearMove(s, pid, permitted)
    case Launch(pid, handle) => LaunchMove(s, pid, handle)
    case Confirm(pid, now) => ConfirmMove(s, allowed, pid, now)
    case ReconcileActive(pid, snapshot) => ReconcileMove(s, allowed, pid, snapshot)
    case Crash(pid) => Drop(s, pid)
  }

  function Behave(allowed: Scope, moves: seq<Move>): System {
    if moves == [] then INITIAL
    else Next(Behave(allowed, moves[..|moves| - 1]), allowed, moves[|moves| - 1])
  }

  // ------------------------------------------- why the claim is still the right one

  ghost predicate SameFooting(seen: Item, now: Item) {
    && now.source == seen.source && now.incident == seen.incident && now.run.None?
    && (now.lastRun == seen.lastRun || now.lastRun.None?)
  }

  /** Without a run only advances and checkpoints leave the epoch alone; and the one
      checkpoint that could be added is of the requested phase, while the launch check
      excluded a last run that could carry it. */
  lemma IdleEffectKeepsFooting(key: Digest, seen: Item, now: Item, e: Entry, q: Request)
    requires LaunchCheck(seen, q) == Proceed && seen.run.None? && SameFooting(seen, now)
    requires Effect(key, Some(now), e) && e.item.epoch == now.epoch
    ensures SameFooting(seen, e.item)
  {
    match e.action
    case SourceObserved =>
    case RunClaimed =>
    case RunHeartbeat =>
    case RunHandleReconciled =>
    case RunRetired(_) =>
    case PhaseAdvanced(_) =>
    case IncidentCheckpoint(_) =>
  }

  /** While the epoch stands, an item that passed the launch check keeps its checkpoints,
      although advances and checkpoints do not bump the epoch. */
  lemma {:induction false} PhaseStillNext(key: Digest, h: seq<Entry>, i: nat, q: Request)
    requires Trace(key, h) && i < |h|
    requires LaunchCheck(h[i].item, q) == Proceed && h[i].item.run.None?
    requires h[|h| - 1].item.epoch == h[i].item.epoch
    ensures SameFooting(h[i].item, h[|h| - 1].item)
  {
    var n := |h| - 1;
    if i < n {
      TraceEpochs(key, h, i, n - 1);
      TraceEpochs(key, h, n - 1, n);
      PhaseStillNext(key, h[..n], i, q);
      IdleEffectKeepsFooting(key, h[i].item, h[n - 1].item, h[n], q);
    }
  }

  // ------------------------------------------------------------------ invariant

  ghost predicate SeenAt(db: Db, q: Request, item: Item, readAt: nat) {
    var h := History(db.journal, q.key);
    && readAt < |h| && h[readAt].item == item
    && LaunchCheck(item, q) == Proceed
    && item.sourceKey == q.key
  }

  ghost predicate MissingAt(log: seq<LogEntry>, pid: nat, intentSha: Digest, lookupAt: nat) {
    lookupAt < |log| && log[lookupAt] == LookupEffect(pid, intentSha, Answer(intentSha, Missing, None, true))
  }

  ghost predicate ClaimedAt(log: seq<LogEntry>, pid: nat, q: Request, item: Item, claimed: Item, claimAt: nat) {
    && claimAt < |log|
    && log[claimAt].ClaimEffect?
    && log[claimAt] == ClaimEffect(pid, q, item, log[claimAt].before, claimed)
  }

  ghost predicate NoLaunch(log: seq<LogEntry>, pid: nat) {
    forall k | 0 <= k < |log| && log[k].LaunchEffect? :: log[k].pid != pid
  }

  ghost predicate NoClaim(log: seq<LogEntry>, pid: nat) {
    forall k | 0 <= k < |log| && log[k].ClaimEffect? :: log[k].pid != pid
  }

  /** The row of the item was read as `item` and the caller was permitted. */
  ghost predicate CheckedAt(log: seq<LogEntry>, pid: nat, item: Item, at: nat) {
    at < |log| && log[at] == CheckEffect(pid, Some(item), true)
  }

  /** The item was read twice with the same content, and between the two reads the driver
      vouched that nothing runs for the intent. */
  ghost predicate TrailOk(log: seq<LogEntry>, pid: nat, q: Request, item: Item, trail: Trail) {
    && trail.startAt < trail.lookupAt < trail.recheckAt
    && CheckedAt(log, pid, item, trail.startAt)
    && MissingAt(log, pid, IntentSha(IntentOf(item, q)), trail.lookupAt)
    && CheckedAt(log, pid, item, trail.recheckAt)
  }

  ghost predicate AttemptOk(s: System, pid: nat, a: Attempt) {
    match a
    case Prepared(q, item, readAt, startAt) =>
      && SeenAt(s.db, q, item, readAt) && NoClaim(s.log, pid) && NoLaunch(s.log, pid)
      && CheckedAt(s.log, pid, item, startAt)
    case LookedUp(q, item, readAt, startAt, lookupAt, state, reported) =>
      && SeenAt(s.db, q, item, readAt) && NoClaim(s.log, pid) && NoLaunch(s.log, pid)
      && CheckedAt(s.log, pid, item, startAt) && startAt < lookupAt < |s.log|
      && (state == Missing ==> MissingAt(s.log, pid, IntentSha(IntentOf(item, q)), lookupAt))
    case Admitted(q, item, readAt, trail) =>
      && SeenAt(s.db, q, item, readAt) && NoClaim(s.log, pid) && NoLaunch(s.log, pid)
      && item.run.None?
      && TrailOk(s.log, pid, q, item, trail)
    case Holding(q, item, claimed, trail, claimAt) =>
      && TrailOk(s.log, pid, q, item, trail) && trail.recheckAt < claimAt
      && ClaimedAt(s.log, pid, q, item, claimed, claimAt) && NoLaunch(s.log, pid)
    case Cleared(q, item, claimed, trail, claimAt, clearAt) =>
      && TrailOk(s.log, pid, q, item, trail) && trail.recheckAt < claimAt < clearAt
      && ClaimedAt(s.log, pid, q, item, claimed, claimAt) && NoLaunch(s.log, pid)
      && CheckedAt(s.log, pid, claimed, clearAt)
    case Reconciling(q, item, state, reported) => true
    case Launching(q, claimed, handle) => true
  }

  /** A committed claim: one epoch above the observed item, which had no run, with the
      requested phase still the next uncheckpointed one on the same source. */
  ghost predicate ClaimOk(c: LogEntry)
    requires c.ClaimEffect?
  {
    && c.observed.run.None? && c.before.run.None?
    && c.before.epoch == c.observed.epoch
    && c.before.source == c.observed.source
    && c.before.incident == c.observed.incident
    && IncidentPhaseError(c.before, c.q.phase) == None
    && c.claimed.epoch == c.observed.epoch + 1
    && c.claimed.run.Some?
    && c.claimed.run.value.epoch == c.claimed.epoch
    && c.claimed.run.value.id == RunId(c.q.key, c.claimed.epoch)
    && c.claimed.run.value.binding == Some(BindingOf(c.observed, c.q))
  }

  /** The claim is in the store's journal. */
  ghost predicate Journalled(db: Db, c: LogEntry)
    requires c.ClaimEffect?
  {
    Entry(c.q.key, RunClaimed, c.claimed) in db.journal
  }

  ghost predicate LogOk(s: System) {
    && (forall k | 0 <= k < |s.log| && s.log[k].ClaimEffect? ::
          var c := s.log[k];
          && ClaimOk(c) && c.pid in s.started
          && c.q.key in s.db.items && c.claimed.epoch <= s.db.items[c.q.key].epoch
          && Journalled(s.db, c))
    && (forall j, k | 0 <= j < k < |s.log| && s.log[j].ClaimEffect? && s.log[k].ClaimEffect? ::
          && s.log[j].pid != s.log[k].pid
          && s.log[j].claimed.run.value.id != s.log[k].claimed.run.value.id)
  }

  /** Every launch names its trail, its claim and the check after the claim, in that order. */
  ghost predicate LaunchOk(log: seq<LogEntry>, k: nat)
    requires k < |log| && log[k].LaunchEffect?
  {
    var e := log[k];
    && e.trail.recheckAt < e.claimAt < e.clearAt < k
    && log[e.claimAt].ClaimEffect?
    && var c := log[e.claimAt];
       && c.pid == e.pid
       && TrailOk(log, e.pid, c.q, c.observed, e.trail)
       && CheckedAt(log, e.pid, c.claimed, e.clearAt)
       && c.claimed.run.Some?
       && c.claimed.run.value.id == e.runId
       && IntentSha(IntentOf(c.observed, c.q)) == e.intentSha
  }

  ghost predicate LaunchesJustified(s: System) {
    forall k | 0 <= k < |s.log| && s.log[k].LaunchEffect? :: LaunchOk(s.log, k) && s.log[k].pid in s.started
  }

  ghost predicate LaunchesOnce(log: seq<LogEntry>) {
    forall j, k | 0 <= j < k < |log| && log[j].LaunchEffect? && log[k].LaunchEffect? :: log[j].pid != log[k].pid
  }

  ghost predicate LaunchesOk(s: System) {
    LaunchesJustified(s) && LaunchesOnce(s.log)
  }

  ghost predicate AttemptsOk(s: System) {
    forall pid | pid in s.attempts :: pid in s.started && AttemptOk(s, pid, s.attempts[pid])
  }

  ghost predicate Invariant(s: System) {
    && Consistent(s.db)
    && AttemptsOk(s)
    && LogOk(s)
    && LaunchesOk(s)
  }

  // --------------------------------------------------------------- preservation

  lemma HistoryGrows(journal: seq<Entry>, e: Entry, key: Digest)
    ensures History(journal, key) <= History(journal + [e], key)
  {
    HistoryAppend(journal, e, key);
  }

  /** A store step keeps what attempts have read, and never lowers an epoch. */
  lemma StepFrame(db: Db, allowed: Scope, event: Event, key: Digest)
    ensures History(db.journal, key) <= History(Step(db, allowed, event).0.journal, key)
    ensures key in db.items ==>
      var next := Step(db, allowed, event).0;
      key in next.items && db.items[key].epoch <= next.items[key].epoch
  {
    var next := Step(db, allowed, event).0;
    if key in db.items { StepKeepsEpochs(db, allowed, event, key); }
    if next.journal != db.journal {
      var e := next.journal[|db.journal|];
      assert next.journal == db.journal + [e];
      HistoryGrows(db.journal, e, key);
    }
  }

  ghost predicate DbGrew(db: Db, next: Db) {
    && db.journal <= next.journal
    && (forall key :: History(db.journal, key) <= History(next.journal, key))
    && (forall key | key in db.items :: key in next.items && db.items[key].epoch <= next.items[key].epoch)
  }

  lemma StepGrows(db: Db, allowed: Scope, event: Event)
    ensures DbGrew(db, Step(db, allowed, event).0)
  {
    StepExtendsJournal(db, allowed, event);
    forall key
      ensures History(db.journal, key) <= History(Step(db, allowed, event).0.journal, key)
      ensures key in db.items ==>
        var next := Step(db, allowed, event).0;
        key in next.items && db.items[key].epoch <= next.items[key].epoch
    {
      StepFrame(db, allowed, event, key);
    }
  }

  /** An attempt is not disturbed by store growth or by log entries of other attempts. */
  lemma AttemptFrame(s: System, t: System, pid: nat, a: Attempt)
    requires AttemptOk(s, pid, a)
    requires DbGrew(s.db, t.db)
    requires s.log <= t.log
    requires forall k | |s.log| <= k < |t.log| && (t.log[k].ClaimEffect? || t.log[k].LaunchEffect?) ::
      t.log[k].pid != pid
    ensures AttemptOk(t, pid, a)
  {
  }

  /** Claims in the log stay sound while nothing but lookups and launches is added. */
  lemma LogFrame(s: System, t: System)
    requires LogOk(s) && DbGrew(s.db, t.db) && s.log <= t.log && s.started <= t.started
    requires forall k | |s.log| <= k < |t.log| :: !t.log[k].ClaimEffect?
    ensures LogOk(t)
  {
  }

  lemma LaunchOkExtends(log: seq<LogEntry>, longer: seq<LogEntry>, k: nat)
    requires log <= longer && k < |log| && log[k].LaunchEffect? && LaunchOk(log, k)
    ensures LaunchOk(longer, k)
  {
    var e := log[k];
    assert longer[e.claimAt] == log[e.claimAt] && longer[k] == e;
  }

  lemma LaunchesFrame(s: System, t: System)
    requires LaunchesOk(s) && s.log <= t.log && s.started <= t.started
    requires forall k | |s.log| <= k < |t.log| :: !t.log[k].LaunchEffect?
    ensures LaunchesOk(t)
  {
    forall k | 0 <= k < |t.log| && t.log[k].LaunchEffect?
      ensures LaunchOk(t.log, k) && t.log[k].pid in t.started
    {
      LaunchOkExtends(s.log, t.log, k);
    }
  }

  /** A store step by anyone, reads, lookups, and the loss or sound change of some attempts. */
  lemma QuietStep(s: System, t: System)
    requires Invariant(s)
    requires Consistent(t.db) && DbGrew(s.db, t.db) && s.started <= t.started
    requires s.log <= t.log && forall k | |s.log| <= k < |t.log| :: t.log[k].LookupEffect? || t.log[k].CheckEffect?
    requires forall pid | pid in t.attempts ::
      && pid in t.started
      && (AttemptOk(t, pid, t.attempts[pid]) || (pid in s.attempts && t.attempts[pid] == s.attempts[pid]))
    ensures Invariant(t)
  {
    forall pid | pid in t.attempts ensures AttemptOk(t, pid, t.attempts[pid]) {
      if !AttemptOk(t, pid, t.attempts[pid]) { AttemptFrame(s, t, pid, t.attempts[pid]); }
    }
    LogFrame(s, t);
    LaunchesFrame(s, t);
  }

  lemma DbSame(db: Db)
    ensures DbGrew(db, db)
  {
  }

  lemma StartKeeps(s: System, pid: nat, q: Request, permitted: bool)
    requires Invariant(s)
    ensures Invariant(StartMove(s, pid, q, permitted))
  {
    DbSame(s.db);
    var t := StartMove(s, pid, q, permitted);
    if t != s {
      var h := History(s.db.journal, q.key);
      assert Legal(q.key, h) && Current(h) == Row(s.db, q.key);
      LegalIsTrace(q.key, h);
      TraceItemOk(q.key, h);
      assert AttemptOk(t, pid, t.attempts[pid]);
      QuietStep(s, t);
    }
  }

  lemma LookupKeeps(s: System, pid: nat, answer: Answer)
    requires Invariant(s)
    ensures Invariant(LookupMove(s, pid, answer))
  {
    DbSame(s.db);
    var t := LookupMove(s, pid, answer);
    if pid in s.attempts && s.attempts[pid].Prepared? {
      AttemptFrame(s, t, pid, s.attempts[pid]);
      assert AttemptOk(t, pid, t.attempts[pid]);
      QuietStep(s, t);
    }
  }

  lemma RecheckedOk(s: System, pid: nat, permitted: bool)
    requires pid in s.attempts && s.attempts[pid].LookedUp? && AttemptOk(s, pid, s.attempts[pid])
    ensures
      var t := RecheckMove(s, pid, permitted);
      && t.db == s.db && t.started == s.started
      && t.log == s.log + [CheckEffect(pid, Row(s.db, s.attempts[pid].q.key), permitted)]
      && t.attempts.Keys <= s.attempts.Keys
      && (forall p | p in t.attempts && p != pid :: t.attempts[p] == s.attempts[p])
      && (pid in t.attempts ==> AttemptOk(t, pid, t.attempts[pid]))
  {
  }

  lemma RecheckKeeps(s: System, pid: nat, permitted: bool)
    requires Invariant(s)
    ensures Invariant(RecheckMove(s, pid, permitted))
  {
    if pid in s.attempts && s.attempts[pid].LookedUp? {
      DbSame(s.db);
      RecheckedOk(s, pid, permitted);
      QuietStep(s, RecheckMove(s, pid, permitted));
    }
  }

  lemma ReconcileKeeps(s: System, allowed: Scope, pid: nat, snapshot: Item)
    requires Invariant(s)
    ensures Invariant(ReconcileMove(s, allowed, pid, snapshot))
  {
    var t := ReconcileMove(s, allowed, pid, snapshot);
    if pid in s.attempts && s.attempts[pid].Reconciling? && s.attempts[pid].item.run.Some? {
      var a := s.attempts[pid];
      var run := a.item.run.value;
      var o := Observation(run.id, if a.reported.Some? then a.reported else run.handle, a.state);
      StepGrows(s.db, allowed, Apply(a.q.key, Reconcile(snapshot, o)));
      StepConsistent(s.db, allowed, Apply(a.q.key, Reconcile(snapshot, o)));
      QuietStep(s, t);
    }
  }

  lemma ConfirmKeeps(s: System, allowed: Scope, pid: nat, now: int)
    requires Invariant(s)
    ensures Invariant(ConfirmMove(s, allowed, pid, now))
  {
    var t := ConfirmMove(s, allowed, pid, now);
    if pid in s.attempts && s.attempts[pid].Launching? && s.attempts[pid].claimed.run.Some? {
      var a := s.attempts[pid];
      var op := Heartbeat(a.q.owner, a.claimed.run.value.epoch, a.q.ttl, now, Some(a.handle));
      StepGrows(s.db, allowed, Apply(a.q.key, op));
      StepConsistent(s.db, allowed, Apply(a.q.key, op));
      QuietStep(s, t);
    }
  }

  lemma FootingAtClaim(db: Db, q: Request, item: Item, readAt: nat)
    requires Consistent(db) && SeenAt(db, q, item, readAt) && item.run.None?
    requires q.key in db.items && db.items[q.key].epoch == item.epoch
    ensures SameFooting(item, db.items[q.key]) && IncidentPhaseError(db.items[q.key], q.phase) == None
  {
    var h := History(db.journal, q.key);
    ConsistentHistory(db, q.key);
    PhaseStillNext(q.key, h, readAt, q);
  }

  /** The claim commits only on the observed epoch and source; then the phase is still next. */
  lemma ClaimIsOk(db: Db, allowed: Scope, q: Request, item: Item, readAt: nat, now: int, pid: nat)
    requires Consistent(db) && SeenAt(db, q, item, readAt) && item.run.None?
    ensures
      var op := Claim(q.owner, q.ttl, now, Some(BindingOf(item, q)), Some(item.epoch), Some(SourceSha(item.source)));
      var r := Step(db, allowed, Apply(q.key, op));
      r.1.Ok? ==>
        && q.key in db.items
        && ClaimOk(ClaimEffect(pid, q, item, db.items[q.key], r.1.value.item))
        && r.0.items[q.key] == r.1.value.item
        && r.1.value.item.epoch == db.items[q.key].epoch + 1
        && Entry(q.key, RunClaimed, r.1.value.item) in r.0.journal
  {
    if q.key in db.items && db.items[q.key].epoch == item.epoch { FootingAtClaim(db, q, item, readAt); }
  }

  lemma ClaimKeeps(s: System, allowed: Scope, pid: nat, now: int)
    requires Invariant(s)
    ensures Invariant(ClaimMove(s, allowed, pid, now))
  {
    var t := ClaimMove(s, allowed, pid, now);
    if pid in s.attempts && s.attempts[pid].Admitted? {
      var a := s.attempts[pid];
      assert AttemptOk(s, pid, a);
      var op := Claim(a.q.owner, a.q.ttl, now, Some(BindingOf(a.item, a.q)), Some(a.item.epoch),
                      Some(SourceSha(a.item.source)));
      var reply := Step(s.db, allowed, Apply(a.q.key, op)).1;
      StepGrows(s.db, allowed, Apply(a.q.key, op));
      StepConsistent(s.db, allowed, Apply(a.q.key, op));
      DbSame(s.db);
      ClaimIsOk(s.db, allowed, a.q, a.item, a.readAt, now, pid);
      if reply.Err? {
        QuietStep(s, t);
      } else {
        ClaimCommitted(s, t, pid, a);
      }
    }
  }

  /** What a claim changes: one log entry, and the state of the attempt that made it. */
  ghost predicate OnlyClaimed(s: System, t: System, pid: nat, a: Attempt)
    requires a.Admitted?
  {
    && DbGrew(s.db, t.db) && t.started == s.started
    && |t.log| == |s.log| + 1 && s.log <= t.log && t.log[|s.log|].ClaimEffect?
    && var c := t.log[|s.log|];
       && ClaimOk(c) && c.pid == pid && c.q == a.q && c.observed == a.item
       && c.q.key in s.db.items && c.q.key in t.db.items
       && c.claimed.epoch == s.db.items[c.q.key].epoch + 1 <= t.db.items[c.q.key].epoch
       && Journalled(t.db, c)
       && t.attempts == s.attempts[pid := Holding(a.q, a.item, c.claimed, a.trail, |s.log|)]
  }

  lemma ClaimCommitted(s: System, t: System, pid: nat, a: Attempt)
    requires Invariant(s) && Consistent(t.db)
    requires pid in s.attempts && a == s.attempts[pid] && a.Admitted? && OnlyClaimed(s, t, pid, a)
    ensures Invariant(t)
  {
    ClaimLogKept(s, t, pid, a);
    LaunchesFrame(s, t);
    ClaimAttemptsOk(s, t, pid, a);
  }

  lemma ClaimLogKept(s: System, t: System, pid: nat, a: Attempt)
    requires LogOk(s) && AttemptsOk(s)
    requires pid in s.attempts && a == s.attempts[pid] && a.Admitted? && OnlyClaimed(s, t, pid, a)
    ensures LogOk(t)
  {
    assert AttemptOk(s, pid, a);
    ClaimLogOk(s, t, pid);
  }

  lemma ClaimAttemptsOk(s: System, t: System, pid: nat, a: Attempt)
    requires AttemptsOk(s) && DbGrew(s.db, t.db) && t.started == s.started
    requires pid in s.attempts && a == s.attempts[pid] && a.Admitted?
    requires |t.log| == |s.log| + 1 && s.log <= t.log && t.log[|s.log|].ClaimEffect?
    requires t.log[|s.log|].pid == pid && t.log[|s.log|].q == a.q && t.log[|s.log|].observed == a.item
    requires t.attempts == s.attempts[pid := Holding(a.q, a.item, t.log[|s.log|].claimed, a.trail, |s.log|)]
    ensures AttemptsOk(t)
  {
    NowHolding(s, t, pid, a);
    OthersUndisturbed(s, t, pid);
  }

  lemma NowHolding(s: System, t: System, pid: nat, a: Attempt)
    requires AttemptOk(s, pid, a) && a.Admitted?
    requires |t.log| == |s.log| + 1 && s.log <= t.log && t.log[|s.log|].ClaimEffect?
    requires t.log[|s.log|].pid == pid && t.log[|s.log|].q == a.q && t.log[|s.log|].observed == a.item
    ensures AttemptOk(t, pid, Holding(a.q, a.item, t.log[|s.log|].claimed, a.trail, |s.log|))
  {
  }

  lemma ClaimLogOk(s: System, t: System, pid: nat)
    requires LogOk(s) && NoClaim(s.log, pid) && pid in s.started && t.started == s.started
    requires DbGrew(s.db, t.db)
    requires |t.log| == |s.log| + 1 && s.log <= t.log && t.log[|s.log|].ClaimEffect?
    requires
      var c := t.log[|s.log|];
      && ClaimOk(c) && c.pid == pid && c.q.key in s.db.items && c.q.key in t.db.items
      && c.claimed.epoch == s.db.items[c.q.key].epoch + 1 <= t.db.items[c.q.key].epoch
      && Journalled(t.db, c)
    ensures LogOk(t)
  {
    forall j, k | 0 <= j < k < |t.log| && t.log[j].ClaimEffect? && t.log[k].ClaimEffect?
      ensures t.log[j].pid != t.log[k].pid && t.log[j].claimed.run.value.id != t.log[k].claimed.run.value.id
    {
      assert ClaimOk(s.log[j]);
      if k == |s.log| {
        assert s.log[j].q.key in s.db.items && s.log[j].claimed.epoch <= s.db.items[s.log[j].q.key].epoch;
      }
    }
  }

  lemma ClearKeeps(s: System, pid: nat, permitted: bool)
    requires Invariant(s)
    ensures Invariant(ClearMove(s, pid, permitted))
  {
    DbSame(s.db);
    var t := ClearMove(s, pid, permitted);
    if t != s {
      assert pid in t.attempts ==> AttemptOk(t, pid, t.attempts[pid]);
      QuietStep(s, t);
    }
  }

  /** What a launch changes: one log entry, and nothing of any other attempt. */
  ghost predicate OnlyLaunched(s: System, t: System, pid: nat, a: Attempt)
    requires a.Cleared? && a.claimed.run.Some?
  {
    && t.db == s.db && t.started == s.started
    && t.log == s.log + [LaunchOf(pid, a)]
    && (forall p | p in t.attempts && p != pid :: p in s.attempts && t.attempts[p] == s.attempts[p])
    && (pid in t.attempts ==> t.attempts[pid].Launching?)
  }

  lemma LaunchShape(s: System, pid: nat, handle: Option<string>)
    requires pid in s.attempts && s.attempts[pid].Cleared? && s.attempts[pid].claimed.run.Some?
    ensures OnlyLaunched(s, LaunchMove(s, pid, handle), pid, s.attempts[pid])
  {
  }

  lemma LaunchLogOk(s: System, t: System, pid: nat, a: Attempt)
    requires LogOk(s) && a.Cleared? && a.claimed.run.Some? && OnlyLaunched(s, t, pid, a)
    ensures LogOk(t)
  {
    DbSame(s.db);
    LogFrame(s, t);
  }

  lemma LaunchAttemptsOk(s: System, t: System, pid: nat, a: Attempt)
    requires AttemptsOk(s) && pid in s.started && a.Cleared? && a.claimed.run.Some? && OnlyLaunched(s, t, pid, a)
    ensures AttemptsOk(t)
  {
    DbSame(s.db);
    OthersUndisturbed(s, t, pid);
  }

  lemma LaunchesStayOk(s: System, t: System, pid: nat, a: Attempt)
    requires LaunchesOk(s) && LogOk(s) && pid in s.started && pid in s.attempts && a == s.attempts[pid]
    requires a.Cleared? && a.claimed.run.Some? && AttemptOk(s, pid, a) && OnlyLaunched(s, t, pid, a)
    ensures LaunchesOk(t)
  {
    LaunchJustified(s, t, pid);
    LaunchRecorded(s, t, pid);
    LaunchStaysOnce(s.log, LaunchOf(pid, a));
  }

  lemma LaunchKeeps(s: System, pid: nat, handle: Option<string>)
    requires Invariant(s)
    ensures Invariant(LaunchMove(s, pid, handle))
  {
    if pid in s.attempts && s.attempts[pid].Cleared? && s.attempts[pid].claimed.run.Some? {
      var a, t := s.attempts[pid], LaunchMove(s, pid, handle);
      LaunchShape(s, pid, handle);
      LaunchLogOk(s, t, pid, a);
      LaunchAttemptsOk(s, t, pid, a);
      LaunchesStayOk(s, t, pid, a);
    }
  }

  lemma OthersUndisturbed(s: System, t: System, pid: nat)
    requires AttemptsOk(s)
    requires DbGrew(s.db, t.db) && s.log <= t.log && t.started == s.started
    requires forall k | |s.log| <= k < |t.log| :: t.log[k].pid == pid
    requires forall p | p in t.attempts && p != pid :: p in s.attempts && t.attempts[p] == s.attempts[p]
    ensures forall p | p in t.attempts && p != pid :: p in t.started && AttemptOk(t, p, t.attempts[p])
  {
    forall p | p in t.attempts && p != pid ensures p in t.started && AttemptOk(t, p, t.attempts[p]) {
      AttemptFrame(s, t, p, s.attempts[p]);
    }
  }

  lemma LaunchJustified(s: System, t: System, pid: nat)
    requires LogOk(s) && pid in s.attempts && s.attempts[pid].Cleared? && AttemptOk(s, pid, s.attempts[pid])
    requires s.attempts[pid].claimed.run.Some?
    requires
      var a := s.attempts[pid];
      t.log == s.log + [LaunchOf(pid, a)]
    ensures LaunchOk(t.log, |s.log|)
  {
    var a := s.attempts[pid];
    assert TrailOk(t.log, pid, a.q, a.item, a.trail) && CheckedAt(t.log, pid, a.claimed, a.clearAt);
    assert t.log[a.claimAt] == s.log[a.claimAt];
  }

  lemma LaunchRecorded(s: System, t: System, pid: nat)
    requires LaunchesJustified(s) && t.started == s.started && pid in s.started
    requires |t.log| == |s.log| + 1 && s.log <= t.log && t.log[|s.log|].LaunchEffect? && t.log[|s.log|].pid == pid
    requires LaunchOk(t.log, |s.log|)
    ensures LaunchesJustified(t)
  {
    forall k | 0 <= k < |t.log| && t.log[k].LaunchEffect?
      ensures LaunchOk(t.log, k) && t.log[k].pid in t.started
    {
      if k < |s.log| { LaunchOkExtends(s.log, t.log, k); }
    }
  }

  lemma LaunchStaysOnce(log: seq<LogEntry>, e: LogEntry)
    requires LaunchesOnce(log) && e.LaunchEffect? && NoLaunch(log, e.pid)
    ensures LaunchesOnce(log + [e])
  {
  }

  lemma MoveKeeps(s: System, allowed: Scope, move: Move)
    requires Invariant(s)
    ensures Invariant(Next(s, allowed, move))
  {
    match move
    case Other(event) =>
      StepGrows(s.db, allowed, event);
      StepConsistent(s.db, allowed, event);
      QuietStep(s, Next(s, allowed, move));
    case Start(pid, q, permitted) => StartKeeps(s, pid, q, permitted);
    case Lookup(pid, answer) => LookupKeeps(s, pid, answer);
    case Recheck(pid, permitted) => RecheckKeeps(s, pid, permitted);
    case TakeClaim(pid, now) => ClaimKeeps(s, allowed, pid, now);
    case ClearLaunch(pid, permitted) => ClearKeeps(s, pid, permitted);
    case Launch(pid, handle) => LaunchKeeps(s, pid, handle);
    case Confirm(pid, now) => ConfirmKeeps(s, allowed, pid, now);
    case ReconcileActive(pid, snapshot) => ReconcileKeeps(s, allowed, pid, snapshot);
    case Crash(pid) =>
      DbSame(s.db);
      QuietStep(s, Next(s, allowed, move));
  }

  lemma {:induction false} BehaviourKeeps(allowed: Scope, moves: seq<Move>)
    ensures Invariant(Behave(allowed, moves))
  {
    if moves == [] {
    } else {
      BehaviourKeeps(allowed, moves[..|moves| - 1]);
      MoveKeeps(Behave(allowed, moves[..|moves| - 1]), allowed, moves[|moves| - 1]);
    }
  }

  // --------------------------------------------------------------- main results

  /** Every launch that reaches the driver, in any behaviour, was preceded, in this order and
      by the same attempt: by a permitted read of the item; by a lookup of the same intent that
      the driver answered with authoritative absence; by a permitted read that found the item
      unchanged and without a run; by a committed claim one epoch above it, on the same source
      and checkpoints, with the launched phase still the next one, and recorded in the journal;
      and by a permitted read that found exactly the claimed item. */
  lemma LaunchAdmitted(allowed: Scope, moves: seq<Move>, k: nat)
    requires k < |Behave(allowed, moves).log| && Behave(allowed, moves).log[k].LaunchEffect?
    ensures
      var log := Behave(allowed, moves).log;
      var e := log[k];
      && e.trail.startAt < e.trail.lookupAt < e.trail.recheckAt < e.claimAt < e.clearAt < k
      && log[e.claimAt].ClaimEffect? && log[e.claimAt].pid == e.pid
      && var c := log[e.claimAt];
         && log[e.trail.startAt] == CheckEffect(e.pid, Some(c.observed), true)
         && log[e.trail.lookupAt] == LookupEffect(e.pid, e.intentSha, Answer(e.intentSha, Missing, None, true))
         && log[e.trail.recheckAt] == CheckEffect(e.pid, Some(c.observed), true)
         && log[e.clearAt] == CheckEffect(e.pid, Some(c.claimed), true)
         && e.intentSha == IntentSha(IntentOf(c.observed, c.q))
         && e.runId == RunId(c.q.key, c.claimed.epoch)
         && c.claimed.epoch == c.observed.epoch + 1
         && Entry(c.q.key, RunClaimed, c.claimed) in Behave(allowed, moves).db.journal
         && c.observed.run.None? && c.before.run.None?
         && c.before.source == c.observed.source && c.before.incident == c.observed.incident
         && IncidentPhaseError(c.before, c.q.phase) == None
  {
    BehaviourKeeps(allowed, moves);
    var log := Behave(allowed, moves).log;
    var e := log[k];
    assert LaunchOk(log, k);
    assert ClaimOk(log[e.claimAt]);
  }

  /** What a launch took from the claim it names. */
  lemma LaunchUsesClaim(log: seq<LogEntry>, k: nat)
    requires k < |log| && log[k].LaunchEffect? && LaunchOk(log, k)
    ensures
      var e := log[k];
      && e.claimAt < |log| && log[e.claimAt].ClaimEffect? && log[e.claimAt].pid == e.pid
      && log[e.claimAt].claimed.run.Some? && log[e.claimAt].claimed.run.value.id == e.runId
  {
  }

  /** No two launches, by whatever attempts, carry the same run id. */
  lemma LaunchesDistinct(allowed: Scope, moves: seq<Move>, j: nat, k: nat)
    requires j < k < |Behave(allowed, moves).log|
    requires Behave(allowed, moves).log[j].LaunchEffect? && Behave(allowed, moves).log[k].LaunchEffect?
    ensures Behave(allowed, moves).log[j].runId != Behave(allowed, moves).log[k].runId
  {
    BehaviourKeeps(allowed, moves);
    var s := Behave(allowed, moves);
    LaunchUsesClaim(s.log, j);
    LaunchUsesClaim(s.log, k);
    ClaimsDiffer(s, s.log[j].claimAt, s.log[k].claimAt);
  }

  lemma ClaimsDiffer(s: System, j: nat, k: nat)
    requires LogOk(s) && j < |s.log| && k < |s.log| && s.log[j].ClaimEffect? && s.log[k].ClaimEffect?
    requires s.log[j].pid != s.log[k].pid
    ensures s.log[j].claimed.run.Some? && s.log[k].claimed.run.Some?
    ensures s.log[j].claimed.run.value.id != s.log[k].claimed.run.value.id
  {
    assert ClaimOk(s.log[j]) && ClaimOk(s.log[k]);
  }
}
