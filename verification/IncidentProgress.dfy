/**
 What launch attempts can do, beside what they never do: exactly which items pass the checks
 before a launch, a launch that goes all the way, and what a lookup does to an active run.
 */
module IncidentProgress {
  import opened Prelude
  import opened WorkflowItem
  import opened WorkflowStore
  import opened WorkflowHistory
  import opened WorkflowSafety
  import opened WorkflowAdmission
  import opened IncidentLaunch

  /** The digest of the action intent of a request on a source. */
  function RequestedIntent(source: Source, q: Request): Digest {
    IntentSha(Intent(
      sourceKey := q.key, sourceSha := SourceSha(source), phase := q.phase,
      driverId := q.driverId, policySha := q.policySha, actionSha := q.actionSha))
  }

  /** The binding carries the request, the source and the intent, field by field. */
  predicate Binds(b: Binding, source: Source, q: Request) {
    && b.driverId == q.driverId && b.phase == q.phase && b.sourceSha == SourceSha(source)
    && b.policySha == q.policySha && b.actionSha == q.actionSha && b.intentSha == RequestedIntent(source, q)
  }

  lemma RequestBinds(item: Item, q: Request)
    requires item.sourceKey == q.key
    ensures Binds(BindingOf(item, q), item.source, q)
    ensures forall b | Binds(b, item.source, q) :: b == BindingOf(item, q)
    ensures IntentSha(IntentOf(item, q)) == RequestedIntent(item.source, q)
    ensures BindingHonest(q.key, item.source, BindingOf(item, q))
  {
  }

  /** The requested phase is the next of the six without a checkpoint on this source. */
  predicate PhaseIsNext(item: Item, phase: IncidentPhase) {
    var n := |item.incident|;
    && n < 6 && phase == [Detect, Investigate, Reproduce, Repair, Verify, Review][n]
    && (n > 0 ==> item.incident[n - 1].sourceSha == SourceSha(item.source))
  }

  /** A launch goes on exactly for the next phase when the active run is this request's own;
      or when there is none, and the last run is of another phase, or was this very request
      and went missing, or is not an incident run and an incident is already under way. A last
      run of this phase that did not go missing asks for its checkpoint instead. */
  lemma LaunchCheckExact(item: Item, q: Request)
    requires item.sourceKey == q.key
    ensures LaunchCheck(item, q) == Proceed <==>
      && PhaseIsNext(item, q.phase)
      && if item.run.Some? then
           item.run.value.owner == q.owner && item.run.value.binding.Some?
           && Binds(item.run.value.binding.value, item.source, q)
         else if item.lastRun.Some? then
           var last := item.lastRun.value;
           if last.run.binding.None? then item.incident != []
           else last.run.binding.value.phase == q.phase ==>
                  last.state == Missing && Binds(last.run.binding.value, item.source, q)
         else true
    ensures LaunchCheck(item, q) == CheckpointRequired <==>
      && PhaseIsNext(item, q.phase) && item.run.None? && item.lastRun.Some?
      && item.lastRun.value.run.binding.Some?
      && item.lastRun.value.run.binding.value.phase == q.phase
      && item.lastRun.value.state != Missing
  {
    RequestBinds(item, q);
  }

  // ------------------------------------------------------ a launch that succeeds

  lemma BehaveAppend(allowed: Scope, moves: seq<Move>, move: Move)
    ensures Behave(allowed, moves + [move]) == Next(Behave(allowed, moves), allowed, move)
  {
    assert (moves + [move])[..|moves|] == moves;
  }

  /** The moves of one attempt that meets permission and authoritative absence. */
  function ObservingMoves(pid: nat, q: Request, intentSha: Digest): seq<Move> {
    [Start(pid, q, true), Lookup(pid, Answer(intentSha, Missing, None, true)), Recheck(pid, true)]
  }

  function LaunchingMoves(pid: nat, now: int, handle: string): seq<Move> {
    [TakeClaim(pid, now), ClearLaunch(pid, true), Launch(pid, Some(handle))]
  }

  lemma ThreeMoves(allowed: Scope, moves: seq<Move>, a: Move, b: Move, c: Move)
    ensures Behave(allowed, moves + [a, b, c])
         == Next(Next(Next(Behave(allowed, moves), allowed, a), allowed, b), allowed, c)
  {
    BehaveAppend(allowed, moves, a);
    BehaveAppend(allowed, moves + [a], b);
    BehaveAppend(allowed, moves + [a] + [b], c);
    assert moves + [a, b, c] == moves + [a] + [b] + [c];
  }

  ghost predicate AdmittedNow(s: System, pid: nat, q: Request, item: Item) {
    && pid in s.attempts && s.attempts[pid].Admitted?
    && s.attempts[pid].q == q && s.attempts[pid].item == item
  }

  /** Start, lookup and recheck of an idle item that passes the checks. */
  lemma ObservationAdmits(s: System, allowed: Scope, pid: nat, q: Request)
    requires pid !in s.started && q.key in s.db.items && History(s.db.journal, q.key) != []
    requires
      var item := s.db.items[q.key];
      item.sourceKey == q.key && item.run.None? && LaunchCheck(item, q) == Proceed
    ensures
      var item := s.db.items[q.key];
      var ms := ObservingMoves(pid, q, RequestedIntent(item.source, q));
      var t := Next(Next(Next(s, allowed, ms[0]), allowed, ms[1]), allowed, ms[2]);
      t.db == s.db && |t.log| == |s.log| + 3 && s.log <= t.log && AdmittedNow(t, pid, q, item)
  {
    RequestBinds(s.db.items[q.key], q);
  }

  /** The attempt holds its claim, and the claimed item is the row. */
  ghost predicate HoldingNow(s: System, pid: nat, q: Request, item: Item, now: int) {
    && pid in s.attempts && s.attempts[pid].Holding?
    && var a := s.attempts[pid];
       && a.q == q && a.item == item
       && q.key in s.db.items && s.db.items[q.key] == a.claimed
       && a.claimed.epoch == item.epoch + 1 && a.claimed.run.Some?
       && FreshRun(a.claimed.run.value, q, item.epoch + 1, now)
  }

  /** A run as a claim for the request leaves it. */
  ghost predicate FreshRun(run: Run, q: Request, epoch: nat, now: int) {
    && run.id == RunId(q.key, epoch) && run.owner == q.owner && run.epoch == epoch
    && run.expiresAt == now + q.ttl && run.handle.None? && !run.invalidated && run.binding.Some?
  }

  lemma AdmittedClaims(s: System, allowed: Scope, pid: nat, q: Request, item: Item, now: int)
    requires AdmittedNow(s, pid, q, item)
    requires q.key in s.db.items && s.db.items[q.key] == item && item.sourceKey == q.key && item.run.None?
    requires item.phase in {Intake, Triage, Planning, Building, Auditing, Reviewing}
    requires item.attempts < 3 && 1 <= q.ttl <= 3600
    ensures
      var t := Next(s, allowed, TakeClaim(pid, now));
      |t.log| == |s.log| + 1 && s.log <= t.log && HoldingNow(t, pid, q, item, now)
  {
    RequestBinds(item, q);
    ClaimDecided(s.db, allowed, q.key, q.owner, q.ttl, now, Some(BindingOf(item, q)), Some(item.epoch),
                 Some(SourceSha(item.source)));
  }

  lemma HolderLaunches(s: System, allowed: Scope, pid: nat, q: Request, item: Item, now: int, handle: string)
    requires HoldingNow(s, pid, q, item, now) && item.sourceKey == q.key
    ensures
      var t := Next(Next(s, allowed, ClearLaunch(pid, true)), allowed, Launch(pid, Some(handle)));
      && |t.log| == |s.log| + 2 && s.log <= t.log
      && LaunchedFor(t.log[|s.log| + 1], pid, q, item)
      && LaunchingNow(t, pid, q, item.epoch + 1, now, handle)
  {
    RequestBinds(item, q);
  }

  /** The launch call for this request on this item, under the epoch after it. */
  ghost predicate LaunchedFor(e: LogEntry, pid: nat, q: Request, item: Item) {
    e.LaunchEffect? && e.pid == pid
    && e.runId == RunId(q.key, item.epoch + 1) && e.intentSha == RequestedIntent(item.source, q)
  }

  /** Claim, clearance and launch call of an admitted attempt whose row still stands. */
  lemma AdmittedLaunches(s: System, allowed: Scope, pid: nat, q: Request, item: Item, now: int, handle: string)
    requires AdmittedNow(s, pid, q, item)
    requires q.key in s.db.items && s.db.items[q.key] == item && item.sourceKey == q.key && item.run.None?
    requires item.phase in {Intake, Triage, Planning, Building, Auditing, Reviewing}
    requires item.attempts < 3 && 1 <= q.ttl <= 3600
    ensures
      var ms := LaunchingMoves(pid, now, handle);
      var t := Next(Next(Next(s, allowed, ms[0]), allowed, ms[1]), allowed, ms[2]);
      && |t.log| == |s.log| + 3 && s.log <= t.log
      && LaunchedFor(t.log[|s.log| + 2], pid, q, item)
      && LaunchingNow(t, pid, q, item.epoch + 1, now, handle)
  {
    AdmittedClaims(s, allowed, pid, q, item, now);
    HolderLaunches(Next(s, allowed, TakeClaim(pid, now)), allowed, pid, q, item, now, handle);
  }

  /** The attempt has launched under this epoch, and its claimed item is the row. */
  ghost predicate LaunchingNow(s: System, pid: nat, q: Request, epoch: nat, now: int, handle: string) {
    && pid in s.attempts && s.attempts[pid].Launching?
    && var a := s.attempts[pid];
       && a.q == q && a.handle == handle
       && q.key in s.db.items && s.db.items[q.key] == a.claimed
       && a.claimed.epoch == epoch && a.claimed.run.Some?
       && FreshRun(a.claimed.run.value, q, epoch, now)
  }

  /** The heartbeat after the launch binds the handle the driver returned. */
  lemma ConfirmBinds(s: System, allowed: Scope, pid: nat, q: Request, epoch: nat, now: int, later: int, handle: string)
    requires LaunchingNow(s, pid, q, epoch, now, handle) && 1 <= q.ttl <= 3600 && later < now + q.ttl
    ensures
      var t := Next(s, allowed, Confirm(pid, later));
      && q.key in t.db.items
      && t.db.items[q.key] == s.db.items[q.key].(
           run := Some(s.db.items[q.key].run.value.(handle := Some(handle), expiresAt := later + q.ttl)))
      && pid !in t.attempts && t.log == s.log
  {
  }

  /** An idle open item with budget left that passes the checks. */
  ghost predicate ReadyToLaunch(s: System, pid: nat, q: Request) {
    && pid !in s.started && q.key in s.db.items && 1 <= q.ttl <= 3600
    && var item := s.db.items[q.key];
       && item.run.None? && item.source.state == SourceOpen && item.phase != ReadyForMerge
       && item.attempts < 3 && LaunchCheck(item, q) == Proceed
  }

  function FullLaunch(pid: nat, q: Request, item: Item, now: int, handle: string): seq<Move> {
    ObservingMoves(pid, q, RequestedIntent(item.source, q)) + LaunchingMoves(pid, now, handle)
  }

  lemma SixMoves(allowed: Scope, moves: seq<Move>, pid: nat, q: Request, now: int, handle: string)
    requires ReadyToLaunch(Behave(allowed, moves), pid, q)
    ensures
      var s := Behave(allowed, moves);
      var item := s.db.items[q.key];
      var t := Behave(allowed, moves + FullLaunch(pid, q, item, now, handle));
      && |t.log| == |s.log| + 6 && s.log <= t.log
      && LaunchedFor(t.log[|s.log| + 5], pid, q, item)
      && LaunchingNow(t, pid, q, item.epoch + 1, now, handle)
  {
    var s := Behave(allowed, moves);
    var item := s.db.items[q.key];
    BehaviourKeeps(allowed, moves);
    ReachableRow(s.db, q.key);
    var first := ObservingMoves(pid, q, RequestedIntent(item.source, q));
    var second := LaunchingMoves(pid, now, handle);
    ObservationAdmits(s, allowed, pid, q);
    ThreeMoves(allowed, moves, first[0], first[1], first[2]);
    AdmittedLaunches(Behave(allowed, moves + first), allowed, pid, q, item, now, handle);
    ThreeMoves(allowed, moves + first, second[0], second[1], second[2]);
    assert moves + FullLaunch(pid, q, item, now, handle) == moves + first + second;
  }

  /** Launches do happen: from any reachable state, on an idle open item with budget left that
      passes the checks, an attempt that is permitted each time and finds authoritative absence
      claims, launches its intent under the next epoch, and binds the driver's handle. */
  lemma LaunchPossible(allowed: Scope, moves: seq<Move>, pid: nat, q: Request, now: int, later: int, handle: string)
    requires ReadyToLaunch(Behave(allowed, moves), pid, q) && later < now + q.ttl
    ensures
      var s := Behave(allowed, moves);
      var item := s.db.items[q.key];
      var full := moves + FullLaunch(pid, q, item, now, handle);
      var t, u := Behave(allowed, full), Behave(allowed, full + [Confirm(pid, later)]);
      && |t.log| == |s.log| + 6
      && LaunchedFor(t.log[|s.log| + 5], pid, q, item)
      && q.key in u.db.items && u.db.items[q.key].run.Some?
      && u.db.items[q.key].run.value.handle == Some(handle)
      && u.db.items[q.key].run.value.id == RunId(q.key, item.epoch + 1)
  {
    var item := Behave(allowed, moves).db.items[q.key];
    var full := moves + FullLaunch(pid, q, item, now, handle);
    SixMoves(allowed, moves, pid, q, now, handle);
    ConfirmBinds(Behave(allowed, full), allowed, pid, q, item.epoch + 1, now, later, handle);
    BehaveAppend(allowed, full, Confirm(pid, later));
  }

  lemma ReachableRow(db: Db, key: Digest)
    requires Consistent(db) && key in db.items
    ensures db.items[key].sourceKey == key && History(db.journal, key) != []
    ensures
      var item := db.items[key];
      item.run.None? && item.source.state == SourceOpen && item.phase != ReadyForMerge ==>
        item.phase in {Intake, Triage, Planning, Building, Auditing, Reviewing}
  {
    ConsistentHistory(db, key);
    KeyedRow(db, key);
    TraceItemOk(key, History(db.journal, key));
  }

  // ------------------------------------------------ a lookup on an active run

  /** What a well-formed authoritative answer about the intent says of an active run: a handle
      for life and for an end, the known handle for absence; anything else says nothing. */
  function Reported(run: Run, intentSha: Digest, answer: Answer): Option<Observation> {
    if answer.NoAnswer? || answer.intentSha != intentSha || !answer.authoritative then None
    else if answer.state == Missing && answer.handle.None? then Some(Observation(run.id, run.handle, Missing))
    else if answer.state in {Live, Terminal} && answer.handle.Some? then
      Some(Observation(run.id, answer.handle, answer.state))
    else None
  }

  /** Whatever the row has become since the recheck, a live
      run is kept and an ended one retired as the driver put it, and only the very run the
      attempt had seen, under a handle that fits, is touched at all. */
  lemma ReconcileMoveEffect(s: System, allowed: Scope, pid: nat)
    requires pid in s.attempts && s.attempts[pid].Reconciling? && s.attempts[pid].item.run.Some?
    requires s.attempts[pid].q.key in s.db.items
    ensures
      var a := s.attempts[pid];
      var row, seen := s.db.items[a.q.key], a.item.run.value;
      var t := ReconcileMove(s, allowed, pid, row);
      var o := Observation(seen.id, if a.reported.Some? then a.reported else seen.handle, a.state);
      && t.log == s.log && pid !in t.attempts && a.q.key in t.db.items
      && var next := t.db.items[a.q.key];
         if row.run.None? || !About(row.run.value, o) then t.db == s.db
         else if a.state in {Live, Unknown} then
           next == row.(run := Some(row.run.value.(handle := KnownHandle(row.run.value, o))))
         else
           && next.run == None && next.epoch == row.epoch + 1
           && next.lastRun == Some(RetiredRun(row.run.value.(handle := KnownHandle(row.run.value, o)), a.state))
  {
  }

  /** Lookup and recheck of an attempt whose item has an active run and still stands. */
  lemma LookupOnActive(s: System, allowed: Scope, pid: nat, answer: Answer)
    requires pid in s.attempts && s.attempts[pid].Prepared?
    requires
      var a := s.attempts[pid];
      a.q.key in s.db.items && s.db.items[a.q.key] == a.item && a.item.run.Some? && a.item.sourceKey == a.q.key
    ensures
      var q, item := s.attempts[pid].q, s.attempts[pid].item;
      var seen := Next(Next(s, allowed, Lookup(pid, answer)), allowed, Recheck(pid, true));
      var o := Reported(item.run.value, RequestedIntent(item.source, q), answer);
      && seen.db == s.db && (forall k | |s.log| <= k < |seen.log| :: !seen.log[k].LaunchEffect?)
      && |s.log| <= |seen.log|
      && if o.None? then pid !in seen.attempts
         else
           && pid in seen.attempts && seen.attempts[pid].Reconciling?
           && seen.attempts[pid].q == q && seen.attempts[pid].item == item
           && seen.attempts[pid].state == o.value.state
           && (if o.value.state == Missing then seen.attempts[pid].reported == None
               else seen.attempts[pid].reported == o.value.handle)
  {
    RequestBinds(s.attempts[pid].item, s.attempts[pid].q);
  }

  /** An attempt on an item with its own active run never launches: it reconciles that run with
      what the driver reported. Life keeps the run and its epoch and at most binds the handle;
      an end retires it in the driver's words; a handle other than the bound one, or an answer
      the driver does not vouch for, changes nothing. */
  lemma ActiveRunReconciled(s: System, allowed: Scope, pid: nat, answer: Answer)
    requires pid in s.attempts && s.attempts[pid].Prepared?
    requires
      var a := s.attempts[pid];
      a.q.key in s.db.items && s.db.items[a.q.key] == a.item && a.item.run.Some? && a.item.sourceKey == a.q.key
    ensures
      var q, item := s.attempts[pid].q, s.attempts[pid].item;
      var run := item.run.value;
      var seen := Next(Next(s, allowed, Lookup(pid, answer)), allowed, Recheck(pid, true));
      var t := Next(seen, allowed, ReconcileActive(pid, item));
      var o := Reported(run, RequestedIntent(item.source, q), answer);
      && pid !in t.attempts && (forall k | |s.log| <= k < |t.log| :: !t.log[k].LaunchEffect?)
      && if o.None? || !About(run, o.value) then t.db == s.db
         else
           && q.key in t.db.items
           && var next := t.db.items[q.key];
              if o.value.state == Live then
                next == item.(run := Some(run.(handle := KnownHandle(run, o.value))))
              else
                && next.run == None && next.epoch == item.epoch + 1
                && next.lastRun == Some(RetiredRun(run.(handle := KnownHandle(run, o.value)), o.value.state))
  {
    RequestBinds(s.attempts[pid].item, s.attempts[pid].q);
    LookupOnActive(s, allowed, pid, answer);
    var seen := Next(Next(s, allowed, Lookup(pid, answer)), allowed, Recheck(pid, true));
    if pid in seen.attempts { ReconcileMoveEffect(seen, allowed, pid); }
  }
}
