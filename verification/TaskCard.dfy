/**
 The task-card lifecycle. Cards are hash-bound values: every transition verifies the card it
 is given and returns a new one. `sha`, `shaE` and `shaA` digest the cores of cards,
 evidence receipts and alignment receipts.
 */
module TaskCard {
  import opened Prelude

  datatype State =
    | Queued | Leased | Running | Checkpointed | Verifying | ReviewRequired
    | Completed | Blocked | Expired | Cancelled

  datatype Lease = Lease(leaseId: string, expiresAt: string)

  datatype Identity = Identity(
    taskId: string, workflowId: string, capabilityId: string, registrySha: string, intentDigest: string,
    allowedPaths: seq<string>, dependencies: seq<string>, stopCondition: string, nextAction: string, createdAt: string)

  datatype Core = Core(
    identity: Identity, state: State, attempt: int, lease: Option<Lease>, checkpoint: Option<string>,
    authority: map<string, bool>, evidenceDigest: Option<string>)

  datatype Card = Card(core: Core, taskSha: string)

  type Hash = Core -> string

  datatype Error =
    | ETampered | ESchema | EDigest | EAuthority | ETransition | EEvidence | ELease | EIdentifier

  // ---------------------------------------------------------------- field checks

  predicate IsSha256(s: string) {
    |s| == 64 && forall i | 0 <= i < 64 :: '0' <= s[i] <= '9' || 'a' <= s[i] <= 'f'
  }

  predicate Letter(c: char) {
    'A' <= c <= 'Z' || 'a' <= c <= 'z'
  }

  predicate IsIdentifier(s: string) {
    && 1 <= |s| <= 96 && Letter(s[0])
    && forall i | 1 <= i < |s| :: Letter(s[i]) || '0' <= s[i] <= '9' || s[i] in "_.:-"
  }

  /** Bounded printable text, already stripped of surrounding blanks. */
  predicate IsShortText(s: string) {
    1 <= |s| <= 80 && s[0] != ' ' && s[|s| - 1] != ' ' && forall i | 0 <= i < |s| :: s[i] >= ' '
  }

  function VerifyError(sha: Hash, card: Card): Option<Error> {
    var core := card.core;
    if card.taskSha != sha(core) then Some(ETampered)
    else if core.attempt < 0 then Some(ESchema)
    else if core.lease.Some? && !IsIdentifier(core.lease.value.leaseId) then Some(EIdentifier)
    else if core.lease.Some? && !IsShortText(core.lease.value.expiresAt) then Some(ESchema)
    else if core.checkpoint.Some? && !IsSha256(core.checkpoint.value) then Some(EDigest)
    else if core.evidenceDigest.Some? && !IsSha256(core.evidenceDigest.value) then Some(EDigest)
    else if core.state == Completed && core.evidenceDigest.None? then Some(EEvidence)
    else if !IsSha256(core.identity.registrySha) || !IsSha256(core.identity.intentDigest) then Some(EDigest)
    else if exists k | k in core.authority :: core.authority[k] then Some(EAuthority)
    else None
  }

  predicate Verified(sha: Hash, card: Card) {
    VerifyError(sha, card) == None
  }

  /** A card verifies exactly when it is sealed over its contents, grants nothing, counts from
      zero, and all its digests and its lease are well formed; a completed one has evidence. */
  lemma VerifiedMeans(sha: Hash, card: Card)
    ensures Verified(sha, card) <==>
      var core := card.core;
      && card.taskSha == sha(core)
      && core.attempt >= 0
      && (forall k | k in core.authority :: !core.authority[k])
      && (forall d | d in {core.identity.registrySha, core.identity.intentDigest} :: IsSha256(d))
      && (core.checkpoint == None || IsSha256(core.checkpoint.value))
      && (core.evidenceDigest == None || IsSha256(core.evidenceDigest.value))
      && (core.lease == None || (IsIdentifier(core.lease.value.leaseId) && IsShortText(core.lease.value.expiresAt)))
      && (core.state == Completed ==> core.evidenceDigest != None)
  {
  }

  // ----------------------------------------------------------------- transitions

  function Allowed(state: State): set<State> {
    match state
    case Queued => {Leased, Cancelled}
    case Leased => {Running, Expired, Cancelled}
    case Running => {Checkpointed, Verifying, Blocked, Expired, Cancelled}
    case Checkpointed => {Running, Verifying, Blocked, Expired}
    case Verifying => {ReviewRequired, Completed, Blocked}
    case ReviewRequired => {Completed, Blocked}
    case Blocked => {Leased, Cancelled}
    case Expired => {Leased, Cancelled}
    case Completed => {}
    case Cancelled => {}
  }

  /** A transition request; `aligned` says whether a verified alignment was handed in. */
  datatype Request = Request(
    state: State, leaseId: Option<string>, leaseExpiresAt: Option<string>,
    checkpoint: Option<string>, evidence: Option<string>, aligned: bool)

  function RequestError(card: Card, q: Request): Option<Error> {
    if q.state == Completed && !q.aligned then Some(EEvidence)
    else if q.state !in Allowed(card.core.state) then Some(ETransition)
    else if q.state == Completed && q.evidence.None? && card.core.evidenceDigest.None? then Some(EEvidence)
    else if q.state == Leased && (q.leaseId.None? || q.leaseId.value == "" || q.leaseExpiresAt.None?
                                  || q.leaseExpiresAt.value == "") then Some(ELease)
    else if q.state == Leased && !IsIdentifier(q.leaseId.value) then Some(EIdentifier)
    else if q.state == Leased && !IsShortText(q.leaseExpiresAt.value) then Some(ESchema)
    else if q.checkpoint.Some? && !IsSha256(q.checkpoint.value) then Some(EDigest)
    else if q.evidence.Some? && !IsSha256(q.evidence.value) then Some(EDigest)
    else None
  }

  function Transition(sha: Hash, card: Card, q: Request): Result<Card, Error> {
    if !Verified(sha, card) then Err(VerifyError(sha, card).value)
    else if RequestError(card, q).Some? then Err(RequestError(card, q).value)
    else
      var was := card.core;
      var lease := if q.state == Leased then Some(Lease(q.leaseId.value, q.leaseExpiresAt.value))
                   else if q.state in {Expired, Cancelled, Completed} then None else was.lease;
      var core := was.(
        state := q.state, lease := lease,
        attempt := if q.state == Leased then was.attempt + 1 else was.attempt,
        checkpoint := if q.checkpoint.Some? then q.checkpoint else was.checkpoint,
        evidenceDigest := if q.evidence.Some? then q.evidence else was.evidenceDigest);
      Ok(Card(core, sha(core)))
  }

  function Create(sha: Hash, identity: Identity, authority: map<string, bool>): Card {
    var core := Core(identity, Queued, 0, None, None, authority, None);
    Card(core, sha(core))
  }

  /** The card after a list of requests; a refused request leaves the card as it is. */
  function Evolve(sha: Hash, card: Card, qs: seq<Request>): Card {
    if qs == [] then card
    else
      var before := Evolve(sha, card, qs[..|qs| - 1]);
      var r := Transition(sha, before, qs[|qs| - 1]);
      if r.Ok? then r.value else before
  }

  /** How many of the requests were carried out and put the card on lease. */
  function LeaseCount(sha: Hash, card: Card, qs: seq<Request>): nat {
    if qs == [] then 0
    else
      var n := |qs| - 1;
      LeaseCount(sha, card, qs[..n])
      + (if qs[n].state == Leased && Transition(sha, Evolve(sha, card, qs[..n]), qs[n]).Ok? then 1 else 0)
  }

  /** What the carried-out requests gave last, for one kind of field. */
  function LastGiven<T>(sha: Hash, card: Card, qs: seq<Request>, given: Request -> Option<T>): Option<T> {
    if qs == [] then None
    else
      var n := |qs| - 1;
      if Transition(sha, Evolve(sha, card, qs[..n]), qs[n]).Ok? && given(qs[n]).Some? then given(qs[n])
      else LastGiven(sha, card, qs[..n], given)
  }

  function GivenCheckpoint(q: Request): Option<string> {
    q.checkpoint
  }

  function GivenEvidence(q: Request): Option<string> {
    q.evidence
  }

  function GivenLease(q: Request): Option<Lease> {
    if q.state == Leased && q.leaseId.Some? && q.leaseExpiresAt.Some?
    then Some(Lease(q.leaseId.value, q.leaseExpiresAt.value)) else None
  }

  predicate HoldsLease(state: State) {
    state in {Leased, Running, Checkpointed, Verifying, ReviewRequired, Blocked}
  }

  ghost predicate CardOk(sha: Hash, card: Card) {
    && (card.core.lease.Some? <==> HoldsLease(card.core.state))
    && (card.core.state == Completed ==> card.core.evidenceDigest.Some?)
    && Verified(sha, card)
  }

  /** The edges of the lifecycle. */
  const EDGES: set<(State, State)> := {
    (Queued, Leased), (Queued, Cancelled), (Leased, Running), (Leased, Expired), (Leased, Cancelled),
    (Running, Checkpointed), (Running, Verifying), (Running, Blocked), (Running, Expired), (Running, Cancelled),
    (Checkpointed, Running), (Checkpointed, Verifying), (Checkpointed, Blocked), (Checkpointed, Expired),
    (Verifying, ReviewRequired), (Verifying, Completed), (Verifying, Blocked),
    (ReviewRequired, Completed), (ReviewRequired, Blocked),
    (Blocked, Leased), (Blocked, Cancelled), (Expired, Leased), (Expired, Cancelled)
  }

  lemma AllowedEdges(from: State, to: State)
    ensures to in Allowed(from) <==> (from, to) in EDGES
  {
    match from
    case Queued =>
    case Leased =>
    case Running =>
    case Checkpointed =>
    case Verifying =>
    case ReviewRequired =>
    case Completed =>
    case Blocked =>
    case Expired =>
    case Cancelled =>
  }

  /** A transition is carried out exactly along an edge of the lifecycle on a card that verifies,
      with well-formed digests, a full lease when one is taken, and for completion an
      alignment and some evidence. */
  lemma TransitionAdmitted(sha: Hash, card: Card, q: Request)
    ensures Transition(sha, card, q).Ok? <==>
      && Verified(sha, card)
      && (card.core.state, q.state) in EDGES
      && (q.checkpoint.Some? ==> IsSha256(q.checkpoint.value))
      && (q.evidence.Some? ==> IsSha256(q.evidence.value))
      && (q.state == Leased ==>
            && q.leaseId.Some? && IsIdentifier(q.leaseId.value)
            && q.leaseExpiresAt.Some? && IsShortText(q.leaseExpiresAt.value))
      && (q.state == Completed ==> q.aligned && (q.evidence.Some? || card.core.evidenceDigest.Some?))
  {
    AllowedEdges(card.core.state, q.state);
  }

  /** A carried-out transition keeps the card sound and counts an attempt only for a lease. */
  lemma TransitionKeepsCard(sha: Hash, card: Card, q: Request)
    requires CardOk(sha, card) && Transition(sha, card, q).Ok?
    ensures
      var next := Transition(sha, card, q).value;
      && CardOk(sha, next)
      && next.core.attempt == card.core.attempt + (if q.state == Leased then 1 else 0)
      && next.core.identity == card.core.identity && next.core.authority == card.core.authority
  {
    var next := Transition(sha, card, q).value;
    assert q.state in Allowed(card.core.state);
    assert next.core.state == q.state;
    match card.core.state
    case Queued =>
    case Leased =>
    case Running =>
    case Checkpointed =>
    case Verifying =>
    case ReviewRequired =>
    case Blocked =>
    case Expired =>
    case _ =>
  }

  /** In every reachable card: the attempt number counts the lease transitions, a lease is
      present exactly in the six working states, completion carries evidence, the identity is
      the created one, and the card verifies. */
  lemma {:induction false} CardInvariant(sha: Hash, identity: Identity, authority: map<string, bool>, qs: seq<Request>)
    requires Verified(sha, Create(sha, identity, authority))
    ensures
      var card := Evolve(sha, Create(sha, identity, authority), qs);
      && card.core.attempt == LeaseCount(sha, Create(sha, identity, authority), qs)
      && (card.core.lease.Some? <==>
            card.core.state in {Leased, Running, Checkpointed, Verifying, ReviewRequired, Blocked})
      && (card.core.state == Completed ==> card.core.evidenceDigest.Some?)
      && card.core.identity == identity && card.core.authority == authority
      && Verified(sha, card)
  {
    if qs == [] {
    } else {
      var n := |qs| - 1;
      CardInvariant(sha, identity, authority, qs[..n]);
      var before := Evolve(sha, Create(sha, identity, authority), qs[..n]);
      if Transition(sha, before, qs[n]).Ok? { TransitionKeepsCard(sha, before, qs[n]); }
    }
  }

  /** Checkpoint and evidence of a reachable card are the last ones a carried-out request
      gave, never dropped or exchanged; a lease it holds is the last one granted. */
  lemma {:induction false} CardRemembers(sha: Hash, identity: Identity, authority: map<string, bool>, qs: seq<Request>)
    requires Verified(sha, Create(sha, identity, authority))
    ensures
      var created := Create(sha, identity, authority);
      var core := Evolve(sha, created, qs).core;
      && core.checkpoint == LastGiven(sha, created, qs, GivenCheckpoint)
      && core.evidenceDigest == LastGiven(sha, created, qs, GivenEvidence)
      && (core.lease.Some? ==> core.lease == LastGiven(sha, created, qs, GivenLease))
  {
    if qs == [] {
    } else {
      CardRemembers(sha, identity, authority, qs[..|qs| - 1]);
    }
  }

  /** Completed and cancelled cards never change again. */
  lemma {:induction false} FinalStatesAbsorb(sha: Hash, card: Card, qs: seq<Request>)
    requires card.core.state == Completed || card.core.state == Cancelled
    ensures Evolve(sha, card, qs) == card
  {
    if qs == [] {
    } else {
      FinalStatesAbsorb(sha, card, qs[..|qs| - 1]);
    }
  }

  // ------------------------------------------------------- completion on evidence

  datatype EvidenceCore = EvidenceCore(
    taskId: string, taskSha: string, workflowId: string, intentDigest: string, candidateHash: string,
    evidenceDigest: string, kind: string, verifierId: string, outcome: string, sourcePaths: seq<string>,
    alignmentSha: Option<string>)

  datatype Evidence = Evidence(core: EvidenceCore, receiptSha: string)

  datatype AlignmentCore = AlignmentCore(
    taskId: string, workflowId: string, taskSha: string, handoffId: string, handoffSha: string,
    intentDigest: string, candidateHash: string, changedPaths: seq<string>, scopeVerdict: string)

  datatype Alignment = Alignment(core: AlignmentCore, alignmentSha: string)

  predicate EvidenceVerified(shaE: EvidenceCore -> string, e: Evidence) {
    && e.receiptSha == shaE(e.core)
    && IsIdentifier(e.core.taskId) && IsIdentifier(e.core.workflowId) && IsIdentifier(e.core.verifierId)
    && IsSha256(e.core.taskSha) && IsSha256(e.core.intentDigest)
    && IsSha256(e.core.candidateHash) && IsSha256(e.core.evidenceDigest)
    && (e.core.alignmentSha.Some? ==> IsSha256(e.core.alignmentSha.value))
    && (e.core.outcome == "passed" || e.core.outcome == "failed")
  }

  predicate AlignmentVerified(shaA: AlignmentCore -> string, a: Alignment) {
    && a.alignmentSha == shaA(a.core)
    && a.core.scopeVerdict == "ALIGNED"
    && IsIdentifier(a.core.taskId) && IsIdentifier(a.core.workflowId)
    && IsSha256(a.core.taskSha) && IsSha256(a.core.handoffSha)
    && IsSha256(a.core.intentDigest) && IsSha256(a.core.candidateHash)
    && a.core.changedPaths != []
  }

  predicate EvidenceMatches(card: Card, e: Evidence) {
    && e.core.taskId == card.core.identity.taskId && e.core.taskSha == card.taskSha
    && e.core.workflowId == card.core.identity.workflowId && e.core.intentDigest == card.core.identity.intentDigest
  }

  predicate AlignmentMatches(card: Card, e: Evidence, a: Alignment) {
    && a.core.taskId == card.core.identity.taskId && a.core.taskSha == card.taskSha
    && a.core.workflowId == card.core.identity.workflowId && a.core.intentDigest == card.core.identity.intentDigest
    && a.core.candidateHash == e.core.candidateHash
  }

  function CompleteWithEvidence(sha: Hash, shaE: EvidenceCore -> string, shaA: AlignmentCore -> string,
                                card: Card, e: Evidence, a: Alignment): Result<Card, Error> {
    if !Verified(sha, card) then Err(VerifyError(sha, card).value)
    else if !EvidenceVerified(shaE, e) || !AlignmentVerified(shaA, a) then Err(ETampered)
    else if !EvidenceMatches(card, e) then Err(EEvidence)
    else if e.core.outcome != "passed" then Err(EEvidence)
    else if e.core.alignmentSha != Some(a.alignmentSha) then Err(EEvidence)
    else if !AlignmentMatches(card, e, a) then Err(EEvidence)
    else Transition(sha, card, Request(Completed, None, None, None, Some(e.core.evidenceDigest), true))
  }

  /** Completion on evidence needs passed evidence and an alignment that both name the exact
      digest of the card being completed and the same candidate, linked by the alignment's
      own digest, on a card in verification or review; and that is also enough. */
  lemma CompletionExact(sha: Hash, shaE: EvidenceCore -> string, shaA: AlignmentCore -> string,
                        card: Card, e: Evidence, a: Alignment)
    ensures
      CompleteWithEvidence(sha, shaE, shaA, card, e, a).Ok? <==>
      && Verified(sha, card) && EvidenceVerified(shaE, e) && AlignmentVerified(shaA, a)
      && (card.core.state == Verifying || card.core.state == ReviewRequired)
      && e.core.outcome == "passed"
      && e.core.taskSha == a.core.taskSha == sha(card.core)
      && e.core.alignmentSha == Some(shaA(a.core))
      && e.core.candidateHash == a.core.candidateHash
      && e.core.taskId == a.core.taskId == card.core.identity.taskId
      && e.core.workflowId == a.core.workflowId == card.core.identity.workflowId
      && e.core.intentDigest == a.core.intentDigest == card.core.identity.intentDigest
    ensures
      var r := CompleteWithEvidence(sha, shaE, shaA, card, e, a);
      r.Ok? ==>
        && r.value.core == card.core.(state := Completed, lease := None, evidenceDigest := Some(e.core.evidenceDigest))
        && Verified(sha, r.value)
  {
  }

  /** What the two receipts must be in themselves: sealed over their contents, of well-formed
      names and digests, with a known outcome, or an alignment verdict on changed paths. */
  lemma ReceiptsMean(shaE: EvidenceCore -> string, shaA: AlignmentCore -> string, e: Evidence, a: Alignment)
    ensures EvidenceVerified(shaE, e) <==>
      && e.receiptSha == shaE(e.core)
      && (forall id | id in {e.core.taskId, e.core.workflowId, e.core.verifierId} :: IsIdentifier(id))
      && (forall d | d in {e.core.taskSha, e.core.intentDigest, e.core.candidateHash, e.core.evidenceDigest} ::
            IsSha256(d))
      && (e.core.alignmentSha == None || IsSha256(e.core.alignmentSha.value))
      && e.core.outcome in {"passed", "failed"}
    ensures AlignmentVerified(shaA, a) <==>
      && a.alignmentSha == shaA(a.core) && a.core.scopeVerdict == "ALIGNED"
      && (forall id | id in {a.core.taskId, a.core.workflowId} :: IsIdentifier(id))
      && (forall d | d in {a.core.taskSha, a.core.handoffSha, a.core.intentDigest, a.core.candidateHash} ::
            IsSha256(d))
      && a.core.changedPaths != []
  {
  }

  /** One evidence receipt completes at most one card, since naming the digest pins every field. */
  lemma EvidencePinsCard(sha: Hash, shaE: EvidenceCore -> string, shaA: AlignmentCore -> string,
                         one: Card, other: Card, e: Evidence, a: Alignment, b: Alignment)
    requires forall x, y :: sha(x) == sha(y) ==> x == y
    requires CompleteWithEvidence(sha, shaE, shaA, one, e, a).Ok?
    requires CompleteWithEvidence(sha, shaE, shaA, other, e, b).Ok?
    ensures one == other
  {
    assert sha(one.core) == sha(other.core);
  }

  /** How far a card under verification has gone since, at an equal attempt number. */
  function Stage(state: State): nat {
    match state
    case Verifying => 1
    case ReviewRequired => 2
    case Blocked => 3
    case Completed => 3
    case Cancelled => 4
    case _ => 0
  }

  /** Lexicographic: a later attempt, or the same attempt at a later stage. */
  ghost predicate Past(was: Core, now: Core) {
    now.attempt > was.attempt || (now.attempt == was.attempt && Stage(now.state) > Stage(was.state) > 0)
  }

  lemma TransitionGoesOn(sha: Hash, card: Card, q: Request)
    requires Stage(card.core.state) > 0 && Transition(sha, card, q).Ok?
    ensures Past(card.core, Transition(sha, card, q).value.core)
  {
    assert q.state in Allowed(card.core.state);
  }

  lemma TransitionKeepsPast(sha: Hash, was: Core, card: Card, q: Request)
    requires Past(was, card.core) && Transition(sha, card, q).Ok?
    ensures Past(was, Transition(sha, card, q).value.core)
  {
    if card.core.attempt == was.attempt { TransitionGoesOn(sha, card, q); }
  }

  /** How many of the requests were carried out. */
  function CarriedOut(sha: Hash, card: Card, qs: seq<Request>): nat {
    if qs == [] then 0
    else
      var n := |qs| - 1;
      CarriedOut(sha, card, qs[..n]) + (if Transition(sha, Evolve(sha, card, qs[..n]), qs[n]).Ok? then 1 else 0)
  }

  /** A card under verification or review never comes back to an earlier version of itself. */
  lemma {:induction false} CarriedOutMoves(sha: Hash, card: Card, qs: seq<Request>)
    requires card.core.state == Verifying || card.core.state == ReviewRequired
    ensures CarriedOut(sha, card, qs) > 0 <==> Past(card.core, Evolve(sha, card, qs).core)
    ensures CarriedOut(sha, card, qs) == 0 ==> Evolve(sha, card, qs) == card
  {
    if qs == [] {
    } else {
      var n := |qs| - 1;
      CarriedOutMoves(sha, card, qs[..n]);
      var before := Evolve(sha, card, qs[..n]);
      if Transition(sha, before, qs[n]).Ok? {
        if before == card {
          TransitionGoesOn(sha, card, qs[n]);
        } else {
          TransitionKeepsPast(sha, card.core, before, qs[n]);
        }
      }
    }
  }

  /** Evidence names one version of a card. As soon as any request has been carried out on a
      card under verification or review, evidence naming the version before is refused for
      good, whatever happens to the card afterwards. */
  lemma StaleEvidenceRefused(sha: Hash, shaE: EvidenceCore -> string, shaA: AlignmentCore -> string,
                             card: Card, qs: seq<Request>, e: Evidence, a: Alignment)
    requires forall x, y :: sha(x) == sha(y) ==> x == y
    requires card.core.state == Verifying || card.core.state == ReviewRequired
    requires e.core.taskSha == sha(card.core)
    ensures CarriedOut(sha, card, qs) > 0 <==> Evolve(sha, card, qs) != card
    ensures CarriedOut(sha, card, qs) > 0 ==>
      CompleteWithEvidence(sha, shaE, shaA, Evolve(sha, card, qs), e, a).Err?
  {
    CarriedOutMoves(sha, card, qs);
    var later := Evolve(sha, card, qs);
    if later.core != card.core { assert sha(later.core) != sha(card.core); }
  }

  /** A direct completion request without a verified alignment is refused from every state. */
  lemma CompletionNeedsAlignment(sha: Hash, card: Card, q: Request)
    requires q.state == Completed && Transition(sha, card, q).Ok?
    ensures q.aligned && (q.evidence.Some? || card.core.evidenceDigest.Some?)
    ensures card.core.state == Verifying || card.core.state == ReviewRequired
  {
  }
}
