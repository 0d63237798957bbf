# Verified model of the Code Factory control plane

This project models the parts of `factoryline` that decide who may act, on what evidence, and
in which order, and proves what those decisions guarantee over whole runs.

* **Fenced workflow store** (`WorkflowItem`, `WorkflowStore`, `WorkflowRuntime`). Each database
  transaction is one atomic step. `Step` gives it as a function on the three tables; the class
  `WorkflowEventStore` performs it on its own fields and is proved equal to `Step`. Operations
  that look outside the transaction carry the snapshot they read earlier. That snapshot is an
  arbitrary item, so any interleaving and any crash between read and commit is covered.
* **Histories** (`WorkflowHistory`, `WorkflowSafety`, `WorkflowIntake`, `WorkflowPaging`). Every
  reachable journal is, per item, a legal trace. Fencing, retry accounting, the merge chain,
  checkpoint order, convergence of deliveries and paging are proved about such traces, and
  `WorkflowHistory.Effect` says independently of the operations what each journal action records.
* **Admission** (`WorkflowAdmission`). When each operation succeeds and what it leaves, as
  if-and-only-if statements over the fields of the row and the request.
* **Incident launches** (`IncidentLaunch`, `IncidentProgress`). Any number of launch attempts interleave with any
  other actor of the store. An attempt is a state machine over its reads, its lookup, its claim,
  its launch call and its last heartbeat. The authorizer's verdict is arbitrary and does not
  depend on the store, so it is part of the read beside it.
* **Cycle checkers** (`Cycles`, `TopologyCheck`, `TaskBoardGraph`). The in-degree check and the
  depth-first check are both proved exact for one definition of a cycle, hence they agree.
* **Licences** (`PathScopes`, `License`), **swim-lane chain** (`Swimlane`), **drift receipts**
  (`Json`, `Drift`, `DriftReceipt`, `DriftBound`, `DriftPolicy`), **task cards** (`TaskCard`),
  **bounded worklists** (`Closures`), **redundant-call index** (`Spans`).

Conventions. Digests are injective: in the workflow modules each digest is a constructor applied
to what it digests; elsewhere the hash is a function parameter, assumed injective where a lemma
says so. Times are integers. Text fields arrive validated and stripped. Host observers,
verifiers, authorisers and drivers are arbitrary. Raised errors are `Err`, `Reject` or `false`.

Results that qualify what the code is expected to do:

* A new clean run can lower a licence tier. `License.CleanRunLowersTier` says exactly when,
  `License.ExpiredThenCleanExample` and `License.UnrelatedRunExample` give an input for each case.
* The redundant-call index can miss a repetition the scan would find, never the reverse.
  `Spans.IndexAgainstScan` says exactly when, `Spans.IndexMissesExamples` gives two inputs.
* A drift verdict of CLEAR means equality in Python's sense, in which `true` equals `1`, not
  equality of the two digests (`DriftReceipt.ClearIsPythonEquality`).
* Only the first 128 differences are classified, so a blocking one after them goes unreported
  (`DriftReceipt.BlockedWithinBound`, `DriftBound.BlockingBeyondBound`).
* The resource closure deduplicates on module, class name and parameter. It covers every
  reachable constructor exactly when that key determines the constructor
  (`Closures.ClosureComplete`); `Closures.SharedKeySkipsExample` is a case where it does not.

## Model

| member | source | states |
|---|---|---|
| WorkflowRuntime.WorkflowEventStore.Save | factoryline/agentic_control.py:3554-3563 | the row is replaced and exactly one journal entry with the same item is appended |
| WorkflowRuntime.WorkflowEventStore.ApplySource | factoryline/agentic_control.py:3646-3673 | stale and equal revisions change nothing, one revision with other bytes is refused, a newer one bumps the epoch, invalidates the run and clears attempts, evidence and checkpoints |
| WorkflowRuntime.WorkflowEventStore.IntakeEvent | factoryline/agentic_control.py:3616-3644 | one delivery is exactly the transaction `Step`, including deduplication, reuse and scope errors that change no table |
| WorkflowRuntime.WorkflowEventStore.ClaimRun | factoryline/agentic_control.py:3717-3759 | a claim is exactly the transaction `Step`: epoch and attempts up by one, run id from key and epoch, or an error and no change |
| WorkflowRuntime.WorkflowEventStore.RenewLease | factoryline/agentic_control.py:3761-3796 | a heartbeat is exactly the transaction `Step` |
| WorkflowRuntime.WorkflowEventStore.Get | factoryline/agentic_control.py:3565-3568 | reads the current row |
| WorkflowRuntime.WorkflowEventStore.ReconcileObservation | factoryline/agentic_control.py:3833-3865 | the commit half of a reconciliation is exactly the transaction `Step` against the snapshot read before the probe |
| WorkflowRuntime.WorkflowEventStore.ReconcileRun | factoryline/agentic_control.py:3798-3831 | idle items are left alone; otherwise what the observer reports about the active run is committed |
| WorkflowRuntime.WorkflowEventStore.CommitAdvance | factoryline/agentic_control.py:3896-3906 | the commit half of a phase advance is exactly the transaction `Step` |
| WorkflowRuntime.WorkflowEventStore.AdvancePhase | factoryline/agentic_control.py:3867-3911 | without an observer or a verifier registered by that name nothing is observed; otherwise an advance commits exactly when the freshly observed source is the stored one and that verifier returns the fitting evidence verbatim, and a changed source is taken in instead |
| WorkflowRuntime.WorkflowEventStore.PersistCheckpoint | factoryline/agentic_control.py:4434-4449 | the commit half of a checkpoint is exactly the transaction `Step` |
| WorkflowRuntime.WorkflowEventStore.CheckpointPhase | factoryline/agentic_control.py:4451-4473 | a checkpoint commits exactly with permission before and inside the transaction, an unchanged fresh source and the outcome confirmed by a registered verifier; otherwise nothing changes |
| WorkflowStore.StepConsistent | factoryline/agentic_control.py:3510-3529 | every transaction of every actor keeps rows, journal and ingress consistent |
| WorkflowStore.ReachableConsistent | factoryline/agentic_control.py:3553-3563 | in every reachable store each row is the last journal row of its key and each key's journal is a legal trace |
| WorkflowSafety.RowIsLastJournalEntry | factoryline/agentic_control.py:3553-3563 | a key has a row exactly when it has journal rows, and the row is the last of them |
| WorkflowHistory.WriteHasEffect | factoryline/agentic_control.py:3646-3912 | each committed operation changes exactly what its journal action stands for, said without the operation |
| WorkflowSafety.FencingInvariant | factoryline/agentic_control.py:3646-3774 | a live run carries the current epoch and source digest; a run is invalidated exactly in retirement_required, and then its epoch and source have passed |
| WorkflowSafety.SupersededOwnerStaysFenced | factoryline/agentic_control.py:3761-3774 | after a source update, retirement or claim passes epoch e, no later heartbeat with e succeeds, whatever happens in between |
| WorkflowSafety.HeartbeatAdmitted | factoryline/agentic_control.py:3776-3796 | in reachable stores a heartbeat succeeds exactly for the live owner at its epoch, before expiry, without changing a bound handle; and what it then changes |
| WorkflowAdmission.ClaimAdmitted | factoryline/agentic_control.py:3684-3715 | in reachable stores a claim, with whatever expectations and binding, succeeds exactly with no run, an open source, not ready for merge, fewer than three claims since the last reset, the expected epoch and source, and a binding that repeats the source and seals its own fields as the intent |
| WorkflowAdmission.ClaimDecided | factoryline/agentic_control.py:3717-3759 | the same on the fields of an arbitrary row, with the whole new row and journal entry on success and nothing changed on refusal |
| WorkflowAdmission.ReconcileAdmitted | factoryline/agentic_control.py:3798-3865 | a reconciliation of the standing row succeeds exactly for an observation about its run; life and uncertainty keep run and epoch and at most bind the handle; an end is recorded as observed, with the handle known by then |
| WorkflowAdmission.ReconcileFenced | factoryline/agentic_control.py:3833-3840 | with any other snapshot nothing changes and a fitting observation is fenced |
| WorkflowAdmission.AdvanceAdmitted | factoryline/agentic_control.py:3930-3978 | an advance succeeds exactly one step along the merge chain, on the standing row without a run, with evidence of the kind of that step naming the source, the phase and the last run, which ended terminal with a handle on this source; the evidence is recorded as submitted |
| WorkflowAdmission.CheckpointAdmitted | factoryline/agentic_control.py:4324-4374 | a checkpoint succeeds exactly for the next phase, without a run, after a terminal run of this owner, phase and source, on evidence naming run, intent, source and policy that says succeeded; the record copies the run's binding and the evidence's result and verifier |
| WorkflowAdmission.DeliveryAnswered | factoryline/agentic_control.py:3622-3673 | what a delivery under a new event id answers and leaves, by comparison of revisions |
| WorkflowAdmission.SourceAdmitted | factoryline/agentic_control.py:3337-3380 | which normalised sources are refused |
| WorkflowAdmission.PhaseMeaning | factoryline/agentic_control.py:3418-3424 | in reachable stores the phase says exactly what state the source is in, unless a retirement is due |
| WorkflowSafety.ClaimGrantsLease | factoryline/agentic_control.py:3717-3796 | after a claim exactly the claimant can renew, at the new epoch and until its lease runs out |
| WorkflowSafety.TraceEpochs | factoryline/agentic_control.py:3657-3673 | epochs never fall; at a standing epoch the source stands and no run appears; updates, claims and retirements raise it |
| WorkflowSafety.ClaimedRunsDistinct | factoryline/agentic_control.py:3722-3727 | no two claims of an item in its whole journal share a run id |
| WorkflowSafety.RunStays | factoryline/agentic_control.py:3776-3796 | a run keeps its id, owner, epoch, source, binding and bound handle until it is retired |
| WorkflowSafety.OwnershipNeedsRetirement | factoryline/agentic_control.py:3695-3699 | between two claims lies the journalled retirement, as terminated or missing, of the earlier run, with every handle it was ever bound to; an expired lease alone never passes ownership |
| WorkflowSafety.ReadyForMergeEarned | factoryline/agentic_control.py:3930-3978 | ready_for_merge implies an open source and, since the last source update, exactly the five advances in order, each on the kind of evidence of its phase and consuming its own journalled terminal run, named by the evidence, with a handle on this source |
| WorkflowSafety.RetryAccounting | factoryline/agentic_control.py:3711-3736 | attempts equals the claims journalled since the last source update, advance or checkpoint, and never exceeds three |
| WorkflowSafety.CheckpointPrefix | factoryline/agentic_control.py:4150-4166 | checkpoints are a prefix of the six incident phases, bound to the current source, with strictly increasing epochs and distinct runs |
| WorkflowSafety.CheckpointRunsDistinct | factoryline/agentic_control.py:4417-4449 | two checkpoint entries anywhere in an item's journal, also across source updates, belong to different runs in epoch order |
| WorkflowHistory.CheckpointsOrdered | factoryline/agentic_control.py:4324-4340 | the last run never predates the last checkpoint and equals it only by being the checkpointed run |
| WorkflowIntake.DeliveriesConverge | factoryline/agentic_control.py:3616-3673 | from any consistent store, an uninterrupted list of coherent deliveries leaves each row untouched or carrying the newest offered source in its first phase |
| WorkflowIntake.OrderIrrelevant | factoryline/agentic_control.py:3646-3673 | two such lists offering the same sources, in any order and multiplicity, end with the same item in every row but for its epoch |
| WorkflowIntake.NewestSourceWins | factoryline/agentic_control.py:3616-3673 | in every run, with deliveries in any order and multiplicity among all other operations, a key has a row exactly when a source was delivered for it, and the row carries the delivered source of the highest revision |
| WorkflowIntake.SameDeliveriesSameSource | factoryline/agentic_control.py:3646-3673 | two runs delivering the same sources end with the same source in every row, and with the same item but for its epoch where nothing was claimed |
| WorkflowIntake.RedeliveryChangesNothing | factoryline/agentic_control.py:3622-3636 | once an event id was accepted, redelivering it changes no table however much has happened since; the same bytes answer duplicate, other bytes are refused |
| WorkflowPaging.SelectRows | factoryline/agentic_control.py:3579-3582 | the row query returns the first rows of the key above the cursor |
| WorkflowPaging.ReadPage | factoryline/agentic_control.py:3570-3595 | cursor and limit errors, missing items, the scope recheck of the item and of each returned event, and the page cut from a query of one row more |
| WorkflowPaging.PagingCompletes | factoryline/agentic_control.py:3570-3595 | following the cursor from zero with any page size yields exactly the key's journal in order |
| WorkflowPaging.PagesStable | factoryline/agentic_control.py:3570-3595 | while others write, a page announcing more never changes and a last page is only extended |
| WorkflowPaging.ReachablePagesReadable | factoryline/agentic_control.py:3597-3614 | in a reachable store no page is ever refused by those rechecks |
| IncidentLaunch.Normalize | factoryline/agentic_control.py:4102-4126 | absence, life and termination count only as a well-formed authoritative answer for this intent; everything else is unknown |
| IncidentLaunch.PhaseStillNext | factoryline/agentic_control.py:4206-4228 | while the epoch stands, an item that passed the launch check keeps source and checkpoints although advances and checkpoints do not bump the epoch |
| IncidentLaunch.ClaimIsOk | factoryline/agentic_control.py:4262-4272 | a launch claim commits one epoch above the observed item with the requested phase still the next uncheckpointed one |
| IncidentLaunch.MoveKeeps | factoryline/agentic_control.py:4182-4322 | every move of an attempt, of another actor, or a crash keeps the protocol invariant |
| IncidentLaunch.LaunchAdmitted | factoryline/agentic_control.py:4230-4322 | every launch follows, in order and by the same attempt, a permitted read, the lookup of the same intent answered with authoritative absence, a permitted re-read of the unchanged item, its own journalled claim one epoch above it with the phase still next, and a permitted read of exactly the claimed item |
| IncidentLaunch.LaunchesDistinct | factoryline/agentic_control.py:4262-4299 | no two launches carry the same run id |
| IncidentProgress.LaunchCheckExact | factoryline/agentic_control.py:4150-4228 | exactly which items let a launch go on, and which ask for a checkpoint first |
| IncidentProgress.LaunchPossible | factoryline/agentic_control.py:4182-4299 | from any reachable state, on an idle open item with budget that passes the checks, a permitted attempt that meets authoritative absence launches its intent under the next epoch and binds the driver's handle |
| IncidentProgress.ActiveRunReconciled | factoryline/agentic_control.py:4230-4256 | an attempt on its own active run never launches; a lookup that says live keeps the run, one that says it ended retires it in the driver's words, anything else changes nothing |
| IncidentProgress.ReconcileMoveEffect | factoryline/agentic_control.py:4244-4256 | the same whatever others have done to the row since the recheck |
| TopologyCheck.CountIncoming | factoryline/agent_proof_bridge.py:275-280 | counters equal the number of edges into each node, children lists the edges out of it |
| TopologyCheck.Release | factoryline/agent_proof_bridge.py:286-289 | the counter invariant (edges from unprocessed nodes) and the ready list survive taking a node |
| TopologyCheck.AssertAcyclic | factoryline/agent_proof_bridge.py:274-293 | accepts exactly the declared edge lists without a cycle |
| TaskBoardGraph.Walk.Visit | factoryline/agentic_control.py:875-886 | a raised error means a cycle; otherwise the task has finished after all its dependencies and the stack is restored |
| TaskBoardGraph.ValidateTaskBoardGraph | factoryline/agentic_control.py:863-889 | missing dependencies first; the cycle error exactly when the relation has a cycle; otherwise every id visited in dependency order |
| TaskBoardGraph.CrossCheck | factoryline/agentic_control.py:863-889 | the depth-first and the in-degree checker agree on every graph |
| PathScopes.CommonPaths | factoryline/agent_license.py:658-674 | the loop returns the sorted declared paths covered by every event |
| PathScopes.CommonPathsListed | factoryline/agent_license.py:661-674 | the result is in increasing order and holds exactly the declared paths that every event covers |
| PathScopes.CoversMeans | factoryline/agent_license.py:665-669 | a scope covers itself and what lies under it, the whole workspace for the dot |
| PathScopes.ScopesChain | factoryline/agent_license.py:667-669 | the scopes covering one path form a chain with "." on top |
| PathScopes.IntersectionExact | factoryline/agent_license.py:658-674 | on normalised paths, covered by a returned scope iff covered by the scopes of every event |
| License.CleanRunsExact | factoryline/agent_license.py:690-735 | the counted clean runs are exactly the in-window clean runs later than every in-window severe failure and every oracle incident |
| License.AutonomousAdmission | factoryline/agent_license.py:970-1005 | an autonomous admission implies twenty such runs, fifteen independently verified, and every requested path inside the scope of each |
| License.AutonomousExact | factoryline/agent_license.py:970-1005 | an autonomous request is admitted exactly with twenty countable runs, fifteen of them verified by somebody else, and every requested path in the scope of each |
| License.SupervisedExact | factoryline/agent_license.py:984-989 | a supervised request is admitted exactly while everything has expired without an oracle incident, or on current evidence with three countable runs, five after a severe failure in the window or an oracle incident |
| License.AdmissionAnswers | factoryline/agent_license.py:984-1005 | an admission answers the derived tier; human control is never refused; an agent under human control is refused everything above it |
| License.TierExact | factoryline/agent_license.py:756-786 | tier and reason decided on expiry, countable runs, severe failures and oracle incidents of the ledger |
| License.SevereFailureDemotes | factoryline/agent_license.py:766-770 | a severe failure in the window with fewer than five later clean runs always gives human_controlled |
| License.OracleIncidentDemotes | factoryline/agent_license.py:782-786 | so does any oracle incident with fewer than five later clean runs |
| License.CleanRunLowersTier | factoryline/agent_license.py:756-779 | a new clean run lowers the tier exactly when only expired evidence existed without oracle incident, or an autonomous agent's run shares no path with the scopes granted so far |
| License.ExpiredThenCleanExample | factoryline/agent_license.py:760-765 | an instance in which one fresh clean run turns supervised into human_controlled |
| License.UnrelatedRunExample | factoryline/agent_license.py:771-779 | twenty clean runs on one path and then one on another: autonomous before, lower after |
| Swimlane.VerifySwimlane | factoryline/agentic_control.py:2345-2393 | accepts exactly the chained streams and otherwise reports the first error in order |
| Swimlane.EventChecked | factoryline/agentic_control.py:2352-2384 | what is demanded of the event at a position, and which error its first failure gives |
| Swimlane.HeadCommits | factoryline/agentic_control.py:2352-2385 | two accepted streams with one head digest have equal length and equal cores, digests and ids everywhere |
| Swimlane.AppendAccepted | factoryline/agentic_control.py:2316-2342 | an appended new event keeps the stream accepted exactly with the current length and head |
| Swimlane.TamperingShows | factoryline/agentic_control.py:2352-2385 | streams that differ at a position differ in every later digest |
| Drift.NoDiffsIffEqual | factoryline/agentic_control.py:2746-2777 | there are no differences exactly when the values are equal |
| Drift.DiffPathsSeparate | factoryline/agentic_control.py:2746-2777 | no reported key path is a prefix of another, so they are distinct |
| Drift.DiffsReport | factoryline/agentic_control.py:2746-2777 | every difference tells the truth: added is absent before, removed is absent after, changed is present in both and unequal, with the values given |
| Drift.PatchReproduces | factoryline/agentic_control.py:2746-2777 | applying the differences to the first value yields the second |
| DriftReceipt.CompareSound | factoryline/agentic_control.py:2823-2920 | CLEAR exactly when the cores are equal, and every receipt made by comparison verifies with its verdict |
| DriftReceipt.ComparedRecords | factoryline/agentic_control.py:2829-2846 | the receipt records the digests of baseline and current core in that order, and the first 128 differences with their classification |
| DriftReceipt.ComparedExactly | factoryline/agentic_control.py:2717-2743 | exactly which projections are compared at all |
| DriftReceipt.VerifiedMeans | factoryline/agentic_control.py:2875-2913 | a receipt verifies exactly when sealed, without authority, over two digests, with the verdict and marker its findings call for |
| DriftReceipt.BlockedWithinBound | factoryline/agentic_control.py:2832-2834 | BLOCKED exactly when one of the first 128 differences blocks |
| DriftPolicy.BlocksExactly | factoryline/agentic_control.py:2780-2814 | on key paths without dots, exactly which differences block |
| DriftBound.BlockingBeyondBound | factoryline/agentic_control.py:2832-2834 | projections whose 129th and only blocking difference goes unreported |
| DriftReceipt.SealNamesProjections | factoryline/agentic_control.py:2836-2846 | receipts with one seal were made from the same two projection cores |
| DriftReceipt.ClearDespiteDigests | factoryline/agentic_control.py:2773-2777 | a CLEAR receipt records two different digests exactly when the cores are equal to Python and not the same |
| DriftReceipt.ClearIsPythonEquality | factoryline/agentic_control.py:2773-2777 | two acceptable projections with different digests and the verdict CLEAR |
| TaskCard.VerifiedMeans | factoryline/agentic_control.py:751-841 | a card verifies exactly when sealed over its contents, without authority, with well-formed digests and lease, and with evidence when completed |
| TaskCard.TransitionAdmitted | factoryline/agentic_control.py:655-748 | a transition is carried out exactly along the edges of the lifecycle on a verified card, with well-formed digests, a full lease when one is taken, and an alignment and evidence for completion |
| TaskCard.TransitionKeepsCard | factoryline/agentic_control.py:655-748 | a transition keeps lease, evidence and digest rules and counts an attempt only for a lease |
| TaskCard.CardInvariant | factoryline/agentic_control.py:655-748 | in every reachable card attempts count the lease transitions, a lease is present exactly in six states, completion has evidence, and the card verifies |
| TaskCard.CardRemembers | factoryline/agentic_control.py:696-748 | checkpoint, evidence and lease of a reachable card are the last ones a carried-out request gave |
| TaskCard.FinalStatesAbsorb | factoryline/agentic_control.py:669-684 | completed and cancelled cards never change |
| TaskCard.CompletionExact | factoryline/agentic_control.py:1419-1451 | completion happens exactly with passed evidence and an aligned candidate, both naming the digest of this card, from verification or review |
| TaskCard.ReceiptsMean | factoryline/agentic_control.py:1238-1398 | what evidence and alignment receipts must be in themselves |
| TaskCard.EvidencePinsCard | factoryline/agentic_control.py:1401-1416 | one evidence receipt completes at most one card |
| TaskCard.StaleEvidenceRefused | factoryline/agentic_control.py:1401-1416 | once any request has been carried out on a card under verification or review, evidence naming the version before is refused for good |
| TaskCard.CompletionNeedsAlignment | factoryline/agentic_control.py:655-692 | no direct transition to completed without a verified alignment and an evidence digest |
| Closures.ConstructorResourceClosure | factoryline/__init__.py:746-777 | the worklist answers as `Closure` does; a result has one source row per taken site, each reachable and checked, with every forward target taken; a refusal has a failing reachable site or 64 distinct keys |
| Closures.ClosureComplete | factoryline/__init__.py:746-777 | a result has visited every reachable constructor exactly when the key determines the constructor, and then all of them passed their check |
| Closures.SharedKeySkipsExample | factoryline/__init__.py:754-758 | a reachable constructor that would refuse is skipped because it shares a key, and the closure still answers |
| Closures.HandlerReachable | factoryline/__init__.py:938-958 | the result lies in every closed set and, below 64, is the least closed set |
| Spans.ScanRedundancy | factoryline/analysis_evidence.py:473-540 | the scan that stops at the first match decides whether any earlier span matches |
| Spans.VerdictMeans | factoryline/analysis_evidence.py:473-540 | a repetition is found exactly for a valid call of this candidate equal in all five fields to an earlier one; an exempted one is neither passed nor reported redundant |
| Spans.EvaluateSpans | factoryline/analysis_evidence.py:704-762 | each row is the verdict against the last earlier span with the same canonical call |
| Spans.IndexAgainstScan | factoryline/analysis_evidence.py:506-535 | the index never invents a repetition, and differs from the scan exactly when some earlier call is equal field by field and none is identical |
| Spans.IndexRefinesScan | factoryline/analysis_evidence.py:704-762 | with string tool names and exactly five fields in earlier calls, index and scan agree |
| Spans.IndexMissesExamples | factoryline/analysis_evidence.py:506-517 | an extra field, or a tool given as true and then as 1, hides a repetition from the index |

## Left out

- SQLite, files, symlink checks, JSON decoding and subprocess calls are not modelled; a transaction is atomic and either commits or changes nothing.
- Row hashes against a hostile database writer are left out: rows are only written by the store.
- Field syntax of the workflow store (identifiers, digests, bounded text) is taken as already checked.
- Local databases of different connected scope, the registry of drivers, and the constructors' own checks are left out.
- The checkpoint digest is omitted from checkpoints because it is a function of their other fields.
- IncidentLaunch.LaunchAdmitted: says nothing of external effects after the last recheck; a process may pause before its launch call, and idempotence is the driver's duty.
- Progress of the incident driver is not claimed: a run retired by a source change can block its phase.
- IncidentLaunch: the driver object changes no field of its own, so the protocol is modelled on values rather than as a class.
- WorkflowPaging.ReadPage: the row hash of each returned event is not modelled; rows are only written by the store.
- TopologyCheck.AssertAcyclic: the limits of 64 nodes and 128 edges are not needed, so the result holds without them.
- TaskBoardGraph.ValidateTaskBoardGraph: the message listing the missing dependencies and Python's recursion limit are not modelled.
- License: ledger loading, file evidence, identity normalisation and the licence document are left out; string order of timestamps is taken to be time order.
- Swimlane.VerifySwimlane: sequence numbers are integers; Python would also accept an equal boolean or float.
- DriftPolicy.BlocksExactly: keys that are empty or contain a dot are left out, because the dotted text the code tests is ambiguous for them.
- Drift: floating-point numbers are left out of JSON values.
- DriftReceipt.CompareSound: a lane list with unhashable elements, which raises a type error, is classified here by element equality.
- TaskCard.CompletionExact: syntax of paths, handoff ids and evidence kinds inside the receipts is not modelled.
- Spans: numeric, context and tool criteria and the applicability policy are left out.
- Closures: what the syntax-tree inspection accepts at one constructor is an arbitrary function of the pending tuple.
- The agent card audit, capability registry, routing tiers, senior bundle, sandbox boundary and app builder modules would only add easy members.
