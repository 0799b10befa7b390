# A verified model of agent-bash's crash-tolerant protocols

`agent-bash` runs commands detached and must survive the loss of any process it uses without
replaying effects or inventing evidence. This project models the small protocols it relies on for
that, together with the pure transforms that present results, and proves what they promise. Each
file is one module; `dafny verify dfyconfig.toml` checks them all.

| file | what it models |
|---|---|
| `DeliveryRole.dfy` | the shared role slot of supervisor, guardian and custodian over a process tree with PID reuse |
| `ContainmentHandshake.dfy` | the challenge/acknowledgement handshake with concurrent challengers and successive roles |
| `CompletionDelivery.dfy` | the write-ahead completion record and the lock that survives its parent |
| `Activation.dfy` | explicit detach: claim, mode, outcome and mirror files, settlement and observation |
| `LaunchFence.dfy` | the one-use launch authority and its revocation |
| `SourceEvidence.dfy` | first-observation-wins selection, recovery or attested loss of the output, and the two-file publication of one bundle |
| `BootMarkers.dfy`, `CancelAdmission.dfy`, `ExternalCustody.dfy` | boot-stamped custody markers, cancel admission against drain and discharge, sticky uncertainty |
| `Reaper.dfy` | removal of state directories by causal ancestry, in shards |
| `LiveCapture.dfy` | the byte-budgeted ring of recent output with exact gaps |
| `Base64.dfy`, `Utf8.dfy`, `WaitStatus.dfy` | the codec and the streaming encoder, well-formed UTF-8 against its encoding, and the textual wait status |
| `StageDecoder.dfy`, `StageMeanings.dfy` | the stage-line decoder, and what its verdicts mean |
| `ImageStore.dfy` | the image cache under two budgets and its token bucket |
| `Options.dfy` | the optional value the others share |

## How the model works

A protocol is a state machine: one event per atomic memory operation, durable write, lock operation
or kernel event, and a crash or loss event that is enabled between any two of them. A run is a
sequence of states in which each follows from the one before by an enabled event; main results are
about every state of every run. Objects that a program updates in place (`LiveCapture`, `Store`,
`CreationRate`, `StateDirectory`, `StateRoot`) are classes whose methods are proved against
functions on values. Pure code is functions and lemmas.

Assumptions, stated where they are used:

- A durable write is all or nothing. An error reported after the visible rename is a separate event
  (`ModeWriteFailsVisibly` in `Activation.dfy`), never part of the ordinary loss.
- The delivery record is written only by the holder of the delivery lock or by the worker that
  shares the lock's open file description.
- SHA-256 is injective where evidence is compared (`Digest` in `SourceEvidence.dfy`) and an arbitrary
  function elsewhere.
- A custodian's PID is greater than 1, since -1 is the UNKNOWN slot value; PIDs are reused as soon as
  a process is reaped. Nobody reaps the guardian's own children but the active owner.
- Drain is recorded and custody discharged only by the adopting reaper, a single-threaded process:
  the supervisor, then the guardian that reaped it. Cancel requests come from any number of others.
- Containment is challenged only by the process that publishes roles
  (src/supervisor/descendant_signal.rs:46), which publishes none while it awaits an answer.
- State directory names are never used twice.

## Where the code does less than it promises

In each case the code is modelled as it is, the property is proved under the condition that excludes
the failing branches, and every state that takes such a branch is shown to fail, so the condition is
exact.

- **A second completion helper.** When a custodian is lost while its orphaned worker has not yet
  written the provisional record, the owner's read-back in `integrate_completion_transfer`
  (src/delivery.rs:1867-1895) can overwrite what the worker writes next and make the record
  attemptable again. `CompletionDelivery.AtMostOneHelper` proves at most one admission on all runs
  without such a read-back; `OvertakenAdmitsTwice` shows that every such read-back can go on to a
  second admission and `OvertakenIsReachable` that it takes one lost custodian. Two spawns remain
  the maximum on all runs.
- **A record that is over and attemptable again.** Besides that stale integration, which reopens an
  admitted or a closed record (`StaleIntegrationIsReachable`), an unknown record is reopened when the
  owner integrated a lost custodian over a provisional record and the orphaned worker then reports
  that it never started a helper (`LateReportIsReachable`, without any overtaken read-back).
  `ReopenedExactlyBy` proves that these two writes, and no others, do it. Once the lock is free
  nothing does (`ClosedStaysClosed`).
- **An Async mode nobody activated.** If the mode write of `detach` fails after its rename is visible,
  the rollback at src/delivery.rs:1936-1940 removes the claim only. `Activation.ClaimGuardsMode` and
  `ObservedAsyncMeansActivated` hold on runs without that failure; `VisibleFailureFakesActivation`
  shows that each such failure leaves a settled Async handle without an admitted helper.
- **An acceptance created after drain.** Drain is recorded outside custody.lock by a reaper that saw
  an acceptance, and under completion.lock alone by a live loop that publishes a cancellation nobody
  requested (src/supervisor.rs:3437-3451); a marker whose sync fails is rolled back
  (src/state.rs:960-1000). So a custody request past its check can create its acceptance after drain
  in three ways: an acceptance of either path that the reaper saw is rolled back with no drain
  standing, a live acceptance is rolled back after drain under the request, or the unrequested drain
  falls under the request. `CancelAdmission.NothingAcceptedAfterDrain` holds on all runs without
  them; `SeenRollbackAcceptsAfterDrain` and `LateAtOnce` show that each of them leads to such a
  request, and four runs show that each occurs. A live request checks neither marker
  (src/supervisor.rs:312-341) and is late in three ways of its own, which `LiveLateExactly` proves
  exact and three runs exhibit; `NothingLiveAcceptedAfterDrain` holds without them. That an accepted
  custody cancel is drained before custody goes holds on all runs.
- **Recovery that stays pending for good.** An observer that finds a pin, or fails after making one,
  commits a selection without a length (src/continuation.rs:46-73), and the loss of the output is then
  attested only if no pin exists (src/continuation/missing_output.rs:107-117). Nothing removes the
  pin, so after one crash between pin and selection no recovery ever publishes. The same holds when
  an interrupted copy or an ambiguous loss keeps the managed directory from proving anything.
  `SourceEvidence.RecoveryCompletes` proves that recovery completes from every state that is not
  pending; `PendingStays` and `StuckForGood` that from the others nothing is published, and
  `OrphanedPinIsReachable` and `FailedPinIsReachable` that the program gets there by itself.
- **Recovery after loss of the log.** Where the answer is determined, recoveries from two points of a
  run publish the same bytes exactly when no loss of the log in between took away a selected prefix
  that was only there (`SourceEvidence.RetriesConverge`). A missing-output bundle names the recovery
  that attested the loss, so its bytes are fixed by that record.

## Model

| member | source | states |
|---|---|---|
| DeliveryRole.SlotIsSound | src/delivery_role.rs:106-213 | in every state of every run with the supervisor or guardian alive, a positive slot value is the PID of the published, unreaped custodian and of no other process; a drain certificate belongs to an unreaped custodian with no descendant at any depth; zero means no admitted role process is left |
| DeliveryRole.UnknownNeedsTreeProof | src/delivery_role.rs:145-155 | a step that leaves UNKNOWN is the guardian's whole-tree proof, taken when no process but init and the guardian exists |
| DeliveryRole.UnknownAbsorbs | src/delivery_role.rs:115-145 | no other step of any process moves the slot off UNKNOWN |
| DeliveryRole.ExclusionNamesTheCustodian | src/delivery_role.rs:156-189 | whatever process carries the PID that cancellation exempts when the exemption is opened is the published custodian, so no reused PID is exempted |
| DeliveryRole.OneAdmittedRole | src/delivery.rs:1742-1795 | two live custodians that passed the fork gate are the same custodian |
| DeliveryRole.RunningRoleIsExempted | src/delivery_role.rs:156-189 | an admitted, undrained custodian is always the one that cancellation goes on to exempt |
| DeliveryRole.TreeProofFreesTheSlot | src/delivery_role.rs:145-155 | after the guardian's whole-tree proof the slot is zero |
| DeliveryRole.GuardianSucceeds | src/supervisor.rs:537-730 | on every run, once it has reaped the supervisor the guardian owns the slot exactly as it was left, with no operation under way; between exit and reap nobody owns it |
| DeliveryRole.OwnerReturns | src/delivery_role.rs:106-213 | every step of an adopting reaper's operation ends the operation or enables its next step, and ownership does not change hands meanwhile |
| DeliveryRole.CustodianProceeds | src/delivery_role.rs:215-262 | an unadmitted custodian drains at once; an admitted one elects itself subreaper before it may fork, and drains when that fails or no children are left |
| DeliveryRole.StepPreserves | src/delivery_role.rs:98-240 | the slot and process-tree invariant is kept by every atomic operation, fork, exit with reparenting, reap, subreaper election and gate step |
| DeliveryRole.RunKeepsInv | src/supervisor.rs:537-730 | the invariant holds in every interleaving of supervisor, guardian, custodian and worker steps |
| DeliveryRole.EmptyTree | src/supervisor.rs:537-730 | a guardian without children is the last process of its tree: ECHILD is a whole-tree proof |
| DeliveryRole.EmptyRole | src/delivery_role.rs:215-262 | a custodian without children has no live or unreaped descendant at any depth |
| DeliveryRole.RoleAdopts | src/delivery_role.rs:215-262 | while its custodian lives, orphans of a role are adopted inside the role |
| ContainmentHandshake.ConfirmedMeansFreshResponse | src/delivery_role.rs:54-96 | with any number of challengers, successive roles and lost owners, every confirmation implies that the very role the caller found published loaded this caller's own challenge after it was issued |
| ContainmentHandshake.ConfirmedIsAboutTheRole | src/delivery_role.rs:59-90 | at the step that confirms, no later role was published, so whatever the slot names is the role and the PID asked about |
| ContainmentHandshake.ChallengesAreUnique | src/delivery_role.rs:59-90 | no challenge is issued twice, to anyone |
| ContainmentHandshake.ConfirmedWasNamed | src/delivery_role.rs:59-90 | every confirmed caller found its PID in the slot after it had issued its challenge |
| ContainmentHandshake.AnsweredCallIsConfirmed | src/delivery_role.rs:54-96 | from any state, a call about the published role that this role answers is confirmed, one about another PID refused, and every call refused once the 64-bit counter is exhausted |
| ContainmentHandshake.UnansweredCallsExactly | src/delivery_role.rs:70-90 | a poll without an answer polls on, a timeout refuses and changes nothing else, and the owner's loss leaves no call open |
| ContainmentHandshake.StepPreserves | src/delivery_role.rs:59-96 | every load, store and increment, including the non-atomic load-then-store acknowledgement, keeps the log ordered by challenge |
| CompletionDelivery.AtMostTwoSpawns | src/delivery.rs:1704-1895 | on every run with losses of worker, custodian and owner at any step, helpers admitted are at most helpers tried, and those at most two |
| CompletionDelivery.AtMostOneHelper | src/delivery.rs:1813-1895 | at most one helper is admitted on every run without an overtaken read-back, and then the record permits no further attempt once the lock is free |
| CompletionDelivery.OvertakenAdmitsTwice | src/delivery.rs:1867-1895 | from every invariant state with an overtaken read-back a second admission follows |
| CompletionDelivery.OvertakenIsReachable | src/supervisor.rs:2555-2590 | losing one custodian suffices to reach an overtaken read-back |
| CompletionDelivery.DirectIsNeverOvertaken | src/delivery.rs:1742-1812 | without role custodians no read-back is overtaken |
| CompletionDelivery.ClosedStaysClosed | src/state.rs:195-249 | once the lock is free over a record that permits nothing, no attempt, spawn or admission ever follows |
| CompletionDelivery.ReopenedExactlyBy | src/delivery.rs:2614-2703 | a record that is admitted, unknown or closed becomes attemptable again exactly by an orphaned worker's late not-started report over an unknown record, or by an owner's stale integration over an admitted or closed one |
| CompletionDelivery.LateReportIsReachable | src/delivery.rs:1813-1895 | a run without an overtaken read-back reopens an unknown record |
| CompletionDelivery.StaleIntegrationIsReachable | src/delivery.rs:1867-1895 | a run reopens an admitted record |
| CompletionDelivery.AttemptIsAnswered | src/delivery.rs:1704-1895 | whatever the worker does, fails to do or is lost at, and with the owner lost too once a role custodian supervises, the lock is next free over a record that answers the attempt: never provisional, and attemptable only as the one retry of a first try |
| CompletionDelivery.AdmittedMeansStarted | src/delivery.rs:2614-2703 | on every run a recorded exit code, and without v2 any admitted outcome, is backed by a helper that started |
| CompletionDelivery.PermitsExactly | src/state.rs:195-249 | a record permits an attempt exactly if it is neither skipped nor attempted and has no error or one marked retryable |
| CompletionDelivery.LifecycleExactly | src/state.rs:223-249 | which lifecycle each record has, by its fields |
| CompletionDelivery.FailedRequestExactly | src/delivery.rs:2656-2675 | without v2 a failed request leaves an attemptable record exactly for an unavailable or changed helper at retry 0, and a closed one otherwise; with v2 it leaves the record alone |
| CompletionDelivery.ConclusionExactly | src/delivery.rs:2614-2655 | a conclusion records an admitted outcome with the helper's own exit code, under v2 only a zero one; a helper that was not started leaves, without v2, a launch failure that is attemptable exactly at retry 0 |
| CompletionDelivery.IntegrationExactly | src/delivery.rs:1867-1895 | the owner's integration reopens once what was attemptable when read, makes what was provisional unknown, and leaves every other record alone |
| CompletionDelivery.FailuresExactly | src/delivery.rs:1742-1812 | a failed fork and a custodian whose worker failed integrate what the record says at that moment, with the same three results |
| CompletionDelivery.SettleExactly | src/delivery.rs:1704-1741 | settling under a free lock makes a provisional record unknown and nothing else |
| CompletionDelivery.StepPreserves | src/delivery.rs:1704-1895 | the record, lock, retry and budget invariant is kept by every step and loss |
| Activation.ActivationIsSafe | src/delivery.rs:1920-2020 | on every run an outcome behind which a helper may stand implies mode Async and a claim; mode Sync implies no admission; without v2 at most one helper is admitted |
| Activation.SettlementIsIdempotent | src/delivery.rs:2075-2092 | from any contents of the four files, settlement lost after any number of writes and repeated ends in the same files |
| Activation.SettlesTo | src/delivery.rs:2075-2092 | what settlement makes of any contents, field by field |
| Activation.ClaimGuardsMode | src/state.rs:874-1000 | on a handle created Sync, mode Async implies the claim marker on every run without a visible failed mode write |
| Activation.ObservedAsyncMeansActivated | src/delivery.rs:2045-2073 | a successful observation of Async on a handle created Sync means that a helper was admitted, that its activation was accepted by its own answer or a readback, and that the outcome says so |
| Activation.VisibleFailureFakesActivation | src/delivery.rs:1930-1945 | every mode write that fails after its visible rename can leave a settled Async handle with no helper admitted |
| Activation.SettingModeIsReachable | src/delivery.rs:1920-1940 | every first detach of a handle created Sync comes to such a mode write |
| Activation.OutcomeIsWitnessed | src/delivery.rs:1955-2020 | on every run a failed outcome means that a helper ran, a succeeded one that an activation was accepted |
| Activation.AcceptanceIsRecorded | src/delivery.rs:1955-2020 | on every run without a lost worker, first tries and retries alike, an acceptance ends in a succeeded outcome |
| Activation.OnlyLossesOrphan | src/delivery.rs:1930-2020 | on every run without a lost worker nothing is ever left to settle once the worker is gone: every failure it sees it undoes or records itself |
| Activation.QueryAnswersExactly | src/delivery.rs:2060-2092 | a query settles and then answers from the files alone, case by case over all contents |
| Activation.DetachAnswersExactly | src/delivery.rs:1934-1985 | a detach that waited for its worker settles, and succeeds exactly if the worker did; then mode, mirror, claim and outcome all say activated, otherwise the files are the settled ones |
| Activation.DetachedIsMirrored | src/delivery.rs:1920-1985 | on every run a detach that succeeds, at the first try, again or by a retry, leaves mode and mirror Async |
| Activation.ConclusionExactly | src/delivery.rs:1955-2020 | a refusal is written as failed, an acceptance as succeeded, a helper that never started as a pre-admission failure; only then the mirror follows |
| Activation.RetriedExactly | src/delivery.rs:1919-2000 | a second helper is tried exactly by a v2 detach that finds Async with a failed or unknown outcome, a first one exactly by a detach that finds Sync |
| Activation.StepPreserves | src/delivery.rs:1920-2092 | every write, loss, retry and settlement step keeps the file, parent and worker invariant |
| Activation.StateDirectory.SettleOrphanedActivation | src/delivery.rs:2075-2092 | a pending outcome ends unknown with mode, mirror and claim unchanged; a claim without outcome, or a pre-admission failure, ends Sync, Sync, unclaimed, without outcome; all other contents stay |
| Activation.StateDirectory.SettledDeliveryMode | src/delivery.rs:2045-2066 | settles, returns the mode, and succeeds exactly for Sync or a settled activation; so Async is confirmed only where the outcome was succeeded, or absent and unclaimed, before the call |
| LaunchFence.FenceFollowsItsPath | src/continuation.rs:376-458 | on every run the fence goes unreleased, may_launch, launched or unreleased, revoked; its revision counts the steps; authority is confirmed and spent at most once |
| LaunchFence.NeverLaunchedIsFinal | src/continuation.rs:1389-1478 | if never_launched is ever published, no state of that run, earlier or later, has a released or launched fence |
| LaunchFence.HistoryGrows | src/continuation.rs:417-428 | the saved phases only ever extend |
| LaunchFence.SavedExactlyBy | src/continuation.rs:390-458 | release and abandonment are saved only by the original worker, launch only over a released fence, and anyone else revokes only an unreleased fence after that worker's loss |
| LaunchFence.RecoveryPublishesExactly | src/continuation.rs:1389-1478 | from every state with a free lock after the worker's loss, an undisturbed recovery publishes never_launched exactly if the fence exists and no launch was released, and changes no other history |
| LaunchFence.StepPreserves | src/continuation.rs:390-458 | every lock, read, write, unlock, loss and worker loss keeps the fence invariant |
| SourceEvidence.FirstObservationWins | src/continuation.rs:574-656 | after the first committed selection every restored observation and published outcome, by any observer or recovery, is the selected one, and a cancellation is selected only with tree drained and output closed |
| SourceEvidence.PublishedHalvesMatch | src/continuation.rs:735-766 | SNAPSHOT never exists without OUTCOME, both are the halves of the one bundle, the digest matches and the evidence the descriptor names exists |
| SourceEvidence.PublishedHeaderIsExact | src/continuation.rs:625-766 | a published snapshot has the return code of the selected event and the status of its kind, or says that the original output is missing |
| SourceEvidence.SelectionIsMeasured | src/continuation.rs:46-73 | a selected length was measured as the whole log of that moment by the very observer whose event is selected |
| SourceEvidence.SelectsExactly | src/continuation.rs:46-73 | an observer selects its own event whatever becomes of the pin, with a length exactly if the pin it made is still there |
| SourceEvidence.PublishedOutputIsMeasured | src/continuation.rs:735-766 | published output has the digest and length of the whole log as it was when the selecting, trusted observer measured it, whatever was appended later |
| SourceEvidence.AttestedExactly | src/continuation/missing_output.rs:107-117 | a loss is newly recorded exactly when no output is retained, the directory proves the loss and the selected observer is gone, and by the recovery that recorded it |
| SourceEvidence.OnlySelectionConflicts | src/continuation.rs:193-221 | no restoration, commit or publication after the selection ever meets different bytes |
| SourceEvidence.ImmutableIsAtomic | src/continuation.rs:193-221 | probe, link and comparison under concurrent creation have the result of one atomic write-once put |
| SourceEvidence.RetriesConverge | src/continuation.rs:912-935 | from a point of a run where the answer is determined, by the retained output, a recorded loss or a prefix that can still be copied, every later recovery gives the same descriptor exactly when no loss of the log in between took away a prefix that was only there; otherwise only a recorded loss, with its producer, can become the answer; every committed bundle is that of the answer, every published outcome the selected one, and a published snapshot differs exactly after such a loss |
| SourceEvidence.PublishedForGood | src/continuation.rs:193-221 | once a bundle is committed the answer is determined for good, the bundle never changes, and both published halves are its own |
| SourceEvidence.LossMatters | src/continuation.rs:1293-1303 | losing the log changes the answer exactly while the selected prefix is only in the log, with no completed copy and nothing decided |
| SourceEvidence.RecoveryCompletes | src/continuation.rs:1269-1303 | from every invariant state with a selection that is not pending one undisturbed recovery publishes both halves of the bundle of the answer, or of a loss it attests itself; a recovery that stopped may equally be repeated |
| SourceEvidence.PendingStays | src/continuation/missing_output.rs:9-60 | the converse: while nothing is decided, the prefix cannot be copied, and the loss is not proven or the original observer still exists, nobody publishes anything until that observer ends or storage is changed from outside |
| SourceEvidence.StuckForGood | src/continuation/missing_output.rs:107-152 | a handle whose loss the managed directory does not prove, for an orphaned pin, an unvalidated copy or an ambiguous loss, never publishes, whoever is gone, unless storage is changed from outside |
| SourceEvidence.OrphanedPinIsReachable | src/continuation.rs:60-73 | one crash between pin and selection leads to such a handle |
| SourceEvidence.FailedPinIsReachable | src/continuation.rs:46-73 | so does a pin that is linked and then fails to sync, without any crash |
| SourceEvidence.OneBundle | src/continuation.rs:735-766 | evidence on disk supports one descriptor only |
| SourceEvidence.StepPreserves | src/continuation.rs:31-70 | every pin, measurement, selection, restoration, freeze, attestation, hash, commit, publication and loss keeps the invariant and only adds files |
| CancelAdmission.AcceptedCancelIsDrainedFirst | src/state.rs:733-779 | in every interleaving of custody and live requests, drains and discharges, terminal or not, and after every crash and failed sync: when a custody request was told yes the custody marker is gone only with the drained marker present, and a request is admitted only while custody is held |
| CancelAdmission.OneAcceptance | src/state.rs:746-764 | of all custody requests, duplicates included, at most one is told yes |
| CancelAdmission.OneAnswer | src/state.rs:746-764 | no two custody requests of a run are both answered yes |
| CancelAdmission.SeenWasThere | src/supervisor.rs:3437-3451 | an acceptance that a reaper drains for was on disk when that reaper, since it last began, looked |
| CancelAdmission.NothingLiveOnceTerminal | src/supervisor.rs:312-341 | once a handle is terminal no live request creates a marker, not even one that was already waiting |
| CancelAdmission.NothingAcceptedAfterDrain | src/state.rs:746-779 | a custody request never creates its acceptance after drain or discharge, unless one the reaper saw was rolled back with no drain standing, or a rollback after drain or an unrequested drain fell under the admitted request |
| CancelAdmission.NothingLiveAcceptedAfterDrain | src/supervisor.rs:312-341 | a live request never creates its acceptance after drain or discharge, unless its lock was taken over a drained or discharged handle, a drain or discharge fell between lock and marker, or another acceptance was rolled back under it on such a handle |
| CancelAdmission.LiveLateExactly | src/supervisor.rs:312-341 | exactly these three steps make a live request late |
| CancelAdmission.LateLiveAccepts | src/supervisor.rs:339-341 | a late live request goes on to create its acceptance |
| CancelAdmission.LockOverSpoiltIsReachable | src/supervisor.rs:3437-3472 | a drain whose publication then fails leaves a drained, non-terminal handle for the next live request |
| CancelAdmission.SpoilUnderIsReachable | src/supervisor.rs:595-606 | a discharge without completion.lock falls under a live request |
| CancelAdmission.RollbackUnderLiveIsReachable | src/state.rs:960-1000 | a custody acceptance is seen, drained for and rolled back under a live request |
| CancelAdmission.SeenRollbackAcceptsAfterDrain | src/state.rs:960-1000 | every run that rolls back a seen acceptance of either path with custody held and no drain standing extends to a request that creates its acceptance after drain |
| CancelAdmission.LateAtOnce | src/supervisor.rs:3437-3451 | every rollback after drain and every unrequested drain under an admitted request makes that request create its acceptance after drain |
| CancelAdmission.SeenRollbackIsReachable | src/state.rs:746-764 | a seen rollback occurs with one custody request and one look of the reaper |
| CancelAdmission.LiveSeenRollbackIsReachable | src/supervisor.rs:339-341 | a seen rollback occurs with one live request and one look of the reaper |
| CancelAdmission.RollbackUnderIsReachable | src/supervisor.rs:325-341 | a live acceptance is seen, drained for and rolled back while a custody request of the same non-terminal handle is admitted |
| CancelAdmission.DrainUnderIsReachable | src/supervisor.rs:325-335 | an unrequested drain can fall under an admitted request |
| CancelAdmission.StepPreserves | src/state.rs:733-846 | every step of both kinds of request, of drain and discharge with their failed syncs, every loss and every reboot keeps the marker invariant |
| ExternalCustody.UncertaintySurvivesTheBoot | src/delivery.rs:2396-2418 | after an uncertain or lost attempt the marker survives every later attempt and discharge of that boot, and the directory is neither eligible nor removed |
| ExternalCustody.ConclusiveAttemptsLeaveNothing | src/state.rs:783-861 | if every attempt ends conclusively, no external marker remains between attempts, and custody is then clear exactly if founding custody was discharged |
| ExternalCustody.FoundingCustodyRetains | src/state.rs:783-861 | until founding custody is discharged or the boot ends the directory is never removed |
| ExternalCustody.MalformedMarkerNeverClears | src/state.rs:848-873 | a marker with a malformed boot identity outlives every attempt, discharge and reboot |
| ExternalCustody.RebootDischargesExactly | src/state.rs:848-873 | a reboot clears a marker exactly if both boot identities are well formed and differ |
| BootMarkers.BootIdExactly | src/state.rs:863-873 | a boot identity is well formed exactly if it is 8-4-4-4-12 hexadecimal digits joined by hyphens (section 4 of RFC 9562) |
| Reaper.ParentRetainsChild | src/state.rs:1280-1308 | across any run of passes and creations a nested handle is retained unchanged while its causal parent is |
| Reaper.AncestorRetainsDescendants | src/state.rs:1280-1308 | at any depth, while an ancestor is retained every link below it is |
| Reaper.PassKeepsChildren | src/state.rs:1189-1195 | one pass, in any directory order, never removes a child and leaves its parent |
| Reaper.PassRemovesExactly | src/state.rs:1109-1148 | a pass removes exactly the handles that, at some turn of theirs, were present, clear, and neither unreadable nor nested under anything but a handle already gone |
| Reaper.MalformedIsNeverRemoved | src/state.rs:1280-1308 | on every run of passes and creations a handle with unreadable evidence, or a parent that is no handle name, is never removed |
| Reaper.OnlyHandlesAreAssigned | src/state.rs:1062-1076 | only names that begin "ab_" and hash to the pass's shard are ever examined |
| Reaper.ShardHashOfPrefix | src/state.rs:1097-1103 | the FNV hash and the shard of the shortest handle name; no shards are one shard |
| Reaper.EveryHandleIsExamined | src/state.rs:1048-1103 | for every cursor, any `shards` consecutive listings that contain a handle include one whose pass has the handle among its assigned entries |
| Reaper.PassOfShard | src/state.rs:1082-1095 | every shard has its turn in any `shards` consecutive passes with written cursors |
| Reaper.ShardOfPass | src/state.rs:1082-1095 | the k-th pass after a cursor has shard cursor plus k, modulo the shards |
| Reaper.AssignedContains | src/state.rs:1062-1076 | an entry that a pass is responsible for is among those it examines |
| Reaper.StateRoot.ReapStateDirs | src/state.rs:1048-1080 | the directories left are those of the specified pass over a prefix of the assigned entries, all of them when no cap binds; counts are exact and the cursor advances |
| Reaper.StateRoot.ReapAssigned | src/state.rs:1062-1079 | the loop examines the assigned entries in order, all of them unless a cap binds, with exact counts; what it removes is what PassRemovesExactly says of that pass |
| Reaper.StateRoot.NextReapShard | src/state.rs:1082-1095 | the shard read, zero without a cursor or shards, and the cursor written, or kept when the write fails |
| Reaper.StateRoot.ReapStateEntry | src/state.rs:1109-1148 | one entry is removed, and reported, exactly when it is there, nothing else retains it, and it has no acceptance, is a root, or is nested under a handle that is gone; every other directory is unchanged |
| LiveCaptureModel.LiveCapture.Record | src/live_capture.rs:92-116 | after any chunk the ring is exactly the longest suffix of the whole non-empty history whose charges fit, `charged` is its charge, and eviction never finds it empty |
| LiveCaptureModel.LiveCapture.First | src/live_capture.rs:122-127 | the position of the first retained chunk of the history, or its end |
| LiveCaptureModel.ReadRefinesHistory | src/live_capture.rs:129-151 | the ring answers every position of its history with the records and gap that the whole history prescribes |
| LiveCaptureModel.OnlyFutureCursorsAreRefused | src/live_capture.rs:129-135 | a cursor is refused exactly beyond everything recorded |
| LiveCaptureModel.VisitsPartitionHistory | src/live_capture.rs:129-151 | for every schedule of reads that resume at the returned position, gaps and records laid end to end are the history: nothing duplicated, lost unseen or reordered |
| LiveCaptureModel.EveryByteIsAccountedFor | src/live_capture.rs:33-49 | per channel, gap lengths plus delivered bytes equal the bytes recorded |
| LiveCaptureModel.LongestFitIsUnique | src/live_capture.rs:100-109 | there is one longest fitting suffix |
| LiveCaptureModel.RingIsBounded | src/live_capture.rs:92-116 | retained payload plus 64 bytes for each record is what is charged, and within the budget |
| Base64.RoundTrip | src/root_v1.rs:714-755 | decoding the encoding of any bytes gives them back |
| Base64.AcceptsExactlyCanonical | src/root_v1.rs:732-755 | the decoder accepts exactly the texts of full quads and at most one padded quad with zero spare bits (sections 3.5 and 4 of RFC 4648), and each is the encoding of its result |
| Base64.AlphabetIsStandard | src/root_v1.rs:712 | the alphabet is that of table 1 of RFC 4648, in its order, with its padding |
| Base64.ShiftsOfBytes | src/root_v1.rs:715-724 | the four shifts of a 24-bit group are the groups the streaming encoder cuts byte by byte |
| Base64.QuadRoundTrip | src/root_v1.rs:732-753 | one quad decodes to the one to three bytes it encodes |
| Base64.EncodedLength | src/root_v1.rs:715-716 | the encoding of n bytes has four symbols for each started group of three |
| Base64.EncodeBytes | src/root_v1.rs:715-730 | the one-shot loop computes the specified encoding |
| Base64.DecodeText | src/root_v1.rs:732-755 | the decoding loop answers exactly for canonical text, with the bytes whose encoding it is |
| Base64.EncodeConcat | src/fresh_run.rs:425-452 | encoding commutes with concatenation at multiples of three bytes |
| Base64.EncodeBlock | src/fresh_run.rs:430-450 | one block of at most 48 KiB is encoded without overrunning the 64 KiB buffer |
| Base64.WriteBase64 | src/fresh_run.rs:416-458 | what is written is the one-shot encoding of the announced bytes (of the whole blocks before a short read), and success is reported exactly when they are all there with the expected digest |
| Utf8.ValidPartIsValid | src/root_v1.rs:412-420 | the reported valid part is valid, and an unfinished character is at most three bytes |
| Utf8.ValidPartIsLongest | src/root_v1.rs:412-420 | no longer prefix is valid |
| Utf8.CutOfValid | src/root_v1.rs:410-420 | cutting valid text anywhere leaves valid text and at most an unfinished character, never an error |
| Utf8.ScanExactly | src/root_v1.rs:410-420 | the scan accepts exactly the concatenations of encodings of scalar values (section 3 of RFC 3629, by arithmetic); otherwise the reported part is such a text, no encoding follows it, and the rest is called unfinished exactly if it is a proper beginning of one encoding |
| Utf8.ValidExactly | src/root_v1.rs:410-420 | valid bytes are exactly the encodings of sequences of scalar values |
| Utf8.UnfinishedExactly | src/root_v1.rs:410-420 | an unfinished character is exactly a non-empty proper prefix of one encoding |
| Utf8.StopsInCharacter | src/root_v1.rs:410-420 | after any text followed by the beginning of a character the scan stops exactly between them |
| Utf8.EncodedIsACharacter | src/root_v1.rs:410-420 | every encoding of a scalar value is scanned as one character of its length |
| Utf8.CharacterIsEncoded | src/root_v1.rs:410-420 | every scanned character is the encoding of a scalar value |
| WaitStatus.ParseExactly | src/root_v1.rs:702-709 | a status is read as an exit code or a signal exactly if it is "code:" or "signal:" followed by an optionally signed decimal numeral of that 32-bit value, and as nothing otherwise |
| WaitStatus.RenderedIsRead | src/root_v1.rs:702-709 | every 32-bit exit code and signal, rendered in decimal, is read back as itself |
| WaitStatus.ParsedExactly | src/root_v1.rs:703-707 | an integer is read exactly from its optionally signed numerals, within 32 bits |
| StageDecoder.EndedExactly | src/root_v1.rs:279-548 | for every list of lines the verdict is "ended" exactly when it begins accepted, started without a fault, any number of canonical chunks, one closure with their exact count, one end with a usable wait and matching output state and retained record |
| StageDecoder.EndedOutputIsTheChunks | src/root_v1.rs:309-340 | the payload of an "ended" verdict is the concatenation of those chunks, called complete, or a proper prefix, called partial |
| StageDecoder.RetrySafeExactly | src/root_v1.rs:345-540 | a retry is called safe exactly for a leading refusal or an acceptance followed directly by a positive not-started, and effects are called possible exactly otherwise |
| StageDecoder.ExitReportedExactly | src/root_v1.rs:352-520 | an exit is reported exactly when the first two lines are an acceptance and a start without a fault and, after output lines only, a usable end follows; and it is the exit code or the signal that this end's status spells |
| StageDecoder.UsableExactly | src/root_v1.rs:480-500 | an end is usable exactly if the work's own wait observed it and its status spells an exit code or a signal |
| StageDecoder.ExecErrorExactly | src/root_v1.rs:241-258 | an exec failure is reported exactly for a start that names it after a durable acceptance with a root and a positive 64-bit work number |
| StageDecoder.AcceptedExactly | src/root_v1.rs:341-358 | work counts as accepted exactly if the first line is an acceptance |
| StageDecoder.DeliveryExactly | src/root_v1.rs:436-548 | for every transcript: nothing delivered, no output and no effects go together and mean refused or not started; a wait means an end; unproven delivery means everything between; a proved end has no faults |
| StageDecoder.PayloadExactly | src/root_v1.rs:410-420 | a stream that fits is presented whole; of a longer one the first 64 KiB without a last character they would cut in two, and nothing else is taken away, from binary data neither |
| StageDecoder.CountsTheValidOutput | src/root_v1.rs:309-340 | for every transcript, what is counted and digested is the concatenation of the canonical chunks read after the start and before the closure and any ending line |
| StageDecoder.PresentationIsExact | src/root_v1.rs:410-459 | for every transcript that reaches presentation, presented plus omitted bytes are all the valid bytes received and the payload is a prefix of them of at most 64 KiB |
| StageDecoder.ValidStreamStaysValid | src/root_v1.rs:410-420 | if the received stream is the encoding of a text so is the payload, whole up to 65536 bytes and otherwise at least 65533 of them |
| StageDecoder.RunIsConsistent | src/root_v1.rs:296-408 | in every run a reply ends only after an acceptance that is the first stage, and output lines share one summary stage |
| StageDecoder.FaultsStay | src/root_v1.rs:296-408 | no later line clears a fault |
| StageDecoder.DecodeLines | src/root_v1.rs:279-548 | the reading loop reaches the specified verdict |
| StageMeanings.MeaningExactly | src/root_v1.rs:460-548 | the outcome and meaning of every transcript, over its lines: which refusal, which unknown, not started, or an end |
| StageMeanings.RecognisedExactly | src/root_v1.rs:345-408 | the final event recognised is exactly the one that ends a reply whose earlier lines were all in order |
| StageMeanings.UnknownIsExplained | src/root_v1.rs:460-480 | a reply without an end in order always names a fault |
| StageMeanings.RemainderExactly | src/root_v1.rs:418-459 | omitted bytes are said to be retained, wholly or partly, exactly when the end carries a believable record of that state, and a mismatch is reported exactly when its record is not believable |
| StageMeanings.BelievedExactly | src/root_v1.rs:422-434 | a record is believed exactly if absent, unsealed, or well formed, of this work and, when complete, of this very stream |
| StageMeanings.EveryOutputLineIsCounted | src/root_v1.rs:309-340 | the chunk count is the number of output lines read, faulty ones included |
| ImageStore.Store.Serve | src/image.rs:527-560 | every exit, failed materialisation included, leaves the cached keys the most recently used of all uses, `bytes` their sum and both budgets kept; a hit only moves its key; a miss spends a token, evicts the shortest least-recent prefix and adds one image; what is sent has the requested length and digest |
| ImageStore.Store.MakeRoom | src/image.rs:515-526 | evicts the shortest least-recent prefix that makes room and changes nothing else |
| ImageStore.CachedAreMostRecent | src/image.rs:556-559 | recency is a duplicate-free order by last use, and every used key that is not cached was last used before every cached one |
| ImageStore.PopKeepsGood | src/image.rs:516-525 | while room is needed the queue is not empty and its first image is counted, and popping it keeps the invariant |
| ImageStore.HitKeepsGood | src/image.rs:556-559 | moving a cached key keeps the invariant for the longer log |
| ImageStore.MissKeepsGood | src/image.rs:551-559 | adding an image for which there is room keeps the invariant for the longer log |
| ImageStore.BatchedRefillIsDrip | src/image.rs:489-496 | refilling all elapsed seconds at once equals a bucket that gains one token each second it is not full |
| ImageStore.GrantsAreBounded | src/image.rs:488-503 | from any bucket state, for clock readings in any order, grants never exceed tokens in hand plus whole seconds up to the latest reading |
| ImageStore.TokensAreConserved | src/image.rs:488-503 | over any calls, grants plus tokens left are the first tokens plus one for each second the bucket was not full |
| ImageStore.RefusedExactly | src/image.rs:488-503 | after any calls, the next is refused exactly when the grants so far have used up the first tokens and all gained since |
| ImageStore.BurstIsGranted | src/image.rs:488-503 | as many calls as there are tokens in hand are all granted, whatever the clock says |
| ImageStore.TakenExactly | src/image.rs:488-503 | one call takes one token from what was there and gained if there is one, and nothing else |
| ImageStore.OneTokenASecond | src/image.rs:489-496 | an empty bucket grants again after a full second, not a nanosecond earlier |
| ImageStore.CreationRate.Take | src/image.rs:488-503 | grants exactly when the second-by-second bucket holds a token, and leaves that bucket with one token fewer if it granted and unchanged otherwise |

## Left out

- Everything else of `src/supervisor.rs`: signals, cgroups, output pumps, ready sentinels and timers; only the guardian's reaping loop and the integration of transfers appear.
- Output freezing is the copy of the selected prefix of an append-only log, and an interrupted copy leaves nothing, a completed copy or one that nothing validates; receipts, inode inventories and the incremental `OutputHasher` are not modelled beyond their result.
- Outside changes of managed storage other than the loss of the log inode and the removal of the pin.
- The acceptance a supervisor records itself when a launch is cancelled beforehand (src/supervisor.rs:856-890): no other process requests, drains or discharges then.
- Sockets, descriptor passing, pidfds, procfs, keyrings and memfd seals: only their results appear, as inputs or events.
- JSON text and record field comparisons (`exact`, `outcome_identity`, `retention_released`, `source_stamp_matches`, `completion_owner_witness`): records are datatypes already parsed.
- `src/private_v30.rs`, the broker conversation of `src/fresh_run.rs`, `src/root_work.rs`, `src/config.rs`, `src/guard.rs`, `src/main.rs`, `src/retained_output.rs`: plumbing or straight-line requests.
- `decode_async` and `parse_reference` of `src/root_v1.rs`, and `Recovery` of `src/image.rs`: they would only add easier members beside the ones here.
- Power loss: a file that is visible but not yet synced is taken to survive a reboot.
- Real time: deadlines, sleeps and poll intervals are failure or loss events that may come at any step.
- Integer widths are those of unbounded integers except for the shard hash, JSON integer ranges and wait statuses; counters of the model cannot overflow within the limits the program sets; the challenge counter refuses at its 64-bit maximum as the program does.
- Base64.WriteBase64: does not model a failing output writer; a failed write would only shorten what was written.
- ImageStore.Store.Serve: does not model a reply that cannot be sent; the cache state is then the one stated here.
- Reaper.StateRoot.ReapStateDirs: locks, remaining eligibility evidence and the success of the removal are one arbitrary predicate of the handle per pass.
- StageDecoder.EndedExactly: parsing of a retained record's identity string is an input, so its syntax is not covered.
