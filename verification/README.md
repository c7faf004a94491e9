# GPU base operator: verified model

A Dafny model of the controllers of the Intel GPU base operator that keep state across
reconcile passes, with proofs of what they promise over whole runs.

* **Recovery plans.** A `GPURecoveryPlan` turns device taints published in ResourceSlices into
  recovery events and moves each event from waiting-approval through blocked, missing-firmware,
  draining and in-progress to succeeded or failed. A pass runs fixed phases: detect, approve,
  drain, sync Jobs, prune approvals, reconcile taints; then the status is written, then the
  approvals are merged back. `Naming`, `NodeDrain`, `RecoveryEvents`, `Detection`, `Approvals`,
  `ApprovalMerge`, `NodeTaints` and `Reconciler` model the parts. `DetectionRules`, `ApprovalRules` and
  `DrainRules` state what these decide on the fields of the objects alone, apart from the model's own
  functions. `PlanRuns` proves what holds of every run, with edits and lost writes between and during
  passes; `PlanAccounts` balances approvals against recoveries, `PlanPasses` has the guarantees of one
  pass, `PlanTaints` follows the node taints, `PlanProgress` a blocked event until it starts, and
  `PlanHistory` failed and running ones. `Scenarios` builds the passes from which `CaseVariants`,
  `SharedJobs`, `LostApprovals` and `LostStatus` show where promises end.
* **Firmware rollouts.** `FirmwareUpdate` models the canary or direct rollout over node lists, node
  taints and Jobs; `FirmwareRuns` proves canary safety, the partition of the nodes, termination and
  progress; `FirmwareRules` states every transition on the cluster's answers, and that no node is flashed
  under running GPU pods; `StrayTaint` constructs the run that completes and leaves a taint behind.
* **XPUM device refresh.** `DeviceRecord` and `XpumRefresh` model the printed device record and the
  per-node guards (cooldown, budget, rebind edges); `XpumRuns` proves the rationing of restarts.
* **Queue resources.** `QueueResources` models adding up node resources and dividing them over
  Kueue queues.

`Prelude`, `SortedStrings` and `Runs` hold shared vocabulary, sorting, and induction over runs.

Everything the cluster answers is an input of a pass: listed objects, node labels, Job conditions,
the clock as each phase reads it, and which calls fail. The SHA-256 prefix is any function giving
that many hex characters. A pass over a plan is recorded as a value with the state after each phase;
a run is a sequence of stored plans linked by passes and by edits of other actors. The state machines
are classes whose methods have the source's loops, each proved against a function or predicate on
values; the lemmas are about those.

Four places where code and comments differ follow the code. The worked sum above `nodeSegmentMax` says
61 but its parts, and the longest Job name, come to 63. The doc comment on a firmware rollout's state
omits `canary_done` and `error_cleanup`, which the code uses. The comment in `persistPlan` says a lost
status is rewritten on the retry; once the approval is marked, it is not (`ResetCanBeForgotten`). The
comment on `syncRecoveryEventsFromSlices` says failed events are queued again while their taint persists;
they are left alone (`FailedIsTerminal`).

Some promises do not hold of the code as it stands; for each there is a counterexample, as a run, and
the exact condition:

* one recovery per node fails for two addresses of a node that differ only in letter case, and holds
  over every run exactly when there are none (`TwinPass`, `ExclusiveExactlyWhenCaseDistinct`);
* two nodes can share one Job: in the first hundred attempts exactly when their names agree in the segment
  the event ID keeps, as `a.b` and `a-b` do, and type, address and attempt agree; later also when the hashes
  of the two IDs agree (`DottedNodesShareAJob`, `JobSharedExactlyWhen`, `IdSharedExactlyWhen`);
* an approval deleted while its pass runs starts a recovery and is never seen consumed; recoveries and
  consumed approvals balance exactly when every approval a pass spent was written back to a list that still
  showed it, not deleted and not marked meanwhile (`DeletedApprovalIsMissed`, `BalancesExactlyWhen`);
* a started recovery can be forgotten, and the next pass then untaints its node under the reset; it is
  forgotten exactly when the status write is lost and the write of its spent approval lands on a list that
  still shows it open (`ResetCanBeForgotten`, `ForgottenExactlyWhen`);
* a held-back event can lose its group approval, exactly when the approval's override changes the type
  its own selector asks for (`HeldEventCanBeStranded`, `HeldBackKeepsItsApproval`);
* a canary can have company, and a rollout that completes can leave a node tainted, if a begin pass lost
  its status write: beside the canary and outside the completed scope, exactly the nodes of such passes
  are tainted (`CanaryCanHaveCompany`, `CanaryAloneExactlyWhen`; `CompletedCanLeaveATaint`,
  `LeftBehindExactly`).

## Model

| member | source | states |
|---|---|---|
| `Naming.SanitizeSegment` | internal/controller/gpurecoveryplan/gpurecoveryplan_helpers.go:202-217 | the rune-by-rune loop yields the lower-cased, hyphen-folded text with outer hyphens trimmed |
| `Naming.TrimIsASlice` | internal/controller/gpurecoveryplan/gpurecoveryplan_helpers.go:216 | trimming leaves a slice of the text, with no hyphen at either end, and cuts nothing but hyphens |
| `Naming.EventIdIsReadable` | internal/controller/gpurecoveryplan/gpurecoveryplan_helpers.go:126-165 | for every node name, accepted PCI address and type the ID is the readable form, at most 51 bytes and a DNS-1123 subdomain (RFC 1123 section 2.1) |
| `Naming.JobNameIsReadable` | internal/controller/gpurecoveryplan/gpurecoveryplan_helpers.go:168-180 | attempts 0 to 99 of a generated event keep the readable Job name within 63 bytes |
| `Naming.JobNameBoundIsTight` | internal/controller/gpurecoveryplan/gpurecoveryplan_const.go:92-105 | a full-width node reaches exactly 63 bytes, and from attempt 100 on its name is the hashed form |
| `Naming.JobNameFixesAttempt` | internal/controller/gpurecoveryplan/gpurecoveryplan_helpers.go:168-180 | two Job names, readable or hashed, agree only if the attempts do |
| `Naming.JobNameInjective` | internal/controller/gpurecoveryplan/gpurecoveryplan_helpers.go:168-180 | Job names of generated events are injective in event ID and attempt |
| `Naming.DecimalRoundTrip` | internal/controller/gpurecoveryplan/gpurecoveryplan_helpers.go:168-180 | the attempt number printed into a Job name reads back |
| `Naming.SameNodeSameId` | internal/controller/gpurecoveryplan/gpurecoveryplan_helpers.go:126-165 | two events of one node share an ID only if their PCI addresses agree after lower-casing |
| `Naming.CaseVariantsShareId` | internal/controller/gpurecoveryplan/gpurecoveryplan_helpers.go:126-165 | for one type, two addresses on a node share an ID if and only if they agree after lower-casing |
| `Naming.IdsAgreeExactlyWhen` | internal/controller/gpurecoveryplan/gpurecoveryplan_helpers.go:126-165 | two events of any nodes share an ID if and only if node segment, type and lower-cased address agree |
| `Naming.SegmentsAgreeExactlyWhen` | internal/controller/gpurecoveryplan/gpurecoveryplan_helpers.go:188-197 | node names that need no shortening share a segment if and only if they agree with dots read as hyphens |
| `Naming.JobNamesAgreeExactlyWhen` | internal/controller/gpurecoveryplan/gpurecoveryplan_helpers.go:168-180 | at any attempts, two Job names agree if and only if the attempts do and the IDs, or the hashes both names fell back to, which none does before attempt 100 |
| `Naming.EventIdReadsBack` | internal/controller/gpurecoveryplan/gpurecoveryplan_helpers.go:126-165 | on plain node names and lower-case addresses, node, type and address can be read back from the ID |
| `Naming.IdSpells` | internal/controller/gpurecoveryplan/gpurecoveryplan_helpers.go:126-165 | an event ID as printed: evt, node, sbr, slot, amc or reflash, and the address with hyphens |
| `Naming.LongNodeSegment` | internal/controller/gpurecoveryplan/gpurecoveryplan_helpers.go:188-197 | a longer node name keeps its beginning and ends in the hash of the whole name, within 26 bytes |
| `Naming.EventIdAlwaysFits` | internal/controller/gpurecoveryplan/gpurecoveryplan_helpers.go:126-165 | for any published text the ID is a DNS-1123 subdomain of at most 51 bytes, readable where that is one, else the hash of node and address |
| `Naming.OperatorSchemeIsGood` | internal/controller/gpurecoveryplan/gpurecoveryplan_helpers.go:126-180 | the operator's own event and Job names obey every naming law the plan results assume |
| `NodeDrain.PodsBlockingDrain` | internal/controller/common/drain.go:355-376 | the two lists are exactly the pods to evict and to await, in order |
| `NodeDrain.ClearMeansNothingBlocks` | internal/controller/common/drain.go:311-376 | both lists are empty if and only if every pod on the node is never-evicted or finished |
| `NodeDrain.BlockersAreSplit` | internal/controller/common/drain.go:335-376 | a pod blocks if and only if it is neither never-evicted nor finished, and is awaited rather than evicted if and only if terminating |
| `NodeDrain.DevicesForBdf` | internal/controller/gpurecoveryplan/gpurecoveryplan_controller.go:892-919 | the pool devices published for a node under one PCI address, over all slices |
| `NodeDrain.ClaimHeldOnlyByUndrainablePods` | internal/controller/gpurecoveryplan/gpurecoveryplan_controller.go:847-888 | the first reservation that is not a live, same-UID, never-evicted pod decides; an unreadable one gives no answer |
| `NodeDrain.HoldIgnorable` | internal/controller/gpurecoveryplan/gpurecoveryplan_controller.go:847-888 | a claim is ignored if and only if every reservation is such a pod |
| `NodeDrain.ClaimsHoldingDevice` | internal/controller/gpurecoveryplan/gpurecoveryplan_controller.go:793-843 | the sorted names of the claims a reset waits for, or no answer if a list or reservation could not be read |
| `NodeDrain.NoClaimsLeft` | internal/controller/gpurecoveryplan/gpurecoveryplan_controller.go:793-843 | no claim is left if and only if every reserved claim with a non-admin hold on the GPU is held by pods the drain leaves alone |
| `NodeDrain.DrainNodeForEvent` | internal/controller/gpurecoveryplan/gpurecoveryplan_controller.go:675-726 | one drain pass: failed, waiting with its blockers, or ready, and exactly the pods it asks to evict |
| `NodeDrain.ReadyExactlyWhenSafe` | internal/controller/gpurecoveryplan/gpurecoveryplan_controller.go:675-726 | a drain reports ready if and only if the taint is set, the node is clear and the GPU is released |
| `RecoveryEvents.AdvanceDrain` | internal/controller/gpurecoveryplan/gpurecoveryplan_controller.go:616-671 | one event's turn in the drain loop, deadline included, equals the drain transition |
| `RecoveryEvents.JobOnlyWhenSafe` | internal/controller/gpurecoveryplan/gpurecoveryplan_controller.go:616-726 | a drained event goes in-progress only over a set taint, a clear node and a released GPU |
| `RecoveryEvents.ReportNeverDecides` | internal/controller/gpurecoveryplan/gpurecoveryplan_helpers.go:522-536 | the capped list of reported blockers never influences what becomes of the event |
| `RecoveryEvents.DrainKeepsItsDeadline` | internal/controller/gpurecoveryplan/gpurecoveryplan_helpers.go:611-657 | a drain fails only past its own timeout, 300 seconds where the plan names none, and outlives it exactly when the event has no type and the node is ready |
| `RecoveryEvents.JobKeepsItsDeadline` | internal/controller/gpurecoveryplan/gpurecoveryplan_controller.go:1143-1194 | an event still in-progress after the sync has no verdict, is in time by those figures, and is unchanged |
| `RecoveryEvents.VerdictIsFirst` | internal/controller/gpurecoveryplan/gpurecoveryplan_helpers.go:384-398 | a Job's verdict is its first condition that holds and is Complete or Failed, and there is none exactly when no such condition holds |
| `RecoveryEvents.SyncDecidesExactly` | internal/controller/gpurecoveryplan/gpurecoveryplan_controller.go:1143-1218 | a running event succeeds if and only if its Job says Complete; it fails if and only if the Job says Failed or is undecided more than 60 seconds past its deadline, which is its own or the plan's figure for a reflash (else 600) or a reset (else 300), counted from the Job's start, or creation, or the last change if the Job is gone; then the Job is filed, otherwise nothing changes |
| `RecoveryEvents.DrainContinues` | internal/controller/gpurecoveryplan/gpurecoveryplan_controller.go:616-671 | a drain pass keeps device, ID, type and approval, touches no inactive event and activates none |
| `RecoveryEvents.SyncContinues` | internal/controller/gpurecoveryplan/gpurecoveryplan_controller.go:1143-1194 | so does the Job sync, which leaves draining events as they are |
| `RecoveryEvents.DrainKeepsEventOk` | internal/controller/gpurecoveryplan/gpurecoveryplan_controller.go:616-671 | the drain transition keeps the event invariant (identity, Job name exactly while in-progress, drain clock) |
| `RecoveryEvents.SyncKeepsEventOk` | internal/controller/gpurecoveryplan/gpurecoveryplan_controller.go:1198-1218 | closing a Job keeps the event invariant: entry k of the past Jobs carries attempt k |
| `RecoveryEvents.JobNamesAreDistinct` | internal/controller/gpurecoveryplan/gpurecoveryplan_controller.go:923-927 | all Jobs of an event, past and present, have pairwise different names, across escalations |
| `DrainRules.ReadyIsSafe` | internal/controller/gpurecoveryplan/gpurecoveryplan_controller.go:675-726 | a drain reports ready if and only if the node is tainted, every pod on it is in a skipped or the operator's namespace, static, of a DaemonSet or run to its end, and every reservation of a claim on the GPU is by the same, living pod of that kind |
| `DrainRules.DrainMovesExactly` | internal/controller/gpurecoveryplan/gpurecoveryplan_controller.go:616-671 | one drain pass: a Job if and only if that is safe and accepted, parked if and only if a reflash lacks firmware, failed if and only if time is up and neither happened |
| `DrainRules.DrainRecords` | internal/controller/gpurecoveryplan/gpurecoveryplan_helpers.go:597-657 | the Job named for the attempt, a drain clock that stands until the drain fails, and no blockers left once safe |
| `DrainRules.ReportedExactly` | internal/controller/gpurecoveryplan/gpurecoveryplan_controller.go:692-724 | a waiting drain reports, sorted, exactly the pods and claims in the way |
| `DrainRules.UnansweredExactlyWhen` | internal/controller/gpurecoveryplan/gpurecoveryplan_controller.go:793-886 | a drain pass learns nothing if and only if the taint, a list, or the read of the first reservation not by a pod left alone failed |
| `DrainRules.ReportFollows` | internal/controller/gpurecoveryplan/gpurecoveryplan_controller.go:675-726 | the report on the event is kept by a pass that learns nothing and replaced by one that finds blockers |
| `DrainRules.AskedExactly` | internal/controller/common/drain.go:355-378 | exactly the pods in the way that are not terminating are asked to leave |
| `DrainRules.CapShowsTen` | internal/controller/gpurecoveryplan/gpurecoveryplan_helpers.go:522-537 | at most ten blockers are listed, the rest counted |
| `Detection.ScanSlices` | internal/controller/gpurecoveryplan/gpurecoveryplan_controller.go:317-397 | the map built over all slices holds, per watched GPU, the most severe need its taints call for |
| `Detection.DemandsExactly` | internal/controller/gpurecoveryplan/gpurecoveryplan_helpers.go:70-119 | a recovery is demanded if and only if some slice publishes a watched device with a taint calling for it |
| `Detection.RemoveResolved` | internal/controller/gpurecoveryplan/gpurecoveryplan_controller.go:1281-1313 | drops exactly the events whose taint is gone and that have no Job in flight |
| `Detection.UnresolvedKeeps` | internal/controller/gpurecoveryplan/gpurecoveryplan_controller.go:1281-1313 | what survives is exactly what is still needed or in flight, unchanged, one per device |
| `Detection.UnresolvedInOrder` | internal/controller/gpurecoveryplan/gpurecoveryplan_controller.go:1281-1313 | the survivors keep their order |
| `Detection.FindEventForDevice` | internal/controller/gpurecoveryplan/gpurecoveryplan_helpers.go:692-700 | the index of the event for a device, or -1 when there is none |
| `Detection.AddNewEvents` | internal/controller/gpurecoveryplan/gpurecoveryplan_helpers.go:826-857 | known devices are escalated in place, unknown ones get one event each behind them as far as the cap allows, whatever the map order |
| `Detection.DetectionCoversDevices` | internal/controller/gpurecoveryplan/gpurecoveryplan_helpers.go:826-902 | one event per device, at most 1000; below the cap exactly the tainted devices and those with a Job in flight |
| `Detection.DetectionIsSevereEnough` | internal/controller/gpurecoveryplan/gpurecoveryplan_helpers.go:861-902 | an event without a Job in flight is at least as severe as every taint of its device demands |
| `Detection.DetectionKeepsOrEscalates` | internal/controller/gpurecoveryplan/gpurecoveryplan_helpers.go:861-902 | an event outlives detection unchanged, or as a strictly more severe, unapproved one waiting again |
| `Detection.DetectionKeepsEventOk` | internal/controller/gpurecoveryplan/gpurecoveryplan_helpers.go:703-721 | new and escalated events satisfy the event invariant |
| `DetectionRules.AddressesAccepted` | internal/controller/gpurecoveryplan/gpurecoveryplan_helpers.go:226-242 | the accepted addresses are exactly four hex digits, two, two and an octal digit with colons and a dot, in either case |
| `DetectionRules.DemandedExactlyWhen` | internal/controller/common/gpu.go:60-69 | a reflash is demanded if and only if a slice publishes one of the two survivability taints on a watched GPU, or the wedged one under a default of reflash; another type if and only if it publishes the wedged taint and the type is the plan's default, or sbr where that is unset |
| `DetectionRules.NeededExactly` | internal/controller/gpurecoveryplan/gpurecoveryplan_controller.go:317-379 | what a GPU needs is a reflash in survivability mode, else its reset if wedged, else nothing |
| `DetectionRules.DetectedExactly` | internal/controller/gpurecoveryplan/gpurecoveryplan_helpers.go:826-902 | every event after detection, field by field: new for a GPU without one, escalated if and only if what its taints call for outranks it and no Job is in flight, untouched otherwise |
| `DetectionRules.ListedExactly` | internal/controller/gpurecoveryplan/gpurecoveryplan_helpers.go:826-857 | below a thousand events, exactly the GPUs in trouble and those with a Job in flight have one |
| `Approvals.FindMatchingApproval` | internal/controller/gpurecoveryplan/gpurecoveryplan_controller.go:521-562 | the search returns the first listed, unspent approval that names or selects the event |
| `Approvals.FirstCover` | internal/controller/gpurecoveryplan/gpurecoveryplan_controller.go:521-562 | the match covers the event and no earlier entry does; none only when no entry covers it or it has no type |
| `Approvals.FindExplicitApproval` | internal/controller/gpurecoveryplan/gpurecoveryplan_controller.go:565-573 | the first unspent approval naming the event's ID |
| `Approvals.NodeBusyWith` | internal/controller/gpurecoveryplan/gpurecoveryplan_helpers.go:559-574 | busy if and only if an event with another ID is draining or in-progress on the node |
| `Approvals.EnsureImagesUsable` | internal/controller/gpurecoveryplan/gpurecoveryplan_imageverific.go:94-132 | which images are checked, when the check is skipped or not repeated, and the hold it leaves |
| `Approvals.ImageHoldLasts` | internal/controller/gpurecoveryplan/gpurecoveryplan_imageverific.go:74-132 | an event held for its images is not rechecked until the spec's generation changes; then it passes if and only if all images pull |
| `Approvals.DecideEvent` | internal/controller/gpurecoveryplan/gpurecoveryplan_controller.go:402-511 | the loop body for one event equals the approval transition |
| `Approvals.StartsExactlyWhen` | internal/controller/gpurecoveryplan/gpurecoveryplan_controller.go:402-511 | an event starts if and only if it may be looked at, an unspent approval covers it, its node is free, its images pull, and it can drain or get its Job |
| `Approvals.ApproveFacts` | internal/controller/gpurecoveryplan/gpurecoveryplan_controller.go:402-511 | what happened names an unspent approval that is now recorded on the event; nothing else about the event's identity moves |
| `Approvals.ApprovalsKeepExclusive` | internal/controller/gpurecoveryplan/gpurecoveryplan_controller.go:402-511 | the loop, which mutates events while reading the others, never puts a second recovery on a node whose events have different IDs |
| `Approvals.ApprovalsKeepEventOk` | internal/controller/gpurecoveryplan/gpurecoveryplan_controller.go:578-612 | approving, overriding and launching keep the event invariant and the severity rank |
| `Approvals.SpentExactly` | internal/controller/gpurecoveryplan/gpurecoveryplan_controller.go:493-511 | an entry is newly consumed if and only if it is one-shot, an event started under it and none is held back under it |
| `Approvals.SpentEqualsStarted` | internal/controller/gpurecoveryplan/gpurecoveryplan_controller.go:493-511 | with single-event approvals and distinct IDs, as many approvals are spent as events start |
| `Approvals.HeldBackKeepsItsApproval` | internal/controller/gpurecoveryplan/gpurecoveryplan_controller.go:441-511 | a blocked event's approval stays unspent, and still covers it if and only if its override did not change the type its selector asks for |
| `ApprovalRules.FailedWakesExactlyWhen` | internal/controller/gpurecoveryplan/gpurecoveryplan_controller.go:413-431 | a failed event is looked at if and only if an unspent approval names it by ID |
| `ApprovalRules.OutcomeExactly` | internal/controller/gpurecoveryplan/gpurecoveryplan_controller.go:402-511 | which of the six outcomes an event has, one if-and-only-if each, on its state and type, the approvals' fields and the node's labels, the other events of the node, the plan's images and firmware and the Job call |
| `ApprovalRules.ApprovedExactly` | internal/controller/gpurecoveryplan/gpurecoveryplan_controller.go:433-500 | the event after each outcome, field by field: first authorising approval recorded, override applied, state, Job name, drain clock, image check and stamp |
| `ApprovalMerge.DiffApprovals` | internal/controller/gpurecoveryplan/gpurecoveryplan_helpers.go:945-972 | the difference is exactly the IDs newly consumed and the IDs dropped |
| `ApprovalMerge.Apply` | internal/controller/gpurecoveryplan/gpurecoveryplan_helpers.go:982-1004 | the merge of the changes into a list, and a change is reported if and only if there is one |
| `ApprovalMerge.MergeContents` | internal/controller/gpurecoveryplan/gpurecoveryplan_helpers.go:982-1004 | an entry is in the merge if and only if it is an unremoved entry, marked |
| `ApprovalMerge.DiffThenMerge` | internal/controller/gpurecoveryplan/gpurecoveryplan_helpers.go:945-1004 | for unique IDs, applying a pass's difference to its starting copy rebuilds the pass's result |
| `ApprovalMerge.MergeKeepsAppended` | internal/controller/gpurecoveryplan/gpurecoveryplan_helpers.go:982-1004 | entries appended meanwhile under new IDs come through unchanged, in order |
| `ApprovalMerge.MergeCommutesWithDeletion` | internal/controller/gpurecoveryplan/gpurecoveryplan_helpers.go:982-1004 | deletions made meanwhile commute with the write-back |
| `ApprovalMerge.MergeIsIdempotent` | internal/controller/gpurecoveryplan/gpurecoveryplan_helpers.go:982-1004 | a second application changes nothing |
| `ApprovalMerge.MergeKeepsTheRest` | internal/controller/gpurecoveryplan/gpurecoveryplan_helpers.go:982-1004 | entries the pass did not touch are kept as they stand |
| `ApprovalMerge.MergeKeepsUniqueIds` | internal/controller/gpurecoveryplan/gpurecoveryplan_helpers.go:982-1004 | the merged list still has unique IDs |
| `ApprovalMerge.PassIsAMerge` | internal/controller/gpurecoveryplan/gpurecoveryplan_helpers.go:782-807 | consuming and pruning in a pass is the merge of that pass's changes |
| `ApprovalMerge.StoredPlan.Persist` | internal/controller/gpurecoveryplan/gpurecoveryplan_controller.go:192-250 | status, then approvals merged into the list as it stands; a failed status write does not stop the second, a no-op merge writes nothing, and the error is reported exactly when an attempted write failed |
| `ApprovalMerge.GenerateApprovalId` | api/v1alpha1/gpurecoveryplan_webhook.go:98-119 | the first of ten draws not in use; failure exactly when all ten are taken or the random source fails first |
| `ApprovalMerge.DefaultIds` | api/v1alpha1/gpurecoveryplan_webhook.go:64-95 | entries keep their order, content and given ID, the rest get fresh distinct ones; refused only when some entry's draws are taken up to the tenth or to a failure of the random source |
| `ApprovalMerge.ValidateApprovals` | api/v1alpha1/gpurecoveryplan_webhook.go:245-283 | accepts if and only if every entry has exactly one of event ID and selector, persistent ones a selector, label selectors are valid, and given IDs differ |
| `ApprovalMerge.Admit` | api/v1alpha1/gpurecoveryplan_webhook.go:64-283 | an admitted list is the defaulted one with all IDs set and unique; refusals are only the stated ones |
| `NodeTaints.Cluster.EnsureNodeTaint` | internal/controller/common/drain.go:86-106 | adds the taint once, reports whether it was new, leaves every other taint and node alone |
| `NodeTaints.Cluster.RemoveNodeTaint` | internal/controller/common/drain.go:111-141 | removes exactly the matching taints, keeping the others in order, and reports whether there was one |
| `NodeTaints.Cluster.NodesWithTaint` | internal/controller/common/drain.go:153-173 | exactly the nodes carrying the taint |
| `NodeTaints.Cluster.UntaintNodesExcept` | internal/controller/gpurecoveryplan/gpurecoveryplan_controller.go:764-789 | every node outside the kept and the refused ones loses the taint, nothing else changes |
| `NodeTaints.HeldThenReleased` | internal/controller/gpurecoveryplan/gpurecoveryplan_controller.go:729-789 | tainting some nodes and releasing the rest: who carries the taint, if and only if, and the other taints unchanged |
| `NodeTaints.OtherTaintStays` | internal/controller/common/drain.go:146-148 | a taint with another key, value or effect is carried after if and only if it was before |
| `Reconciler.RecoveryPlan.SyncRecoveryEventsFromSlices` | internal/controller/gpurecoveryplan/gpurecoveryplan_controller.go:317-397 | the new event list is a detection of the old one, one event per device; a failed list call changes nothing |
| `Reconciler.RecoveryPlan.ProcessApprovals` | internal/controller/gpurecoveryplan/gpurecoveryplan_controller.go:402-511 | the loop decides every event once against the events as they then stand, and marks exactly the spent approvals |
| `Reconciler.RecoveryPlan.ConsumeApprovals` | internal/controller/gpurecoveryplan/gpurecoveryplan_controller.go:499-511 | every used approval nobody is held back under is marked, whatever the order |
| `Reconciler.RecoveryPlan.SetApprovalConsumed` | internal/controller/gpurecoveryplan/gpurecoveryplan_helpers.go:1007-1017 | marks the first entry with the ID and nothing else |
| `Reconciler.RecoveryPlan.ProcessDrains` | internal/controller/gpurecoveryplan/gpurecoveryplan_controller.go:616-671 | every draining event takes its drain transition and exactly the nodes drained this pass are tainted |
| `Reconciler.RecoveryPlan.DrainTurn` | internal/controller/gpurecoveryplan/gpurecoveryplan_controller.go:675-691 | the node is tainted before its drain is judged, and only if it exists |
| `Reconciler.RecoveryPlan.SyncJobStatuses` | internal/controller/gpurecoveryplan/gpurecoveryplan_controller.go:1143-1194 | every event with a Job takes the Job transition |
| `Reconciler.RecoveryPlan.PruneConsumedApprovals` | internal/controller/gpurecoveryplan/gpurecoveryplan_helpers.go:782-807 | drops exactly the consumed one-shot approvals no event refers to |
| `Reconciler.RecoveryPlan.ReconcileDrainTaints` | internal/controller/gpurecoveryplan/gpurecoveryplan_controller.go:729-756 | releases every node without an active or drain-needing blocked event |
| `Reconciler.RecoveryPlan.Reconcile` | internal/controller/gpurecoveryplan/gpurecoveryplan_controller.go:104-183 | the phases in their fixed order make up a valid pass from the old plan, approvals and taints to the new ones; a pass that fails early has done nothing, or detection alone |
| `Reconciler.PassKeepsKeys` | internal/controller/gpurecoveryplan/gpurecoveryplan_controller.go:104-183 | from detection to the end of a pass every event keeps its place, device and ID |
| `PlanRuns.PassKeepsStatusOk` | internal/controller/gpurecoveryplan/gpurecoveryplan_controller.go:104-183 | every phase keeps the status invariant |
| `PlanRuns.PassKeepsExclusive` | internal/controller/gpurecoveryplan/gpurecoveryplan_controller.go:402-511 | every phase keeps at most one active event per node, given addresses distinct after lower-casing |
| `PlanRuns.ReachableStatus` | internal/controller/gpurecoveryplan/gpurecoveryplan_controller.go:104-250 | in every reachable plan approvals stay admissible and the status keeps its invariant, whatever writes are lost and edits made |
| `PlanRuns.ReachableExclusive` | internal/controller/gpurecoveryplan/gpurecoveryplan_helpers.go:559-574 | in every reachable status each node has at most one event draining or in-progress |
| `PlanRuns.ReachableJobNames` | internal/controller/gpurecoveryplan/gpurecoveryplan_controller.go:1021-1128 | in every reachable status an event has a Job name exactly when in-progress, and all its Job names differ |
| `PlanRuns.PassKeepsSeverity` | internal/controller/gpurecoveryplan/gpurecoveryplan_controller.go:578-612 | a pass never lowers an event's severity |
| `PlanRuns.SeverityNeverDrops` | internal/controller/gpurecoveryplan/gpurecoveryplan_helpers.go:861-902 | along any run, while a device keeps its event, the event's severity never drops |
| `PlanHistory.FailedIsTerminal` | internal/controller/gpurecoveryplan/gpurecoveryplan_controller.go:413-418 | along any run, a failed event that is neither escalated nor removed stands unchanged until a stored pass read an unspent approval naming it |
| `PlanHistory.JobClockStarts` | internal/controller/gpurecoveryplan/gpurecoveryplan_controller.go:1048-1055 | an event that starts its Job in a pass gets the attempt's Job name and the stamp of the phase that started it |
| `PlanHistory.JobRunsAgainstOneClock` | internal/controller/gpurecoveryplan/gpurecoveryplan_controller.go:1143-1194 | along any run, an event does not change while it stays in-progress, so every stored pass that read its Job came in time counted from its start |
| `PlanAccounts.PassConsumes` | internal/controller/gpurecoveryplan/gpurecoveryplan_controller.go:493-511 | what a pass newly marks consumed is what it spent; pruning takes none of it back |
| `PlanAccounts.KeptExactly` | internal/controller/gpurecoveryplan/gpurecoveryplan_helpers.go:782-808 | what a pass leaves of the approvals: one-shot ones some event started under and none is held back under are marked, and exactly the consumed one-shot ones no event refers to are dropped |
| `PlanAccounts.MergeConsumes` | internal/controller/gpurecoveryplan/gpurecoveryplan_helpers.go:982-1004 | a merge newly marks exactly the open entries it was told to mark and not to remove |
| `PlanAccounts.StoredConsumesExactly` | internal/controller/gpurecoveryplan/gpurecoveryplan_controller.go:192-250 | for any approvals and any edits meanwhile, what a pass spent is newly consumed in the stored list, or missed because it was deleted, already marked, or the write was lost |
| `PlanAccounts.PassBalances` | internal/controller/gpurecoveryplan/gpurecoveryplan_controller.go:402-511 | with single-event approvals and distinct IDs, recoveries started equal approvals newly consumed plus those missed |
| `PlanAccounts.RunBalances` | internal/controller/gpurecoveryplan/gpurecoveryplan_controller.go:402-511 | the same over any run, edits during passes and lost writes included |
| `PlanAccounts.BalancesExactlyWhen` | internal/controller/gpurecoveryplan/gpurecoveryplan_controller.go:192-250 | recoveries started equal approvals consumed over a run if and only if every write of spent approvals landed and found each still listed and open |
| `LostApprovals.DeletedApprovalIsMissed` | internal/controller/gpurecoveryplan/gpurecoveryplan_controller.go:220-247 | a run in which an approval is deleted while its pass runs: one recovery started, no approval consumed |
| `PlanPasses.PassKeepsHeldApproval` | internal/controller/gpurecoveryplan/gpurecoveryplan_controller.go:441-511 | at the end of the pass a held-back event is blocked and its approval is listed unspent, still covering it exactly when its override allows |
| `LostApprovals.HeldEventCanBeStranded` | internal/controller/gpurecoveryplan/gpurecoveryplan_controller.go:578-612 | for any two GPUs of a node, a run in which one event is held back under a group approval whose override leaves it with no approval that covers it |
| `PlanPasses.PassKeepsClocks` | internal/controller/gpurecoveryplan/gpurecoveryplan_controller.go:616-671 | after a pass no event drains past its timeout or stays in-progress out of time; a new drain gets the full timeout |
| `PlanPasses.PassResetsExactlyWhenSafe` | internal/controller/gpurecoveryplan/gpurecoveryplan_controller.go:675-726 | within a whole pass, a drained event gets its Job if and only if that pass found the node there and safe to reset and the Job was accepted |
| `PlanTaints.PassTaintsExactly` | internal/controller/gpurecoveryplan/gpurecoveryplan_controller.go:729-789 | after any pass, failed node calls included, a node carries the plan's taint if and only if it had it or was tainted just now, and some event on it is draining, in-progress, or blocked as a reset of a draining plan, or the node could not be untainted, or nodes could not be listed; all other taints, other plans' included, are untouched |
| `PlanTaints.DrainedNodeIsTainted` | internal/controller/gpurecoveryplan/gpurecoveryplan_controller.go:675-691 | a node drained in a pass is tainted at its end if its reset already runs, or its event still drains and the taint call succeeded |
| `PlanTaints.NodeStaysTainted` | internal/controller/gpurecoveryplan/gpurecoveryplan_controller.go:729-756 | along any run that writes its statuses, from the pass that drained it, a node stays tainted while its event is draining or in-progress, even if draining is switched off or node calls fail meanwhile |
| `PlanProgress.EligibleStartsExactlyWhen` | internal/controller/gpurecoveryplan/gpurecoveryplan_controller.go:402-511 | a waiting or blocked event starts if and only if some unspent approval covers it, its node is free, its images pull and it can drain or get its Job; overrides never decide |
| `PlanProgress.HeldBackWaits` | internal/controller/gpurecoveryplan/gpurecoveryplan_controller.go:441-511 | a pass that holds an event back and writes its status leaves it blocked with a stored approval that covers it, whether or not the approvals are written, if that approval is not deleted meanwhile and does not escape by its override |
| `PlanProgress.LostStatusWaits` | internal/controller/gpurecoveryplan/gpurecoveryplan_controller.go:192-250 | a pass that holds an event back and loses its status write leaves a blocked event as it was, with that approval stored unless it was deleted meanwhile, override or not |
| `PlanProgress.BlockedEventStarts` | internal/controller/gpurecoveryplan/gpurecoveryplan_controller.go:402-511 | over a run in which its node stays busy, writes lost or not, a blocked event keeps an approval, and it starts in the next pass if and only if that pass finds the node free, its images pullable and the launch accepted |
| `LostStatus.ForgottenExactlyWhen` | internal/controller/gpurecoveryplan/gpurecoveryplan_controller.go:192-250 | a recovery a pass started and left running is forgotten, neither stored nor open to another try, if and only if the status write is lost and the write marking its spent approval lands on a list that still shows it open |
| `LostStatus.RetryAdoptsTheJob` | internal/controller/gpurecoveryplan/gpurecoveryplan_controller.go:923-927 | a pass that finds an event as a lost pass found it and has it in progress again runs it under the same Job name, so the Job already there is adopted |
| `LostStatus.UnapprovedNodeIsReleased` | internal/controller/gpurecoveryplan/gpurecoveryplan_controller.go:729-789 | a pass with served node calls takes the taint off a node whose events all wait unapproved, whatever runs there |
| `LostStatus.ResetCanBeForgotten` | internal/controller/gpurecoveryplan/gpurecoveryplan_controller.go:192-250 | for any GPU, a run in which a reset is started, its status lost and its approval marked, and the next pass prunes the approval and takes the taint off the node under reset |
| `CaseVariants.TwinPass` | internal/controller/gpurecoveryplan/gpurecoveryplan_helpers.go:559-574 | for any two GPUs whose events get one ID there is a pass, over granted calls and a clear node, after which both resets run under one Job |
| `CaseVariants.ExclusiveExactlyWhenCaseDistinct` | internal/controller/gpurecoveryplan/gpurecoveryplan_helpers.go:559-574 | one recovery per node holds over all runs if and only if the addresses on each node differ after lower-casing |
| `SharedJobs.JobSharedExactlyWhen` | internal/controller/gpurecoveryplan/gpurecoveryplan_controller.go:923-927 | in every reachable status two running events share their Job if and only if they are at the same attempt and share their ID, or the hash both names fell back to, which none does before attempt 100 |
| `SharedJobs.IdSharedExactlyWhen` | internal/controller/gpurecoveryplan/gpurecoveryplan_helpers.go:126-165 | in every reachable status two events share their ID if and only if node segment, base type and lower-cased address agree |
| `SharedJobs.TwinsShareAJob` | internal/controller/gpurecoveryplan/gpurecoveryplan_controller.go:1021-1065 | GPUs of two nodes whose events get one ID do come to run under one Job |
| `SharedJobs.DottedNodesShareAJob` | internal/controller/gpurecoveryplan/gpurecoveryplan_helpers.go:202-217 | nodes `a.b` and `a-b` are such nodes |
| `Scenarios.FreshPassRuns` | internal/controller/gpurecoveryplan/gpurecoveryplan_controller.go:104-183 | a first pass over any tainted GPUs with everything granted is a valid pass that leaves every reset running under the Job of attempt 0 |
| `FirmwareUpdate.SelectNodes` | internal/controller/gpufirmwareupdate/gpufirmwareupdate_controller.go:282-316 | the nodes not being deleted and not reported unready, in list order |
| `FirmwareUpdate.Reached` | internal/controller/gpufirmwareupdate/gpufirmwareupdate_controller.go:219-257 | the number of nodes before the first failing one |
| `FirmwareUpdate.Rollout.TaintAndDrainNode` | internal/controller/gpufirmwareupdate/gpufirmwareupdate_controller.go:227-253 | one node's turn: tainted, still busy, and whether anything went wrong |
| `FirmwareUpdate.Rollout.TaintAndDrain` | internal/controller/gpufirmwareupdate/gpufirmwareupdate_controller.go:219-257 | taints up to the first refusal, lists the busy nodes, succeeds exactly when every taint, list and eviction went through |
| `FirmwareUpdate.Rollout.BeginUpdate` | internal/controller/gpufirmwareupdate/gpufirmwareupdate_controller.go:334-418 | verification, selection, first batch and the resulting lists, state and taints |
| `FirmwareUpdate.Rollout.CheckDrains` | internal/controller/gpufirmwareupdate/gpufirmwareupdate_controller.go:420-480 | the remaining busy nodes, the move to updating, and the error exit that leaves the list alone |
| `FirmwareUpdate.Rollout.CreateJobs` | internal/controller/gpufirmwareupdate/gpufirmwareupdate_controller.go:587-638 | a Job for every node still to do, up to the first refusal |
| `FirmwareUpdate.Rollout.StartUpdateJobs` | internal/controller/gpufirmwareupdate/gpufirmwareupdate_controller.go:587-638 | the updating list and Jobs created, or error_cleanup after a refusal |
| `FirmwareUpdate.Rollout.ContinueUpdateJobs` | internal/controller/gpufirmwareupdate/gpufirmwareupdate_controller.go:640-726 | the lists after a Job check, the next state, and that an unfinished check is not written back |
| `FirmwareUpdate.Rollout.HandleCanaryDone` | internal/controller/gpufirmwareupdate/gpufirmwareupdate_controller.go:755-808 | hold, or widen the rollout to the pending nodes, with its error exit |
| `FirmwareUpdate.Rollout.UntaintAll` | internal/controller/gpufirmwareupdate/gpufirmwareupdate_controller.go:810-834 | takes the taint off every node in scope the API server lets it, and reports if any refused |
| `FirmwareUpdate.Rollout.UntaintAndFinalize` | internal/controller/gpufirmwareupdate/gpufirmwareupdate_controller.go:810-852 | completed exactly when no error was carried in and every node was released |
| `FirmwareUpdate.Rollout.Reconcile` | internal/controller/gpufirmwareupdate/gpufirmwareupdate_controller.go:892-946 | the state switch with its early deletion exits |
| `FirmwareRuns.JobCheckPartitions` | internal/controller/gpufirmwareupdate/gpufirmwareupdate_controller.go:640-726 | after a Job check completed, failed and updating split the scope, each node once, given created Jobs are listed |
| `FirmwareRuns.PassedCheckIsHonestWhen` | internal/controller/gpufirmwareupdate/gpufirmwareupdate_controller.go:660-706 | a passing check means every node completed if and only if no unfinished node's Job is missing from the list |
| `FirmwareRuns.CheckJudgesExactly` | internal/controller/gpufirmwareupdate/gpufirmwareupdate_controller.go:660-704 | a node counts as completed, failed or updating if and only if its Job's counters and the tag in its log say so |
| `FirmwareRuns.CompletedHasEvidence` | internal/controller/gpufirmwareupdate/gpufirmwareupdate_controller.go:165-193 | a node completed in any reachable status was seen in an earlier pass with a succeeded Job and the tag in its log |
| `FirmwareRuns.PassKeepsLists` | internal/controller/gpufirmwareupdate/gpufirmwareupdate_controller.go:892-946 | every pass keeps the list invariant, lost status writes included |
| `FirmwareRuns.PassKeepsTaints` | internal/controller/gpufirmwareupdate/gpufirmwareupdate_controller.go:892-946 | every pass keeps the update's taint within scope, strays aside |
| `FirmwareRuns.CanaryGoesFirst` | internal/controller/gpufirmwareupdate/gpufirmwareupdate_controller.go:259-280 | until a pass widens the rollout only the first candidate is tainted, drained or given a Job, bar nodes of lost begin passes |
| `FirmwareRuns.CanaryAloneExactlyWhen` | internal/controller/gpufirmwareupdate/gpufirmwareupdate_controller.go:259-280 | when only the controller touches the taint, the nodes tainted beside the canary are exactly those of lost begin passes; it is alone if and only if there are none |
| `StrayTaint.CanaryCanHaveCompany` | internal/controller/gpufirmwareupdate/gpufirmwareupdate_controller.go:334-418 | for any two nodes, a canary run with both tainted while the canary still drains |
| `FirmwareRuns.WidensAfterCanary` | internal/controller/gpufirmwareupdate/gpufirmwareupdate_controller.go:755-808 | a rollout is widened only from canary_done, without hold, with the canary completed and nothing failed |
| `FirmwareRuns.CompletedMeansDone` | internal/controller/gpufirmwareupdate/gpufirmwareupdate_controller.go:810-852 | completed implies nothing pending, failed or updating, completed a rearrangement of the scope, and no taint left in scope |
| `FirmwareRuns.LeftBehindExactly` | internal/controller/gpufirmwareupdate/gpufirmwareupdate_controller.go:810-852 | when only the controller touches the taint, completed leaves it on exactly the nodes of lost begin passes outside the scope |
| `FirmwareRuns.NothingLeftBehind` | internal/controller/gpufirmwareupdate/gpufirmwareupdate_controller.go:810-852 | without lost begin writes completed leaves no taint at all |
| `StrayTaint.CompletedCanLeaveATaint` | internal/controller/gpufirmwareupdate/gpufirmwareupdate_controller.go:334-418 | a run that loses its first begin write completes with a node still tainted |
| `FirmwareRuns.BeginFixesScope` | internal/controller/gpufirmwareupdate/gpufirmwareupdate_controller.go:259-280 | a stored begin fixes the scope to the suitable nodes, in order |
| `FirmwareRuns.ScopeIsConstant` | internal/controller/gpufirmwareupdate/gpufirmwareupdate_controller.go:755-808 | from then on All followed by Pending is one constant sequence |
| `FirmwareRuns.PassLowersRank` | internal/controller/gpufirmwareupdate/gpufirmwareupdate_controller.go:892-946 | every state change lowers a rank of pending and stage; no pass raises it |
| `FirmwareRuns.AtMostSevenChanges` | internal/controller/gpufirmwareupdate/gpufirmwareupdate_controller.go:892-946 | a rollout of any length changes state at most seven times |
| `FirmwareRuns.CanaryDoneOnce` | internal/controller/gpufirmwareupdate/gpufirmwareupdate_controller.go:709-721 | canary_done is entered at most once, final states are never left, and the unknown state is never reached |
| `FirmwareRuns.LastPassReleases` | internal/controller/gpufirmwareupdate/gpufirmwareupdate_controller.go:448-458 | after the last pass a node in scope keeps the taint if and only if it had or got it and the pass was no finishing one or was refused |
| `FirmwareRuns.FavourablePassAdvances` | internal/controller/gpufirmwareupdate/gpufirmwareupdate_controller.go:728-753 | a pass with everything granted moves a healthy rollout on; an updating rollout always has a node to start |
| `FirmwareRuns.FavourableRunCompletes` | internal/controller/gpufirmwareupdate/gpufirmwareupdate_controller.go:892-946 | from any healthy state nine such passes in a row end in completed |
| `FirmwareRules.BeginMovesExactly` | internal/controller/gpufirmwareupdate/gpufirmwareupdate_controller.go:334-417 | a rollout starts draining if and only if its image is verified, some node is neither going away nor unready, and all of the first batch is tainted and its GPU pods are leaving; the batch, what is held and what still drains |
| `FirmwareRules.DrainMovesExactly` | internal/controller/gpufirmwareupdate/gpufirmwareupdate_controller.go:420-480 | draining becomes updating if and only if no draining node has a GPU pod left, and error if and only if pods could not be listed or evicted |
| `FirmwareRules.StartMovesExactly` | internal/controller/gpufirmwareupdate/gpufirmwareupdate_controller.go:587-637 | Jobs are made for exactly the nodes in scope not yet completed, or error_cleanup if and only if one is refused |
| `FirmwareRules.CheckMovesExactly` | internal/controller/gpufirmwareupdate/gpufirmwareupdate_controller.go:640-726 | a check is written if and only if no Job runs, and where it leads by the Jobs' counters and logs |
| `FirmwareRules.CanaryMovesExactly` | internal/controller/gpufirmwareupdate/gpufirmwareupdate_controller.go:755-807 | nothing while held; else the rest drains if and only if all of it is tainted and leaving |
| `FirmwareRules.FinishMovesExactly` | internal/controller/gpufirmwareupdate/gpufirmwareupdate_controller.go:810-851 | completed if and only if out of cleanup with every node in scope untainted |
| `FirmwareRules.JobsOnlyOnEmptiedNodes` | internal/controller/gpufirmwareupdate/gpufirmwareupdate_controller.go:420-480 | along any run, a node has a firmware Job only if some earlier pass found no GPU pod on it |
| `DeviceRecord.ParseDeviceRecord` | internal/controller/clusterpolicy/xpum_device_refresh.go:429-441 | the set of non-empty entries between commas |
| `DeviceRecord.SplitUndoesJoin` | internal/controller/clusterpolicy/xpum_device_refresh.go:429-451 | splitting undoes joining for comma-free names |
| `DeviceRecord.RecordRoundTrips` | internal/controller/clusterpolicy/xpum_device_refresh.go:429-451 | reading a printed record returns its devices if and only if every name is non-empty and comma-free |
| `DeviceRecord.RecordDecidesDevices` | internal/controller/clusterpolicy/xpum_device_refresh.go:443-451 | two records are equal if and only if they list the same devices, in any order |
| `SortedStrings.Sort` | internal/controller/clusterpolicy/xpum_device_refresh.go:445-451 | a sorted rearrangement of the list |
| `SortedStrings.SortIgnoresOrder` | internal/controller/clusterpolicy/xpum_device_refresh.go:443-451 | sorting depends on the contents alone |
| `XpumRefresh.DeviceNeedsRecovery` | internal/controller/clusterpolicy/xpum_device_refresh.go:563-571 | some taint of the device is one the operator recovers from |
| `XpumRefresh.DeviceStates` | internal/controller/clusterpolicy/xpum_device_refresh.go:523-559 | a GPU is recovering if any of its entries says so and monitorable if all do; published exactly if it has an entry |
| `XpumRefresh.StatesAreDetermined` | internal/controller/clusterpolicy/xpum_device_refresh.go:544-552 | the states do not depend on the order of slices and entries |
| `XpumRefresh.UsableExactlyWhen` | internal/controller/clusterpolicy/xpum_device_refresh.go:523-589 | a GPU is usable if and only if the driver publishes it and no entry has a recovery taint or a driver other than xe and i915 |
| `XpumRefresh.MissingDevices` | internal/controller/clusterpolicy/xpum_device_refresh.go:354-366 | sorted, and exactly the usable devices not held |
| `XpumRefresh.FindRebinds` | internal/controller/clusterpolicy/xpum_device_refresh.go:376-405 | the edges afterwards, and sorted exactly the held devices that were lost and are usable again |
| `XpumRefresh.AllocatedDeviceNames` | internal/controller/clusterpolicy/xpum_device_refresh.go:591-623 | the GPU devices granted over all named claims, whether any allocation was found, and failure exactly on an unreadable claim |
| `XpumRefresh.InitialRecord` | internal/controller/clusterpolicy/xpum_device_refresh.go:263-295 | a record of exactly the granted devices not published as unusable |
| `XpumRefresh.MissingAfterAdoption` | internal/controller/clusterpolicy/xpum_device_refresh.go:263-295 | later missing: exactly the usable devices not granted or unusable at adoption; nothing, if the claim covered all usable ones |
| `XpumRefresh.Refresher.ForgetNode` | internal/controller/clusterpolicy/xpum_device_refresh.go:681-688 | one node's guards are cleared, every other node's stay |
| `XpumRefresh.Refresher.ResetAttempts` | internal/controller/clusterpolicy/xpum_device_refresh.go:690-695 | one node's budget is full again, the rest stays |
| `XpumRefresh.Refresher.TrackRebinds` | internal/controller/clusterpolicy/xpum_device_refresh.go:376-405 | the node's edges become the tracked ones, other nodes untouched |
| `XpumRefresh.Refresher.ClearRebinds` | internal/controller/clusterpolicy/xpum_device_refresh.go:410-426 | exactly the named edges of the node go |
| `XpumRefresh.Refresher.RestartPod` | internal/controller/clusterpolicy/xpum_device_refresh.go:299-350 | the outcome in its order of checks, and the guards spent only by a deletion |
| `XpumRefresh.Refresher.RefreshHeld` | internal/controller/clusterpolicy/xpum_device_refresh.go:206-259 | an adopted pod's turn: reason, outcome, edges kept or consumed, budget reset |
| `XpumRefresh.Refresher.RefreshPod` | internal/controller/clusterpolicy/xpum_device_refresh.go:193-260 | a pod's turn, adoption included, with the record it leaves |
| `XpumRefresh.Refresher.Reconcile` | internal/controller/clusterpolicy/xpum_device_refresh.go:139-187 | a node's pass: forgetting, failing, or its pods in order up to the first error; other nodes untouched |
| `XpumRuns.SweepIsTurns` | internal/controller/clusterpolicy/xpum_device_refresh.go:171-180 | a pass over any number of pods is a run of turns of these very pods in order, of all of them unless it failed |
| `XpumRuns.DeletesExactlyWhen` | internal/controller/clusterpolicy/xpum_device_refresh.go:193-350 | a pod is deleted if and only if a usable device is not held, or one re-enumerated in Always mode, and fewer than three attempts were made, the last at least 120 seconds ago, with fewer than three pods restarting and the call served |
| `XpumRuns.TurnExactly` | internal/controller/clusterpolicy/xpum_device_refresh.go:193-350 | for a pod not running, without a record and with one: when the controller comes back for it and when it reports an error |
| `XpumRuns.SweepEndsAtFailure` | internal/controller/clusterpolicy/xpum_device_refresh.go:139-190 | the pass over a node's pods ends with the first turn that fails, whose guards it leaves |
| `XpumRuns.SweepAsksExactlyWhen` | internal/controller/clusterpolicy/xpum_device_refresh.go:139-190 | a pass without failure comes back if and only if some turn asked for it |
| `XpumRuns.DeletionsAreRationed` | internal/controller/clusterpolicy/xpum_device_refresh.go:299-350 | between two forgets deletions are 120 seconds apart each, and at most three come without a pod found in order |
| `XpumRuns.EdgeMovesExactlyWhen` | internal/controller/clusterpolicy/xpum_device_refresh.go:376-426 | a rebind edge is set if and only if a held device is seen unusable, and dropped if and only if dealt with or forgotten |
| `XpumRuns.EdgeWasSet` | internal/controller/clusterpolicy/xpum_device_refresh.go:376-405 | an edge that appeared goes back to a turn that saw the device unusable, with nothing dropping it since |
| `XpumRuns.RebindsAreSeparated` | internal/controller/clusterpolicy/xpum_device_refresh.go:213-257 | two rebind restarts naming one device have between them a turn that saw it published and unusable |
| `XpumRuns.RebindHasCause` | internal/controller/clusterpolicy/xpum_device_refresh.go:213-257 | every rebind restart goes back to such a turn with no forget in between |
| `XpumRuns.DeferralKeepsEdge` | internal/controller/clusterpolicy/xpum_device_refresh.go:251-257 | an edge not dealt with is reported again whenever the device is held and usable |
| `XpumRuns.DeferredConsumesNothing` | internal/controller/clusterpolicy/xpum_device_refresh.go:251-257 | in Always mode a deferred or failed restart deals with no edge |
| `QueueResources.Value` | internal/controller/clusterpolicy/misc_controller.go:408-409 | whole units of a quantity, rounded up |
| `QueueResources.Totals.Add` | internal/controller/clusterpolicy/misc_controller.go:387-395 | adds into the shared total of one kind |
| `QueueResources.Totals.AddNode` | internal/controller/clusterpolicy/misc_controller.go:490-502 | a node adds its GPU resources, and CPU and memory exactly if it lists one |
| `QueueResources.Totals.DevicePluginResources` | internal/controller/clusterpolicy/misc_controller.go:484-506 | per kind the sum over the nodes, and a kind is present exactly if some node adds to it |
| `QueueResources.TotalIgnoresOrder` | internal/controller/clusterpolicy/misc_controller.go:484-506 | the totals do not depend on the map's iteration order |
| `QueueResources.TotalGrowsBy` | internal/controller/clusterpolicy/misc_controller.go:484-506 | a node adds its i915 and xe devices, and its CPU and memory if it lists either |
| `QueueResources.DivideOnce` | internal/controller/clusterpolicy/misc_controller.go:403-420 | one queue's share of every non-zero kind, or refusal when some share is empty |
| `QueueResources.DivideResources` | internal/controller/clusterpolicy/misc_controller.go:397-425 | succeeds if and only if every non-zero total reaches the queue count, and then returns that many shares |
| `QueueResources.SharesAddUp` | internal/controller/clusterpolicy/misc_controller.go:397-425 | the shares of a kind add up to its whole units, differ by at most one, and earlier queues get the more |
| `QueueResources.QueuesAddUp` | internal/controller/clusterpolicy/misc_controller.go:397-425 | over the maps returned for the queues, every kind adds up to its whole units and no two queues differ by more than one |
| `QueueResources.DivisionConserves` | internal/controller/clusterpolicy/misc_controller.go:397-425 | nothing is gained or lost if and only if the total is a whole number of units; otherwise less than one unit is made up |
| `QueueResources.QueuesGetTheNodesTotal` | internal/controller/clusterpolicy/misc_controller.go:484-506 | the maps of the queues together hold, of a whole-unit kind, what the nodes listing a GPU have |

## Left out

- State messages, the plan-level message list and derived plan state, `approvalMatchedAt`, failure reasons and restamping an event only to change its message: text for people, nothing decides on it.
- Finalizers, deletion of a plan, its Jobs and its OpenShift resources, `finalCleanup` of a rollout and `status.nodeInfos.jobs`: they end a plan or a rollout and take no part in its runs.
- What an eviction request leads to: the model has which pods a plan asks to evict and whether a rollout's requests succeeded; the pods themselves are listed anew in each pass.
- The contents of recovery and update Jobs, and `updateJobName`: a rollout's Jobs are identified by their node.
- Input validators other than `validateApprovals`, and `firmwareUpdateActive`: independent field checks. The override's enumeration is enforced by the CRD schema and assumed; what makes a label selector valid is an input.
- Reading the ClusterPolicy (`restartMode`), counting pods mid-restart and filtering pods of a node: inputs of the refresh model.
- Queue totals in DRA mode, which add CPU and memory once per slice, and the Kueue objects.
- Client caching, watches, requeue delays, RBAC and manager setup.
- The clock is read once per phase of a plan pass, where the source reads it at each comparison; within a restart the two readings are kept apart.
- Integer width: quantities, generations and seconds are unbounded.
- BlockedEventStarts: for a run in which the event keeps its severity and its node's labels, no approval that covers it is deleted, and no override escapes its selector in a status that is written; what happens otherwise is stated by the members above it.
- HeldBackWaits: for a pass whose status is written; `LostStatusWaits` has the other case.
- CompletedMeansDone: for runs in which `spec.updateTaint` is not edited before the rollout starts and nobody else adds this taint; afterwards the webhook forbids the edit.
- CanaryGoesFirst: tells the nodes of begin passes whose status write was lost apart from the rest; `CanaryAloneExactlyWhen` says exactly which are tainted.
- JobCheckPartitions: given that created Jobs stay listed once each; `PassedCheckIsHonestWhen` says what a check means when they do not.
- NodeStaysTainted: for runs in which status writes land and nobody else takes the taint away; `ResetCanBeForgotten` is what a lost one leads to.
- EventIdReadsBack: one direction only; longer or dotted node names and upper-case addresses lose information by design.
