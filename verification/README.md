# Verified model of the portal's concurrent and order-sensitive logic

The portal keeps its own records about objects that live elsewhere: virtual
machines on Proxmox hosts, policies on a FortiGate, an electricity ledger, and
sessions and secrets in PostgreSQL. This project models the parts where those
records can go wrong because order matters or because several requests
interleave, and proves what the code guarantees about them.

To verify the project with Dafny 4.11: `dafny verify dfyconfig.toml`.

## How the model is built

Code that changes state step by step appears twice. A step function on values
says what one uninterrupted stretch of code does (from one `await` or database
statement to the next), and a class with the same fields as the source performs
the code. Its methods are proved to take exactly such a step, or, where a method
stands for a whole request that nothing comes between, exactly the run of the
request's steps. Theorems about all runs are inductions over sequences of steps,
with any interleaving of everyone who can act: requests, pollers, timers,
operators, other transactions, a restart. Code that no one else interleaves with
(the policy list, the row merge, the secret columns, the set of reserved ids) is
proved against functions on values instead.

Where the code does not meet a property on all inputs, the code is kept as it
is: a lemma gives a concrete reachable run that breaks the property, and another
says when it holds. The ones listed below with "exactly when" are equivalences
in terms of the guards of the steps that break it, over every run, or of what is
known before the call.

- `PolicyOrder`, `PolicyRegroup`, `PolicyGrouping`, `PolicySections`,
  `PolicyFailures`, `PolicyJoin`: regrouping and joining firewall policies. The
  live list is reordered move by move, and any call may fail; the first matching
  policy decides.
- `VlanTracking`, `VlanTrackingDb`: the tracking rows of VLAN syncs and port
  forwards, with transactions as lock, statement and commit steps. Row locks
  follow from the statement a transaction has reached.
- `MigrationLifecycle`, `MigrationSystem`, `MigrationPortal`: cross-host
  migrations. One migration is a state machine driven by the starting request,
  its poller, status checks, the relocation job, operators and restarts; the
  system adds claims under the VM's advisory lock.
- `NodeRef`, `VmRepoint`, `VmRepointDb`: the row merge that commits together
  with a successful migration.
- `Scheduler`, `SchedulerState`: the power scheduler with snapshots, delayed
  claims and compare-and-set writes.
- `VmidAllocation`, `VmidAllocator`: VM ids, handed out from stale looks at
  several hosts under expiring reservations. Time is part of the state.
- `Contracts`, `Tariffs`, `Bills`: electricity contracts, tariffs and bills.
- `JsonText`, `Json`, `JsonReading`, `PowerRevisions`: the key-sorted rendering
  behind policy revisions, on UTF-16 code units, and the save handler.
- `SessionStore`, `AttemptBudget`, `SecretRotation`: the no-resurrection rule,
  the sliding-window budget, and key rotation over abstract envelopes.

## What the environment is taken to do

- Proxmox and FortiGate calls may fail at any point unless a statement says
  that all succeed. A copy task that has stopped stays stopped.
- Statements see committed rows (read committed); an `UPDATE … WHERE` re-checks
  its condition on the row it finally locks; `FOR SHARE`, `FOR UPDATE` and
  advisory locks exclude each other as in PostgreSQL.
- VM status, "inside the off-window" and what the migration gate answers are
  arbitrary inputs of each scheduler tick.
- A payload opens under the key it was sealed with and no other.
- A create call that was not sent or was definitively refused has created no VM.

## Where the code falls short of its comments or its purpose

- Unsync re-checks forwards by the interface name read earlier while it deletes
  by VLAN (`VlanTracking.RenamedInterfaceLosesSync`; exactly when:
  `VlanTracking.ForwardsKeepTheirSync`).
- A poller that gives up drops the relocation list before its error is written,
  so a racing status check can record success without the moves
  (`MigrationSystem.TimeOutLosesTheMoves`; exactly when:
  `MigrationSystem.SettledAfterTheMoves`, `MigrationSystem.OkWithoutTheMoves`).
- The scheduler's guards are per node name, not per VM
  (`Scheduler.AliasesActTogether`; exactly when:
  `Scheduler.OneActionPerVmExactly`).
- The overlap query treats an open end as 9999-12-31
  (`Contracts.FarStartIsMissed`; exactly when: `Contracts.DisjointExactly`), and
  ending a contract or revising a tariff does not exclude finalizing a month
  (`Contracts.RaceIsReachable`; exactly when: `Contracts.CoverageExactly`,
  `Tariffs.PricesExactly`); revising looks only at the contract a statement is
  stored under (`Tariffs.ReferredContractIsNotProtected`; exactly when:
  `Tariffs.OnlyReferredPricesChange`).
- A save that names a version not yet given out is accepted with an outdated
  comparison (`PowerRevisions.GuessedVersionMisnumbers`; exactly when:
  `PowerRevisions.CompareSufficesExactly`).
- Two unfinished first saves of one session, or a first save whose answer is
  lost, can bring it back (`SessionStore.TwoFirstSavesResurrect`,
  `SessionStore.LostAnswerResurrects`; exactly when:
  `SessionStore.GoneForGoodExactly`).
- A look older than the reservations hands out an id that is taken
  (`VmidAllocation.OldLookSharesId`; exactly when:
  `VmidAllocation.DistinctExactly`).
- The row merge takes legacy rows of another host's VM with the same id under
  the bare node name (`VmRepoint.NamesakeIsTaken`; exactly when:
  `VmRepoint.NamesakesAreTouched`).
- The attempt count leaves out the attempt exactly one window ago
  (`AttemptBudget.ClosedWindowHoldsSeven`; exactly when:
  `AttemptBudget.ClosedWindowExactly`), and what a prune with a later clock has
  removed from its window (`AttemptBudget.OvertakenReservationEscapes`; exactly
  when: `AttemptBudget.BudgetHoldsExactly`).
- A secret whose plaintext reads as a current envelope loses a layer when it is
  rotated (`SecretRotation.DisguisedValueChanges`; exactly when:
  `SecretRotation.MigratedExactly`).

## Model

| member | source | states |
|---|---|---|
| `PolicyRegroup.PolicyTable.UpdatePolicy` | backend/src/routes/admin.ts:3346-3351 | a relabel call changes exactly the named policy's label, or nothing when it fails |
| `PolicyRegroup.PolicyTable.MovePolicyAfter` | backend/src/routes/admin.ts:3353-3360 | a move takes the policy out and puts it directly behind the reference, or changes nothing when it fails; ids stay unique |
| `PolicyRegroup.PolicyTable.Settle` | backend/src/routes/admin.ts:3344-3360 | one grouped policy of the walk: the first of a group is labelled, a later one loses its label and goes behind the tail, for every pattern of failing calls |
| `PolicyRegroup.PolicyTable.HandlePolicy` | backend/src/routes/admin.ts:3340-3362 | one iteration takes the live list, labels, tails and the counts of relabelled, moved and failed calls from the walk's state at n to its state at n+1 |
| `PolicyRegroup.PolicyTable.RegroupAdjacent` | backend/src/routes/admin.ts:3335-3364 | the loop over the snapshot leaves the order and labels of the walk specified on values, and counts its relabels, moves and failures, whatever calls fail |
| `PolicyRegroup.TailsAreLast` | backend/src/routes/admin.ts:3339-3361 | the tails map holds, for exactly the groups met so far, the last policy of the group met so far |
| `PolicyRegroup.LabelsExactly` | backend/src/routes/admin.ts:3344-3352 | whatever calls fail, a grouped policy whose relabel call gets through ends with its group's label if it is the first of the group and with none otherwise; any other policy keeps its label |
| `PolicyRegroup.RelabelsExactly` | backend/src/routes/admin.ts:3346-3349 | the relabel count is the number of grouped policies whose label was not that one and whose call got through |
| `PolicyRegroup.MovesExactly` | backend/src/routes/admin.ts:3353-3356 | the move count is the number of grouped policies that are not the first of their group and whose call got through |
| `PolicyRegroup.FailuresExactly` | backend/src/routes/admin.ts:3350-3359 | the warnings are the relabel and move calls that were due and failed, and nothing else |
| `PolicyRegroup.KeepsOrderInsideGroups` | backend/src/routes/admin.ts:3335-3373 | whatever moves fail, the result is a permutation that keeps the relative order inside each group and among ungrouped policies |
| `PolicyRegroup.SameFirstMatchInOneGroup` | backend/src/routes/admin.ts:3335-3408 | a packet whose matching policies all share one label meets the same policy first before and after, whatever moves fail |
| `PolicyGrouping.PassProducesGrouping` | backend/src/routes/admin.ts:3328-3364 | with all calls succeeding the move-by-move loop leaves the stable grouping: each anchor replaced by its whole group in original order, ungrouped policies in place |
| `PolicyGrouping.GroupIsContiguous` | backend/src/routes/admin.ts:3328-3334 | after the pass every group is one contiguous block in its original order |
| `PolicyGrouping.SecondPassMovesNothing` | backend/src/routes/admin.ts:3328-3364 | a second pass over the grouped list leaves its order as it is, whatever calls succeed |
| `PolicySections.SecondPassChangesNothing` | backend/src/routes/admin.ts:3328-3364 | a second pass changes no order and no label |
| `PolicySections.RegroupedSections` | backend/src/routes/admin.ts:3274-3279 | every grouped policy lies in the section its own label starts (a label holds until the next labelled policy) |
| `PolicySections.FirstMatchKeptExactly` | backend/src/routes/admin.ts:3366-3373 | with all calls succeeding a packet's first match is kept if and only if no other matching policy belongs to a group whose anchor stands above |
| `PolicyFailures.SubgroupTail` | backend/src/routes/admin.ts:3340-3361 | under any pattern of failing moves a policy that is not moved starts a smaller group, which later members of its label join |
| `PolicyFailures.FailedPassProducesGrouping` | backend/src/routes/admin.ts:3335-3364 | whatever calls fail, the pass leaves the stable grouping by these smaller groups |
| `PolicyFailures.FirstMatchKeptUnderFailures` | backend/src/routes/admin.ts:3366-3373 | for every pattern of failing calls a packet's first match is kept if and only if no other matching policy has come to stand with a policy above it |
| `PolicyJoin.LabPacketKeepsFirstMatch` | backend/src/routes/admin.ts:3397-3408 | in the lab VDOM a packet that only policies with its interface as first source can match keeps its first match |
| `PolicyJoin.SecondSourceInterfaceIsNotProtected` | backend/src/routes/admin.ts:3404-3407 | only the first source interface decides the group: a policy naming two interfaces can overtake another one that matches on the second |
| `PolicyJoin.FindAnchor` | backend/src/routes/admin.ts:3286-3287 | the search loop finds the first other policy that carries the label |
| `PolicyJoin.FindTail` | backend/src/routes/admin.ts:3294-3300 | the scan loop finds the last consecutive unlabelled policy after the anchor, skipping the joining policy |
| `PolicyJoin.JoinSequenceGroup` | backend/src/routes/admin.ts:3281-3306 | the best-effort join leaves the list and labels specified on values for every pattern of failing calls, and does nothing without an id, a label or a readable list; the four rows below say what that list is |
| `PolicyJoin.JoinsAtSectionEnd` | backend/src/routes/admin.ts:3294-3304 | after a join of an existing section the list above the policy ends with the first section of that label, so every other member stands above it, and the policy behind it is labelled or there is none |
| `PolicyJoin.JoinedMeetsExactly` | backend/src/routes/admin.ts:3294-3304 | a packet meets the joined policy first exactly if it matches and no policy above does; every other packet meets the policy it meets without the joined one |
| `PolicyJoin.SectionKeepsFirstMatch` | backend/src/routes/admin.ts:3294-3304 | a packet that another member of the section matches keeps its first match |
| `PolicyJoin.JoinUnderFailures` | backend/src/routes/admin.ts:3288-3305 | under any failing calls the policy's label changes exactly if its update goes through and the order only by the move, after the update if one is needed; no other label ever changes |
| `PolicyJoin.JoinExistingSection` | backend/src/routes/admin.ts:3294-3304 | joining an existing section from anywhere puts the policy in it and leaves the others' order and sections as they are without it |
| `PolicyJoin.JoinAtBottom` | backend/src/routes/admin.ts:3274-3306 | a policy at the bottom ends in the label's section whether or not it existed, and no pattern of failures changes another policy's order or section |
| `PolicyJoin.NewSectionAwayFromBottom` | backend/src/routes/admin.ts:3288-3293 | starting a new section elsewhere keeps the others' sections if and only if the next policy is labelled or there is none |
| `PolicyJoin.LabLabelExactly` | backend/src/routes/admin.ts:3397-3408 | a lab policy is grouped by its first source interface if that is synced, otherwise as a forward's leg exactly if its first target interface is synced and its name says so, and not at all otherwise |
| `VlanTracking.CommitKeepsKnowledge` | backend/src/routes/admin.ts:1784-1823 | a commit never takes away what a transaction with compatible row locks has read under its locks |
| `VlanTracking.CommitsSyncsExactly` | backend/src/routes/admin.ts:1791-1823 | a commit removes a sync row exactly if it is that of the unsync that holds it or of the delete of its VLAN or firewall, and adds the one its create run inserted |
| `VlanTracking.CommitsForwardsExactly` | backend/src/routes/admin.ts:1791-1807 | the same for port forwards, which go with their firewall only |
| `VlanTracking.CommitsParentsExactly` | backend/src/routes/admin.ts:2007-2016 | a commit removes a VLAN or firewall exactly if it is that of its own delete |
| `VlanTracking.CascadesExactly` | backend/src/routes/admin.ts:2005-2015 | a row counts as cascaded exactly if it disappears with a commit that is no unsync's |
| `VlanTracking.LiveExactly` | backend/src/routes/admin.ts:1774-1780 | a create run's objects are live from its beginning until a refused run has torn them down without a failure |
| `VlanTracking.StepKeepsInv` | backend/src/routes/admin.ts:1771-1823 | every lock, statement and commit of every transaction keeps references valid, locks compatible and live objects known |
| `VlanTracking.NoDeleteCascades` | backend/src/routes/admin.ts:2005-2015 | in every run no VLAN or firewall delete cascades a sync or forward row away, and every tracking row refers to live rows |
| `VlanTracking.StepKeepsCoverExactly` | backend/src/routes/admin.ts:1796-1823 | from a state in which each forward into a VLAN has a sync row no unsync is about to delete, a step loses that exactly if it is an unsync's re-check that passes although a row it holds names another interface than the one re-checked, with a forward into it and no other row that stays |
| `VlanTracking.CoverIsNeeded` | backend/src/routes/admin.ts:1809-1818 | that cover is exactly what keeps every forward synced through the commits of all unsyncs that have passed their re-check |
| `VlanTracking.ForwardsKeepTheirSync` | backend/src/routes/admin.ts:1791-1823 | in every run cover lasts if and only if no unsync passes such a re-check, and then each port forward into a VLAN has a sync row for that interface on its firewall |
| `VlanTracking.CheckLosesCoverExactly` | backend/src/routes/admin.ts:1809-1818 | the same for the re-check alone, whose lock set is the rows deleted by firewall and VLAN |
| `VlanTracking.RenamedInterfaceLosesSync` | backend/src/routes/admin.ts:1810-1816 | reachable counterexample: the delete goes by VLAN but the re-check by the interface name read earlier, so a re-sync under another name can lose a forward's row |
| `VlanTracking.RefusedOnlyTearsDown` | backend/src/routes/admin.ts:1774-1780 | a create run refused because its target is gone can only tear its objects down |
| `VlanTracking.CreateRunEnds` | backend/src/routes/admin.ts:1774-1780 | a create run that has no step left is tracked, torn down, or lost to an existing row |
| `VlanTrackingDb.TrackingDb.TrackProvisioned` | backend/src/routes/admin.ts:1774-1807 | a whole create run: with firewall and target live and no row of that name (or VLAN) on the firewall exactly the new row is added; objects of a gone target are removed; the statements taken are a run of the protocol |
| `VlanTrackingDb.TrackingDb.DeleteSyncUnlessForwarded` | backend/src/routes/admin.ts:1810-1823 | a whole unsync: exactly the sync rows of the firewall and VLAN go if no forward on that firewall names the interface read earlier, and otherwise none |
| `VlanTrackingDb.TrackingDb.DeleteVlanUnlessSynced` | backend/src/routes/admin.ts:2007-2016 | a whole VLAN delete: the row goes exactly if no sync row is left, and no row goes with it |
| `VlanTrackingDb.TrackingDb.DeleteFirewallUnlessUsed` | backend/src/routes/admin.ts:2667-2677 | a whole firewall delete: the row goes exactly if neither syncs nor forwards depend on it, and no row goes with it |
| `MigrationLifecycle.EventKeepsInv` | backend/src/routes/migrate.ts:684-769 | every step of request, poller, status check, relocation job, finalization and operator keeps the invariant of one migration |
| `MigrationLifecycle.RestartKeepsInv` | backend/src/db/init.ts:169-174 | a restart, with its sweep of running rows, keeps it too |
| `MigrationLifecycle.EventRowStep` | backend/src/routes/migrate.ts:99-186 | no step leaves ok or error except by removing the tracking row, and the repoint happens exactly in the step that writes ok |
| `MigrationLifecycle.SucceedsExactly` | backend/src/routes/migrate.ts:99-121 | ok is written exactly by the finalization of a success on a running row, or by a verdict on a row under review whose stored task, if any, ended OK |
| `MigrationLifecycle.FailsExactly` | backend/src/routes/migrate.ts:180-182 | error is written exactly by the finalization of a failure or a start that certainly made no task, on a running row, or on a row under review by a verdict or look that finds the copy failed |
| `MigrationLifecycle.ReviewedExactly` | backend/src/routes/migrate.ts:147-178 | a running row goes to review exactly by a start whose task may exist, an identifier that could not be stored, or a success that could not be recorded |
| `MigrationLifecycle.UncertainStartStaysPending` | backend/src/routes/migrate.ts:147-153 | after a start with an uncertain outcome the migration is unresolved |
| `MigrationLifecycle.FinalizesExactly` | backend/src/routes/migrate.ts:684-741 | a thread comes to finalize with an outcome exactly by seeing the copy end so with no relocations to make, by giving up on a copy nobody completes, by the end of the adopt job, or by the end of the relocation job |
| `MigrationLifecycle.PollsExactly` | backend/src/routes/migrate.ts:707-741 | the poller asks again exactly while the row is running and no answer shows the copy stopped, goes on to what it saw, and on giving up finalizes a failure unless a relocation is in flight; a watcher asks once |
| `MigrationLifecycle.CompletesExactly` | backend/src/routes/migrate.ts:684-705 | completion never changes the row; with a successful copy and a registered list the list stays and the relocation job starts unless it is in flight, and otherwise the list goes and the thread finalizes that outcome |
| `MigrationLifecycle.FinishesExactly` | backend/src/routes/migrate.ts:684-769 | where each thread goes on after its write, or after a write that throws |
| `MigrationLifecycle.RepointedExactlyOnce` | backend/src/routes/migrate.ts:106-121 | the portal rows have been repointed once if the row is ok and not at all otherwise |
| `MigrationLifecycle.MovesAreNotInterrupted` | backend/src/routes/migrate.ts:647-705 | while registered moves are under way the row stays running, and only the relocation job finalizes it |
| `MigrationLifecycle.DroppedExactly` | backend/src/routes/migrate.ts:684-741 | an event drops a list exactly if it is the poller giving up while the list is registered and not in flight, or the completion of a failed copy |
| `MigrationLifecycle.RestartDropsExactly` | backend/src/db/init.ts:153-174 | a restart drops a list exactly if it is registered and not in flight, or its job is running |
| `MigrationLifecycle.PassedOverExactly` | backend/src/routes/migrate.ts:155-179 | while a list is registered and its job has not ended, the row leaves running exactly by the write of a thread that was already finalizing, and only if the copy was seen stopped before the list was registered |
| `MigrationSystem.StepIsSafe` | backend/src/routes/migrate.ts:1045-1057 | claims under the VM lock, all row steps and restarts keep at most one unresolved migration per VM |
| `MigrationSystem.AtMostOneUnresolved` | backend/src/routes/migrate.ts:1045-1057 | in every run each VM has at most one running or needs_review migration |
| `MigrationSystem.ClaimGrantedExactly` | backend/src/routes/migrate.ts:1045-1057 | the check under the lock lets a migration in exactly if none of the VM is running or under review |
| `MigrationSystem.UncertainStartBlocksTheVm` | backend/src/routes/migrate.ts:147-153 | after a start with an uncertain outcome the VM's next claim is refused |
| `MigrationSystem.FinalForever` | backend/src/routes/migrate.ts:99-186 | in every run ok and error are never left, and the rows of a settled migration are never repointed again |
| `MigrationSystem.RepointedWithOkOnly` | backend/src/routes/migrate.ts:99-127 | in every run repoints match ok exactly, success of a tracked copy means its task ended OK, and the relocation job starts at most once |
| `MigrationSystem.SettledAfterTheMoves` | backend/src/routes/migrate.ts:684-741 | in every run the relocation job of a settled migration with a timely list has ended if and only if no step of the run was such a poller time-out, such a completion or such a restart |
| `MigrationSystem.OkWithoutTheMoves` | backend/src/routes/migrate.ts:684-741 | in every run an ok migration with a timely list lacks the end of its relocation job exactly if the poller gave up or the portal restarted while the list was open; a failed copy never leads there |
| `MigrationSystem.TimeOutLosesTheMoves` | backend/src/routes/migrate.ts:739-741 | reachable counterexample: the poller gives up and drops the list, a racing status check records success, the disks are never moved |
| `MigrationSystem.LateListIsIgnored` | backend/src/routes/migrate.ts:1158-1206 | reachable counterexample: the identifier is stored before the list is registered, so a list registered after completion was seen is not waited for |
| `MigrationPortal.Portal.ClaimMigration` | backend/src/routes/migrate.ts:1045-1057 | the claim is refused if the lock is taken or an unresolved migration exists, and otherwise inserts one running row |
| `MigrationPortal.Portal.RegisterAndPoll` | backend/src/routes/migrate.ts:1206-1209 | a nonempty relocation list is stored before the poller starts |
| `MigrationPortal.Portal.CompleteRemoteMigrate` | backend/src/routes/migrate.ts:684-705 | the completion funnel: for a failed copy or without a list, the list goes and the thread finalizes that outcome; with one the relocation job is in flight afterwards and started unless it was |
| `MigrationPortal.Portal.GiveUpPolling` | backend/src/routes/migrate.ts:739-741 | a poller out of attempts leaves a relocation in flight alone and otherwise drops the list and records an error |
| `MigrationPortal.Portal.EndRelocation` | backend/src/routes/migrate.ts:700-704 | the relocation job's clean-up empties both collections |
| `MigrationPortal.Portal.FinalizeMigrationSuccess` | backend/src/routes/migrate.ts:99-127 | the success transaction commits exactly if the VM lock is free, the status is the expected one, and a reviewed migration's task ended OK; otherwise nothing changes |
| `MigrationPortal.Portal.ResolveReview` | backend/src/routes/operations.ts:176-197 | an operator's verdict is accepted exactly for a migration awaiting review whose saved task agrees |
| `MigrationPortal.Portal.FinalizeMigration` | backend/src/routes/migrate.ts:155-179 | a running row becomes ok, with the repoint, exactly if an attempt goes through after only lock contention, of at most five; otherwise it is left for review |
| `MigrationPortal.Portal.FinalizeMigrationFailed` | backend/src/routes/migrate.ts:180-182 | a failing finalization turns a running row into error and no other row into anything; if it throws, the poller goes on |
| `MigrationPortal.Portal.Restart` | backend/src/db/init.ts:153-174 | a restart forgets threads and lists and moves running rows to needs_review: the restart step of the whole system |
| `MigrationPortal.Portal.SweepInterrupted` | backend/src/db/init.ts:169-174 | the startup update moves exactly the running rows to needs_review |
| `NodeRef.DecodesExactly` | backend/src/utils/nodeRef.ts:24-40 | a trimmed text is read as host id and node name exactly if it is digits, the separator and at least one more character, and as a bare name otherwise |
| `NodeRef.EncodedReadsBack` | backend/src/utils/nodeRef.ts:16-46 | a written reference reads back to its host id and name, and its rows are looked for under the reference first and the bare name second |
| `NodeRef.BareNameReadsBack` | backend/src/utils/nodeRef.ts:42-46 | a name without a separator is read as itself, and is the only name looked for |
| `NodeRef.OwnCandidate` | backend/src/utils/nodeRef.ts:22-46 | a reference is among its own lookup names exactly if it is trimmed, nonempty and does not name host 0 |
| `VmRepoint.KeptIsPreferred` | backend/src/routes/migrate.ts:75-76 | the row that is kept stands under the most preferred source name, the oldest if several |
| `VmRepoint.NoSourceNameLeft` | backend/src/routes/migrate.ts:62-87 | no row of the VM is left at a source name other than the target's |
| `VmRepoint.OthersUntouched` | backend/src/routes/migrate.ts:65-87 | rows of other VMIDs, of names not looked at and of groups without a source row stay; a kept row changes its node only |
| `VmRepoint.NamesakesAreTouched` | backend/src/routes/migrate.ts:65-87 | a row that stands for neither the VM before nor the VM after its migration is touched if and only if it carries its VMID under the bare name of the source or target node, in a group that has a row under a source name |
| `VmRepoint.NamesakeIsTaken` | backend/src/routes/migrate.ts:65-87 | such a row of another host's VM exists and is renamed to the target |
| `VmRepoint.OneRowLeft` | backend/src/routes/migrate.ts:73-87 | a group with a source row ends as that one row across source and target names |
| `VmRepoint.AtMostOneRow` | backend/src/routes/migrate.ts:73-87 | the VM (and user, for user SSH configs) has at most one row across all names if and only if it has a source row or had at most one |
| `VmRepoint.MergeKeepsKeysUnique` | backend/src/routes/migrate.ts:78-87 | merging any groups keeps (node, vmid[, user]) unique unless the target's name is foreign to the merge and taken |
| `VmRepoint.UniqueExactly` | backend/src/routes/migrate.ts:86-87 | the merged table has unique keys if and only if the target's name is among the names looked at or is free |
| `VmRepoint.RenameClashes` | backend/src/routes/migrate.ts:86-87 | the rename statement hits the unique index exactly in that case |
| `VmRepoint.SelfNamedTargetIsSafe` | backend/src/routes/migrate.ts:65-87 | a target among its own lookup names never breaks uniqueness |
| `VmRepointDb.ReferencesFollow` | backend/src/routes/migrate.ts:79-84 | template references follow their row into the one it was merged with, and every reference still exists |
| `VmRepointDb.RestMovesExactly` | backend/src/routes/migrate.ts:88-97 | row by row: a provisioned row moves exactly if it carries the VMID under a lookup name; a public IP row exactly if its node is the source's reference, or the bare name with its host absent or the source's, or for an unqualified source a lookup name; it takes the target's name and, if the target is qualified, its host; every other row stays |
| `VmRepointDb.RestFollows` | backend/src/routes/migrate.ts:88-97 | no provisioned or public IP row of the VM stays under a name of the source, and nothing but node and host of a row changes |
| `VmRepointDb.PortalRows.DeleteRows` | backend/src/routes/migrate.ts:85 | the delete keeps keys unique and clears references to deleted templates |
| `VmRepointDb.PortalRows.PointTemplates` | backend/src/routes/migrate.ts:81-84 | references to duplicates are moved to the kept template first |
| `VmRepointDb.PortalRows.SetNode` | backend/src/routes/migrate.ts:86-87 | the rename is refused exactly when its key is taken |
| `VmRepointDb.PortalRows.FindKept` | backend/src/routes/migrate.ts:75 | the search over candidate names finds the preferred row |
| `VmRepointDb.PortalRows.DropDuplicates` | backend/src/routes/migrate.ts:77-86 | duplicates disappear after their references have moved, so no reference is cleared |
| `VmRepointDb.PortalRows.MergeGroup` | backend/src/routes/migrate.ts:73-87 | one group is merged, or the statement fails exactly when the target's name is foreign and taken |
| `VmRepointDb.PortalRows.RepointTable` | backend/src/routes/migrate.ts:65-88 | the loop over users leaves the merged table |
| `VmRepointDb.PortalRows.RepointTablesOrRollBack` | backend/src/routes/migrate.ts:65-88 | all six tables or none |
| `VmRepointDb.PortalRows.RepointVmRows` | backend/src/routes/migrate.ts:62-97 | the whole merge: six merged tables and the rows that VmRepointDb.RestMovesExactly moves, or nothing at all; keys are unique and references valid after every statement |
| `Scheduler.StartsExactly` | backend/src/scheduler.ts:205-209 | an evaluation queues a start exactly if the scheduler is not stopping, the key is neither claimed nor in flight, the pool has room, and outside the window, not skipping, it sees a stopped VM whose row records the window |
| `Scheduler.StopsExactly` | backend/src/scheduler.ts:188-198 | the same for a stop: inside the window, not skipping, with a running VM, unless the row records this window as already stopped for or overridden by the user |
| `Scheduler.WritesExactly` | backend/src/scheduler.ts:178-217 | what a tick that queues nothing writes: the side of the window, the override exactly for a VM that runs although this window was stopped for (or was one already), the stop mark exactly for a VM seen stopped (or one already) |
| `Scheduler.WaitsExactly` | backend/src/scheduler.ts:196-224 | and when it writes: exactly if it may go on and has no reason to act, or an action of the schedule is in flight |
| `Scheduler.RowsExactly` | backend/src/scheduler.ts:91-107 | a row changes exactly by the tick's write or a claim, each behind the gate, not stopping and on a row as it was seen, or by a stop that worked while the row records the window |
| `Scheduler.TickExactly` | backend/src/scheduler.ts:143-226 | a tick starts on all rows and takes each schedule off its list once |
| `Scheduler.TickEndsExactly` | backend/src/scheduler.ts:212-240 | a tick ends exactly at its end, with a restart, or at an evaluation that finds the scheduler stopping |
| `Scheduler.StoppingExactly` | backend/src/scheduler.ts:284-304 | the scheduler is stopping exactly from a stop to the next start or restart |
| `Scheduler.DecisionRemembers` | backend/src/scheduler.ts:171-217 | a tick still in the recorded window forgets neither a stop nor a manual override; starts happen only at the window's end |
| `Scheduler.EvaluateKeepsInv` | backend/src/scheduler.ts:83-88 | a queued action never replaces one of the same schedule and keeps the number in flight below the pool size |
| `Scheduler.StepKeepsInv` | backend/src/scheduler.ts:83-240 | every step of ticks, claims, completions, stop, start and restart keeps guards and actions in step |
| `Scheduler.StoppedIsKept` | backend/src/scheduler.ts:66-73 | inside a window the row keeps that the VM was stopped, and then no stop is claimed |
| `Scheduler.StartEndsTheWindow` | backend/src/scheduler.ts:176-209 | a start is claimed only in the step that ends a recorded window |
| `Scheduler.NoStopAfterCompletion` | backend/src/scheduler.ts:100-107 | in every run after a stop completed in a recorded window, no further stop is claimed while that window lasts |
| `Scheduler.OneStartPerWindow` | backend/src/scheduler.ts:205-209 | in every run start claims are covered by the windows that began: at most one per window |
| `Scheduler.InFlightIsBounded` | backend/src/scheduler.ts:84-88 | in every run each schedule has at most one action and at most pool size minus one are in flight |
| `Scheduler.OneActionPerVmExactly` | backend/src/scheduler.ts:83-91 | in every run each VM has at most one action in flight, if and only if no VM is scheduled under two node names or the pool has no room for two actions |
| `Scheduler.AliasesActTogether` | backend/src/scheduler.ts:85-87 | reachable counterexample: one VM under its qualified and bare node name gets two stops at once |
| `SchedulerState.PowerScheduler.DecideOn` | backend/src/scheduler.ts:171-217 | the loop body's flag updates compute the declarative decision: a start exactly at the end of the recorded window for a VM seen stopped, a stop exactly inside it for a running one, unless skipping, busy, or (for a stop) done or overridden |
| `SchedulerState.PowerScheduler.StartSweep` | backend/src/scheduler.ts:126-144 | a tick starts only if none is in progress and nothing is stopping, on a snapshot of all rows |
| `SchedulerState.PowerScheduler.ClaimAndRunAction` | backend/src/scheduler.ts:83-91 | queueing an action, or declining it when stopping, busy or at the limit |
| `SchedulerState.PowerScheduler.EvaluateSchedule` | backend/src/scheduler.ts:149-226 | one iteration of the sweep |
| `SchedulerState.PowerScheduler.WriteSweptFlags` | backend/src/scheduler.ts:222-226 | the sweep's own write happens exactly on an unchanged row behind the gate |
| `SchedulerState.PowerScheduler.RunClaim` | backend/src/scheduler.ts:91-95 | the claim updates the row exactly if it is as seen, the gate grants it and nothing is stopping |
| `SchedulerState.PowerScheduler.RecordOutcome` | backend/src/scheduler.ts:97-116 | a stop that worked is remembered only while the row records the window |
| `SchedulerState.PowerScheduler.Finally` | backend/src/scheduler.ts:118-123 | clean-up empties both guards |
| `Contracts.OverlapMeansCommonInstant` | backend/src/routes/electricityPricing.ts:65-70 | half-open intervals overlap exactly if they share an instant |
| `Contracts.FoundExactly` | backend/src/routes/electricityPricing.ts:65-70 | the overlap query finds an active contract exactly if it shares an instant with the new interval and, for an open end, begins before the stand-in year |
| `Contracts.InsertKeepsDisjointExactly` | backend/src/routes/electricityPricing.ts:65-70 | after an empty overlap query, inserting keeps active contracts disjoint if and only if no open-ended contract misses one starting in or after the stand-in year 9999 |
| `Contracts.CutsExactly` | backend/src/routes/electricityPricing.ts:77-84 | ending is refused for a statement exactly if it would change the covered instants of its period |
| `Contracts.StepKeepsSound` | backend/src/routes/electricityPricing.ts:65-139 | create, end, supersede, deactivate and finalize, statement by statement, keep intervals proper and what each transaction holds valid |
| `Contracts.StepKeepsDisjointExactly` | backend/src/routes/electricityPricing.ts:65-139 | each step keeps active contracts disjoint if and only if it commits no open-ended contract that its overlap query could not compare with one starting in or after the stand-in year |
| `Contracts.StepKeepsCoverageExactly` | backend/src/routes/electricityPricing.ts:72-139 | each step keeps finalized coverage if and only if it is no commit of an end or supersession that its check for finalized months would refuse now |
| `Contracts.DisjointExactly` | backend/src/routes/electricityPricing.ts:65-139 | along every run active contracts stay disjoint if and only if no commit misses one in that way |
| `Contracts.OneContractAtATime` | backend/src/routes/electricityPricing.ts:65-139 | in every run without such a commit at most one active contract covers an instant, whatever months are finalized |
| `Contracts.EarlyStartsMissNothing` | backend/src/routes/electricityPricing.ts:66 | while contracts start before the stand-in year 9999 is over, nothing is missed |
| `Contracts.CoverageExactly` | backend/src/routes/electricityPricing.ts:72-139 | along every run finalized coverage stays if and only if no end or supersession is overtaken by a month between its check and its commit |
| `Contracts.FinalizedCoverageStays` | backend/src/routes/electricityPricing.ts:72-84 | in every run without such a commit the contracts of a finalized period cover it as when it was calculated |
| `Contracts.ApartIsEnough` | backend/src/routes/electricityPricing.ts:72-84 | that holds when no month is read between an end's check and its commit, nor an end checked between reading and storing a month, unless the end lies outside its period |
| `Contracts.HandoverAdjoins` | backend/src/routes/electricityPricing.ts:112-128 | in every run superseding leaves neither gap nor overlap at the handover and links the successor |
| `Contracts.RaceBreaksCoverageExactly` | backend/src/routes/electricityPricing.ts:72-84 | storing a checked end or supersession and a month already read, in either order, breaks the month's coverage if and only if the end cuts a period the contract was used for |
| `Contracts.RaceIsReachable` | backend/src/services/monthlyElectricity.ts:186-192 | that race is reachable: ending and finalizing hold different locks |
| `Contracts.FarStartIsMissed` | backend/src/routes/electricityPricing.ts:66 | reachable counterexample: an open-ended contract does not see one that starts after 9999 |
| `Contracts.ContractStore.InsertContract` | backend/src/routes/electricityPricing.ts:65-70 | refuses an improper interval or an active contract the query finds, and otherwise adds exactly the given interval, with its own end or open: the run of its own statements |
| `Contracts.ContractStore.EndContract` | backend/src/routes/electricityPricing.ts:74-84 | sets the end of an active contract, and nothing else, exactly if it lies inside the interval and no finalized period the contract was used for would be cut: the run of its own statements |
| `Contracts.ContractStore.SupersedeContract` | backend/src/routes/electricityPricing.ts:112-128 | answers in the code's order of refusals; both halves are stored or neither: the run of its own statements |
| `Contracts.ContractStore.DeactivateContract` | backend/src/routes/electricityPricing.ts:129-139 | withdraws exactly an active contract |
| `Tariffs.RevisionChangesOnlyItsTail` | backend/src/routes/electricityPricing.ts:166-176 | a revision covers the same instants and changes the price from its effective instant to the old end, and nowhere else |
| `Tariffs.RevisionKeepsDisjoint` | backend/src/routes/electricityPricing.ts:173-176 | the two parts are disjoint from each other and from all other tariffs |
| `Tariffs.OverlapExactly` | backend/src/routes/electricityPricing.ts:146-152 | two tariffs clash exactly if they price the same component of the same contract at a common instant |
| `Tariffs.RefusedExactly` | backend/src/routes/electricityPricing.ts:170-172 | a statement refuses a revision exactly if it is stored under the contract and its period shares an instant with the revised tail |
| `Tariffs.StepKeepsSound` | backend/src/routes/electricityPricing.ts:140-181 | create, revise and finalize, statement by statement, keep tariffs disjoint |
| `Tariffs.StepKeepsPricesExactly` | backend/src/routes/electricityPricing.ts:166-178 | each step keeps finalized prices if and only if it is no commit of a revision to another price of an instant that a statement of the contract, stored or being finalized, has priced |
| `Tariffs.TariffsStayDisjoint` | backend/src/routes/electricityPricing.ts:146-152 | in every run, races included, tariffs of one contract and component are disjoint |
| `Tariffs.PricesExactly` | backend/src/routes/electricityPricing.ts:166-178 | along every run finalized prices stay if and only if no such commit occurs |
| `Tariffs.FinalizedPricesStay` | backend/src/routes/electricityPricing.ts:170-172 | in every run without such a commit each price used for the statement's own contract stays the only price of its instant |
| `Tariffs.ApartIsEnough` | backend/src/routes/electricityPricing.ts:166-178 | that holds when no month of the contract is read between a revision's check and its commit, nor a revision checked between reading and storing a month, unless it leaves the period alone |
| `Tariffs.RaceBreaksPricesExactly` | backend/src/routes/electricityPricing.ts:167-176 | storing a checked revision and a month already read, in either order, breaks the month's prices if and only if the revised tail touches its period and the price differs |
| `Tariffs.ReferredContractIsNotProtected` | backend/src/routes/electricityPricing.ts:170-171 | reachable counterexample: contracts a statement merely refers to can still be revised inside its period |
| `Tariffs.OnlyReferredPricesChange` | backend/src/routes/electricityPricing.ts:170-172 | a revision that passed its check changes a price inside a statement's period if and only if the statement is stored under another contract and the revised tail meets its period |
| `Tariffs.TariffStore.CreateTariff` | backend/src/routes/electricityPricing.ts:144-153 | adds exactly the given tariff as revision 1, for a proper interval of a known contract that clashes with none: the run of its own statements |
| `Tariffs.TariffStore.ReviseTariff` | backend/src/routes/electricityPricing.ts:166-178 | ends the tariff at the effective instant and adds the rest at the new price as the next revision, or refuses for each reason in the code's order: the run of its own statements |
| `Bills.StepKeepsInv` | backend/src/routes/electricityPricing.ts:199-268 | create, revise, payment and void, statement by statement, keep the ledger sound |
| `Bills.LedgerIsSound` | backend/src/routes/electricityPricing.ts:199-268 | in every run non-void bills of one contract and kind have disjoint periods and the status says exactly how much is paid |
| `Bills.ChainIsLinear` | backend/src/routes/electricityPricing.ts:247-264 | of two revisions of a bill one comes from the other |
| `Bills.OneLiveRevision` | backend/src/routes/electricityPricing.ts:247-264 | in every run at most one revision of a bill is live, and it is the last |
| `Bills.PaidGrowsAlongChain` | backend/src/routes/electricityPricing.ts:260-262 | the paid amount never falls along a chain |
| `Bills.PaymentsAreKept` | backend/src/routes/electricityPricing.ts:219-231 | in every run a payment once accepted is contained in every later revision |
| `Bills.PaidIsTheHighestPayment` | backend/src/routes/electricityPricing.ts:219-231 | in every run a bill has a paid amount exactly if a payment was recorded on it or an earlier revision, and then it is the amount of one of these payments and none is higher |
| `Bills.OverlapExactly` | backend/src/routes/electricityPricing.ts:199-204 | bills overlap exactly if they are of one contract and kind and their periods share an instant |
| `Bills.StalePaymentRefused` | backend/src/routes/electricityPricing.ts:229-231 | of two payments that read the same state at most one is ever accepted |
| `Bills.BillLedger.FindOverlap` | backend/src/routes/electricityPricing.ts:199-204 | the search loop answers whether another bill that is not void overlaps the period |
| `Bills.BillLedger.CreateBill` | backend/src/routes/electricityPricing.ts:205-217 | adds exactly one due bill with these values, nothing paid, unless the period is improper or overlaps: the run of its own statements |
| `Bills.BillLedger.ReviseBill` | backend/src/routes/electricityPricing.ts:249-264 | voids the bill and adds one with the new values that carries its payment, with the status of that payment against the new amount, or refuses for each reason: the run of its own statements |
| `Bills.BillLedger.ReadDue` | backend/src/routes/electricityPricing.ts:223-227 | a payment must be positive and exceed what is paid on a due bill; what it has read is kept |
| `Bills.BillLedger.PayDue` | backend/src/routes/electricityPricing.ts:228-231 | accepted exactly if paid amount and status are as read; then the bill's paid amount is exactly the payment's cumulative amount, it is paid exactly if that reaches what is due, and no other bill changes |
| `Bills.BillLedger.VoidBill` | backend/src/routes/electricityPricing.ts:236-242 | voids exactly a non-void bill: the void step |
| `VmidAllocation.LowestFreeId` | backend/src/utils/vmidAllocator.ts:33-42 | the picked id is the lowest free one at or above the start |
| `VmidAllocation.PickAvoidsClaims` | backend/src/proxmox.ts:511-514 | no id that another deploy holds or created a VM with is free to pick |
| `VmidAllocation.ReservationsExactly` | backend/src/proxmox.ts:511-538 | an id is reserved exactly by the pick that chose it, for one lifetime from then, and handed back exactly when its row cannot be written or its call was refused or never sent |
| `VmidAllocation.RowsExactly` | backend/src/proxmox.ts:521-542 | a deploy's row is written once its id is known and goes exactly when the deploy ends or its row is closed; the first "taken" keeps it |
| `VmidAllocation.RetriesExactly` | backend/src/proxmox.ts:522-541 | a deploy looks again exactly after its first "taken", from scratch; any other failure ends it |
| `VmidAllocation.VmsExactly` | backend/src/proxmox.ts:464-542 | a VM comes into being exactly by a deploy's own creation or from outside, and goes only by its destruction |
| `VmidAllocation.LooksExactly` | backend/src/proxmox.ts:481-505 | a look learns exactly the ids on the host it asks, and then exactly the ids of the rows |
| `VmidAllocation.StepKeepsInv` | backend/src/proxmox.ts:464-542 | every step of looks, picks, records, calls, failures and creations keeps claimed ids covered |
| `VmidAllocation.StepKeepsDistinctExactly` | backend/src/proxmox.ts:511-516 | each step keeps ids distinct if and only if it is no pick for which another deploy has an id that the look did not see in use, whose reservation ran out, and below which every id from the start is used or reserved |
| `VmidAllocation.DistinctExactly` | backend/src/proxmox.ts:481-516 | along every run ids stay distinct if and only if no pick is of that kind |
| `VmidAllocation.IdsAreDistinct` | backend/src/proxmox.ts:481-516 | in every run without such a pick no two deploys hold or created one id |
| `VmidAllocation.TimelyRunReusesNothing` | backend/src/proxmox.ts:481-516 | within the time limits on looks, recording and creations no pick is of that kind |
| `VmidAllocation.PickedIdIsFree` | backend/src/proxmox.ts:481-516 | in every run within the limits a picked id is at or above the start, unused in what was seen, and nobody's, however stale the look |
| `VmidAllocation.EndedForever` | backend/src/proxmox.ts:521-542 | a deploy that ended creates nothing any more |
| `VmidAllocation.HandedBackUnused` | backend/src/proxmox.ts:527-538 | an id is handed back only by a deploy whose call was not sent or was definitively refused, and that deploy creates nothing any more |
| `VmidAllocation.RetryWithRowDiffers` | backend/src/proxmox.ts:522-541 | after "taken", a deploy with a provisioning row always gets another id |
| `VmidAllocation.RetryWithoutRow` | backend/src/proxmox.ts:522-541 | without a row the retry repeats the id if and only if the reservation ran out, the second look saw no use of it, and every lower id is used or reserved |
| `VmidAllocation.OldLookSharesId` | backend/src/proxmox.ts:481-516 | reachable counterexample: a look older than the reservation hands out a held id |
| `VmidAllocator.PickVmid` | backend/src/utils/vmidAllocator.ts:33-42 | the search loop returns an id at or above 100 and the start, in neither set, with every lower such id in one of them |
| `VmidAllocator.VmidReservations.Sweep` | backend/src/utils/vmidAllocator.ts:70-76 | exactly the expired reservations go |
| `VmidAllocator.VmidReservations.Reserve` | backend/src/utils/vmidAllocator.ts:78-83 | the id is reported as held for exactly one lifetime from now, and no other id's report changes |
| `VmidAllocator.VmidReservations.Release` | backend/src/utils/vmidAllocator.ts:85-89 | exactly the given id is freed, and the answer says whether it was held |
| `VmidAllocator.VmidReservations.ActiveIds` | backend/src/utils/vmidAllocator.ts:92-95 | nothing expired is reported, nothing unexpired is lost |
| `VmidAllocator.SweepingIsInvisible` | backend/src/utils/vmidAllocator.ts:69-76 | sweeping never changes what a later pick sees |
| `VmidAllocator.Allocator.PickAndReserve` | backend/src/proxmox.ts:511-516 | the pick step of the protocol: a fresh id, held by nobody before and reserved after, although the kept set is swept of expired entries |
| `VmidAllocator.Allocator.AfterFailure` | backend/src/proxmox.ts:534-540 | the failure step of the protocol: the id is handed back exactly for a call that was not sent or definitively refused and not for "taken", and a retry follows exactly if the deploy looks again |
| `VmidAllocator.Allocator.AfterRecordFailure` | backend/src/proxmox.ts:526-532 | an id whose provisioning row could not be written is handed back: the step of the protocol |
| `JsonText.StringReads` | backend/src/routes/powerControl.ts:133-137 | a quoted string reads back as itself (RFC 8259 section 7), lone surrogates included |
| `JsonText.NumberReads` | backend/src/routes/powerControl.ts:136 | a number token (RFC 8259 section 6) is delimited by what may follow a value |
| `Json.SortSorts` | backend/src/routes/powerControl.ts:132-133 | sorting keys by code unit keeps every look-up |
| `JsonReading.CanonicalReadsBack` | backend/src/routes/powerControl.ts:130-137 | the output of canonical parses back, to the value with sorted keys and without undefined members |
| `JsonReading.NormalDecides` | backend/src/routes/powerControl.ts:129-137 | normal forms are equal exactly for values that agree up to key order and undefined members |
| `JsonReading.CanonicalDecides` | backend/src/routes/powerControl.ts:129-137 | canonical renderings are equal if and only if the values agree up to key order and undefined members |
| `PowerRevisions.SameContentExactly` | backend/src/routes/powerControl.ts:139-142 | the comparison holds if and only if every member other than version agrees |
| `PowerRevisions.RevisionKeptExactly` | backend/src/routes/powerControl.ts:343-348 | a revision is kept exactly for unchanged content and otherwise grows by one |
| `PowerRevisions.StepKeepsTracks` | backend/src/routes/powerControl.ts:329-363 | whatever the other saves do, what a save compared with is outdated or current |
| `PowerRevisions.SavedAgainstCurrentRow` | backend/src/routes/powerControl.ts:341-363 | an accepted save by a client that names a version of the compared row stores what it would have stored against the row it replaces |
| `PowerRevisions.CompareSufficesExactly` | backend/src/routes/powerControl.ts:341-363 | from every reachable state: all accepted continuations of a comparison are numbered against the row they replace, if and only if the client's version is 0 or not above the row's |
| `PowerRevisions.RevisionsFollowContent` | backend/src/routes/powerControl.ts:341-363 | in every interleaving an accepted save by such a client keeps each part's revision exactly for unchanged content and otherwise takes the next one, for schedule and price, and keeps the price latch exactly while the price part is unchanged |
| `PowerRevisions.GuessedVersionMisnumbers` | backend/src/routes/powerControl.ts:341-360 | reachable counterexample: a save that guesses the next version is accepted with an outdated comparison |
| `PowerRevisions.PolicyRow.SavePolicy` | backend/src/routes/powerControl.ts:343-363 | accepted exactly for no row or an unclaimed row of the client's version; then both parts, their revisions, the next version and the price latch are stored as stated, and otherwise nothing: the write step of the protocol |
| `PowerRevisions.PolicyRow.ReadExisting` | backend/src/routes/powerControl.ts:341-342 | the comparing read of the protocol |
| `SessionStore.StepKeepsInv` | backend/src/db/sessionStore.ts:28-101 | every interleaving of load, save, touch, destroy, prune and acknowledgement keeps deleted sessions apart from stored ones |
| `SessionStore.DeletedStaysDeleted` | backend/src/db/sessionStore.ts:46-64 | in every run with one unfinished first save per session and no lost answer to a stored one, a deleted row never comes back |
| `SessionStore.GoneForGoodExactly` | backend/src/db/sessionStore.ts:46-64 | once a session has no row, no continuation gives it one back if and only if no first save of it is on its way to the database and no request holds it unmarked |
| `SessionStore.LostAnswerResurrects` | backend/src/db/sessionStore.ts:59-63 | reachable counterexample: the answer to a stored first save is lost, and the next save brings a revoked session back |
| `SessionStore.TwoFirstSavesResurrect` | backend/src/db/sessionStore.ts:59-63 | reachable counterexample: a second first save queued before the first is acknowledged brings a revoked session back |
| `SessionStore.DrizzleSessionStore.Get` | backend/src/db/sessionStore.ts:28-44 | the load step: a row later than now is a hit, marked persisted; an expired one is a miss and its delete, of that row only, is sent; no row changes here |
| `SessionStore.DrizzleSessionStore.Set` | backend/src/db/sessionStore.ts:46-64 | a save as its run of statement and answer: a persisted session without a row stays without one; a first save inserts and its answer marks the live object |
| `SessionStore.DrizzleSessionStore.Touch` | backend/src/db/sessionStore.ts:88-93 | as a run of its statement: a touch creates and removes no row and moves no other session's expiry |
| `SessionStore.DrizzleSessionStore.Destroy` | backend/src/db/sessionStore.ts:66-70 | as a run of its statement: the session's row and no other goes, for good in the sense of DeletedStaysDeleted |
| `SessionStore.DrizzleSessionStore.PruneExpired` | backend/src/db/sessionStore.ts:95-101 | the prune step: exactly the expired rows go |
| `AttemptBudget.PruneUnnoticed` | backend/src/routes/auth.ts:176-181 | a prune changes a count if and only if it removes a row the count's window still contains |
| `AttemptBudget.SharedPruneIsHarmless` | backend/src/routes/auth.ts:176-181 | the prune of all users' rows leaves every count with a clock not earlier alone |
| `AttemptBudget.StepKeepsInv` | backend/src/routes/auth.ts:171-186 | every step, whatever the clocks, keeps each admitted attempt a row or one that a prune removed, and each count together with what it missed complete |
| `AttemptBudget.WindowIsBudgeted` | backend/src/routes/auth.ts:177-182 | if each admission saw at most six in the window ending with it, any window holds at most six, in whatever order the clocks stand |
| `AttemptBudget.BudgetedExactly` | backend/src/routes/auth.ts:177-182 | for clocks in order the two are equivalent |
| `AttemptBudget.OveradmitsExactly` | backend/src/routes/auth.ts:171-186 | a reservation is admitted although six attempts were admitted inside its window, if and only if its count plus the attempts that prunes had taken from its window reaches six; then a prune used a later clock |
| `AttemptBudget.StepBudgetsExactly` | backend/src/routes/auth.ts:171-186 | each step keeps the budget if and only if it is no such admission |
| `AttemptBudget.AtMostMaxPerWindow` | backend/src/routes/auth.ts:156-186 | in every run without such an admission, whatever the clocks, at most six attempts of a user fall into any half-open window without a success in it |
| `AttemptBudget.BudgetHoldsExactly` | backend/src/routes/auth.ts:171-186 | along every run in which the clocks of a user's reservations follow the order of the lock, all windows stay within the budget if and only if no such admission happens |
| `AttemptBudget.OrderedCountsSuffice` | backend/src/routes/auth.ts:172-181 | no such admission happens while no prune of any user is ahead of the clock of a later count |
| `AttemptBudget.ClosedWindowHoldsSeven` | backend/src/routes/auth.ts:180 | counterexample for windows with both ends: the count leaves out the attempt exactly one window ago |
| `AttemptBudget.ClosedWindowExactly` | backend/src/routes/auth.ts:180 | within the budget, a window with both ends holds more than six exactly if the attempts on its last instant exceed what those before leave, and only with attempts on both ends |
| `AttemptBudget.OvertakenReservationEscapes` | backend/src/routes/auth.ts:172-181 | counterexample without clock order: a prune with a later clock lets a seventh attempt in |
| `AttemptBudget.AttemptTable.ReserveConfirmationAttempt` | backend/src/routes/auth.ts:171-186 | the run lock, prune, count, insert: admitted if and only if fewer than six rows lie inside the window; only then a row is stored |
| `AttemptBudget.AttemptTable.PruneOlder` | backend/src/routes/auth.ts:176 | the prune step: no count of any user whose window begins at the bound or later notices |
| `AttemptBudget.AttemptTable.CountAbove` | backend/src/routes/auth.ts:177-180 | the loop counts exactly the rows later than the window start |
| `AttemptBudget.AttemptTable.ClearAttempts` | backend/src/routes/auth.ts:156-158 | the clear step: a success clears the user's rows and no others |
| `SecretRotation.DecryptsExactly` | backend/src/utils/secrets.ts:88-111 | a text is read exactly if it is plain, or sealed with the key of its id (the current key for the current id, otherwise that of the id's last entry), or without a key id under the current key or any legacy id's key |
| `SecretRotation.MigratedExactly` | backend/src/db/init.ts:55-60 | a migrated value is under the current key and decrypts to the same plaintext if and only if that plaintext does not itself read as a current envelope |
| `SecretRotation.DisguisedValueChanges` | backend/src/utils/secrets.ts:71-75 | such a value exists and does change |
| `SecretRotation.RotationKeepsPlaintexts` | backend/src/db/init.ts:109-118 | after a rotation all values are under the current id, values that were are untouched, and every other one decrypts as before unless disguised |
| `SecretRotation.RotatesExactly` | backend/src/db/init.ts:45-63 | value by value: exactly those not under the current id are sealed anew under the current key, a plaintext that reads as a current envelope excepted; the others stay, and none is added or lost |
| `SecretRotation.ReadableExactly` | backend/src/db/init.ts:55-60 | a rotation goes through exactly if every value not under the current id can be read |
| `SecretRotation.FreshPlanIsEmpty` | backend/src/db/init.ts:65-88 | a plan made after a rotation finds nothing to do |
| `SecretRotation.SecretDb.MigrateColumn` | backend/src/db/init.ts:45-63 | the row loop migrates exactly the values that need it and fails exactly at an unreadable one |
| `SecretRotation.SecretDb.MigrateRow` | backend/src/db/init.ts:55-60 | one value is re-sealed, left alone, or found unreadable |
| `SecretRotation.SecretDb.RotateEncryptedSecrets` | backend/src/db/init.ts:109-118 | all columns or none: it succeeds if and only if no value that needs rotating is unreadable, and counts what it migrated per column |
| `SecretRotation.SecretDb.PlanRotation` | backend/src/db/init.ts:65-88 | the plan counts the values to migrate and the unreadable ones among them; no unreadable one exactly if rotation can succeed, none at all exactly if nothing is to do |
| `SecretRotation.SecretDb.PlanColumn` | backend/src/db/init.ts:72-85 | the counting loop |

## Left out

- VlanTracking.ForwardsKeepTheirSync: cover asks for a sync row that no passed unsync is about to delete, which is more than a committed row; VlanTracking.CoverIsNeeded shows that nothing less lasts.
- VlanTracking.CreateRunEnds: a run whose row already exists ends as a duplicate with its objects live, as the code does for errors other than a gone target.
- MigrationSystem.SettledAfterTheMoves: speaks of the end of the relocation job, whose disk moves may have failed, and of lists registered before anyone saw the copy finished; MigrationLifecycle.PassedOverExactly says when a later one is passed over.
- MigrationLifecycle.EventKeepsInv: the poller may give up at any tick instead of after 4320, which allows more runs than the code; step tracking, progress and the adopt job's own work on disks are not modelled.
- MigrationPortal.Portal.FinalizeMigration: what each attempt meets (lock contention or another failure) is an input; waiting between attempts is not modelled.
- VmRepointDb.PortalRows.RepointVmRows: runs inside its caller's transaction, whose VM lock keeps other policy writes out; columns other than node, VMID, user and template are carried along unseen.
- Scheduler.InFlightIsBounded: counts actions per schedule; Scheduler.OneActionPerVmExactly says when that is per VM. Which host a bare node name stands for is a fixed function of name and VMID.
- Contracts.OneContractAtATime: for runs in which no commit misses a contract that starts in or after the stand-in year; Contracts.DisjointExactly shows the condition to be exact.
- Contracts.FinalizedCoverageStays: for runs in which no end is overtaken by a month between its check and its commit; Contracts.CoverageExactly shows the condition to be exact. The year 9999 plays no part in it.
- Tariffs.FinalizedPricesStay: for the contract a statement is stored under and runs in which no revision is overtaken (exact by Tariffs.PricesExactly); a new tariff may still price an instant that had none, and importing tariffs in bulk is not modelled.
- VmidAllocation.IdsAreDistinct: for runs in which no pick meets the guard of VmidAllocation.DistinctExactly, which is exact; the time limits are one way to meet it. Unreachable hosts end the look, as in the code.
- PowerRevisions.RevisionsFollowContent: for saves whose version is 0 or one the compared row has had (exact by PowerRevisions.CompareSufficesExactly); the validation of the saved body is not modelled. The code never deletes a policy row, so neither does the model.
- SessionStore.DeletedStaysDeleted: for runs with one unfinished first save per session and no lost answer; SessionStore.GoneForGoodExactly needs neither and is exact in the state in which the session was deleted.
- AttemptBudget.BudgetHoldsExactly: one direction needs the clocks of a user's reservations in the order of the lock; AttemptBudget.AtMostMaxPerWindow, the other, needs no order.
- NodeRef.EncodedReadsBack: host ids above 2^53, which JavaScript numbers round, are kept exact; a host id that is not a number is no input of the model.
- Attempt keys: the login path's own attempts share the table under other keys and are not modelled.
- JSON values: non-finite numbers and undefined array elements, which no stored policy contains, are not part of the model.
- Time zones, day masks and off-window arithmetic: an arbitrary input of each tick.
- Month finalization: modelled as reading contracts or tariffs and later appending a statement; its calculation is not.
- The statement scan of an end is taken as complete; the code stops at 1000 rows.
- HTTP routing, permissions, audit rows, notifications, rate limits and the user interface: no state of these protocols depends on them.
- Proxmox, FortiGate, SSH and payment calls: only their effect on the modelled state is kept.
- Encryption, password hashing and one-time codes: sealing is abstract, the others are not modelled.
