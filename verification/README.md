# Verification of the release tooling

Dafny models of the parts of this repository whose correctness is a matter of protocol, and proofs
about them. Everything outside is an arbitrary input: Git histories, the Codex child and the
reviewers, the remote variable service, the order in which runs settle, crashes.

| files | what they model |
|---|---|
| `GitModel`, `PromptPack`, `Protocol` | the supervisor's inputs, its persisted state, and what each command durably writes |
| `Ledger`, `History`, `Runs` | what Git history looks like after any run; the invariant of the protocol |
| `Progress`, `Launching`, `Advance` | interrupted groups, launching, moving on |
| `Acceptance`, `GroupAcceptance`, `Reviews` | which reports and repositories are accepted, and exactly what is stored then, for a prompt, a group, a group's prefix and the reviewer pair |
| `Dispatching` | which path a command takes, what is durable before anything starts, and in which order results become durable |
| `Recovery`, `Refused` | crash confluence, and what recovery accepts that a step refused |
| `Failing`, `Commands` | what a failing part of a command, and a whole failing command, may leave behind |
| `Evidence`, `DeadEnds`, `FinalReview`, `Witness` | what stays on disk for the review; the complete list of positions nothing gets past; T04-R3; a run into a dead end |
| `Supervisor` | the supervisor as an object with the program's own steps, passing through exactly the worlds of `Protocol`; `run_until` |
| `Resolution` | the configured groups: when they resolve, and to what |
| `Handoffs`, `HandoffText`, `GitStatus` | the two parsers at its edges, and exactly which texts they read |
| `Deploy`, `DeployRuns`, `Releases`, `Cutover` | the production deploy with its compensation, sequences of deploys, rollback plans |
| `FreshBoundary` | the boot boundary of a database path claimed to be new, over deploys and starts |
| `OrderedCohorts`, `CohortRuns` | cooperative workers with a cohort barrier |
| `Attempts`, `DiscoveryPolicy`, `EvalReport`, `WriteSafety` | the release gate: policy, report builder and independent checker |
| `Evaluations`, `Authority` | what policy, reports and authority counts mean, said of the attempts and observations |
| `Sorting`, `Audit`, `License` | the dependency gates |
| `Monitors`, `MonitorLogs` | edge-triggered alerts and the retention prune loop |

`dafny verify dfyconfig.toml` checks the whole project.

## How the supervisor is modelled

A command is a function from the durable world to the list of worlds its writes pass through
(`Protocol.Eff`); a crash is a cut of that list, and a run is any sequence of commands under either
profile, cuts, signals and outside changes that keep Git's objects (`Runs.Event`). The class
`Machine.Supervisor` executes the program's steps one by one and is proved to pass through exactly
those worlds. Git is an append-only list of commits; `rev-list` is any function that lists the set
difference once each. The text audits are fixed but unknown predicates, so the theorems hold for
whatever they accept.

The functions of `Protocol`, `PromptPack`, `Deploy`, `EvalReport` and the parsers compute; what their
results mean is stated apart from them, on the inputs themselves and mostly in both directions, in
`Acceptance`, `GroupAcceptance`, `Reviews`, `Dispatching`, `Resolution`, `Releases`, `Evaluations`,
`Authority`, `HandoffText` and `MonitorLogs`.

## Where the code and its promises differ

- After T04-R3 is accepted, by a step or by recovery, the run is over in every pack that has the
  reviewer pair: the reviewer state stays `reports_complete`, which validation rejects, or further
  reviewers are due, which are never run; `scripts/codex-v2-supervisor.README.md:98-104` says `run` may
  continue. The model follows the code (`FinalReview.AfterFinalReview`, `DeadEnds.DeadForever`). A pack
  without the pair starts T04-R3 in an efficient group, without reports, and goes on after it
  (`FinalReview.ReviewedExactly`, `FinalReview.StartsUnreviewed`).
- `validate`, `status` and `step` write a recovered boundary before they validate it, so a failing
  command can have moved completed prompt, commit and next prompt over more than a validated group
  prefix. It does so if and only if reconciliation accepts a boundary and the validation or the step
  after it fails (`Commands.FailingCommand`, `FinalReview.RecoveredReviewFails`, `Witness.DeadEndReached`).
- A child stopped for something only the running step sees (time limit, interrupt, staging, a secret
  that is redacted on disk) is refused by the step, but accepted by recovery after a crash before the
  refusal is written, when it exited with 0 and the files pass (`Refused`).
- A failed reviewer pair leaves the reviewer state `running` and is never launched again
  (`DeadEnds.FailedPairIsDead`); a pair that merely crashed is (`DeadEnds.CrashedPairIsRetried`).
- Reviewers other than T04-R1 and T04-R2 are never run, nor are these without a stored T04-K handoff;
  T04-R3 due without reports starts only in a group (`DeadEnds.DeadEnd`). With T04-R3
  accepted, a failed pair, a progress record left behind and the end of the order this is the whole
  list: any other validated position short of late and gated prompts can start something (`DeadEnds.StartsExactly`), provided
  the prompt text is free of secrets. That text is made from the pack and from stored handoffs and
  reports only, so a secret in it stops every retry.
- The last prompt of an interrupted group, recovered on its own, leaves the group's progress record
  behind, which no later validation accepts (`Progress.SoloLeavesStale`, `DeadEnds.RecoveredSuffixIsDead`,
  `Witness.DeadEndReached`); it no longer adds up to the group (`Progress.GroupProgressIsSuffix`).
- After the last prompt of the order the next prompt is `STOP`, which validation rejects, so a
  finished run ends in an error (`DeadEnds.DeadEnd`).
- A consolidated group's commit is not required to have the old HEAD as a parent. History is exactly
  the accepted commits if and only if each one kept it as a parent, and a first-parent chain if and
  only if each one kept it as the first (`Ledger.HistoryIsLedger`, `Ledger.FirstParentLine`,
  `Runs.ConsolidatedCanDropHistory`).
- A group reduced to one prompt is recovered as that single prompt: under the prompt's own subject and
  without recorded progress only (`Recovery.OneLeftConfluence`, `Recovery.OneLeftNeedsOwnSubject`).
- A deploy compares a "new" path with the deployed one only, so a path left earlier can be selected
  again as new (`Cutover.ReusedExactly`). The boot boundary then refuses to start on it, but a second
  release of v2 there as existing is accepted and does open it (`FreshBoundary.V2OpensExactly`,
  `FreshBoundary.RetainedReopened`).
- A first boot of a new path that ends between creating the store and completing the marker can never
  be repeated as new, while `src/db/fresh-boundary.ts:15-16` says restarts boot normally
  (`FreshBoundary.FirstBootRestarts`, `FreshBoundary.CutFirstBootIsFinal`).
- A deploy that introduces the disposition passes the coverage check but can never report a full
  restoration (`DeployRuns.RestoredExactly`).
- The checker of write-safety reports takes the `passed` status from the report: with the status
  overwritten, a report full of violations is releasable (`WriteSafety.ForgedStatusPasses`).

## Model

| member | source | states |
|---|---|---|
| PromptPack.ResolvePromptGroups | scripts/codex-v2-supervisor.py:402-468 | the loop over the configured ranges with its growing set of claimed prompts gives the groups, or the error, of the first failing range |
| PromptPack.ResolveSound | scripts/codex-v2-supervisor.py:402-468 | whatever the ranges, resolved groups are pairwise disjoint runs of consecutive single prompts, each of one numbered task, without gates or reviewers |
| PromptPack.SelectIgnoresOrder | scripts/codex-v2-supervisor.py:471-483 | selection gives the same rest of a group for every order of the groups |
| PromptPack.SelectFinds | scripts/codex-v2-supervisor.py:471-483 | a prompt of a group selects that group from the prompt on |
| Resolution.ResolvedExactly | scripts/codex-v2-supervisor.py:402-468 | resolution gives exactly the configured groups: one per range, its whole run from start to end, under its own subject, pairwise disjoint |
| Resolution.ResolvesExactly | scripts/codex-v2-supervisor.py:402-468 | it succeeds if and only if both ends of every range are known and ordered, every range is single ungated prompts of one task, of several none of the highest effort, and no two overlap |
| Resolution.ConfiguredEnds | scripts/codex-v2-supervisor.py:402-468 | a resolved group starts and ends where its range does, under its subject |
| Resolution.CheckTruly | scripts/codex-v2-supervisor.py:402-468 | an error about a range names something that is wrong with it |
| History.ChildEntry | scripts/codex-v2-supervisor.py:3625-3678 | an accepted child has added exactly one commit, a direct child of the old HEAD with the prompt's subject |
| History.GroupEntries | scripts/codex-v2-supervisor.py:3391-3568 | an accepted group without a consolidated subject has added one commit per prompt, in prompt order, each the first child of the one before, and nothing else |
| History.ConsolidatedEntry | scripts/codex-v2-supervisor.py:3391-3568 | an accepted consolidated group has added exactly its one commit with the configured subject |
| Acceptance.DeliveredExactly | scripts/codex-v2-supervisor.py:3625-3733 | a child is accepted if and only if it returned one handoff, complete, of this prompt, reporting HEAD under the exact subject, HEAD is one new commit on the old one, what follows is announced in handoff and guidance, and at most FINDINGS.md is dirty |
| Acceptance.SoloAccepted | scripts/codex-v2-supervisor.py:2830-2969 | a step accepts a single prompt exactly then; it stores that handoff under the prompt, and position, next prompt, review and finish are as stated; nothing else changes |
| Acceptance.SoloBlocked | scripts/codex-v2-supervisor.py:2919-2946 | a started prompt that is not accepted is blocked as it stands, with nothing stored |
| Acceptance.RecoveredAccepted | scripts/codex-v2-supervisor.py:2606-2681 | recovery accepts the same deliveries read from the files, and stores the same |
| GroupAcceptance.GroupExactly | scripts/codex-v2-supervisor.py:3391-3623 | a group is accepted if and only if every prompt has its own complete handoff announcing the next, with its own commit in order or the one shared commit reported last |
| GroupAcceptance.GroupAccepted | scripts/codex-v2-supervisor.py:2971-3129 | a step accepts a group exactly then, stores each handoff under its own prompt, and ends at the last |
| GroupAcceptance.RecoveredGroupAccepted | scripts/codex-v2-supervisor.py:2516-2605 | recovery of a group accepts the same deliveries and stores the same |
| GroupAcceptance.CheckpointExactly | scripts/codex-v2-supervisor.py:3151-3159 | a prompt's checkpoint is its last message that is exactly one handoff of it |
| GroupAcceptance.KeptPrefix | scripts/codex-v2-supervisor.py:3131-3254 | a committed prefix is kept for exactly the longest run of completed last messages with one commit each; handoffs, position and progress are then as stated |
| GroupAcceptance.NothingKept | scripts/codex-v2-supervisor.py:3131-3254 | otherwise the run is blocked as it stands |
| Reviews.PairAccepted | scripts/codex-v2-supervisor.py:3885-4061 | the pair is accepted exactly when due and both reviewers end well on the unmoved commit; each report is filed under its own reviewer, no other changes, and T04-R3 is given both in order |
| Reviews.PairBlocked | scripts/codex-v2-supervisor.py:4003-4033 | a started pair that is not accepted is blocked, still marked as being reviewed |
| Reviews.PairRecoveredExactly | scripts/codex-v2-supervisor.py:2684-2761 | recovery of a crashed pair files both reports from the files, or makes the pair due again, or writes nothing, each exactly when stated |
| Reviews.FinalScope | scripts/codex-v2-supervisor.py:3863-3883 | T04-R3 is given the two complete reports of the reviewed commit, the first reviewer first, and nothing else passes for them |
| Reviews.FiledForGood | scripts/codex-v2-supervisor.py:2456-4061 | once both reports are filed no run ever changes any report |
| Dispatching.SoloOrder | scripts/codex-v2-supervisor.py:2830-2969 | a child is started after one write that names it and its HEAD; its handoff is stored before the state |
| Dispatching.GroupOrder | scripts/codex-v2-supervisor.py:2971-3129 | the same for a group, each handoff in a write of its own |
| Dispatching.PairOrder | scripts/codex-v2-supervisor.py:3885-4061 | the same for the pair: first report, second report, state |
| Dispatching.GroupRefusedOrder | scripts/codex-v2-supervisor.py:3060-3092 | a group that is not accepted goes on to its committed prefix or is blocked |
| Dispatching.PrefixOrder | scripts/codex-v2-supervisor.py:3209-3254 | a kept prefix is stored handoff by handoff before the state |
| Dispatching.SoloRecoveryOrder | scripts/codex-v2-supervisor.py:2606-2681 | recovery of a prompt stores the handoff, then the state, or writes nothing |
| Dispatching.GroupRecoveryOrder | scripts/codex-v2-supervisor.py:2516-2605 | recovery of a group stores handoff by handoff, goes on to a committed prefix, or writes nothing |
| Dispatching.DispatchExactly | scripts/codex-v2-supervisor.py:2802-2843 | which prompts stop the run, run as the pair, with the rest of their group, or alone, and which fail without a write |
| Dispatching.ReconcileExactly | scripts/codex-v2-supervisor.py:2485-2516 | which interrupted runs are taken up, as what, and which are left alone or blocked for a retry |
| Dispatching.ValidateExactly | scripts/codex-v2-supervisor.py:2763-2770 | a command passes validation exactly in the stated positions, and a failing one keeps what reconciliation wrote |
| Dispatching.StepExactly | scripts/codex-v2-supervisor.py:2798-2802 | a step goes on only from a validated position, after what reconciliation wrote |
| Ledger.KeptExactly | scripts/codex-v2-supervisor.py:3408-3426 | an accepted commit still has the previous boundary in its history if and only if that is one of its parents |
| Ledger.HistoryIsLedger | scripts/codex-v2-supervisor.py:3391-3678 | history past the adopted commit is the accepted commits, all different, and nothing else, if and only if every consolidated commit kept the boundary before it as a parent |
| Ledger.FirstParentLine | scripts/codex-v2-supervisor.py:3391-3678 | the first-parent line back from the last accepted commit is the accepted commits in order, down to the adopted one, if and only if every consolidated commit has the boundary before it as first parent |
| Ledger.AccountedStable | scripts/codex-v2-supervisor.py:3256-3305 | a recorded history stays recorded whatever commits are added later |
| Runs.AdoptInv | scripts/codex-v2-supervisor.py:2395-2454 | adoption establishes the invariant |
| Runs.RunInv | scripts/codex-v2-supervisor.py:2456-4061 | the invariant holds in every world reachable by commands, crashes between any two writes, signals and outside changes |
| Runs.EveryRunAccounted | scripts/codex-v2-supervisor.py:2456-4061 | after any run the stored position ends a ledger of accepted boundaries that completes exactly the writable prompts since adoption, in order, and the stored handoff of the last one is complete and reports the stored commit under its subject |
| Runs.EveryRunIsAChain | scripts/codex-v2-supervisor.py:2456-4061 | after any run both equivalences hold for its ledger, and without consolidated groups history is exactly one commit per prompt |
| Runs.ConsolidatedCanDropHistory | scripts/codex-v2-supervisor.py:3408-3562 | a repository in which an accepted consolidated commit has lost the commit the run stood at |
| History.DispatchInv | scripts/codex-v2-supervisor.py:2798-2969 | every write of a step keeps the invariant, for arbitrary children and reviewers |
| History.ReconcileInv | scripts/codex-v2-supervisor.py:2485-2761 | every write of a reconciliation keeps the invariant |
| Progress.GroupProgressIsSuffix | scripts/codex-v2-supervisor.py:3131-3254 | after any run with a progress record, completed prompts followed by the selected rest are a suffix of the configured group if and only if the position is short of the group's last prompt, and then the whole of it exactly when it was entered at its first prompt |
| Progress.PrefixProgress | scripts/codex-v2-supervisor.py:3216-3253 | a recovered prefix extends the recorded progress of its own group |
| Progress.StaleIsRejected | scripts/codex-v2-supervisor.py:3307-3328 | a record left behind fails the guidance check in every world |
| Progress.SoloLeavesStale | scripts/codex-v2-supervisor.py:2613-2681 | single-prompt recovery of a group's last prompt leaves the progress record behind |
| Progress.StaleNoSuffix | scripts/codex-v2-supervisor.py:2613-2681 | a record left behind is at the group's last prompt and adds up to no suffix of the group |
| Recovery.SoloConfluence | scripts/codex-v2-supervisor.py:2932-2969 | reconciling after a crash past the child's exit gives exactly the uninterrupted outcome, under the efficient profile if and only if no progress was recorded |
| Recovery.GroupConfluence | scripts/codex-v2-supervisor.py:2516-2605 | for a group of several prompts the same, however many handoffs were already written |
| Recovery.OneLeftRecovered | scripts/codex-v2-supervisor.py:2606-2681 | recovery of a group of one prompt is single-prompt recovery: it succeeds exactly when receipt, log and response are usable and the boundary passes as that prompt's own, and otherwise raises without writing |
| Recovery.OneLeftConfluence | scripts/codex-v2-supervisor.py:2516-2520 | for a group of one prompt with durable success, recovery gives the uninterrupted outcome if and only if the boundary passes as that prompt's own, with readable reports for T04-R3, and no group progress was recorded |
| Recovery.OneLeftNeedsOwnSubject | scripts/codex-v2-supervisor.py:2516-2520 | a group of one prompt with a different consolidated subject is never recovered |
| Recovery.PairConfluence | scripts/codex-v2-supervisor.py:2684-2761 | for the reviewer pair the same, at any point after the reviewers exited |
| Refused.SoloRefused | scripts/codex-v2-supervisor.py:1885-1905 | a single prompt's child is refused by the step and accepted by recovery if and only if it was stopped for something seen live while exit status, log and text on disk pass at a new commit |
| Refused.GroupRefused | scripts/codex-v2-supervisor.py:2516-2605 | the same for a group of several prompts |
| Refused.OneLeftRefused | scripts/codex-v2-supervisor.py:2606-2681 | for a group of one prompt also where only the group's validation refused it |
| Refused.PairRefused | scripts/codex-v2-supervisor.py:2684-2761 | the same for the reviewer pair, a secret in a report included |
| DeadEnds.DeadForever | scripts/codex-v2-supervisor.py:3256-3328 | from a dead end no run leads out, the position stays, and no step starts anything |
| DeadEnds.DeadEffect | scripts/codex-v2-supervisor.py:2763-2814 | at a dead end a command launches nothing and keeps the position, and where validation refuses it fails without writing |
| DeadEnds.StartsExactly | scripts/codex-v2-supervisor.py:2798-2969 | a validated position short of late and gated prompts can start something, for some behaviour of the outside with prompt texts that pass, if and only if it is none of the listed dead ends (and, without groups, T04-R3 has its reports); with texts that do not pass it never does |
| DeadEnds.EveryStopIsListed | scripts/codex-v2-supervisor.py:2456-4061 | after any run such a position is a listed dead end or can go on |
| DeadEnds.FailedPairIsDead | scripts/codex-v2-supervisor.py:4003-4061 | a running reviewer pair ends in a dead end exactly when it fails |
| DeadEnds.CrashedPairIsRetried | scripts/codex-v2-supervisor.py:2746-2761 | a pair that crashed before its failure was recorded is not a dead end |
| DeadEnds.RecoveredSuffixIsDead | scripts/codex-v2-supervisor.py:2613-2681 | before the review, recovering a single prompt is a dead end exactly when group progress was recorded or what follows the prompt cannot be started |
| FinalReview.AfterFinalReview | scripts/codex-v2-supervisor.py:2946-2969 | once a step accepts T04-R3, alone, in a group or in a group prefix, the run is over if the pack has the reviewer pair, and otherwise exactly when no single prompt follows |
| FinalReview.AfterRecoveredFinalReview | scripts/codex-v2-supervisor.py:2606-2681 | the same when recovery accepts it |
| FinalReview.RecoveredReviewFails | scripts/codex-v2-supervisor.py:2763-2801 | with the pair and no reviewers following, every command that recovers T04-R3 fails with the position moved |
| FinalReview.ReviewedExactly | scripts/codex-v2-supervisor.py:2798-2843 | a child that runs T04-R3 has reports bound to HEAD if and only if the pack has the pair |
| FinalReview.StartsUnreviewed | scripts/codex-v2-supervisor.py:2971-3092 | without the pair an efficient group does start T04-R3, with the reports not complete |
| Witness.DeadEndReached | scripts/codex-v2-supervisor.py:2456-4061 | three commands from adoption, one of them cut, reach a dead end: the last fails with the position moved, and the progress record adds up to no suffix |
| Evidence.RunOnDisk | scripts/codex-v2-supervisor.py:3863-3907 | after any run a running reviewer pair has the T04-K handoff stored, and complete reports are both on disk |
| Launching.EveryLaunchIsSafe | scripts/codex-v2-supervisor.py:2798-2843 | after any run a step starts at most one child or reviewer pair, at the stored commit, in a clean worktree, for what follows the completed prompt, when that is neither late nor gated; in a pack with the reviewer pair, T04-R3 only with reports bound to HEAD |
| Launching.SoloR3NeedsFiles | scripts/codex-v2-supervisor.py:3863-3883 | on its own T04-R3 starts only with both report files readable |
| Launching.GroupUngated | scripts/codex-v2-supervisor.py:402-468 | no prompt of a started group is late or gated |
| Failing.DispatchFails | scripts/codex-v2-supervisor.py:2802-2969 | once the stored state is validated, a failing step keeps completed prompt, commit, next prompt and progress, or moves them over a validated group prefix; a step moves them only in its last write |
| Failing.ReconcileFails | scripts/codex-v2-supervisor.py:2485-2682 | the same for reconciliation by itself |
| Commands.FailingCommand | scripts/codex-v2-supervisor.py:2763-2814 | a whole command: unless reconciliation accepts a boundary, it moves them only in its last write, and failing only over a validated group prefix; a failing command leaves anything else behind if and only if reconciliation accepts a boundary and the validation or dispatch after it fails |
| Commands.EveryFailure | scripts/codex-v2-supervisor.py:2456-4061 | that equivalence after any run |
| Commands.SettledCommand | scripts/codex-v2-supervisor.py:2763-2814 | with nothing running or reviewing, every command is of the first kind |
| Advance.DispatchMoves | scripts/codex-v2-supervisor.py:2798-2969 | a successful step ends at the review or moves strictly forward in the order |
| Advance.StepStarts | scripts/codex-v2-supervisor.py:2772-2796 | a step short of the stop boundary starts at most one child, and respects the boundary |
| Machine.Supervisor.WriteHandoffs | scripts/codex-v2-supervisor.py:3103-3108 | the handoff files are written one by one, each write durable |
| Machine.Supervisor.CompleteAt | scripts/codex-v2-supervisor.py:2949-2968 | the state an accepted prompt or group leaves |
| Machine.Supervisor.RecordCompletedGroup | scripts/codex-v2-supervisor.py:3094-3129 | passes through all handoffs, then the completed state |
| Machine.Supervisor.ValidateGroupItem | scripts/codex-v2-supervisor.py:3437-3562 | accepts exactly the prompts whose handoff, commit, subject and parent fit |
| Machine.Supervisor.ValidateCompletedGroup | scripts/codex-v2-supervisor.py:3391-3623 | the loop over prompts, commits and handoffs accepts exactly the valid groups |
| Machine.Supervisor.CollectCheckpoints | scripts/codex-v2-supervisor.py:3151-3159 | the dictionary holds the last checkpoint message of each prompt |
| Machine.Supervisor.CheckpointPrefix | scripts/codex-v2-supervisor.py:3160-3167 | finds the longest run of completed checkpoints short of the last prompt |
| Machine.Supervisor.ReconcileOrBlockGroup | scripts/codex-v2-supervisor.py:3131-3254 | blocks, or records exactly a validated committed prefix; it always fails |
| Machine.Supervisor.LoadState | scripts/codex-v2-supervisor.py:2456-2682 | reconciliation passes through exactly the modelled worlds |
| Machine.Supervisor.RecoverGroup | scripts/codex-v2-supervisor.py:2516-2605 | recovery of an interrupted group |
| Machine.Supervisor.RecoverChild | scripts/codex-v2-supervisor.py:2606-2681 | recovery of an interrupted single prompt |
| Machine.Supervisor.ReconcileReviewerPair | scripts/codex-v2-supervisor.py:2684-2761 | recovery of an interrupted reviewer pair |
| Machine.Supervisor.RunSinglePrompt | scripts/codex-v2-supervisor.py:2830-2969 | one prompt, from the running write to acceptance or block |
| Machine.Supervisor.RunPromptGroup | scripts/codex-v2-supervisor.py:2971-3092 | one group, from the running write to acceptance, prefix or block |
| Machine.Supervisor.RunReviewerPair | scripts/codex-v2-supervisor.py:3885-4061 | both reviewers on one immutable commit |
| Machine.Supervisor.StepOnce | scripts/codex-v2-supervisor.py:2798-2969 | a step passes through exactly the modelled worlds and launches |
| Machine.Supervisor.RunUntil | scripts/codex-v2-supervisor.py:2772-2796 | always ends, launches at most one child per order item, none at the stop prompt or beyond late and gated prompts, and returns only at the review or the boundary |
| Handoffs.ParseHandoff | scripts/codex-v2-supervisor.py:515-580 | the line loop with its open field gathers the fields that the declarative reading gives |
| Handoffs.ParsePrinted | scripts/codex-v2-supervisor.py:515-580 | parsing a printed handoff gives it back |
| Handoffs.AcceptedIsPrintable | scripts/codex-v2-supervisor.py:528-545 | every accepted response, however wrapped, has a canonical form that parses to the same handoff, a text exactly when no field was left empty on its own line |
| Handoffs.GroupExactly | scripts/codex-v2-supervisor.py:583-609 | the text of k handoffs is read back as those k, and refused for any missing, repeated or reordered prompt |
| HandoffText.ParsedExactly | scripts/codex-v2-supervisor.py:515-580 | exactly these lines are a handoff, and as exactly this block: one marker after blanks, thirteen fields in any order, each once and not empty, each value followed by its continuation lines |
| HandoffText.ParseTruly | scripts/codex-v2-supervisor.py:515-580 | what a refusal says of the text is so |
| HandoffText.GroupReadExactly | scripts/codex-v2-supervisor.py:583-609 | exactly these lines are a group response: blanks, then one handoff for each expected prompt, in order |
| GitStatus.GitStatusEntries | scripts/codex-v2-supervisor.py:1443-1468 | the index loop stays in bounds and reads what the declarative reading gives |
| GitStatus.RoundTrip | scripts/codex-v2-supervisor.py:1443-1468 | reading the printing of any list of status records gives exactly their entries, in order |
| GitStatus.TruncatedMove | scripts/codex-v2-supervisor.py:1462-1464 | a rename or copy without its second path is refused after any prefix |
| GitStatus.ReadExactly | scripts/codex-v2-supervisor.py:1443-1468 | exactly these outputs are read: records of two letters and a path, a second path for renames and copies, with empty pieces anywhere between |
| Deploy.Railway.SetBatch | scripts/deploy-private-production.ts:284-288 | a failed batch leaves any subset of the values applied |
| Deploy.Railway.RollbackVariables | scripts/deploy-private-production.ts:189-212 | tries key after key, collecting the unconfirmed ones |
| Deploy.Railway.ReadSnapshot | scripts/deploy-private-production.ts:56-69 | the snapshot is the store restricted to the rollback keys |
| Deploy.Railway.DeployPrivateProduction | scripts/deploy-private-production.ts:225-301 | store, calls and outcome are those of the transaction |
| DeployRuns.RestoreExact | scripts/deploy-private-production.ts:189-212 | every key with a snapshot value is tried once, failures are exactly the unconfirmed keys, the others hold their snapshot value, and nothing else changes |
| DeployRuns.DeployOutcomes | scripts/deploy-private-production.ts:275-300 | refused and restored leave the whole store as it was, released sets exactly the desired values, and otherwise every key outside the failure list has its old value |
| DeployRuns.RestoredExactly | scripts/deploy-private-production.ts:162-212 | a failed release is fully restored if and only if the disposition had a value before and every restoring call was confirmed |
| Releases.ReleasedExactly | scripts/deploy-private-production.ts:71-140 | a release happens exactly for a readable, well-formed, restorable request when every call succeeds; each of the nine variables then has its own requested value or is absent, and no other variable changes |
| Releases.RefusedExactly | scripts/deploy-private-production.ts:225-278 | a deploy is refused exactly without a passing preflight and an acceptable request, and then nothing is touched |
| Releases.RefusedTruly | scripts/deploy-private-production.ts:71-140 | what a refusal says of the request is so |
| Releases.FailedExactly | scripts/deploy-private-production.ts:275-301 | after a failed release exactly the keys without an earlier value or without a confirmed call are reported; what every key then holds, whatever subset the batch applied and whatever unconfirmed calls did |
| Cutover.PairMovesTogether | scripts/deploy-private-production.ts:95-122 | engine, path and disposition stay all old or become all as requested, the disposition says whether the path moved, and a step to v2 moves it unless the recorded exception is stated |
| Cutover.ReclaimedExactly | scripts/deploy-private-production.ts:95-122 | a release brings v2 onto a path another engine was selected on if and only if the request asks for such a path as new, or for the one in service as existing |
| Cutover.ReusedExactly | scripts/deploy-private-production.ts:95-122 | over any clean sequence, v2 is at some time selected on such a path if and only if some released request asked so |
| Cutover.AbandonedDatabaseReturns | scripts/deploy-private-production.ts:95-101 | such requests are accepted: from v1 on its database to v2 on a new one, back to the first as new, and then there again as existing |
| FreshBoundary.ConfigExactly | src/config.ts:135-152 | which variables make a configuration, and which: a path, and an engine and disposition that may be missing but nothing else |
| FreshBoundary.BoundaryExactly | src/db/fresh-boundary.ts:29-53 | a claimed path is a first boot exactly without data, and refused exactly with data and no readable marker |
| FreshBoundary.BootExactly | src/server.ts:490-506 | what a start leaves in its store, in its marker, and in every other file |
| FreshBoundary.RetainedStays | src/db/fresh-boundary.ts:29-53 | whatever is deployed and however each start ends, a database without a readable marker never gets one, so the claim that its path is new is refused at every later start |
| FreshBoundary.V2OpensExactly | src/server.ts:490-506 | over any clean deploys and any starts, v2 can open a retained database of another engine if and only if the last released request was for v2 there as existing |
| FreshBoundary.TwoReleasesNeeded | src/db/fresh-boundary.ts:3-19 | without the recorded exception that takes an earlier release too, which claimed the path as new |
| FreshBoundary.RetainedReopened | src/db/fresh-boundary.ts:3-19 | a sequence of three accepted releases after which v2 opens it, while no start after the second does |
| FreshBoundary.FirstBootRestarts | src/db/fresh-boundary.ts:12-16 | a first boot can be repeated unless it ended between creating the store and completing the marker, and found no readable marker there before |
| FreshBoundary.CutFirstBootIsFinal | src/server.ts:490-506 | after such an end no later start under the claim opens the store |
| Cutover.CollectRollbackVariables | scripts/cutover-transaction.ts:44-58 | collects every restorable value and every gap |
| Cutover.PlanAutomaticRollback | scripts/cutover-transaction.ts:112-118 | a plan exists exactly when no required key is missing, and restores the snapshot |
| Cutover.CoverageIffPlan | scripts/cutover-transaction.ts:112-118 | a plan exists if and only if the deploy's coverage check passes for every selection deployable onto that store |
| Cutover.PlanUndoesRelease | scripts/cutover-transaction.ts:104-118 | executing the plan made before a release brings that store back, except an introduced disposition |
| Cutover.SignedRollbackExactly | scripts/cutover-transaction.ts:172-195 | after a release the signed full rollback is available exactly when the release went to a new database |
| Releases.SignedExactly | scripts/cutover-transaction.ts:172-195 | after any release it is available exactly with a signature that is not blank, both optional model settings set before, and a new database |
| OrderedCohorts.Runner.StartWorkers | scripts/eval/ordered-cohorts.ts:12-21 | fresh result slots and counter, the first cases dispatched in order |
| OrderedCohorts.Runner.Settle | scripts/eval/ordered-cohorts.ts:14-20 | a settled run fills its slot and its worker takes the next case, stops, or is lost |
| OrderedCohorts.Runner.Barrier | scripts/eval/ordered-cohorts.ts:35-40 | results are appended and the next cohort starts only when all workers are done |
| OrderedCohorts.RunOrderedCohorts | scripts/eval/ordered-cohorts.ts:27-41 | refuses counts below one, otherwise starts the first cohort |
| CohortRuns.DispatchOrder | scripts/eval/ordered-cohorts.ts:7-41 | for every interleaving dispatches are a prefix of the canonical order, each at most once, and all of them on success |
| CohortRuns.Barrier | scripts/eval/ordered-cohorts.ts:25-40 | a case is dispatched only after every case of every earlier cohort resolved |
| CohortRuns.FailureIsFinal | scripts/eval/ordered-cohorts.ts:36-39 | after a rejection no later cohort is ever dispatched and no results are delivered |
| CohortRuns.ResultsInOrder | scripts/eval/ordered-cohorts.ts:35-40 | on success result (c-1)*n+i is what the run of case i in cohort c resolved with |
| CohortRuns.Conservation | scripts/eval/ordered-cohorts.ts:14-21 | settled runs plus runs in flight are the dispatched cases; never more than the limit or the cases in flight, never more than count*n settlings |
| CohortRuns.NoDeadlock | scripts/eval/ordered-cohorts.ts:14-21 | while the outcome is open a run is in flight; after a rejection the rest of the cohort is still dispatched unless every worker was lost |
| CohortRuns.NoneIdle | scripts/eval/ordered-cohorts.ts:12-21 | while cases of a cohort are left and none failed, exactly min(limit, n) are in flight |
| CohortRuns.NoCases | scripts/eval/ordered-cohorts.ts:27-41 | without cases every cohort is over at once |
| DiscoveryPolicy.DiscoveryPolicyViolations | scripts/eval-v2/api-discovery-policy.ts:55-134 | reports exactly the faults of the cases, of each attempt and of the grid, and nothing if and only if the attempts are a permutation of the full grid over 120 distinct cases, codes are consistent, and every cell meets its floor |
| DiscoveryPolicy.CheckCases | scripts/eval-v2/api-discovery-policy.ts:59-68 | reports exactly repeated cases, no cases, or the wrong number of different ones |
| DiscoveryPolicy.FillSlots | scripts/eval-v2/api-discovery-policy.ts:70-107 | the slots hold the first attempt of every known slot; exactly what each attempt is blamed for is reported |
| DiscoveryPolicy.CheckCell | scripts/eval-v2/api-discovery-policy.ts:111-129 | reports exactly the missing repeats of a cell, or that a complete one is below its floor |
| DiscoveryPolicy.SlotKeyInjective | scripts/eval-v2/api-discovery-policy.ts:84 | slot keys tell slots apart even when case ids contain the separator |
| DiscoveryPolicy.AcceptsPermuted | scripts/eval-v2/api-discovery-policy.ts:70-107 | acceptance does not depend on the order of the attempts |
| DiscoveryPolicy.AcceptedTotals | scripts/eval-v2/api-discovery-policy.ts:14-23 | acceptance means nine attempts per case and at least seven of nine passed overall |
| Evaluations.AcceptsExactly | scripts/eval-v2/api-discovery-policy.ts:14-134 | the policy accepts exactly 120 cases attempted three times in each of three cohorts, codes in order, every canonical attempt passed, and of three paraphrases or typos at most one failed |
| EvalReport.CohortScores | scripts/eval-v2/report.ts:201-218 | the tally map, updated attempt by attempt, gives each cohort's exact counts and failed cases |
| EvalReport.ScoresConserve | scripts/eval-v2/report.ts:201-218 | cohort numerators and denominators sum to the passes and the attempts |
| Evaluations.FailuresExactly | scripts/eval-v2/report.ts:349-356 | the failures are the failed attempts in their order, each under its own case, cohort, repeat and code |
| Evaluations.ScoresExactly | scripts/eval-v2/report.ts:201-218 | each score counts the attempts and passes of its own cohort and names the cases that failed there |
| Evaluations.BuiltExactly | scripts/eval-v2/report.ts:336-391 | every field of a built report, its status included, and when none is built |
| Evaluations.ReleasableExactly | scripts/eval-v2/report.ts:425-459 | the checker accepts exactly the reports, of any kind and origin, that are marked passed and whose counts, cases, failures and scores are those of their own evidence, which meets policy or matrix |
| EvalReport.BuilderAgreesWithChecker | scripts/eval-v2/report.ts:336-454 | a built discovery report is releasable if and only if the builder marked it passed |
| EvalReport.AcceptedReportIsExact | scripts/eval-v2/report.ts:425-454 | every accepted discovery report, however made, has the exact grid, numerator plus failures equal to the attempts, and cohort sums equal to the totals |
| EvalReport.AcceptedReportIsBuilt | scripts/eval-v2/report.ts:425-454 | every accepted discovery report is the one the builder makes from its evidence, up to the order of scored cases |
| WriteSafety.ValidateObservationGrid | scripts/eval-write-safety.ts:66-90 | accepts exactly the permutations of the writes x invariants matrix; otherwise names exactly the unknown pairs, else exactly the repeated, else exactly the missing ones |
| WriteSafety.AttemptsFromObservations | scripts/eval-write-safety.ts:93-115 | one attempt per pair of the matrix, in matrix order, saying what was observed |
| WriteSafety.AttemptsIgnoreOrder | scripts/eval-write-safety.ts:93-115 | the attempts do not depend on the order of the observations |
| WriteSafety.WriteReportExactly | scripts/eval-write-safety.ts:117-170 | a report built from observations is releasable exactly when there are writes and all observations are satisfied, and then every authority count is zero |
| Authority.CountsExactly | scripts/eval-write-safety.ts:155-170 | each authority count is the number of attempts that failed in its own cohort or with its own code, and only previews were seen if and only if no binding mismatched |
| Authority.ObservedCounts | scripts/eval-write-safety.ts:93-170 | for a valid grid the counts are those of the observed violations |
| Authority.CleanExactly | scripts/eval-write-safety.ts:155-170 | the counts are clean if and only if no violation that one of them shows was observed |
| WriteSafety.AcceptedWriteReport | scripts/eval-v2/report.ts:303-329 | any accepted write-safety report has the exact matrix and its own numbers; its attempts all passed exactly when numerator equals denominator |
| WriteSafety.ForgedStatusPasses | scripts/eval-v2/report.ts:303-329 | with the status field overwritten, any report of a nonempty matrix is accepted, whatever was violated |
| Audit.VisitsExactly | scripts/dependency-gates/audit.ts:193-214 | visiting every package succeeds if and only if references are closed and acyclic and every severity is the maximum over all reachable advisories |
| Audit.VisitedReaches | scripts/dependency-gates/audit.ts:193-214 | a visit collects exactly the reachable advisories |
| Audit.CollectAdvisories | scripts/dependency-gates/audit.ts:190-228 | returns exactly on consistent graphs, with every direct advisory once, strictly sorted by package and id; a failure names a fault the graph has |
| Audit.Merge | scripts/dependency-gates/audit.ts:217-224 | keeps one record per advisory and package and refuses a different second one |
| Audit.KeyExactly | scripts/dependency-gates/audit.ts:217-224 | keys tell advisories apart that have no NUL in their ids |
| Audit.InspectProductionAudit | scripts/dependency-gates/audit.ts:230-255 | passes exactly when every high or critical advisory is allowlisted; blocking findings are exactly the others |
| Audit.PassMeansExcused | scripts/dependency-gates/audit.ts:230-255 | with a pass every high or critical package reaches an allowlisted advisory of that severity |
| License.Tree.VisitDependencies | scripts/dependency-gates/license.ts:110-138 | success installs everything at any depth and nothing else; failure means an invalid edge or two licenses for one package |
| License.InspectProductionLicenses | scripts/dependency-gates/license.ts:171-212 | reports exactly the packages of the tree, strictly sorted by name and version, with counts that add up; throws exactly on ill-formed trees |
| License.PassExactly | scripts/dependency-gates/license.ts:171-212 | the gate passes if and only if every package at any depth is excused or every way to satisfy its license is permitted |
| License.AllowedExactly | scripts/dependency-gates/license.ts:146-169 | a license is allowed exactly when every resolution of its expression uses permitted identifiers only |
| License.JudgedExactly | scripts/dependency-gates/license.ts:146-212 | every package is reported under its own name with exactly the status that describes it: a reference is unknown even beside a forbidden license, an exception excuses only what is not allowed anyway |
| License.TallyExactly | scripts/dependency-gates/license.ts:171-212 | the three counts are those of the entries with each status |
| License.AlternativesDoNotHelp | scripts/dependency-gates/license.ts:151-169 | an acceptable alternative does not unblock an expression |
| Monitors.RetentionMonitor.SweepDone | src/retention-alerts.ts:58-67 | keeps the log equal to a function of the whole trace |
| Monitors.RetentionMonitor.SweepThrew | src/retention-alerts.ts:68-74 | the same for a failed sweep |
| Monitors.OneLinePerStreak | src/retention-alerts.ts:68-74 | repeated-failure lines are as many as maximal failure streaks reaching the threshold |
| Monitors.BacklogAlternates | src/retention-alerts.ts:58-67 | backlog lines alternate started and cleared, and the last one is what the latest successful sweep reported |
| MonitorLogs.LogExactly | src/retention-alerts.ts:58-74 | one line for every sweep that calls for one, in order: a backlog began or ended, or exactly as many sweeps in a row as the threshold have failed |
| Monitors.ReadinessMonitor.NotReady | src/readiness-alerts.ts:104-109 | answers whether the outcome is new, and logs exactly then |
| Monitors.ReadinessMonitor.Ready | src/readiness-alerts.ts:110-114 | closes an open alert once |
| Monitors.NoStutter | src/readiness-alerts.ts:97-116 | the readiness log never repeats itself, never starts with a recovery, and ends where the trace ends |
| MonitorLogs.ChangesExactly | src/readiness-alerts.ts:97-116 | the readiness log is exactly the outcomes that differ from the one before, in order |
| Monitors.PruneLoop.Prune | src/server.ts:344-349 | opens a sweep unless one is open |
| Monitors.PruneLoop.Settle | src/server.ts:349-367 | one report per sweep, and another round only after success with a backlog |
| Monitors.PruneLoop.Interleave | src/server.ts:340-370 | under every interleaving at most one sweep is in flight, each finished one has reported exactly once and is in the log, and a backlog just reported has a sweep or a continuation coming |

## Left out

- Subprocesses, threads, signals as such, sandbox profiles, file locks and fsync: only whether a durable write happened, exit codes and messages remain.
- The supervisor's scope heuristics, command audit and secret patterns: fixed unknown predicates of `Protocol.Policy`. The structured event log is what its audits and messages say of it.
- Git changes during a validation: outside changes happen between commands and while a child runs. Guidance files are read as the prompts they record and announce.
- The stored path, branch, hash and model comparisons (scripts/codex-v2-supervisor.py:3262-3290) are one flag of each command, looked at after reconciliation as in the program; the static setup is another, looked at before.
- `PromptPack.parse`: a pack is given parsed; `PromptPack.ValidPack` lists what parsing establishes, and that T04-R3 follows the reviewer pair, which the supervisor hard-codes.
- A pack or group configuration that changes during a run: the pack is fixed, and every configuration resolves to the same groups or not at all. `max`, audit and gate patterns are given as the prompts they match.
- Handoffs: regular expressions are applied line by line beforehand; lines arrive as marker, field, text or blank, and prompt, commit and next fields are read by fixed unknown functions. The supervisor's model takes responses as parsed handoffs.
- GitStatus.RoundTrip: characters stand for bytes; decoding is not modelled.
- The checks of a deploy before its snapshot (staging tree, source binding, rollback directory, CLI version, backup gate, a failing listing) are one flag. Deleting variables is not modelled, since the program never does.
- Cutover: preseed, quarantine and post-reinstall plans, and the SQL of the stale installation, are settled by reading one guard.
- OrderedCohorts: a worker's turn and the barrier that may follow are one step; non-integer counts are not modelled.
- DiscoveryPolicy: violation messages are structured values in a set; sorting and wording are not modelled, and repeats are integers.
- EvalReport: identity checks are one predicate, string order is a fixed sort, telemetry (which never affects status) and untyped report fields are not modelled. The missing-credential report is never accepted, by its status.
- FreshBoundary: starts of artifacts without the boundary check, starts between the calls of one deploy, and database files changed by anything but starts are not modelled; of a file only being empty, a database, or a text that parses counts.
- WriteSafety: evidence built after acceptance (candidate and catalog binding) is not modelled; keys are pairs instead of joined strings.
- Audit: JSON parsing, counters and the allowlist file's own checks; the text order is any strict total order.
- License: JSON parsing, exception expiry and the SPDX parser; keys are pairs instead of texts joined with NUL, the text order is any strict total order.
- Monitors: the prose log lines of the prune loop, and a log function that throws.
- Config loading, prompt text builders, CLI parsing, live evaluations, routing, HTML and media: no protocol to prove.
