# Acceptance protocol: model and proofs

kstrl lets coding agents build components of a feature and decides, without
trusting the agents, whether what they built may merge. This project models
that decision procedure in Dafny and proves what it promises.

- **A plan of checks is screened on the base.** Every check runs once on the
  base commit. A designed check that the base contradicts is removed, an
  operator's contradicted check refuses the run (`BaseScreening`).
- **Each head is judged** over `HEAD_RUNS` runs of the kept checks. A record is
  written, the engineer's disputes are read against it, and lines are shown to
  the engineer, to a person and on the terminal (`HeadRecord`, `Lines`,
  `JudgeHead`). `NonInterference` and `Phase3Secrecy` prove that none of them
  depends on a held-out check beyond its id, its exits and its verdict.
  `LineMeaning` says which lines each reader gets, and no others.
- **A record can be rechecked** by a second procedure (`Recheck`).
- **Checks of merged features are carried** in a ledger across runs (`Carried`,
  with the gate in `CarriedGate`, one run in `RunStep` and whole histories in
  `RunHistory`). `Collisions` says when sharing a key does harm.
- **Phase 3 merges the branches** tier by tier, runs every check on the merged
  tree and bisects a failure to one component (`Contract`, `Tiers`, with an
  instance in `BlameExample`).
- Underneath are the replay stage machine (`Replay`, and in `ReplayedSites` what
  each reader of its record makes of it), the content-addressed plan store
  (`PlanStore`, and in `PinnedRuns` what it means for every run, with an
  instance in `PinnedExample`), the validation of `plan.json` (`PlanFile`), the
  canaries that prove an isolation zone (`Isolation`) and the monitor of an
  engineer session (`SessionGate`).
- Three algorithms outside the package are modelled too: screen reachability
  and selector splitting (`WireFrames`), the README section splice (`Splice`)
  and JSON reply selection (`AgentOutput`).

The outside world appears as oracles. A replayed commit is a `Site`: the record
of its replay, whether its checks ran, and a function from (plan digest, check,
run number) to the stage it gave. A merged tree is the sequence of branches
merged onto the base; merging, setup and checks are functions of it. A digest
is a function of the file map, injective when the two hashes it uses have no
collisions. Objects that the program updates in place (the replay record, the
run dictionary, the ledger, the worktree, the control directory, the session
gate) are classes, and each of their methods is tied to a function of the old
state.

Properties that are false of the code as it stands are stated with the exact
condition under which they hold, and with an input at which they fail:

- Blame can name the wrong component. Manifests may give two components one
  branch name (kstrl/plan/manifest.py:503-521 refuses only a repeated id). A
  component that was not tested with its branch is tested on it from the next
  tier on, and if its check fails there the next tier's component is blamed.
  Blame is right on every machine and for every plan iff there is no such
  component (`BlameIsRightIff`, `StrayMisblames`, `MisblameHappens`).
- For the same reason the last tier's verdict and the one-shot verdict agree iff
  every component on an earlier tier's branch is tested (`FormsAgreeIff`,
  `FormsDisagree`, `DisagreementHappens`).
- The gate of the carried checks can open although a check fails. Ledger entries
  are keyed by twelve characters of their plan's digest, and an entry is judged
  by the last one with its key. On every base the gate opens iff every entry
  passes, iff each command the entries name is what some key is judged by
  (`GateIsExactIff`, `CollisionOpensTheGate`, `EntryJudgedRightlyIff`,
  `CollisionHappens`; for the merged commit `ReplayMergedIsExactIff`).
- For the same reason a visible check can print what a held-out check printed.
  Nothing held out is printed iff no visible check is judged by a held-out one
  (`HeldOutOutputHiddenIff`, `LeakHappens`).
- A retired check can come back. The inbox text of
  kstrl/pipeline/pipeline_inbox.py:54-57 says that no later run replays it, but
  carrying compares with the entries alone (`EntersIff`, `RetiredReturnsIff`,
  `RetiredReturnHappens`).
- Component and check ids are documented as letters, digits, '.', '_' and '-'
  without a ".lock" suffix. The pattern's final `$` lets a newline follow, which
  also hides the suffix. An accepted id obeys the rule iff it does not end in a
  newline (`AcceptedIdObeysIff`, `NewlineIdsAccepted`, `NewlineIdHappens`).
- The cap of `collect_agent_output` is documented in bytes and compared with
  characters. The two agree at every cap iff the stream is ASCII
  (`CapIsInBytesIff`, `OverlongIff`, `OverlongStreamIsReturned`).

Three more results are exact conditions that the code as it is meets:

- A report that itself started with the word "contained" would be read as
  contained; no text the canary program prints does (`StandsExactly`,
  `StandsIffHeld`).
- The two JSON reply paths agree on every input iff an empty text holds no JSON
  (`PathsAgreeIff`).
- Splicing is idempotent iff the generated text does not hold its own end marker
  (`SpliceIsIdempotentIff`, and a text that does in `GrowingSpliceHappens`).

`dafny verify dfyconfig.toml` checks the project.

## Model

| member | source | states |
|---|---|---|
| Checks.HeadVerdictMeaning | kstrl/acceptance/acceptance.py:194-210 | a head verdict in terms of exits alone: pass iff there were runs and all exited 0, fail iff one completed with another exit than 0, 126 and 127, not run iff neither; the three exclude each other |
| Checks.RunLog.Probe | kstrl/acceptance/acceptance.py:513-532 | the shared dictionary after a probe: each wanted check overwrites its key with its runs in order, and a replay that stopped early leaves it unchanged |
| Checks.LastWriter | kstrl/acceptance/acceptance.py:525-530 | the last wanted check with a given key, and none iff no wanted check has it |
| Checks.FilledIsLastWriter | kstrl/acceptance/acceptance.py:525-530 | under every key the dictionary holds the runs of the last check that wrote there, whatever the collisions |
| Checks.OwnRuns | kstrl/acceptance/acceptance.py:513-532 | when keys do not collide, every wanted check finds exactly its own runs, and none where nothing was probed |
| Checks.VerdictOfRuns | kstrl/acceptance/acceptance.py:204-210 | the runs of a check pass iff each of the `HEAD_RUNS` exited 0; no runs are never a pass |
| Collisions.JudgedByLast | kstrl/acceptance/acceptance.py:525-530 | a check is judged by the runs of the last wanted check with its key |
| Collisions.JudgedRightlyIff | kstrl/acceptance/acceptance.py:513-532 | on every commit everything wanted is judged to pass iff everything wanted passes, iff every wanted command is what some key is judged by |
| Collisions.HiddenFailurePasses | kstrl/acceptance/acceptance.py:525-530 | a command that no key is judged by can fail while everything is judged to pass |
| Collisions.ConsistentHidesNone | kstrl/acceptance/acceptance.py:525-530 | where no key stands for two commands none is hidden |
| BaseScreening.RemovedOnBase | kstrl/acceptance/acceptance_base.py:48-61 | the loop removes exactly the ids of the contradicted checks, judged against the whole component |
| BaseScreening.KeptOnBase | kstrl/acceptance/acceptance_base.py:25-45 | an operator's plan is kept whole, a designed one loses exactly the removed checks in order, and a component left with none is said to have no designed check and is in no kept plan |
| BaseScreening.PartErrors | kstrl/acceptance/acceptance.py:597-604 | a component's refusals are exactly its checks' objections; a check that did not run is excused only where the plan creates the application, and is then reported as missed |
| BaseScreening.BaseErrors | kstrl/acceptance/acceptance.py:586-604 | an unreplayed base gives one refusal; otherwise the refusals are exactly the objections of all kept checks, and the components not runnable are exactly those that missed a check |
| BaseScreening.ExitsOnBase | kstrl/acceptance/acceptance.py:562-577 | through the shared dictionary, every planned check of a valid plan gets the exit of its own one run |
| BaseScreening.ReplayBase | kstrl/acceptance/acceptance.py:544-583 | the reading holds the exits, the kept checks and what is said of each component; the run is refused iff the reading was not written or the base does not accept the plan |
| BaseScreening.ScreenedExactly | kstrl/acceptance/acceptance_base.py:64-82 | a designed check survives iff it promises to fail and did not exit 0, or promises to pass and did, or promises to pass in a component with no check that failed as promised |
| BaseScreening.HolderSurvives | kstrl/acceptance/acceptance_base.py:54-70 | the check that made its component hold is never removed itself |
| BaseScreening.LosesAllChecksIff | kstrl/acceptance/acceptance_base.py:36-45 | a component loses all its checks iff each promises to fail on the base and exited 0 there |
| BaseScreening.PartAcceptableIff | kstrl/acceptance/acceptance.py:597-621 | what is left of one component raises no objection iff the plan and the exits meet a condition that does not mention removal |
| BaseScreening.DesignedAcceptedIff | kstrl/acceptance/acceptance.py:586-621 | a designed plan is accepted iff the base was replayed and every component has no not-run failing check and holds or has only passing checks, with the weaker form for one that creates the application |
| BaseScreening.OperatorAcceptedIff | kstrl/acceptance/acceptance.py:586-621 | an operator's plan is accepted iff the base was replayed and each check did what it promised, or did not run where the application is created |
| BaseScreening.ScreenedTwice | kstrl/acceptance/acceptance_base.py:48-61 | screening what one component kept removes nothing more |
| BaseScreening.ScreeningIsIdempotent | kstrl/acceptance/acceptance_base.py:25-45 | the kept plan is valid, covered by the same exits, and screening it again returns it |
| BaseScreening.KeptIsValid | kstrl/acceptance/acceptance_base.py:36-45 | screening leaves non-empty check lists with distinct ids |
| BaseScreening.AcceptedBaseIsMeasured | kstrl/acceptance/acceptance.py:607-621 | on an accepted base every kept check of a component that does not create the application ran and did what it promised |
| BaseScreening.ObjectionSays | kstrl/acceptance/acceptance.py:597-621 | which objection a check raises, by its exit, its promise and whether its component creates the application |
| BaseScreening.RemovalSays | kstrl/acceptance/acceptance_base.py:64-82 | why a designed check is removed, by its exit and its promise |
| BaseScreening.StoppedBaseAcceptedOnlyForNewApps | kstrl/acceptance/acceptance.py:574-604 | a base replay that stopped before its checks removes nothing and is accepted iff it was replayed and every planned component creates the application |
| ReplayedSites.UnreplayedIff | kstrl/acceptance/replay.py:165-261 | the record of a finished probing replay reads as not replayed iff the commit did not resolve or was not checked out, the worktree survived, a zone was refused, or an unconfirmed stack would have run on the host; a setup or up that fails is not that |
| ReplayedSites.BaseAcceptsIff | kstrl/acceptance/acceptance.py:586-604 | a base accepts a plan iff none of that happened and no kept check objects |
| ReplayedSites.StoppedBaseStartsIff | kstrl/acceptance/acceptance.py:586-604 | a base whose checks did not run accepts a plan iff none of that happened and every component creates the application |
| ReplayedSites.GateSaysUnreplayedIff | kstrl/acceptance/acceptance_carried.py:275-301 | the gate of the carried checks says that it could not replay them iff one of those things happened, and then lets no check through |
| ReplayedSites.RecheckDidNotRunIff | kstrl/acceptance/recheck.py:98-108 | a recheck that could start says that the checks did not run iff one of those things happened |
| Replay.StopIsUnique | kstrl/acceptance/replay.py:273-310 | a script and the rule "stop at the first failure" leave one possible list of stages |
| Replay.Replay.Passed | kstrl/acceptance/replay.py:313-322 | the stage is appended; a failed one sets the failure, the detail (its name, command, exit and last lines) and the zone of the sandbox it ran in, a passed one changes none of them |
| Replay.Replay.OpeningStages | kstrl/acceptance/replay.py:278-300 | setup then up, stopping at the first failure; up is started iff setup passed or there is none |
| Replay.Replay.StackChecks | kstrl/acceptance/replay.py:304-307 | the stack's checks in order until one fails |
| Replay.Replay.StagesUntilFailure | kstrl/acceptance/replay.py:278-307 | the stages are the script cut at its first failure, and the probe runs in place of the checks iff setup and up passed |
| Replay.Replay.RunStages | kstrl/acceptance/replay.py:264-310 | a started up group is always stopped, whatever stage failed |
| Replay.Replay.ReplayInRungs | kstrl/acceptance/replay.py:224-261 | no stage runs when a zone is refused or an unconfirmed stack would run on the host, and the record says why |
| Replay.Replay.ReplayStack | kstrl/acceptance/replay.py:165-221 | the finished record against the recipe and the machine alone: which error if any, stages, failure, detail, probe, up group and worktree, each with an exact condition |
| Replay.RecordMeansSite | kstrl/acceptance/replay.py:224-322 | in every finished replay the checks ran only when nothing failed before them, and a record without failure and error means that they ran |
| Replay.CleanIff | kstrl/acceptance/replay.py:224-322 | a replay of the stack's own checks fails nowhere iff no zone was refused and every stage of the recipe exited 0 |
| Replay.FailureByExit | kstrl/acceptance/replay.py:329-396 | which failure a setup, an up or a check is, by its exit alone |
| Replay.FailedSetupStops | kstrl/acceptance/replay.py:278-322 | a setup that does not exit 0 is the only stage, its failure, output and sandbox are in the record, and nothing is started or probed |
| Replay.FailedUpStops | kstrl/acceptance/replay.py:278-322 | an up that is not ready is the last stage, is recorded in the same way, and its group is stopped |
| Replay.RefusedBoundarySays | kstrl/acceptance/replay.py:224-261 | a refused boundary runs no stage and lists the refusal of each zone and of an unconfirmed stack on the host |
| Replay.IsolationSays | kstrl/acceptance/replay.py:224-261 | the record says of each zone its refusal or its label |
| Replay.OpenedProbes | kstrl/acceptance/replay.py:278-310 | after a setup and an up that exit 0 a probing replay probes and has not failed |
| Replay.StopsAtFailingCheck | kstrl/acceptance/replay.py:304-322 | the last stage of a replay of the stack's checks is the first check that does not exit 0, not runnable iff it gave no exit, 126 or 127, and a contradiction of the base otherwise |
| HeadRecord.BuildRecord | kstrl/acceptance/acceptance_record.py:57-105 | one row per kept check with its own exits and their verdict, and the ids of the planned checks no head runs |
| HeadRecord.FailingInOrder | kstrl/acceptance/acceptance.py:729 | the failing ids stand in the order of their rows |
| HeadRecord.LastFailedTailIs | kstrl/acceptance/acceptance_record.py:115-138 | the output shown of a failing check is that of its last run that did not exit 0 |
| HeadRecord.VisibleFailuresExactly | kstrl/acceptance/acceptance_record.py:115-138 | what is shown of failures is exactly each visible failing check with its command and the output of its last run that did not exit 0; never a held-out one |
| HeadRecord.LatestEntry | kstrl/verify/verify.py:80-92 | the last heading starts the entry, and with no heading the entry is the whole log |
| HeadRecord.ReadDispute | kstrl/acceptance/acceptance_record.py:141-173 | the loop's answer equals a reading in which no line depends on what the loop took before |
| HeadRecord.TakenIds | kstrl/acceptance/acceptance_record.py:159-173 | the ids taken so far are the disputable ids some earlier line named |
| HeadRecord.RefusalIffNotTaken | kstrl/acceptance/acceptance_record.py:176-196 | a dispute line is refused iff it is malformed, names no visible failing check, or is not the first to name it |
| HeadRecord.RefusalSays | kstrl/acceptance/acceptance_record.py:176-196 | which reason a dispute line is refused for: malformed, no such check, held out, passed here, disputed earlier, in that order |
| HeadRecord.DisputesPartition | kstrl/acceptance/acceptance_record.py:162-173 | accepted and rejected lines together are as many as the dispute lines of the entry |
| HeadRecord.EveryDisputeIsAnswered | kstrl/acceptance/acceptance_record.py:162-173 | no dispute line is passed over: it is accepted, or a rejection carries its number |
| HeadRecord.RejectedWasNotTaken | kstrl/acceptance/acceptance_record.py:166-173 | a rejection names a dispute line of the entry that was not taken |
| HeadRecord.RejectionsInOrder | kstrl/acceptance/acceptance_record.py:166-173 | rejections name lines in increasing order, so none twice |
| HeadRecord.TakenCanBeShown | kstrl/acceptance/acceptance_record.py:141-196 | an accepted dispute is of a visible failing check, which has an entry among the visible failures |
| HeadRecord.TakenOnce | kstrl/acceptance/acceptance_record.py:141-196 | accepted ids are pairwise distinct |
| HeadRecord.DisputesAreOfTheLatestEntry | kstrl/acceptance/acceptance_record.py:141-173 | every dispute line from the last heading on is accepted or rejected by its number, and no rejection is of an earlier line |
| HeadRecord.AcceptedIsOfTheLatestEntry | kstrl/acceptance/acceptance_record.py:141-173 | every accepted dispute is a well-formed line from the last heading on |
| HeadRecord.NoReadingNoDispute | kstrl/acceptance/acceptance_record.py:141-160 | a missing log disputes nothing, and an unreadable one is the one rejection |
| Lines.Tell | kstrl/acceptance/acceptance_lines.py:105-122 | what a retry tells, line by line, with every lookup defined |
| Lines.Stop | kstrl/acceptance/acceptance_lines.py:125-143 | what a halt adds: each accepted dispute with its evidence, then for a designed plan that failed the failures nobody disputes |
| Lines.DisputeIsNamed | kstrl/acceptance/acceptance_lines.py:134-136 | each accepted dispute is named with its cause and its check's command |
| Lines.StopLinesInsideRender | kstrl/acceptance/acceptance_lines.py:65-90 | the stop lines are a contiguous part of what the terminal and the pull request show, and no command or output stands outside them |
| Lines.RenderShowsOnlyVisible | kstrl/acceptance/acceptance_lines.py:65-152 | every command and every line of output that is shown is that of a visible failure |
| LineMeaning.ShownRowSays | kstrl/acceptance/acceptance_lines.py:93-102 | what the line of a row says: id, held out or not, how many of its runs exited 0 or that it did not run, and its base exit |
| LineMeaning.ZerosCounts | kstrl/acceptance/acceptance_lines.py:93-102 | the runs it counts are those that exited 0 |
| LineMeaning.ToldExactly | kstrl/acceptance/acceptance_lines.py:105-122 | which lines a retry is told: where the replay stopped, each failing row, for a visible one its criterion, command and output, each rejected dispute, and nothing else |
| LineMeaning.StopExactly | kstrl/acceptance/acceptance_lines.py:125-143 | which lines a halt adds: each accepted dispute with its command and output, for a designed plan that failed each other visible failure, and nothing else |
| LineMeaning.RenderExactly | kstrl/acceptance/acceptance_lines.py:65-90 | which lines the terminal and the pull request show, and nothing else |
| LineMeaning.VisibleFailuresAreDistinct | kstrl/acceptance/acceptance_record.py:115-138 | no check is shown twice among the visible failures, so each lookup has one answer |
| JudgeHead.CoveringOverride | kstrl/owner/waivers.py:298-308 | an approval covers a head iff something fails and it was taken on that commit and names every failing check; the first such one is used |
| JudgeHead.Judge | kstrl/acceptance/acceptance.py:675-755 | no outcome iff the run has no plan, base reading or stack for the component; an unreadable head or unwritable evidence never passes, fails no check and shows nothing else; otherwise the answer whose every field the next rows state |
| JudgeHead.AnswerPassedIff | kstrl/acceptance/acceptance.py:709-743 | the answer passes iff the probe ran and every kept check exited 0 three times, or an approval taken on this commit names every kept check of which that is not so |
| JudgeHead.FailingIff | kstrl/acceptance/acceptance.py:729-750 | an id fails iff a kept check of that id did not exit 0 three times on a probed head, and is a failed held-out one iff such a held-out check gave an exit other than 0, 126 and 127 |
| JudgeHead.RowSays | kstrl/acceptance/acceptance_record.py:57-105 | each row of the record has the id, digest, base exit and own three exits of its check, and their verdict |
| JudgeHead.RecordSays | kstrl/acceptance/acceptance_record.py:57-105 | every other field of the record, by the plan, the base reading and the head it comes from |
| JudgeHead.AnswerSays | kstrl/acceptance/acceptance.py:735-755 | the checks, lines, isolation, told lines, disputes and stop lines of the answer; nothing is told where the recipe did not run |
| JudgeHead.FailureLinesExactly | kstrl/acceptance/acceptance.py:735 | the failures listed are the lines of the rows that did not pass |
| JudgeHead.LookupsAreDefined | kstrl/acceptance/acceptance_lines.py:105-143 | every lookup the renderers make in a head's document succeeds |
| JudgeHead.HaltNamesEveryDispute | kstrl/acceptance/acceptance_lines.py:155-173 | whatever its cause, a halt names every accepted dispute |
| JudgeHead.HaltPutsHeldOutFirst | kstrl/acceptance/acceptance_lines.py:155-173 | a halt's cause is the failed held-out checks, all of them, iff there is one; the disputes are the cause iff there is one and no held-out check failed |
| JudgeHead.OnlyVisibleFailuresAreShown | kstrl/acceptance/acceptance_lines.py:65-173 | a command or output line in a head's lines or halt is the command, or the output of the last failed run, of a visible kept check that did not pass |
| JudgeHead.PassedIff | kstrl/acceptance/acceptance.py:709-743 | a head with no approval passes iff its probe ran and every kept check exited 0 on every run |
| JudgeHead.PassingHeadIsAMeasuredChange | kstrl/acceptance/acceptance.py:586-743 | base to head: a passing component that does not create the application has each kept failing check measured failing on the base and exiting 0 on all head runs, and each kept passing check passing on both |
| JudgeHead.MeasuredChangeHappens | kstrl/acceptance/acceptance.py:586-743 | such a head exists for every check that promises to fail on the base, under any plan digest |
| JudgeHead.UnprobedHeadNeverPasses | kstrl/acceptance/acceptance.py:513-743 | a head whose probe never ran has every kept check not run, at least one of them, and does not pass |
| JudgeHead.DisputesDecideNothing | kstrl/acceptance/acceptance.py:729-754 | no progress text changes what fails, which held-out checks failed or whether the head passes |
| NonInterference.SameOutcome | kstrl/acceptance/acceptance_lines.py:65-173 | documents that differ only in entry digests of checks and the unshown part of the plan digest give equal lines for every reader |
| NonInterference.HeldOutNonInterference | kstrl/acceptance/acceptance_lines.py:65-173 | two runs that differ in a held-out check's command, criterion and output but not in its exits have the same whole outcome, and so the same told, stop, rendered and halt lines |
| NonInterference.ReadingsStayAlike | kstrl/acceptance/acceptance.py:544-583 | alike plans on bases where their checks exit alike have equal base exits and keep alike checks |
| NonInterference.HeldOutStaysHidden | kstrl/acceptance/acceptance_lines.py:65-173 | from plans to outcome: change what a plan's held-out checks say, run and print and keep their exits on base and head, and the base keeps the same checks and the head's whole outcome is the same |
| NonInterference.ToldNamesEveryFailure | kstrl/acceptance/acceptance_lines.py:105-122 | a retry names every check that did not pass, and for a visible one its criterion and command |
| NonInterference.Phase3HidesHeldOut | kstrl/acceptance/acceptance_carried.py:484-503 | the same two-run property for the printed evidence of Phase 3 |
| Phase3Secrecy.RoundHidesHeldOut | kstrl/acceptance/acceptance_carried.py:423-465 | two rounds that differ only in what held-out checks say, run and print give one answer: accepted or not, line by line, the same held-out checks named and the same carried entries broken |
| Phase3Secrecy.HeldOutOutputHiddenIff | kstrl/acceptance/acceptance_carried.py:484-503 | what Phase 3 prints never depends on what a held-out check prints iff no visible check shares its key with a held-out one that comes last |
| Phase3Secrecy.ConsistentPrintsNothingHeldOut | kstrl/acceptance/acceptance_carried.py:484-503 | where no key stands for two commands that is so |
| Phase3Secrecy.LeakHappens | kstrl/acceptance/acceptance_carried.py:94-96 | two digests that share twelve characters: a visible check's lines print a held-out check's output |
| Recheck.Compared | kstrl/acceptance/recheck.py:225-246 | one comparison per check run again, and agreement iff stated, recorded and new verdicts are equal in each |
| Recheck.RecheckRecord | kstrl/acceptance/recheck.py:76-116 | a recheck is refused for exactly the reasons it lists: a changed file or an unreadable record alone, or an unusable plan copy, no stack, another stack, unnamed checks, or nothing replayed; otherwise its comparison is of the new runs at the recorded head |
| Recheck.NamesItsChecksIff | kstrl/acceptance/recheck.py:176-181 | a record names its checks iff the ids that ran and the removed ones are the planned ones, none is both or removed twice, and an operator's plan has none removed |
| Recheck.RunsOnlyStated | kstrl/acceptance/recheck.py:176-181 | a record that names its checks states a verdict for each check that runs again |
| Recheck.RecordNamesItsChecks | kstrl/acceptance/acceptance_record.py:57-105 | the record of any head of any screened plan names each planned check once, as run or removed, and what runs again is what the head ran |
| Recheck.RecordCanBeRechecked | kstrl/acceptance/recheck.py:76-116 | such a record passes every test of a recheck, and every lookup of the comparison succeeds |
| Recheck.RecheckAgreesIff | kstrl/acceptance/recheck.py:196-246 | comparing it with other runs agrees iff every kept check has the verdict its head runs gave |
| Recheck.AgreementCoversThePlan | kstrl/acceptance/recheck.py:176-246 | for any record, honest or not, agreement means each planned check was removed from a designed plan or has one stated, recorded and new verdict |
| Carried.Naming | kstrl/acceptance/acceptance_carried.py:180-183 | the last approved item that names an identity, and none iff no item names it |
| Carried.RetireExactly | kstrl/acceptance/acceptance_carried.py:181-199 | an entry survives iff no approved item names it, and a named one leaves a row with the item, who approved it and the run |
| Carried.RetiredRowSays | kstrl/acceptance/acceptance_carried.py:187-199 | what the row of a retired entry says: the identity, the item, who decided and when or "unknown", and the run |
| Carried.RetireConserves | kstrl/acceptance/acceptance_carried.py:175-203 | retiring keeps the multiset of identities over checks and retired, and retired only grows at its end |
| Carried.SurvivorsKeepOrder | kstrl/acceptance/acceptance_carried.py:181-203 | the survivors are a subsequence of the entries in their order |
| Carried.Resolve | kstrl/acceptance/acceptance_carried.py:160-172 | a resolved entry is the entry itself with a check of its id |
| Carried.ResolveExactly | kstrl/acceptance/acceptance_carried.py:160-172 | an entry resolves iff the plan copy under its digest verifies and has a check of its id in its component, and then to such a check |
| Carried.Runnable | kstrl/acceptance/acceptance_carried.py:249-250 | exactly the entries that resolve are run |
| Carried.BaseVerdicts | kstrl/acceptance/acceptance_carried.py:275-301 | an unreplayed base lets nothing through; otherwise the loop splits the entries into those that resolve and exited 0 and a refusal for each other, naming a change of stack |
| Carried.RefusedExactly | kstrl/acceptance/acceptance_carried.py:275-301 | the base refuses exactly the entries that do not resolve or whose one run did not exit 0, each with whether the stack is another one |
| Carried.GateRefusalsExactly | kstrl/acceptance/acceptance_carried.py:220-301 | each refusal of the gate with its exact condition |
| CarriedGate.AfterGateSays | kstrl/acceptance/acceptance_carried.py:175-243 | an entry leaves the ledger at the gate iff an approved item names it, the ledger was read under a stack and it could be written |
| Carried.PlanWanted | kstrl/acceptance/acceptance_carried.py:472-481 | Phase 3 wants exactly the planned checks of the merged components |
| Carried.ListFailing | kstrl/acceptance/acceptance_carried.py:484-503 | the lines of the checks that did not pass, and the held-out checks that failed |
| Carried.NothingListedIff | kstrl/acceptance/acceptance_carried.py:490-503 | there is no line iff every check passed |
| Carried.PassIsAllZero | kstrl/acceptance/acceptance_carried.py:468-469 | a check of Phase 3 passed iff it ran and every run exited 0 |
| Carried.FailingLineSays | kstrl/acceptance/acceptance_carried.py:484-503 | what a check adds to the evidence: nothing iff it passed, else its verdict and exits, and for a visible one what its last run printed |
| Carried.FailedHeldOutExactly | kstrl/acceptance/acceptance_carried.py:484-503 | the held-out checks named as failed are those with an exit other than 0, 126 and 127 |
| Carried.RefusedRoundSays | kstrl/acceptance/acceptance_carried.py:423-465 | every field of the answer of a round that is not accepted |
| Carried.BrokenExactly | kstrl/acceptance/acceptance_carried.py:464-469 | exactly the entries of the carried checks that did not pass |
| Carried.Ledger.RetireApproved | kstrl/acceptance/acceptance_carried.py:175-203 | the ledger after retiring; unchanged when nothing was named or the write failed, and only the latter is an error |
| Carried.Ledger.CarriedOnBase | kstrl/acceptance/acceptance_carried.py:220-272 | the gate's answer and the ledger it leaves, on every path |
| Carried.Ledger.CarryPassed | kstrl/acceptance/acceptance_carried.py:379-417 | the ledger after carrying, and exactly when it reports that it could not be read or written |
| Contract.RunChecks | kstrl/acceptance/contract.py:179-212 | the report on one tree: every stack check, then the merged and carried checks; nothing runs and it fails without a stack |
| Contract.RunChecksMeans | kstrl/acceptance/contract.py:179-212 | a tree passes iff every stack check, every planned check of the merged components and every carried check hold on all runs; order and repetition of the merged ids do not matter |
| Contract.ReplayMergedMeans | kstrl/acceptance/acceptance_carried.py:423-465 | where no wanted check is hidden Phase 3's replay accepts a commit iff every wanted check exited 0 there on every run |
| Contract.ReplayMergedIsExactIff | kstrl/acceptance/acceptance_carried.py:423-465 | and that holds on every commit iff none is hidden |
| Contract.MergedIsConsistent | kstrl/acceptance/acceptance_carried.py:440-459 | a valid plan whose components hold no colon never collides with carried labels |
| Contract.IdsOnBranches | kstrl/acceptance/contract.py:283-285 | exactly the ids of the components on the given branches |
| Contract.Checkout.Merge | kstrl/acceptance/contract.py:345-365 | one merge: the tree grows by the branch, or stays and is in conflict |
| Contract.Checkout.MergeAll | kstrl/acceptance/contract.py:258-262 | all merge cleanly, or the first that conflicts is named with the tree before it |
| Contract.Checkout.CleanUp | kstrl/acceptance/contract.py:278-280 | no merge in flight and no worktree is left |
| Contract.BisectStep | kstrl/acceptance/contract.py:266-275 | one step is clean iff the merge, the setup and the checks succeed, and names nobody iff the setup failed |
| Contract.BisectBreaker | kstrl/acceptance/contract.py:215-280 | the bisection names the first component that is not clean, nobody when its setup stopped it, when it could not start or when all are clean |
| Contract.StopIsUnique | kstrl/acceptance/contract.py:264-277 | a bisection has one place to stop |
| Contract.RunTierCheck | kstrl/acceptance/contract.py:288-431 | a tier's result, each outcome with its exact condition: no worktree, conflict with an earlier branch or with a tier branch (the first that conflicts), failed setup, pass, or a failure with the bisection's answer |
| Tiers.RunContractTesting | kstrl/acceptance/contract.py:526-637 | skip, integrated, final and tier mode each give the results of their own checks and no others |
| Tiers.EveryCompletedIsTested | kstrl/acceptance/contract.py:526-637 | in every mode but skip the results together name exactly the completed components the tiers list |
| Tiers.TestedTiersExactly | kstrl/acceptance/contract.py:526-637 | a tier is tested iff it lists a completed component |
| Tiers.DoneExactly | kstrl/acceptance/contract.py:526-637 | the components tested up to a tier are the completed ones it or an earlier tier lists |
| Tiers.TierByTier | kstrl/acceptance/contract.py:609-635 | each non-empty tier is tested on top of exactly the branches of the tiers before it |
| Tiers.CarriedHoldsWherePassed | kstrl/acceptance/contract.py:179-212 | at every tree whose tier or one-shot check passed, every carried check exited 0 on all its runs |
| Tiers.IntegratedCheck | kstrl/acceptance/contract.py:434-523 | the base is tested once at the commit it was given, which the result names with its report; without a commit or worktree, or after a failed setup, it says which; nobody is blamed |
| Tiers.FinalAgreesWithLastTier | kstrl/acceptance/contract.py:586-635 | the verdict of the last tested tier equals the one-shot verdict when no untested component sits on an earlier branch |
| Tiers.FormsAgreeIff | kstrl/acceptance/contract.py:586-635 | the two forms agree on every machine and for every plan iff every component on an earlier tier's branch is among the tested |
| Tiers.FormsDisagree | kstrl/acceptance/contract.py:283-285 | otherwise some machine and plan make the tier form fail and the final form pass |
| Tiers.DistinctBranchesAgree | kstrl/acceptance/contract.py:283-285 | distinct branch names are enough for agreement |
| Tiers.BlameIsExact | kstrl/acceptance/contract.py:258-277 | after a tier fails its checks the bisection stops at the first component whose prefix fails, and names it unless that prefix's setup failed |
| Tiers.ConflictNamesFirst | kstrl/acceptance/contract.py:355-365 | a tier whose branches conflict names the first component whose merge conflicts |
| Tiers.BreakerTurnedPassIntoFail | kstrl/acceptance/contract.py:611-635 | if the tier tested before passed and no untested component sits on its branches, the tree just before the named component passes and the tree with it fails, even for the first component of its tier |
| Tiers.PreviousTierPassesPrior | kstrl/acceptance/contract.py:629-635 | the tree a tier starts from is the tree the tier before ended with, tested for the same components when none strays onto that tier's branches |
| Tiers.BlameIsRightIff | kstrl/acceptance/contract.py:258-320 | after a tier that passed, blame is right on every machine and for every plan iff no component that was not tested with it sits on that tier's branches |
| Tiers.StrayMisblames | kstrl/acceptance/contract.py:283-320 | for every manifest with such a component some machine and plan make the next tier blame its first component although no merge of it turned pass into fail |
| Tiers.DistinctBranchesLeaveNoStrayOn | kstrl/acceptance/contract.py:283-285 | distinct branch names exclude such a component |
| BlameExample.BlameHappens | kstrl/acceptance/contract.py:611-635 | two tiers, the first passing and the second failing its checks with its component named, meet every assumption of that result |
| BlameExample.MisblameHappens | kstrl/acceptance/contract.py:283-320 | an unfinished component on a finished one's branch: the second tier's component is blamed for the unfinished one's check |
| BlameExample.DisagreementHappens | kstrl/acceptance/contract.py:283-285 | in the same plan the last tier fails where the one-shot check passes |
| CarriedGate.GateOpensAsJudged | kstrl/acceptance/acceptance_carried.py:220-301 | the gate opens iff the ledger was read, retirement was written, the base was replayed and recorded and every unretired entry passes by what stands under its key, or none is left |
| CarriedGate.GateOpensIff | kstrl/acceptance/acceptance_carried.py:220-301 | where the ledger tells its entries apart, the gate opens iff every unretired entry resolves and its own check exits 0 on this base |
| CarriedGate.GateIsExactIff | kstrl/acceptance/acceptance_carried.py:94-96 | and it is so on every base iff the ledger tells them apart: some entry does not resolve, or every command the entries name is what some key is judged by |
| CarriedGate.CollisionOpensTheGate | kstrl/acceptance/acceptance_carried.py:94-96 | otherwise some base opens the gate although the check of an entry fails there |
| CarriedGate.DistinctLabelsTell | kstrl/acceptance/acceptance_carried.py:94-96 | distinct labels are enough |
| CarriedGate.JudgedByLastWriter | kstrl/acceptance/acceptance_carried.py:94-96 | an entry is judged by the last entry with its key |
| CarriedGate.EntryJudgedRightlyIff | kstrl/acceptance/acceptance_carried.py:94-96 | one entry is judged rightly on every base iff that entry is of its own plan |
| CarriedGate.CollisionHappens | kstrl/acceptance/acceptance_carried.py:94-96 | two digests that share twelve characters: the gate opens on a base on which an entry's check fails |
| RunStep.RunOnce | kstrl/factory/factory_acceptance.py:79-95 | one run on the ledger: the gate, the contract tests of the round with the gate's checks and the kept plan, and carrying after a round without a failure |
| RunStep.ContractRound | kstrl/factory/factory_acceptance.py:399-432 | the round passes iff every tested tree comes together and passes; what it says to carry is the components and the commit of an integrated check, and no commit otherwise |
| RunStep.RoundIsItsResults | kstrl/factory/factory_acceptance.py:430-433 | no tier failed iff every tested tree comes together and passes |
| RunStep.NothingCollides | kstrl/acceptance/acceptance_carried.py:438-459 | with distinct carried labels and a validated plan no two checks of Phase 3 share a key |
| RunStep.AcceptedPlanIsSane | kstrl/acceptance/acceptance.py:249-321 | a plan parsed from an accepted document with manifest ids, and what any base keeps of it, is such a plan |
| RunStep.Phase3PassesIff | kstrl/acceptance/acceptance_carried.py:220-465 | a run passes Phase 3 iff the gate opens on its base, every tested tree comes together, and the stack's checks, the kept checks of the components and every unretired entry hold at each tested commit |
| RunStep.NoStackNoPass | kstrl/acceptance/contract.py:179-212 | a run without a stack does not pass Phase 3 where anything is tested |
| RunStep.EntryHoldsThroughRun | kstrl/acceptance/acceptance_carried.py:423-465 | an entry of a run past the gate passed on the base, and on every run at every tested commit if Phase 3 passed |
| RunStep.GateLetsThrough | kstrl/acceptance/acceptance_carried.py:220-301 | wherever an entry passes on its own there is a run whose gate lets it through |
| RunHistory.LeavesOnlyByApproval | kstrl/acceptance/acceptance_carried.py:175-203 | over every history an entry that no approved item names stays |
| RunHistory.LeavingIsRecorded | kstrl/acceptance/acceptance_carried.py:187-199 | an entry that leaves has a retired row naming the item and the run |
| RunHistory.CarriedCheckGuardsEveryLaterRun | kstrl/acceptance/acceptance_carried.py:220-465 | regression safety over every history whose plan digests twelve characters tell apart: until a person retires it, a carried check passed on the base of each later run past the gate and on all runs at every commit of each later Phase 3 that passed |
| RunHistory.IdentitiesStayDistinct | kstrl/acceptance/acceptance_carried.py:397-417 | from the empty ledger on, no history holds an identity twice |
| RunHistory.LabelsStayDistinct | kstrl/acceptance/acceptance_carried.py:94-96 | over every such history no two entries share a key |
| RunHistory.CarryAddsExactly | kstrl/acceptance/acceptance_carried.py:379-417 | after carrying an identity is in the ledger iff it was there, or it is of the plan, its component is listed as merged, has merged and is kept, and a kept check has its id; the old entries stay as a prefix and nothing is retired |
| RunHistory.EveryMergedCheckIsCarried | kstrl/acceptance/acceptance_carried.py:379-417 | over every history, after a run past the gate whose Phase 3 passes on the base, every kept check of every completed component that merged has an entry |
| RunHistory.EntersIff | kstrl/acceptance/acceptance_carried.py:397-404 | an absent identity enters in a run iff the gate opens, the tested commit holds and the run carries it, retired or not |
| RunHistory.RetiredReturnsIff | kstrl/acceptance/acceptance_carried.py:397-404 | the run that retires an entry puts its identity back iff its base and tested commit hold and its plan keeps the check |
| RunHistory.RetiredReturnHappens | kstrl/acceptance/acceptance_carried.py:397-404 | one entry, one approving item and a plan that keeps the check: retired and in the ledger again after the same run |
| RunHistory.NewEntryIsEarned | kstrl/factory/factory_acceptance.py:165-190 | what a run adds to the ledger was tested by it, at the commit the entry names, with exit 0 on every run |
| RunHistory.EveryEntryWasEarned | kstrl/factory/factory_acceptance.py:165-190 | over every such history each entry of the ledger was put there by a run that passed Phase 3 and its check exited 0 on all runs at the commit the entry names |
| PlanStore.RowsExactly | kstrl/acceptance/acceptance.py:236-240 | the digest's rows are exactly the files, with the hash of the bytes and the executable bit |
| PlanStore.RowsAreSorted | kstrl/acceptance/acceptance.py:236-240 | the rows are sorted by name, so they are one sequence per file map |
| PlanStore.DigestIsInjective | kstrl/acceptance/acceptance.py:236-241 | a digest names one file map when the hashes do not collide |
| PlanStore.ControlDir.Copy | kstrl/acceptance/acceptance.py:405-412 | a copy is made once, never overwritten, and one that is there must verify |
| PlanStore.ControlDir.RunCheck | kstrl/acceptance/acceptance.py:477-510 | a run is an execution in the verified files, or gives no exit and shows the command it would have run |
| PlanStore.WriteFiles | kstrl/acceptance/acceptance.py:435-440 | the working directory is the file map |
| PlanStore.ExecutesWhatWasPinned | kstrl/acceptance/acceptance.py:405-510 | over every trace of pins, edits and executions, an execution under a pinned digest uses exactly the pinned files or nothing |
| PlanStore.UneditedCopyIsUsed | kstrl/acceptance/acceptance.py:405-432 | with no edit of its directory in between it does use them |
| PlanStore.EntryResolvesTheSame | kstrl/acceptance/acceptance_carried.py:160-172 | an entry that resolves in two runs resolves to the same check, whatever happened to the directory |
| PinnedRuns.ExitMeansPinned | kstrl/acceptance/acceptance.py:477-532 | in every trace with edits, a run that gave an exit under a pinned digest was an execution of the pinned files |
| PinnedRuns.PassingHeadRanPinned | kstrl/acceptance/acceptance.py:477-743 | a head that passes on its own ran every kept check, on every run, from the pinned files |
| PinnedRuns.BaseExitIsPinned | kstrl/acceptance/acceptance.py:477-583 | an exit in the base reading is one of the pinned files |
| PinnedRuns.MeasuredChangeIsPinned | kstrl/acceptance/acceptance.py:477-743 | the failure on the base and all passes on the head of a measured change are runs of one pinned file map |
| PinnedExample.PinnedChangeHappens | kstrl/acceptance/acceptance.py:477-743 | hashes without a collision, a pinned file map and the runs of a base and a head meet every assumption of that result |
| PinnedRuns.CarriedEntryRanPinned | kstrl/acceptance/acceptance_carried.py:160-465 | a carried entry that holds through a run did so in the files pinned under its digest, on the base and on every run at the tested commit |
| PlanFile.ValidIdHasNoColon | kstrl/plan/names.py:86-114 | no accepted component or check id can be mistaken for a carried label |
| PlanFile.AcceptedIdObeysIff | kstrl/plan/names.py:26-114 | an id obeys the documented rule iff it is accepted and does not end in a newline |
| PlanFile.NewlineIdsAccepted | kstrl/plan/names.py:26-114 | a name with a final newline is accepted iff the pattern takes the name and it has no '..'; no such id obeys the rule |
| PlanFile.NewlineIdHappens | kstrl/plan/names.py:26-114 | "a" and "a.lock" with a final newline are accepted |
| PlanFile.CheckErrors | kstrl/acceptance/acceptance.py:281-301 | a check entry has no error iff it has exactly the five keys with values the program takes, its id as the program's pattern takes it |
| PlanFile.PartErrors | kstrl/acceptance/acceptance.py:263-278 | a component entry has no error iff it is known, has checks, each valid, and no id twice |
| PlanFile.PlanErrors | kstrl/acceptance/acceptance.py:249-260 | the validator accepts exactly the valid documents |
| PlanFile.ParsedIsValid | kstrl/acceptance/acceptance.py:249-321 | what is parsed from an accepted document has known components with non-empty check lists, distinct accepted ids, a criterion that is not blank and non-empty commands |
| PlanFile.ParsedPartSays | kstrl/acceptance/acceptance.py:304-321 | what is parsed of a component, key by key: it creates the application iff "createsApp" is there and true |
| PlanFile.ValidSays | kstrl/acceptance/acceptance.py:249-301 | an accepted document has the one key "components", each component a known id, its checks and perhaps "createsApp", each check exactly its five keys with the two words of "onBase" |
| PlanFile.PlanRoundTrips | kstrl/acceptance/acceptance.py:249-321 | every writable plan is accepted and parsed back as it was |
| Isolation.CanaryVerdicts | kstrl/acceptance/isolation.py:377-394 | one verdict per canary from its sandboxed and control outcome, with a write found on the host never contained |
| Isolation.HostFiles.RunCanaries | kstrl/acceptance/isolation.py:403-441 | targets are looked for after the sandboxed run and before the control run, all are gone at the end, and each extra probe is ok or reported by why it gave no status or by its exit |
| Isolation.StandsIffHeld | kstrl/acceptance/isolation.py:294-315 | for the canary program's vocabulary a gating canary stands iff its control was informative, it failed with an errno (EPERM for egress) and left nothing on the host; which canaries gate is stated below |
| Isolation.StandsExactly | kstrl/acceptance/isolation.py:308-315 | the same for every text, with the one exception of a text that starts with "contained" |
| Isolation.ZoneStandsIff | kstrl/acceptance/isolation.py:403-458 | a zone is not refused iff every gating canary held, every positive control reported ok and the two extra probes exited as expected |
| Isolation.ZoneHoldsIff | kstrl/acceptance/isolation.py:281-458 | a zone is not refused iff each write, read and listing canary reported an errno with its control ok and no write left its target, egress in the test zone was refused with EPERM where its control was not, each positive control reported ok and the two probes exited as expected; canaries and texts are named one by one |
| Isolation.DnsNeverRefuses | kstrl/acceptance/isolation.py:444-458 | no answer of the dns canary refuses a zone |
| Isolation.SilenceRefuses | kstrl/acceptance/isolation.py:281-291 | a sandboxed process or a control that reports nothing refuses every zone |
| SessionGate.SessionGate.Refusal | kstrl/write_guard.py:222-246 | one line moves the gate and is answered as the trace semantics says |
| SessionGate.GateIsTheLanguage | kstrl/write_guard.py:201-263 | no line of a trace is refused iff its first event that is not a hook event, if any, is an init with an empty server list after a ready hook |
| SessionGate.RefusedAtFirstEvent | kstrl/write_guard.py:201-246 | an unguarded session is stopped at that very event and at none before it |
| SessionGate.ReasonAtFirstEvent | kstrl/write_guard.py:222-263 | the reason it is stopped for: unreadable, hooks off, no init, no server list, or the servers loaded, in that order |
| SessionGate.ReadyIff | kstrl/write_guard.py:222-246 | a session is ready only after a SessionStart hook that printed the marker |
| WireFrames.Reach | design/tools/wire_frames.py:160-172 | exactly the screens a walk along zoom, crumb and tab targets reaches, once each, the start first; it ends, and fails a lookup iff a reachable screen or group is missing |
| WireFrames.LeadsIff | design/tools/wire_frames.py:160-172 | a screen leads to another iff one of its controls has a zoom, crumb or tab target that is it, or a group that lists it |
| WireFrames.ExpandTargets | design/tools/wire_frames.py:162-168 | all targets in order with groups expanded, or a failed lookup |
| WireFrames.TopSplit | design/tools/wire_frames.py:98-107 | the stripped parts of a cut whose parts join to the text, hold no top-level comma and are closed but for the last |
| WireFrames.TopSplitIsUnique | design/tools/wire_frames.py:98-107 | a text has only one such cut |
| WireFrames.DepthCounts | design/tools/wire_frames.py:98-107 | the depth is the number of opened less the number of closed brackets, round and square |
| Splice.MarkerIsSelfDelimiting | scripts/gen_docs.py:50-51 | a marker opens with its only '<' and closes with its only '>', so markers never overlap |
| Splice.MarkerSays | scripts/gen_docs.py:50-51 | the letters of the two markers and where the name stands |
| Splice.SpliceFailsIff | scripts/gen_docs.py:912-918 | a splice fails iff a marker is missing or the end marker does not follow the first begin marker, each with its own error |
| Splice.SpliceReplacesBody | scripts/gen_docs.py:912-918 | a splice replaces the body of its section and nothing else |
| Splice.SpliceIsIdempotentIff | scripts/gen_docs.py:912-918 | splicing twice is splicing once iff the generated text does not hold its own end marker |
| Splice.GrowingSpliceHappens | scripts/gen_docs.py:912-918 | a generated text that is its own end marker: splicing twice differs from splicing once |
| Splice.SplicesCommute | scripts/gen_docs.py:921-924 | the two section splices commute and keep all text outside the bodies |
| Splice.RenderReplacesBoth | scripts/gen_docs.py:921-924 | rendering puts the command line reference and the configuration reference each into its own section, in either order of sections |
| Splice.BothSplicesAreAFixPoint | scripts/gen_docs.py:921-924 | both splices in either order give one text that both leave alone |
| Splice.RenderIsAFixPoint | scripts/gen_docs.py:921-924 | rendering a well-marked README twice is rendering it once, whichever section comes first |
| AgentOutput.ScanObject | kstrl/agents/agent_output.py:35-47 | the slice starts at the first brace and ends where the depth first returns to zero, or there is no such slice |
| AgentOutput.FirstObjectIsUnique | kstrl/agents/agent_output.py:35-47 | there is only one such slice |
| AgentOutput.DepthCounts | kstrl/agents/agent_output.py:35-47 | the depth is the number of opening less the number of closing braces |
| AgentOutput.ExtractJson | kstrl/agents/agent_output.py:16-49 | the value stated by the next five rows, found by the loop over the fences |
| AgentOutput.WholeTextFirst | kstrl/agents/agent_output.py:16-25 | a stripped text that parses is its own value |
| AgentOutput.FenceNext | kstrl/agents/agent_output.py:26-32 | otherwise the first fence that parses gives the value |
| AgentOutput.ObjectNext | kstrl/agents/agent_output.py:35-49 | otherwise the first object gives it |
| AgentOutput.NothingElse | kstrl/agents/agent_output.py:16-49 | and with no object there is none |
| Text.StripIs | kstrl/agents/agent_output.py:16-22 | stripping takes white space off both ends, all of it and nothing else |
| AgentOutput.ExtractAgentJson | kstrl/agents/agent_output.py:145-180 | the value of the first candidate that has one |
| AgentOutput.PathsAgreeIff | kstrl/agents/agent_output.py:124-180 | the two reply paths agree on every input, in success and value, iff an empty text holds no JSON |
| AgentOutput.EmptyHoldsNothing | kstrl/agents/agent_output.py:16-49 | which is so when the parser refuses the empty text and it has no fence |
| AgentOutput.CollectAgentOutput | kstrl/agents/agent_output.py:81-121 | the cap error is raised iff the characters of the whole stream exceed the cap, at the first line that does; a killed call returns no line; the observer is given the lines of the reading below |
| AgentOutput.ObservedUpToFailure | kstrl/agents/agent_output.py:106-112 | the observer is given every line, or every line up to the first that makes it fail |
| AgentOutput.StreamBounds | kstrl/agents/agent_output.py:113-114 | a stream's UTF-8 bytes are between one and four times its characters, and equal to them iff it is ASCII |
| AgentOutput.Utf8IsShortest | kstrl/agents/agent_output.py:113-114 | the bytes of a character are the fewest whose payload holds it |
| AgentOutput.CapIsInBytesIff | kstrl/agents/agent_output.py:81-118 | the cap of the code and the documented cap in bytes stop a stream alike at every cap iff the stream is ASCII |
| AgentOutput.OverlongIff | kstrl/agents/agent_output.py:81-118 | at one cap they differ iff the characters fit and the bytes do not, and then only the code lets the stream through |
| AgentOutput.OverlongStreamIsReturned | kstrl/agents/agent_output.py:81-118 | for every cap from two on, a line of accented letters is returned that takes nearly twice the cap in bytes |

## Left out

- Subprocesses, git, worktree creation, locks, signals, clocks, the network and nono: their answers are parameters of the model.
- Contract.Checkout.CleanUp: the `ContractCleanupError` a surviving contract worktree raises is not modelled, because it ends the run with no verdict at all; the survival of a replay's worktree, which does give one, is modelled.
- The file system beyond a map from name to bytes and an executable bit: permissions, symbolic links, atomic writes and directory walks.
- The wording of messages: a line is a value holding the fields its text depends on; the record path `judge_head` adds to its lines, and the 2000-character cut of test output, are not modelled.
- Regular expressions: a progress line is already classified as no dispute, malformed or well formed, and code fences are a parameter.
- JSON text: documents are values, the parser is a parameter, and `read_carried` and `read_json` failures are one flag each; a ledger whose fields `carried_errors` refuses is an unreadable ledger, which is the one thing the gate asks about it.
- Encodings: a text is a sequence of characters.
- `Manifest.compute_tiers`: tiers are a parameter; the results need no more of them than that no component is in two.
- `has_merged` and `approvals_at`: which components merged and which items were approved are parameters.
- `pin_plan`'s refusals of a source inside the repository or of another digest than the manifest pinned, and the generation of a plan by the designer.
- The tamper index of an evidence directory is compared as a map; how its hashes are computed is not modelled.
- Blame when the tier before failed, and for the base before the first tier: the code tests neither tree.
- `path_refusal`, `refusal`, `nono_policy`, labels and `prove_zones`: they compare resolved file-system paths or write the policy of another program, and the model has neither.
- The rest of the design tools, the command line, configuration and documentation generators.
- HeadRecord.BuildRecord: durations, log hashes, the digest over the check digests, the base commit and the run id of a record are not modelled, because no decision reads them.
- BaseScreening.ReplayBase: the order of refusals of different components and their text are not fixed, because the order is that of a dictionary read from a file; that the reading was written is a flag.
- Contract.RunTierCheck: a tree is the sequence of merged branches, so a merge, a setup or a check that answers differently on the same sequence is not modelled.
- PlanStore.ControlDir.RunCheck: an edit between the verification of a copy and the write of its working directory has no effect, because the bytes verified are held in memory.
