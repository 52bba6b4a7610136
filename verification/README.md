# AHT: a verified model of its state machines, crash protocols and encoders

AHT watches coding-agent processes, reports them to a registry, installs its hooks
and plugins into other programs' configuration, and waits for sessions to reach a
state. This project models the parts of it that are protocols or encodings and proves
what they are for. Code that changes state in place is modelled by classes and loops
with invariants; code made of expressions is modelled by functions. Either way the
laws are stated about functions and relations, and the imperative members are proved
against those.

## Modules

**Tracker.** `Processes` and `ProcessForest` model a process snapshot and the bounded
walks over parent links; the walks are proved to decide reachability, with cycles and
self-loops. `CycleInventory` prunes nested agents; `PanePlacement` and `StableSort`
give every agent one pane. `ObserverCycle` says what one tracker cycle may do,
`Observer` is the cycle itself, and `ObserverRuns` proves what holds over any sequence
of cycles and store answers (accepted, conflict, other error).

**Plugin directory.** `PluginNames` and `PluginRecovery` describe the entries beside a
plugin directory and the outcome of recovery. `PluginDirectory` runs recovery,
installation and removal, with the import manifest, over a disk on which every rename,
removal and write is one step that may fail. Its field `history` lists the disk
after each step, so a statement about all of `history` is one about a crash anywhere.
How the steps of a run turn out is read from a schedule, so that a statement about every
schedule is one about every run, and a run can also be shown to exist. `PluginCrashes`
cuts installation, removal and recovery off at any step and recovers until it succeeds.

**Waiting.** `WaitCondition` judges a session; `WaitRun` is the loop of `Wait` under
any finite schedule of events, stream failures, cancellations and elapsed time.

**Registry IDs.** `Lexicographic`, `SessionIds` and `SessionReferences`: IDs are shown
cut off, judged by their sorted neighbours only, and resolved again.

**Encoders.** `GoQuote`, `SystemdArguments` and `SystemdUnit`: the systemd unit and its
decoder. `ShellWords`: shell quoting against the word rules of POSIX.1-2017 XCU
sections 2.2 to 2.4. `ReplyStream`, `Folding` and `ReplyClients`: streamed against
complete model replies. `EventFrames`: the text of a stream against the reader of section
9.2 of the WHATWG HTML Living Standard. `FirstInLine`, `DetectionRules` and `RuleEvaluation`: the
explaining rule evaluator against the live one.

**Edits in foreign files.** `HookGroups`, `ManagedHooks` and `ManagedText`: command
hooks and marked text blocks, put in and taken out. `HookOwnership`: which commands count
as ours, judged anew from the file at each installation and removal.

**Fake provider.** `ProviderSessions`: handlers, resets and closing in any order, as a
class that takes each step and as a function `Step` on its state. `ProviderSteps` says what
a step keeps and changes; `ProviderRuns` proves what holds after any script, told from the
script.

`Options`, `Sets`, `Insertion` and `Text` hold shared helpers.

## Results that differ from the documentation or from what one might expect

- Pruning loses no relative even on cyclic parent links: `DroppedHasSurvivingRelative`
  does not need acyclic links.
- Abbreviated IDs need less than prefix-free group names: it is enough that no group
  name continues another by eight characters without a dash (`NoConfusion`), and for
  every pair of group names that does, `ConfusionIsReal` gives two sessions of which
  one is not found by the form it is shown in.
- Removal does not recover first. A backup that was there before brings a directory back
  after a successful removal: `PluginDirectory.Plugin.Remove` says exactly when.
  `PluginRecovery.OlderBackupComesBack` gives a disk with a backup that an earlier commit
  failed to delete, `CrashedInstallComesBack` one on which an installation was cut short
  with the directory set aside; there the removal only takes out the import.
- Until a removal is final a crash gives the directory back if and only if no other backup
  is as young as the directory (`AsideComesBack`).
- Directory and manifest end both old or both new if at most one step fails, whichever it
  is (`OneFault` in `Plugin.Install` and `Plugin.Remove`); a second failure, during the
  rollback, can leave them apart, yet never beyond recovery.
- An import that names a directory recovery finds does so during installation, on every
  disk of every run, if and only if the directory is there beforehand, or the manifest is not
  rewritten, or it will not list the import. In all other cases `Plugin.Install` proves
  the run that fails: nothing goes wrong but that writing the manifest reports an error
  after its effect, and the rollback then removes the directory before the import.
  `SomeAreSmooth` gives the schedules of that run.
- A negative grace period never retires a process (`NegativeGraceNeverRetires`).
- Taking hooks out again restores the configuration exactly unless it held an empty
  or null `hooks` object, an empty or null list for a planned event, or hooks of ours
  (`RestoredWithOwnJudgement`). Installation and removal judge which hooks are ours from
  different contents of the file; they agree wherever it matters (`RemovesTheSame`).
- Quoting does not stop a first word from being a variable setting (`NAME=value`), a
  reserved word (`if`) or one the standard sets aside (`name:`). A hook's command line
  runs the binary with the arguments meant if and only if the binary's name is no such
  word (`HookCommandRuns`); an absolute path never is one.
- An event stream is read back exactly if no name and no payload has a line break
  (`StreamRoundTrip`).
- A second `Close` of the fake provider returns at once, while handlers may still run
  (`SecondCloseReturnsEarly`). Nobody comes in after any `Close` has returned, and nobody
  is there after one that found the server open, or at whose return the handlers had gone.
- A request of the fake provider stays unsettled for good if and only if the script
  panicked when asked for its reply (`NobodyLeftNothingPending`).
- Without validation, a wait is judged against its stated condition exactly for options
  that ask for an activity of a gone or unknown session (`WithoutValidationTheyDiffer`).
- The explaining evaluator differs from the live one exactly if the winning rule has an
  empty ID and is not the last (`AgreeUnlessNameless`); validation rules that out.

## Model

| member | source | states |
|---|---|---|
| ProcessForest.HasAncestorHarness | internal/observer/observer.go:1129-1158 | the walk with a visited set finds a same-harness ancestor exactly if one is reachable over parent links, cyclic or not |
| ProcessForest.ReachedThroughWrappers | internal/observer/observer.go:721-751 | one process is reached from another through wrappers only, exactly |
| ProcessForest.DescendsFrom | internal/observer/multiplexer.go:190-213 | the walk bounded by the size of the index is true exactly when the root PID is reachable |
| ProcessForest.NestedHarness | internal/observer/multiplexer.go:236-256 | true exactly when some other reachable ancestor runs a harness |
| ProcessForest.FullWalkIsClosed | internal/observer/multiplexer.go:190-256 | a walk of as many steps as there are processes has been everywhere it can get |
| CycleInventory.Inventory.PruneNested | internal/observer/observer.go:826-858 | both passes, deleting while walking; no survivor is nested, none is a wrapper that launches a surviving agent, and no harness is lost |
| CycleInventory.NoSurvivorIsNested | internal/observer/observer.go:826-858 | no surviving process has a surviving ancestor of its harness |
| CycleInventory.NoSurvivorIsLauncher | internal/observer/observer.go:826-843 | no surviving wrapper launches a surviving agent of its harness |
| CycleInventory.DroppedAgentIsNested | internal/observer/observer.go:826-858 | a dropped process that launches no agent of its harness runs below a surviving one of it |
| CycleInventory.DroppedHasSurvivingRelative | internal/observer/observer.go:826-858 | every dropped process has a surviving ancestor or descendant of its harness, on any parent links |
| CycleInventory.NoHarnessIsLost | internal/observer/observer.go:826-858 | every harness that ran somewhere still runs somewhere |
| CycleInventory.AcyclicNestingKeepsTopmost | internal/observer/observer.go:826-858 | on acyclic links exactly the topmost agents stay, whatever the scan order |
| CycleInventory.AcyclicWrapperPass | internal/observer/observer.go:826-843 | on acyclic links the wrapper pass drops exactly the wrappers that launch an agent, although it works on a shrinking table |
| CycleInventory.AcyclicPruning | internal/observer/observer.go:826-858 | on acyclic links exactly those agents survive that launch no other and run below no other one that launches none |
| CycleInventory.Inventory.NormalizeForeground | internal/observer/multiplexer.go:215-234 | the foreground flag goes exactly from agents nested in other agents and nothing else changes, the index follows, and ancestry stays as it was |
| CycleInventory.SameLinksSameAbove | internal/observer/multiplexer.go:215-234 | ancestry depends on parent links alone, not on flags |
| StableSort.SortIsStable | internal/observer/observer.go:761-768 | elements of equal key keep their order |
| PanePlacement.PlacePane | internal/observer/observer.go:2088-2120 | a pane places exactly the agents tied to it that no earlier pane has claimed |
| PanePlacement.SortedClaimIsBest | internal/observer/observer.go:761-768 | the first claim in priority order is a best claim |
| PanePlacement.FirstClaimAmongEquals | internal/observer/observer.go:483-539 | among claims of equal priority the pane listed first wins |
| PanePlacement.PlaceAgents | internal/observer/observer.go:483-539 | every agent gets exactly one placement, its best claim or the empty location, and is read exactly if its place shows it and can be read |
| PanePlacement.PlaceUnlocated | internal/observer/observer.go:1160-1231 | agents without a pane are placed nowhere, once |
| Observer.Observer.RunCycle | internal/observer/observer.go:359-481 | one cycle does what `Step` says and leaves a record that `Possible` allows, whichever listing fails and whatever the store answers: who is reported present, absent, lost, unverified and listed, and that every agent stands in the pane with the best claim to it |
| Observer.Observer.InitializeTracked | internal/observer/observer.go:1677-1718 | present sessions of the store are taken over with one miss already counted |
| Observer.Observer.RetireMissing | internal/observer/observer.go:541-598 | next entries and retirements for all tracked processes, in any order of walking |
| Observer.Observer.HoldUnconfirmed | internal/observer/observer.go:984-1045 | unconfirmed agents are held back with the time they were first seen |
| Observer.Observer.ReconcileSessions | internal/observer/observer.go:1863-1946 | exactly which untracked sessions are reported: processes the scan proves gone, sessions lost with their pane, and sessions left unverified |
| Observer.Observer.RecordObservations | internal/observer/observer.go:600-636 | what the store answered decides what is remembered: all, misses only, or nothing |
| ObserverRuns.LeavesTrackedOnlyWhenAbsenceTaken | internal/observer/observer.go:541-636 | a key leaves the tracked set only if the store accepted a batch reporting it absent |
| ObserverRuns.BatchIsConsistent | internal/observer/observer.go:359-481 | no batch reports one process both present and absent; only processes it reports present are placed or read, each in one place at most, in one exactly if all panes could be listed, and then in the pane with the best claim |
| ObserverRuns.MissCounter | internal/observer/observer.go:541-590 | the counter is the number of committed misses in a row, plus one for an entry known only from the store |
| ObserverRuns.AbsenceAfterTwoMisses | internal/observer/observer.go:541-636 | without grace an absence is emitted exactly on a miss that follows a committed miss, or on the first miss of a seeded entry |
| ObserverRuns.MissingSince | internal/observer/observer.go:541-590 | a noted start of absence is the time of a real miss, unbroken since |
| ObserverRuns.AbsenceAfterGrace | internal/observer/observer.go:592-598 | with grace an absence is emitted only after an unbroken span of that length |
| ObserverRuns.AbsenceExactlyAfterGrace | internal/observer/observer.go:592-598 | with grace a tracked process is reported absent exactly if it has been away that long since its first committed miss, or since the time the store gives |
| ObserverRuns.NegativeGraceNeverRetires | internal/observer/observer.go:592-598 | a negative grace period keeps every tracked process |
| ObserverRuns.PendingAbsenceIsRepeated | internal/observer/observer.go:600-636 | conflicts and errors never lose an absence: it is reported again until a batch is taken |
| ObserverRuns.CandidateSince | internal/observer/observer.go:984-1010 | the time noted for a candidate is that of a recorded cycle, and every recorded cycle since held it |
| ObserverRuns.NotMentionedBeforeConfirmation | internal/observer/observer.go:984-1045 | a process nothing vouches for appears in no observation before it has been held for the confirmation period in every recorded cycle |
| ObserverRuns.CandidateExactly | internal/observer/observer.go:984-1010 | a process is a candidate since a time exactly if a recorded cycle at that time first held it and all recorded ones since did |
| ObserverRuns.ReportedExactlyWhenConfirmed | internal/observer/observer.go:1012-1045 | an agent in the scan is reported present exactly if tracking, catalog, session or settings vouch for it, or it has been held for the confirmation period; otherwise it is held |
| ObserverRuns.TrackedAndHeldAreDisjoint | internal/observer/observer.go:600-636 | after a recorded cycle nothing is both tracked and a candidate |
| ObserverRuns.OnceTrackedNeverHeld | internal/observer/observer.go:984-1045 | once tracked, a process stays so and is not held back until a taken batch reports it absent |
| ObserverRuns.AbsenceOfTracked | internal/observer/observer.go:541-598 | in any run a tracked process is reported absent exactly when it is missing and due |
| ObserverRuns.AbsenceOfUntracked | internal/observer/observer.go:1863-1946 | in any run a process that is not tracked is reported absent exactly if a session that has not ended names it, no tracked process can be meant, and the scan proves it gone |
| PluginNames.TemporaryExactly | internal/install/plugin_directory.go:239-248 | the name test accepts exactly the names `MkdirTemp` can draw for that kind |
| PluginRecovery.RecoveryHasAnOutcome | internal/install/plugin_directory.go:125-237 | recovery always has an outcome, and it is a directory exactly if there is one to keep or restore |
| PluginRecovery.ReachedIsSafe | internal/install/plugin_directory.go:455-564 | from every disk a replacement can leave, recovery makes exactly the old or the new directory |
| PluginRecovery.ManyCrashes | internal/install/plugin_directory.go:125-164 | recovery interrupted any number of times still ends with the old or the new directory |
| PluginRecovery.OlderBackupComesBack | internal/install/plugin_directory.go:125-164 | a settled disk on which recovery after a removal puts an older directory in place |
| PluginRecovery.CrashedInstallComesBack | internal/install/remove.go:393-431 | a disk an installation can be cut off on, from which removal takes nothing and recovery restores the old directory |
| PluginRecovery.AsideComesBack | internal/install/plugin_directory.go:166-237 | the directory set aside is what recovery picks if and only if no other backup is as young |
| PluginDirectory.SomeAreSmooth | internal/install/plugin_directory.go:455-564 | schedules in which nothing fails, or only writing the manifest after its effect, exist for every disk with a free number |
| PluginDirectory.Plugin.InspectRecovery | internal/install/plugin_directory.go:166-237 | backups, leftovers and a newest backup, or refusal of a foreign backup and of nothing else unless a step fails |
| PluginDirectory.Plugin.Recover | internal/install/plugin_directory.go:125-164 | if no step fails and every backup is ours it succeeds; on success nothing is left over and the directory is what the disk called for; every disk on the way is as good to recover; a clean disk is left alone |
| PluginDirectory.Plugin.Stage | internal/install/plugin_directory.go:327-393 | a complete stage beside an otherwise unchanged disk, or nothing recovery would notice |
| PluginDirectory.Plugin.BackupCurrent | internal/install/plugin_directory.go:497-532 | the directory moved aside under a fresh name, or back where it was if undoing worked |
| PluginDirectory.Plugin.Replace | internal/install/plugin_directory.go:467-495 | the stage in place with the old directory as backup, or both undone |
| PluginDirectory.Plugin.RollbackReplacement | internal/install/plugin_directory.go:534-550 | success restores the old disk; failure leaves a disk that recovery can handle |
| PluginDirectory.Plugin.CommitReplacement | internal/install/plugin_directory.go:552-564 | the backup is removed, or everything is as before |
| PluginDirectory.Plugin.WriteChanges | internal/install/harness_plan.go:638-735 | directory and manifest change together or go back together, step by step |
| PluginDirectory.Plugin.Install | internal/install/harness_plan.go:638-735 | every disk on the way is crash safe; both end old or both new if at most one step fails; an import names a directory that recovery finds if and only if a condition on the disk and the new manifest holds beforehand; if nothing fails it succeeds |
| PluginDirectory.RemoveImport | internal/install/remove.go:570-586 | the import is gone, all others keep their place, and a change is reported exactly if it was listed |
| PluginDirectory.Plugin.PrepareRemoval | internal/install/remove.go:489-548 | up to the commit boundary either both are prepared or both undone |
| PluginDirectory.Plugin.Remove | internal/install/remove.go:519-568 | from any disk whose directory is managed: until the manifest is rewritten a crash leaves what recovery would have made before; an import never outlives its directory; both kept or both gone if at most one step fails; exactly when recovery still brings a directory back afterwards |
| PluginCrashes.CutRecovery | internal/install/plugin_directory.go:125-164 | wherever recovery is cut off, the disk is as good as before |
| PluginCrashes.RecoverAtLast | internal/install/plugin_directory.go:125-164 | recovery cut off any number of times and then run to its end, which succeeds if no step fails any more |
| PluginCrashes.CrashedInstall | internal/install/plugin_directory.go:455-564 | an installation cut off anywhere, any number of recoveries cut off anywhere, and one in which nothing fails leave exactly the old or the new directory and nothing beside it |
| PluginCrashes.CrashedRemoval | internal/install/remove.go:519-568 | the same for a removal; an import still listed names a directory that is there |
| WaitCondition.EvaluateMeansSatisfies | pkg/client/wait.go:441-471 | for validated options the case analysis is the stated condition, and waiting is given up on exactly the gone and unknown sessions |
| WaitCondition.WithoutValidationTheyDiffer | pkg/client/wait.go:146-178 | without validation the two differ on exactly the contradictory options, and then only by letting sessions through |
| WaitCondition.RemovalIsRememberedOnce | pkg/client/wait.go:347-408 | a session missing from snapshots stays gone since it was first missed |
| WaitRun.SinceIsEarliest | pkg/client/wait.go:363-383 | the run of matches kept up step by step is the longest one |
| WaitRun.Run.NextEvent | pkg/client/wait.go:259-287 | a wait is stable exactly if the timer has fired and nothing is queued |
| WaitRun.Run.ReplaceFailedStream | pkg/client/wait.go:289-313 | a fallback happens exactly in automatic mode, on a stream not yet durable, for an error that calls for it |
| WaitRun.Run.Pass | pkg/client/wait.go:194-257 | a cancelled turn ends the wait, one with something to look at judges it or replaces the stream, and a quiet one accepts if the timer has fired and otherwise lets it fire if it is due |
| WaitRun.Run.Take | pkg/client/wait.go:194-257 | while the wait goes on, every turn with something to look at has looked, and no quiet turn has followed an elapsed stability time |
| WaitRun.Run.Observe | pkg/client/wait.go:315-374 | each snapshot is judged and the timer follows the unbroken run of matches |
| WaitRun.Run.Wait | pkg/client/wait.go:194-257 | a result with stability stands at the end of the longest run of matches of one process on one stream that has lasted long enough, with nothing queued; without stability it is the first match; a failure has its reason; and as long as it waits, no snapshot has been missed, none seen settles it, and no quiet turn has followed an elapsed stability time; at most one fallback |
| Lexicographic.BetweenSharesMore | internal/cli/root.go:1106-1115 | what lies between two strings shares at least as much with each as they share |
| Lexicographic.NeighboursShareMost | internal/cli/root.go:1051-1070 | in sorted order no entry shares more than a neighbour |
| SessionIds.CommonPrefixLength | internal/cli/root.go:1106-1115 | the length of the longest common prefix |
| SessionIds.AbbreviatedId | internal/cli/root.go:1075-1095 | the suffix is cut as its two neighbours call for |
| SessionIds.NeighboursSuffice | internal/cli/root.go:1051-1095 | cutting by the neighbours tells apart from the whole group, and no shorter cut would |
| SessionIds.AbbreviatedIds | internal/cli/root.go:1034-1073 | every ID is shown in the shortest form of eight or more characters unique in its group |
| SessionIds.ShortIsUnique | internal/cli/root.go:1034-1095 | among distinct IDs there is one such form |
| SessionIds.SplitIsUnique | internal/cli/root.go:1097-1104 | an ID splits at its last dash in one way |
| SessionIds.ShortFormsDiffer | internal/cli/root.go:1034-1095 | different IDs are shown differently |
| SessionReferences.ResolveWithReference | pkg/client/selector.go:233-290 | an exact ID first, else the only candidate, else the error with all matches |
| SessionReferences.ResolveSessions | pkg/client/selector.go:135-231 | qualifiers filter in order, with and without a reference |
| SessionReferences.ResolutionMeans | pkg/client/selector.go:135-290 | a session of that very ID, else the one eligible session there is; not found if there is none, and all their IDs if there are several |
| SessionReferences.ShortFormResolves | pkg/client/selector.go:233-290 | the form shown for a session resolves to it over the whole list and any qualified part of it |
| SessionReferences.ConfusionIsReal | internal/cli/root.go:1075-1095 | for every confusable pair of group names two sessions of which one is ambiguous by its own form |
| GoQuote.QuoteRoundTrip | internal/service/service_linux.go:210-224 | unquoting undoes quoting for every string |
| GoQuote.QuoteCloses | internal/service/upgrade_linux.go:63-78 | the scan for the closing quote finds the one that closes |
| SystemdArguments.LiteralUndoesDoubling | internal/service/upgrade_linux.go:35-43 | halving percent and dollar signs undoes doubling them |
| SystemdArguments.ArgumentReads | internal/service/upgrade_linux.go:50-92 | a rendered argument is consumed whole and means what it was rendered from |
| SystemdArguments.LineRoundTrip | internal/service/upgrade_linux.go:28-47 | a rendered command line reads back as its arguments |
| SystemdArguments.FindClosingQuote | internal/service/upgrade_linux.go:63-78 | the index loop computes the position of the closing quote |
| SystemdArguments.ReadArguments | internal/service/upgrade_linux.go:28-43 | the consuming loop computes the argument list |
| SystemdUnit.InstalledArguments | internal/service/upgrade_linux.go:14-48 | the one command of a unit, or refusal of none and of several |
| SystemdUnit.RecoverOptions | internal/service/upgrade.go:156-194 | the index walk over flags and values |
| SystemdUnit.RecoveredMeans | internal/service/upgrade.go:156-194 | options come from exactly those arguments that are flags with a value or words without meaning; the last value of a flag counts, and store and a positive interval are needed |
| SystemdUnit.ExecStartIsLine | internal/service/service_linux.go:43-53 | the command line is the rendered argument list; only the paths ever need quoting |
| SystemdUnit.UnitReads | internal/service/service_linux.go:26-59 | a unit rendered for any absolute paths decodes to exactly its arguments |
| SystemdUnit.UpgradeIsStable | internal/service/upgrade.go:196-213 | options recovered from a rendered unit render to the same text |
| ShellWords.WordListRoundTrip | internal/harness/install.go:231-241 | any list of words survives quoting, joining with blanks and splitting |
| ShellWords.HookCommandSplits | internal/harness/install.go:274-303 | the words of a hook command are the intended arguments |
| ShellWords.FirstWordNamesCommand | internal/harness/install.go:231-241 | a quoted first word is where a shell looks for a program exactly if it is no setting and no reserved word |
| ShellWords.CommandRoundTrip | internal/harness/install.go:231-241 | any quoted command line is run with its arguments, with exactly those exceptions |
| ShellWords.HookCommandRuns | internal/harness/install.go:274-303 | a hook command runs the binary with the intended arguments exactly if the binary's name is none of the exceptions |
| HookGroups.GroupsCurrent | internal/install/hooks.go:63-122 | current exactly if the groups with hooks of ours are the planned ones in order |
| HookGroups.RemoveManagedGroups | internal/install/hooks.go:229-282 | what others have, in order, and whether anything of ours was there |
| HookGroups.CleanKeepsOthers | internal/install/hooks.go:229-282 | removal keeps every hook of others, in order and each in its group, and every group without hooks |
| HookGroups.UpsertedIsRight | internal/install/hooks.go:42-61 | afterwards ours are the planned groups, others are untouched, and a second time changes nothing |
| ManagedHooks.Apply | internal/install/harness_plan.go:175-262 | all events of the hooks object; an error exactly for a planned event that is no list; a change exactly if something is off |
| ManagedHooks.DropOthers | internal/install/remove.go:170-240 | every event but the kept ones loses our hooks, whatever the order |
| ManagedHooks.InstallIsRight | internal/install/harness_plan.go:175-231 | our groups are exactly the planned ones and nowhere else, others are untouched, installing again changes nothing |
| ManagedHooks.RemoveAfterInstall | internal/install/remove.go:154-240 | removal leaves others what they had before, hook by hook, and restores the object exactly under a stated condition |
| ManagedHooks.HookFile.Install | internal/install/harness_plan.go:154-248 | the file with our hooks in, written only if something changed |
| ManagedHooks.HookFile.Remove | internal/install/remove.go:154-183 | the file with our hooks out, a change reported exactly if there were any; an emptied hooks object goes too |
| ManagedHooks.FileRestored | internal/install/remove.go:134-183 | the same for one fixed owner |
| HookOwnership.Collect | internal/install/harness_plan.go:973-993 | the binaries vouched for anywhere in a configuration |
| HookOwnership.PlanIsProper | internal/install/harness_plan.go:264-297 | planned commands, tagged or vouched for by the plan, are ours whatever else a file holds |
| HookOwnership.InstallHooks | internal/install/harness_plan.go:175-231 | installation with the ownership it derives from file and plan |
| HookOwnership.RemoveHooks | internal/install/remove.go:134-183 | removal with the ownership it derives from the file |
| HookOwnership.InstalledVouches | internal/install/harness_plan.go:910-934 | after installing, a file vouches for no binary that neither it nor the plan did |
| HookOwnership.InstallTwice | internal/install/harness_plan.go:175-231 | installing again, ownership judged anew, finds nothing to do |
| HookOwnership.RemovesTheSame | internal/install/harness_plan.go:910-934 | removal, judging anew, takes out what installation would have |
| HookOwnership.RemoveTwice | internal/install/remove.go:154-183 | removing again, ownership judged anew, finds nothing |
| HookOwnership.RestoredWithOwnJudgement | internal/install/remove.go:134-183 | exactly when installing and removing, each judging for itself, gives back the very same configuration |
| ManagedText.RemoveBlocks | internal/install/harness_plan.go:505-535 | the loop ends, and its result holds no start marker |
| ManagedText.Removed | internal/install/harness_plan.go:505-535 | blocks taken out one after the other; nothing with a start marker is returned |
| ManagedText.OnlyBlocksAreRemoved | internal/install/harness_plan.go:505-535 | one whole block goes after the other, and of the rest of the text at most blanks and line breaks |
| ManagedText.RefusedWithoutBlock | internal/install/harness_plan.go:505-535 | a text is refused exactly if its first start marker begins no whole block |
| ManagedText.InstallKeepsText | internal/install/harness_plan.go:537-544 | the block is put behind the text, of which nothing but white space at its end is lost |
| ManagedText.RemoveAfterInstall | internal/install/harness_plan.go:505-544 | removing what was installed gives the cleaned text without white space at its end |
| ManagedText.InstallIsStable | internal/install/harness_plan.go:437-460 | installing twice is installing once |
| ManagedText.CommentMarkersAreSound | internal/harness/crush/adapter.go:18-19 | markers of the form in use meet the conditions |
| DetectionRules.InspectRule | internal/agentstate/detector.go:194-299 | the explaining test of a rule agrees with the live test and names a failure exactly if there is one |
| DetectionRules.InspectEvery | internal/agentstate/detector.go:301-319 | passes exactly if every item does |
| DetectionRules.InspectAny | internal/agentstate/detector.go:321-339 | passes exactly if some item does |
| DetectionRules.InspectNone | internal/agentstate/detector.go:341-359 | passes exactly if no item does |
| DetectionRules.RegionMeans | internal/agentstate/manifest.go:530-558 | a region is all lines, the first so many, or the last so many before a blank end; any other name is refused |
| DetectionRules.MatchMeans | internal/agentstate/detector.go:194-299 | a rule matches exactly if its region exists and its literals and expressions are found, or not found, in that text and the title |
| RuleEvaluation.Evaluate | internal/agentstate/detector.go:77-100 | the first matching rule in line decides, with the evidence up to it |
| RuleEvaluation.Inspect | internal/agentstate/detector.go:102-179 | every rule is explained truthfully, and one candidate is the winner |
| RuleEvaluation.AgreeUnlessNameless | internal/agentstate/detector.go:102-140 | exactly when the two evaluators agree |
| RuleEvaluation.ExplanationIsFaithful | internal/agentstate/detector.go:77-179 | for validated manifests they always do |
| RuleEvaluation.HighestPriorityWins | internal/agentstate/manifest.go:520-528 | the deciding rule has the highest priority of all that match and comes first among those |
| RuleEvaluation.Validate | internal/agentstate/manifest.go:419-518 | validation with its set of seen IDs is the stated condition |
| ReplyStream.EventWriter.Add | pkg/fakeprovider/stream.go:125-146 | entries are written in order and the first with content is marked |
| ReplyStream.AnthropicStream | pkg/fakeprovider/stream.go:179-240 | the entries of an Anthropic stream |
| ReplyStream.ChatStream | pkg/fakeprovider/stream.go:242-255 | the entries of a chat stream |
| ReplyStream.ResponsesStream | pkg/fakeprovider/stream.go:267-353 | the entries of a responses stream, numbered as they are written |
| ReplyStream.OneMark | pkg/fakeprovider/stream.go:139-146 | exactly one event is marked if any carries content |
| ReplyClients.AnthropicAgrees | pkg/fakeprovider/encode.go:210-232 | the stream put together again is the content and stop reason of the complete body, with indices in order |
| ReplyClients.ChatAgrees | pkg/fakeprovider/encode.go:234-283 | the same for text, tool calls and finish reason |
| ReplyClients.ResponsesAgree | pkg/fakeprovider/encode.go:306-337 | the same for the output items, with consecutive numbers from zero |
| ReplyClients.EveryStreamIsMarkedOnce | pkg/fakeprovider/stream.go:155-353 | each protocol marks exactly one event |
| EventFrames.StreamRoundTrip | pkg/fakeprovider/stream.go:355-364 | frames are read back event by event if and only if no name and no payload has a line break |
| EventFrames.CutStreamReads | pkg/fakeprovider/handle.go:248-279 | wherever a stream is cut off, its first events have been read unchanged |
| ReplyClients.RepliesSurviveTheWire | pkg/fakeprovider/stream.go:155-364 | from reply to text and back, each client ends with what the complete body says |
| ReplyClients.AnthropicTells | pkg/fakeprovider/encode.go:210-232 | the content is the text, shown if there is one to show, and the calls in order; the stop reason says whether there are calls |
| ReplyClients.ChatTells | pkg/fakeprovider/encode.go:234-283 | the same for a chat body and its finish reason |
| ReplyClients.ResponseTells | pkg/fakeprovider/encode.go:306-337 | the same for the output of a response |
| ReplyClients.RepliesAreUnderstood | pkg/fakeprovider/stream.go:155-364 | from a reply to the text of its stream and back to the very same reply, in all three protocols |
| ReplyStream.WriteEvents | pkg/fakeprovider/handle.go:248-279 | a stream written to its end was held exactly once if it was to be held |
| ProviderSessions.Server.Record | pkg/fakeprovider/server.go:241-267 | the request is appended to the current session at its position, pending |
| ProviderSessions.Server.Settle | pkg/fakeprovider/server.go:269-279 | the outcome is set in the session that recorded the request |
| ProviderSessions.Server.StartSession | pkg/fakeprovider/server.go:203-214 | the old session is abandoned and kept, a new one begins |
| ProviderSessions.Server.Ask | pkg/fakeprovider/server.go:167-192 | a negative count is refused, enough requests are returned at once, else the waiter sleeps on the present channel |
| ProviderSessions.Server.Awake | pkg/fakeprovider/server.go:167-192 | a woken waiter gets an error exactly if the server closes or its context is done, and otherwise looks again |
| ProviderSessions.Server.Perform | pkg/fakeprovider/handle.go:126-231 | any single step keeps every invariant and takes the state to exactly `Step` of it; requests change only from pending to settled |
| ProviderSessions.Server.Run | pkg/fakeprovider/server.go:132-293 | so does any interleaving, which ends in `After` of its script; nobody comes in after any `Close` has returned, and nobody is there if it found the server open or the handlers had gone |
| ProviderSessions.Server.CallClose | pkg/fakeprovider/server.go:132-138 | the first call closes the server and waits; any other returns at once, with whoever is running still running |
| ProviderSessions.SecondCloseReturnsEarly | pkg/fakeprovider/server.go:132-138 | a run in which `Close` returns while a handler is running |
| ProviderSessions.SettledIsSound | pkg/fakeprovider/server.go:269-279 | settling one request leaves all others with their owners |
| ProviderSessions.NobodyLeftNothingPending | pkg/fakeprovider/server.go:132-148 | with no handler left every request is in its place, and unsettled exactly if its script panicked |
| ProviderSessions.SettledForGood | pkg/fakeprovider/server.go:269-279 | an outcome once set is never set again |
| ProviderSteps.StepIsSound | pkg/fakeprovider/server.go:132-293 | every step keeps requests in place and owned, and lets nobody sleep while what is waited for is there |
| ProviderRuns.RunOf | pkg/fakeprovider/server.go:132-293 | every script has its run, which ends in the state `Server.Run` ends in |
| ProviderRuns.SessionsCounted | pkg/fakeprovider/server.go:203-214 | there is one session more than resets, and the server is closed exactly if `Close` has been called |
| ProviderRuns.AbandonedByReset | pkg/fakeprovider/server.go:203-214 | exactly the sessions before the last reset are abandoned |
| ProviderRuns.RequestsCounted | pkg/fakeprovider/server.go:241-267 | every session holds as many requests of each kind as were recorded between its two resets |
| ProviderRuns.RequestsAreThoseRecorded | pkg/fakeprovider/server.go:241-267 | a request exists exactly if a handler recorded it, in the session current then and at the place free then |
| ProviderRuns.HandlersKeepTheirRequest | pkg/fakeprovider/handle.go:126-163 | a handler goes on with the request it recorded, whatever is reset meanwhile |
| ProviderRuns.SettledExactlyAsDecided | pkg/fakeprovider/handle.go:137-231 | the outcome of a request is exactly what its handler decided on and then set |
| ProviderRuns.HoldsGivenUpWithCause | pkg/fakeprovider/handle.go:137-163 | a hold is given up only if its context is done, the server closes or the session was reset |
| ProviderRuns.HoldEnds | pkg/fakeprovider/handle.go:137-163 | a handler gets past a hold only by release once it was offered, or by giving it up |
| ProviderRuns.OffersWereMade | pkg/fakeprovider/handle.go:137-163 | an offered hold was offered after it began |
| ProviderRuns.CrashedExactly | pkg/fakeprovider/handle.go:137-163 | a request is left behind exactly if its script panicked |
| ProviderRuns.FirstErrorStays | pkg/fakeprovider/server.go:281-288 | the error of a session is exactly the first that was reported to it |
| ProviderRuns.RejectionsBegan | pkg/fakeprovider/handle.go:233-236 | a rejection is reported to the session that was current when it began |
| ProviderRuns.InsideExactly | pkg/fakeprovider/server.go:221-232 | who is inside came in while the server was open, and has neither finished and left nor panicked |
| ProviderRuns.AskersSleep | pkg/fakeprovider/server.go:167-192 | who asks sleeps exactly if too few conversations were recorded in the current session |
| ProviderRuns.NoLostWakeup | pkg/fakeprovider/server.go:167-192 | a sleeper for whom enough has been recorded can be woken and is then done |
| ProviderRuns.CloseCanReturn | pkg/fakeprovider/server.go:131-148 | after `Close` all handlers can finish by themselves, held ones too, and it then returns |
| ProviderRuns.NewcomersRecord | pkg/fakeprovider/handle.go:126-141 | on an open server a newcomer records one pending request at the end of the current session |
| ProviderRuns.ReleasedAsIfNeverHeld | pkg/fakeprovider/handle.go:137-163 | a hold that is offered and released changes nothing |
| ProviderRuns.VerdictsAreSet | pkg/fakeprovider/handle.go:165-183 | a verdict is set on the handler's own request and on no other |
| ProviderRuns.NewcomersAreRejected | pkg/fakeprovider/handle.go:233-236 | a rejection is the error of the current session unless it has one already |
| ProviderRuns.ReportingMeans | pkg/fakeprovider/server.go:281-288 | reporting an error sets that of the session if it has none, and changes nothing else |

## Left out

- The registry reducer, its stores and the harness catalog; the store's answer is arbitrary, and `resolveHarness`, `IsAgentWrapper` and screen support are attributes of a process.
- Which process of a pane's group is selected when none is tied to it (`multiplexerPaneProcess`) and the delay of screen decisions: the selection is an arbitrary input of `PanePlacement`.
- The health file, the observer lock and all reading of processes, panes and catalogs.
- Real file system details: permissions, symbolic links, durability of `fsync`, partly removed trees. Timestamps on the disk are taken to lie in the past of the clock.
- Forced replacement of a foreign plugin directory, plugin registration, and retired plugin locations.
- PluginDirectory.Plugin.Install: assumes a settled disk (any old backup is older than the directory), as `recover` leaves it (`CleanIsSettled`); after a rollback step has failed only crash safety is claimed.
- PluginDirectory.Plugin.Remove: the manifest is a list of names; the other fields of an import are not part of this model.
- WaitRun.Run.Wait: the schedule is finite, so a wait that never ends is the outcome `Waiting`; the timeout is one cause of cancellation.
- Transports and the JSON encoding of payloads: it is any encoding without line breaks that decoding undoes, and whether a payload can be encoded is an arbitrary test.
- SessionIds.AbbreviatedIds: strings are sequences of characters, not bytes, so a cut inside a multi-byte character is not modelled.
- GoQuote.QuoteRoundTrip: strings are sequences of Unicode scalar values; bytes that are not valid UTF-8, and escapes for single bytes above 0x7F, are not modelled.
- SystemdUnit.UpgradeIsStable: durations are printed and parsed by functions taken to be inverse, and absolute paths are taken to be stable under `filepath.Abs`.
- ShellWords.WordListRoundTrip: operators, expansions, patterns and comments are recognised only to be refused.
- ShellWords.HookCommandRuns: aliases, and whether a name found is that of a built-in, a function or a program, are not part of this model.
- HookOwnership.RestoredWithOwnJudgement: every planned command is taken to be a tagged report command, or a native hook command of a binary that another planned command reports with, as in the plans for claude, codex, droid and qwen; the tag pattern and the splitting of commands are arbitrary functions; numbers are compared by value everywhere, although the code does so for timeouts only.
- ManagedText.RemoveBlocks: markers have no line breaks and the end marker cannot begin inside the start marker; the TOML check of one caller is not part of this model.
- Regular expressions, case folding and activity names of detection rules are arbitrary functions; the wording of explanations is shortened.
- The form with hooks at the root of a file, Cursor hooks, shims and external registration.
- The Cobra commands, tables, colour, doctor report, configuration loading, history index and search.
