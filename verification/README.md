# OpenOrchestra, modelled and proved

OpenOrchestra drives coding agents through planning, execution, testing, review and delivery. The
decisions between the agents are made by a handful of small engines. This project models those engines
in Dafny and proves what they promise. `dafny verify dfyconfig.toml` checks everything.

| engine | modules |
|---|---|
| configuration printer and indentation-stack parser | `Config`, `ConfigLoader` (the code), `ConfigScalars`, `ConfigComments`, `ConfigDocs` (hand-written files), `ConfigRoundTrip`, `ConfigText`, `ConfigLines`, `ConfigBreaks` (printed files), `ConfigStack` (the parser's stack) |
| bulkhead scheduler | `Scheduler` (the code), `SchedulerRuns` (all interleavings), `SchedulerGuarantees` |
| artifact visibility | `Visibility`, `VisibilityFilter` (the code), `VisibilityMeaning`, `VisibilityRounds`, `VisibilityShown`, `VisibilityRules` |
| patch analysis and patch gate | `PatchAnalysis` (the code), `PatchLines`, `PatchSections`, `PatchGate` |
| circuit breaker | `Health` (the code), `HealthHistory` |
| retry loop and token budgets | `Retry` (the code), `RetryRepeats`, `RetryBudgets` |
| input staging | `Utf8`, `Staging` (the code), `StagingBudget` |
| contract repair and checking | `Json`, `Aliases`, `AliasRepair`, `Acceptance`, `AcceptanceVerdict`, `ArtifactPlane` |
| saga, event stores, configuration overlay | `Saga`, `Events`, `Overlay` |

Code that loops over local variables, fields or containers is modelled by methods and classes, each
proved equal to a function of its inputs; the theorems are about those functions. The scheduler is a
class with its counters, and beside it a state machine over the steps of any number of workers, whose
steps `Enter`, `Take` and `Free1` change the free permits as `SemaphoresFor`, `TryAcquire` and `Release` do.

Where the code and what one would expect of it differ, the model follows the code:

* The configuration parser does not undo the printer's escapes, a list item that is a list or a dict
  with a nested first value is printed as quoted text, and an empty list inside a list item reads
  back as an empty dict. `ConfigBreaks.RoundTripExactly` says exactly which configurations come back.
* A failing `git diff --check` is recorded as a failed materialization, so its own failure label is
  never used (`PatchGate.FailureMeans`).
* A failure below the threshold closes a circuit that an authentication failure had opened
  (`HealthHistory.LaterFailureCloses`).
* A backend that overstates the budget it was sent can raise the next one that is sent
  (`RetryBudgets.OverstatedReport`); `RetryBudgets.DowngradeLowersIff` says exactly when it is lowered.
* If bookkeeping raises after a run is recorded as COMPLETED or OUTPUT_INVALID, the handler's FAILED is
  refused and the call ends in an exception; a COMPLETED run is then left without a result
  (`RetryBudgets.RaisingAfterCompleted`, `RetryBudgets.CompletedMeans`).
* A worker cancelled in the timed wait for its last semaphore still runs if the permit comes
  (`SchedulerGuarantees.CancelledStillRuns`).
* The previous round of round 0 is round 0 (`VisibilityRounds.PreviousOfRoundZero`).
* An unrequired `delivery.md` fails the validation without any report being rejected
  (`ArtifactPlane.StrayDeliveryDisagrees`).

What the engines read from outside is a parameter: `repr` of containers and `json.loads` of inline lists
(`Env`), the outcomes of git commands and agent runs, the clock, estimated tokens, the readers of file
contents (`Readers`), the trivial repairs of a directory (`Repairer`), and what a file says about its
round or its review decision (fields of `Visibility.Artifact`). Two facts about Python are assumed of
such parameters where a theorem names them: `repr` never prints a line break (`ReprOnOneLine`), and an
inline JSON list gives a string with a line break only if it has a quote that no backslash precedes
(`BreaksNeedQuotes`).

## Model

| member | source | states |
|---|---|---|
| `ConfigLoader.StripInlineComment` | harness/config/loader.py:12-27 | the scanner with its three flags cuts a line exactly where the first `#` outside quotes at a word start is, and strips blanks from the end |
| `ConfigLoader.CleanLines` | harness/config/loader.py:69-73 | the entries are the comment-free lines of the text that are not blank, in order |
| `ConfigLoader.MinimalYamlLoad` | harness/config/loader.py:61-109 | the parser over mutable, aliased containers and a stack of them ends with a heap tree that holds exactly the value the specification `Load` gives, or rejects the text with the same error |
| `ConfigLoader.Feed` | harness/config/loader.py:75-108 | one entry, processed on the heap, keeps every stacked container the live child of the one below it and matches the specification step |
| `ConfigLoader.FeedItem` | harness/config/loader.py:83-94 | a `- ` line appends a scalar, or a one-key dict that becomes the top of the stack; outside a list it is rejected |
| `ConfigLoader.FeedKey` | harness/config/loader.py:95-108 | a `key:` line sets the key in the top dict, in place, and a container value becomes the top of the stack; inside a list, or without a colon, it is rejected |
| `ConfigLoader.PopTo` | harness/config/loader.py:80-82 | containers indented at least as far as the line are popped, and their final values are those of the specification |
| `ConfigLoader.DumpConfig` | harness/config/loader.py:131-132 | the printed text is the specification text of the configuration |
| `ConfigLoader.DumpMapping` | harness/config/loader.py:143-160 | the recursive printer of dicts produces the specification lines |
| `ConfigLoader.DumpListItem` | harness/config/loader.py:163-181 | so does the printer of list items, with its own rule for lists inside a list item |
| `ConfigScalars.ParseIntMeans` | harness/config/loader.py:55-58 | `int` takes exactly the integer literals (a sign, digits, single underscores between them) and gives the number they spell |
| `ConfigScalars.ScalarReads` | harness/config/loader.py:30-58 | what every scalar text reads as, blanks around it or not: the text between either kind of quotes; a list; an error for a block marker; and for any other word its truth value in any case, its integer, or exactly itself |
| `ConfigDocs.LoadEntries` | harness/config/loader.py:74-109 | for a block as people write it (nested at any indentation steps, lists of words and of records): its lines, followed by any that end the block, leave the stack as it was with exactly what the block says added |
| `ConfigDocs.LoadEntry` | harness/config/loader.py:95-108 | the same for one entry of any kind and depth |
| `ConfigDocs.LoadItems` | harness/config/loader.py:83-94 | the same for the items of a list |
| `ConfigDocs.LoadRecord` | harness/config/loader.py:87-91 | the same for a dict that is a list item |
| `ConfigDocs.WrittenLoads` | harness/config/loader.py:61-109 | a hand-written file with any comments loads to exactly what it says: every key, in order, to the word, number, truth value or quoted text behind it, or the list or block below it |
| `ConfigRoundTrip.ReloadEntriesFixes` | harness/config/loader.py:143-193 | what comes back is the configuration itself iff it is dumpable: no quote or backslash in a string, no None, list items scalars or dicts with a scalar first value, lists in list items non-empty |
| `ConfigScalars.MeansSurvives` | harness/config/loader.py:12-27 | a word or quoted text passes the comment scanner and the line splitter unchanged, whatever precedes and follows it |
| `ConfigDocs.EntriesSurvive` | harness/config/loader.py:12-27 | the comment scanner leaves every line of a written file unchanged, also with a comment appended |
| `ConfigText.PrintedIsDoc` | harness/config/loader.py:143-193 | the printer writes such a file: its lines are those of a well-written document that says the reloaded entries |
| `ConfigText.DumpedEntries` | harness/config/loader.py:69-73 | splitting a printed text and stripping comments gives back the printed lines |
| `ConfigText.DumpThenLoad` | harness/config/loader.py:61-160 | loading a printed text succeeds for every configuration with plain distinct keys and one-line strings, at any depth, and gives exactly its reloaded form |
| `ConfigText.RoundTripIffDumpable` | harness/config/loader.py:61-193 | the round trip is the identity exactly for the dumpable configurations |
| `ConfigText.CommentsAreIgnored` | harness/config/loader.py:64-66 | blank lines and comments added to a printed file do not change what it loads to |
| `ConfigBreaks.LawfulIsTame` | harness/config/loader.py:12-59 | no line of a printed text, also one that starts inside a string, gives the parser an inline list with a string in it |
| `ConfigBreaks.PrintedLoadsWithoutBreaks` | harness/config/loader.py:61-193 | whatever strings a configuration holds, what its printed text loads to has no line break in any string |
| `ConfigBreaks.RoundTripExactly` | harness/config/loader.py:61-193 | for every configuration with plain distinct keys and any strings: the round trip is the identity iff it is dumpable and no string has a line break |
| `ConfigStack.StepKeepsPath` | harness/config/loader.py:75-108 | each accepted entry keeps the stack of the specification a root-to-cursor path: non-empty, indents strictly increasing above the root, and at the position each container was put the one below it holds a container of its kind |
| `ConfigStack.StackIsAlwaysAPath` | harness/config/loader.py:74-108 | that stack is such a path at every point of every text, accepted or rejected later |
| `ConfigLoader.PathIsReferencePath` | harness/config/loader.py:74-108 | so the stack of references standing for it starts with the root dict, has no container twice, and each container on it is the very object the one below it holds, indented deeper |
| `ConfigLoader.FeedFirst` | harness/config/loader.py:74-108 | after any number of entries of any text the real loop has exactly that stack of references, or has rejected the text with the same error |
| `ConfigStack.StackAfterIsTheRun` | harness/config/loader.py:74-109 | the stack of the specification is the one of the real run: continuing from it gives the outcome of the whole text |
| `Text.ParseIntOfText` | harness/config/loader.py:55-58 | reading the decimal text of an integer gives the integer |
| `Text.SplitOfJoin` | harness/config/loader.py:132 | splitting the joined lines gives the lines back |
| `Scheduler.BackendBulkheadScheduler.constructor` | harness/core/scheduler.py:23-38 | a new scheduler has the global semaphore, full, iff it is limited, and no other |
| `Scheduler.BackendBulkheadScheduler.SemaphoresFor` | harness/core/scheduler.py:72-90 | names the limited semaphores in the order global, backend, role, and creates exactly the missing ones with all their permits |
| `Scheduler.BackendBulkheadScheduler.TryAcquire` | harness/core/scheduler.py:96-97 | takes one permit of one semaphore iff there is one; every other counter is unchanged |
| `Scheduler.BackendBulkheadScheduler.Release` | harness/core/scheduler.py:69-70 | gives one permit back; every other counter is unchanged |
| `Scheduler.BackendBulkheadScheduler.Acquire` | harness/core/scheduler.py:54-70 | on its own, a caller gets all its permits in order, or, cancelled while waiting, leaves every counter as it was |
| `Scheduler.BackendBulkheadScheduler.AcquireWithCancel` | harness/core/scheduler.py:92-98 | polls until a permit comes or the cancel flag is set, and takes the permit iff it comes first |
| `Scheduler.BackendBulkheadScheduler.ReleaseAll` | harness/core/scheduler.py:68-70 | releasing what was acquired, last first, restores every counter |
| `SchedulerRuns.StepInv` | harness/core/scheduler.py:54-98 | every step of every worker keeps: free permits plus holders is the limit of each semaphore, and each worker holds a prefix of its ordered semaphores |
| `SchedulerRuns.RunInv` | harness/core/scheduler.py:54-98 | so does every run, of any number of workers in any interleaving |
| `SchedulerRuns.TakenConserves` | harness/core/scheduler.py:66-67 | taking a permit keeps the sum of free permits and holders, and releasing is its exact inverse |
| `SchedulerGuarantees.SemaphoresAre` | harness/core/scheduler.py:72-82 | a worker takes the global semaphore if there is a global limit, then that of its own backend and that of its own role, each iff its table lists the name, `default` or `*`; nothing else |
| `SchedulerGuarantees.PermitsAre` | harness/core/scheduler.py:76-90 | the permits of a semaphore are the entry of its name, else that of `default`, else that of `*`, in its own table |
| `SchedulerGuarantees.LimitsHold` | harness/core/scheduler.py:54-90 | in every reachable state no more workers are in the guarded body than the global limit, no more of any backend than its entry in the backend table and no more of any role than its entry in the role table |
| `SchedulerGuarantees.SemaphoresHold` | harness/core/scheduler.py:54-90 | and the permits of each semaphore are accounted for |
| `SchedulerGuarantees.AllReturned` | harness/core/scheduler.py:68-70 | when all workers are done every counter is back at its limit |
| `SchedulerGuarantees.SomeoneMoves` | harness/core/scheduler.py:63-67 | deadlock freedom: as long as a worker is not done, some worker can take a step that is neither an idle poll nor a cancellation |
| `SchedulerGuarantees.HolderWaitsHigher` | harness/core/scheduler.py:72-82 | whoever holds a semaphore waits, if at all, for one further up the order global, backend, role |
| `SchedulerGuarantees.ProgressIsBounded` | harness/core/scheduler.py:63-70 | each such step uses up a bounded amount of work |
| `SchedulerGuarantees.CanFinish` | harness/core/scheduler.py:54-70 | so from every state of every run all workers can still finish without cancelling anyone |
| `SchedulerGuarantees.CallersCanFinish` | harness/core/scheduler.py:54-70 | so any number of callers, whatever they ask for, have a run in which every call gets through and ends |
| `SchedulerGuarantees.UnwindReturns` | harness/core/scheduler.py:68-70 | unwinding gives back exactly the permits held, one of each, and changes nothing else |
| `SchedulerGuarantees.CancelAnytime` | harness/core/scheduler.py:92-95 | any worker can be cancelled at any time, which sets its flag and nothing else |
| `SchedulerGuarantees.CancelReturns` | harness/core/scheduler.py:92-95 | cancellation at any waiting point, before the flag is checked or in the timed wait for a semaphore, returns exactly the permits taken before it |
| `SchedulerGuarantees.LatePermitReturns` | harness/core/scheduler.py:92-98 | if the awaited permit still arrives, and a further semaphore is to be asked for, it is returned with the others |
| `SchedulerGuarantees.CancelledNeverRuns` | harness/core/scheduler.py:92-98 | a cancelled worker that will still look at its flag before its last permit never enters the guarded body, whatever the others do |
| `SchedulerGuarantees.CancelledStillRuns` | harness/core/scheduler.py:92-98 | every other cancelled worker has a run that enters the body, if the permit it may be waiting for, its last, is there |
| `VisibilityFilter.FilterVisibleArtifacts` | harness/artifacts/visibility.py:40-95 | the one-pass filter with its list, id set and latest table returns exactly the specification list, in order |
| `VisibilityFilter.VisibilityReason` | harness/artifacts/visibility.py:103-159 | the explanation names the first matching rule, or none |
| `VisibilityFilter.VisibilityContext` | harness/artifacts/visibility.py:167-203 | the four parts of the context |
| `VisibilityFilter.LatestRejectedPlanReviewRound` | harness/artifacts/visibility.py:371-392 | the loop finds the greatest earlier round whose plan review asked for changes |
| `VisibilityFilter.LatestCompleteArtifactPhase` | harness/artifacts/visibility.py:335-369 | the loop with its two tables finds the complete phase with the greatest best report |
| `Visibility.RuleFor` | harness/artifacts/visibility.py:67-91 | the rule an artifact falls under matches it and no earlier rule does; none only if no rule matches |
| `VisibilityMeaning.KeyTotal` | harness/artifacts/visibility.py:205-230 | order keys are totally ordered |
| `VisibilityMeaning.LessMeans` | harness/artifacts/visibility.py:205-230 | the order is: lower round (of the phase, else declared, else -1), then lower version, then earlier time, then id or path; times and ids by their first different character |
| `VisibilityMeaning.BestIsGreatest` | harness/artifacts/visibility.py:82-88 | the kept artifact of a rule and type has the greatest order key of its group |
| `VisibilityMeaning.SameName` | harness/artifacts/visibility.py:54-59 | when two artifacts count as one: by id, else path, else row |
| `VisibilityMeaning.OwnIdsAreDistinct` | harness/artifacts/visibility.py:54-59 | artifacts with ids of their own are told apart, as the theorems below ask for |
| `VisibilityMeaning.OnceEachIs` | harness/artifacts/visibility.py:54-59 | dropping duplicates keeps every name exactly once and adds nothing |
| `VisibilityMeaning.FilterMeaning` | harness/artifacts/visibility.py:61-95 | for distinct ids an artifact is shown iff its first matching rule is not latest-per-type, or it is not older than any artifact of its type with that first rule |
| `VisibilityShown.MatchesMeans` | harness/artifacts/visibility.py:232-312 | a rule matches exactly the artifacts of its role, phases, types and round, in terms of the artifacts there are: which planning round is the last, which review was rejected last, which test phase with both reports has the latest one |
| `VisibilityShown.TestedContext` | harness/artifacts/visibility.py:314-369 | the test phase chosen is the one that has a bug report and a tester result and the latest report of all such phases |
| `VisibilityShown.VisibleIsShown` | harness/artifacts/visibility.py:40-95 | the whole query: shown is exactly what some rule admits, and under latest-per-type rules only what is not older than another artifact of its type with the same first rule |
| `VisibilityMeaning.ExplanationAgrees` | harness/artifacts/visibility.py:61-146 | every returned artifact has an explaining rule, it is the rule that admitted it, and no two returned artifacts share a name |
| `VisibilityRounds.CompleteTestPhaseIs` | harness/artifacts/visibility.py:335-369 | the latest complete test phase holds a report of every type and the greatest report of all such phases; there is none iff no phase is complete |
| `VisibilityRounds.OneCompletePhase` | harness/artifacts/visibility.py:294-297 | whatever the latest-complete-test policies match stems from that one phase |
| `VisibilityRounds.OrderDoesNotMatter` | harness/artifacts/visibility.py:40-95 | context and shown set do not depend on the order of the artifacts |
| `VisibilityRounds.BackwardRuleSame` | harness/artifacts/visibility.py:232-312 | adding artifacts of rounds at or after the target (1 or more) changes nothing of what a before-current, previous, rejected-review, latest-before-current or complete-test-before-current rule matches |
| `VisibilityRounds.RoundIsolation` | harness/artifacts/visibility.py:40-95 | and nothing of what is shown under such rules, unless some rule depends on the latest planning round or the latest complete test |
| `VisibilityRounds.PreviousOfRoundZero` | harness/artifacts/visibility.py:306-307 | exactly at targets of 0 or less a later round, round 0, passes for the previous one |
| `VisibilityRules.PhasesAreIsolated` | harness/artifacts/schemas.py:104-322 | for the rule table of the harness, round isolation holds in every role and phase but execution and the final review |
| `VisibilityRules.FixersSeeOneTestPhase` | harness/artifacts/schemas.py:231-263 | fixing executors see tester reports only of the latest complete test phase before the current round |
| `VisibilityRules.FixersSeeExactly` | harness/artifacts/schemas.py:231-263 | of the testers they are shown exactly the two reports of the last test phase before the current round that has both |
| `VisibilityRules.ReviewersSeeOneTestPhase` | harness/artifacts/schemas.py:297-304 | the final review sees tester reports only of the latest complete test phase |
| `VisibilityRules.ReviewersSeeExactly` | harness/artifacts/schemas.py:297-304 | and exactly the two reports of that phase |
| `VisibilityRules.NobodyReviewsTheirOwnPlan` | harness/artifacts/schemas.py:124-132 | a planner never sees its own plan in the peer review |
| `VisibilityRules.PeersSeeExactly` | harness/artifacts/schemas.py:124-132 | of the planners it is shown exactly the plans drafted or revised in the round by others |
| `VisibilityRules.BeginnersSeeExactly` | harness/artifacts/schemas.py:182-189 | an executor that begins is shown exactly the plan and contracts selected in the last planning round |
| `PatchAnalysis.AnalyzeUnifiedDiff` | harness/patch/gate.py:207-313 | the loop with its ten variables collects exactly what the line machine specifies, or raises on a `---` or `+++` line without a path |
| `PatchLines.LineMeans` | harness/patch/gate.py:232-282 | which lines are headers, old and new files, deletions, other metadata, hunks, additions and removals, by how they begin |
| `PatchLines.CountsMean` | harness/patch/gate.py:277-282 | the added lines counted are those that begin with `+` and not `+++`, the removed ones those that begin with `-` and not `---`, the files those that begin with `diff --git` |
| `PatchLines.ModeMeans` | harness/patch/gate.py:316-325 | a mode line is in error iff its mode is six octal digits other than 100644 and 100755 |
| `PatchLines.HeaderPathsMean` | harness/patch/gate.py:833-842 | which two paths a header names, and what it names where one of them is no file |
| `PatchLines.BarePath` | harness/patch/gate.py:845-851 | quotes around a path are taken off, and both ways to write it name no file |
| `PatchLines.PathReadsBack` | harness/patch/gate.py:845-851 | a path is read as its components, with the root it starts with |
| `PatchLines.SuffixMeans` | harness/patch/gate.py:864-868 | the name is the last component, the suffix what follows its last dot inside it |
| `PatchSections.StepAbove` | harness/patch/gate.py:232-282 | what a line adds does not depend on what earlier sections have collected |
| `PatchSections.AnalysisComposes` | harness/patch/gate.py:207-282 | analysing `p + q`, `q` starting with a `diff --git` header, adds the counts, strings the errors together, unites the changed and deleted files in order without duplicates, and raises iff one part does |
| `PatchSections.OneSection` | harness/patch/gate.py:221-282 | one section: its header names the changed files, deletions take the old path in force, mode errors come in order, and it must have file lines and a hunk unless it only changes metadata |
| `PatchSections.MachineIsPerSection` | harness/patch/gate.py:207-284 | the line machine equals the sum of its sections, for every patch |
| `PatchSections.SectionsCover` | harness/patch/gate.py:233-242 | the sections are the patch, cut before every header |
| `PatchSections.LegalIffEverySectionIs` | harness/patch/gate.py:76-78 | no legality error from the lines iff no section has one |
| `PatchSections.UnionIsOrdered` | harness/patch/gate.py:245-247 | file lists keep the order of first appearance and have no duplicates |
| `PatchGate.HeaderReadsBack` | harness/patch/gate.py:833-851 | the header git writes for names without blanks is read back as the two paths |
| `PatchGate.FileLineReadsBack` | harness/patch/gate.py:250-259 | a `---` or `+++` line is read as the path behind `a/` or `b/`, as no file for `/dev/null`, and raises if it names nothing |
| `PatchGate.AllInScope` | harness/patch/gate.py:854-871 | no scope error iff every changed path is relative, without `..`, and hits none of the forbidden sets |
| `PatchGate.FailureMeans` | harness/patch/gate.py:524-543 | which label a failure gets, for each label, both ways; a failing whitespace check is labelled as a failed materialization and no run is labelled `diff_check` |
| `PatchGate.PassingPatch` | harness/patch/gate.py:119-204 | a patch text passes the gate iff it is not blank, has header lines and changed files, every section of it is legal, every changed path is in scope, no more lines begin with `+` or `-` (but not `+++` or `---`) and no more files are deleted than allowed, every git command succeeds and the export works if wanted |
| `Health.BackendHealthMonitor.constructor` | harness/adapters/health.py:69-92 | limits are clamped and every persisted state is restored |
| `Health.BackendHealthMonitor.Check` | harness/adapters/health.py:113-123 | the new state, the persisted snapshot and the answer; other backends untouched |
| `Health.BackendHealthMonitor.RecordSuccess` | harness/adapters/health.py:125-133 | the backend is as new, persisted |
| `Health.BackendHealthMonitor.RecordFailure` | harness/adapters/health.py:135-151 | failures about size, contracts or the runtime change nothing; others count, and open the circuit on authentication or at the threshold, else degrade it |
| `Health.BackendHealthMonitor.CooldownBackend` | harness/adapters/health.py:153-162 | the circuit opens until the given time and counts at least one failure |
| `HealthHistory.CountsMeans` | harness/adapters/health.py:47-51 | the failures that count are those of authentication, timeout and run time |
| `HealthHistory.HistoryExplains` | harness/adapters/health.py:113-162 | the state kept is what the history says: the failure count is the running count since the last success, and the circuit is open iff the last setting call opened it and no later check saw its deadline pass |
| `HealthHistory.CheckBlocksIff` | harness/adapters/health.py:113-123 | `check` blocks iff that holds and the deadline is still ahead |
| `HealthHistory.MonotoneCheckBlocksIff` | harness/adapters/health.py:113-123 | on a clock that does not run backwards only the last setting call and its deadline decide |
| `HealthHistory.LaterFailureCloses` | harness/adapters/health.py:143-149 | a later failure below the threshold closes even a circuit opened by authentication |
| `HealthHistory.OneBackendsHistory` | harness/adapters/health.py:183-184 | backends do not influence one another |
| `HealthHistory.RebuiltAnswersAlike` | harness/adapters/health.py:85-92 | a monitor rebuilt at any moment from the last persisted snapshots answers every later run of calls identically |
| `Retry.RunAgentWithRetry` | harness/agents/runner.py:376-671 | the attempt loop runs exactly the specified attempts and ends with the specified verdict |
| `Retry.RunAttempt` | harness/agents/runner.py:502-665 | one turn, with its handler: the budget sent, the statuses written in order, and whether it is accepted, repeated, repeated with a lower budget, given up, or left by an exception |
| `Retry.OverrideReadsBack` | harness/agents/runner.py:1034-1047 | reading the budget of a role after overriding it gives the override; window and buffer stay. With a number per role other roles keep theirs, unless the role is `default` and they have none of their own; with one number or none every role gets the override |
| `RetryBudgets.AttemptsAreBounded` | harness/agents/runner.py:397-671 | at most `max_retry + 1` attempts; every one but the last is to be repeated, the verdict says how the last one ended, and the last allowed attempt never asks for a lower budget |
| `RetryRepeats.EndMeans` | harness/agents/runner.py:502-665 | how an attempt ends, from what the outside answered: accepted iff it succeeds; else repeated iff its report is no size failure and the circuit still lets calls through; lowered iff it is not the last and the report says by how much; else given up; or left by an exception |
| `RetryRepeats.OrdinaryFailuresRepeat` | harness/agents/runner.py:397-671 | after ordinary failures the call stands where it would stand had it begun with the next attempt |
| `RetryRepeats.RetriedUntilAccepted` | harness/agents/runner.py:397-671 | if the attempts before number `j` fail in the ordinary way and number `j` succeeds, the call has its result after `j + 1` attempts |
| `RetryRepeats.RetriedUntilExhausted` | harness/agents/runner.py:661-671 | if all fail in the ordinary way, exactly `max_retry + 1` run and the call ends in that failure |
| `RetryRepeats.StoppedBetween` | harness/agents/runner.py:397-470 | a phase that timed out, an open circuit or a setup that raises stops the call before its next attempt |
| `RetryBudgets.SentMeans` | harness/adapters/claude_config.py:87-115 | what is sent: nothing without a limit, the limit without a window, else the most that limit and window, beside estimate and buffer, leave room for; an error iff that is less than 64 |
| `RetryBudgets.DefaultsSend` | harness/adapters/claude_config.py:10-115 | without settings: 2048 tokens for the classifier, 64000 for the agents, 16000 for others, as long as they fit a window of 199999 with a buffer of 2048 |
| `RetryBudgets.DowngradeFits` | harness/agents/runner.py:992-1012 | a lowered budget and the reported input fill the window exactly; it is at least 64 and below the budget reported as requested |
| `RetryBudgets.OverrideBoundsSent` | harness/adapters/claude_config.py:87-115 | under an override an attempt sends at most that, at least 64, and estimate, buffer and budget fit the window |
| `RetryBudgets.BudgetsStrictlyDecrease` | harness/agents/runner.py:397-671 | if the backend reports the budget sent, every attempt after a downgrade sends strictly less than the one that was too large, at least 64, and fits the window with the reported input |
| `RetryBudgets.DowngradeLowersIff` | harness/agents/runner.py:1001-1012 | without that trust, the attempt after a downgrade sends less than the one that was too large iff the reported input is more than the window minus what was sent, or the new prompt is estimated at more than the window minus buffer minus what was sent |
| `RetryBudgets.NextSendsLessIff` | harness/agents/runner.py:397-671 | the same for any two consecutive attempts of any call |
| `RetryBudgets.OverstatedReport` | harness/agents/runner.py:1001-1012 | a report that overstates the request: a concrete case in which 500 tokens are sent after 100 were too many |
| `RetryBudgets.StatusesAreLegalIff` | harness/state/transitions.py:103-113 | the statuses written for a run are legal transitions iff no bookkeeping raises after a status other than the one the handler then writes; otherwise the exception leaves the call |
| `RetryBudgets.CompletedMeans` | harness/agents/runner.py:502-548 | a run ends COMPLETED iff its answer was accepted in time; the attempt then has a result iff no bookkeeping raised after it |
| `RetryBudgets.CallStatuses` | harness/agents/runner.py:376-671 | over a whole call: every attempt but the last writes legally and does not end COMPLETED, and the call has a result iff the last run is COMPLETED without such a clash |
| `RetryBudgets.RaisingAfterCompleted` | harness/state/repository.py:277-292 | a concrete case: COMPLETED is written, a progress callback raises, FAILED is refused, and the call ends in an exception |
| `Utf8.ReencodedIsWellFormed` | harness/context/staging.py:520 | decoding with replacement and encoding again gives well-formed UTF-8 at most three times as long |
| `Utf8.UnchangedIffWellFormed` | harness/context/staging.py:520 | and gives the same bytes iff they were well formed |
| `Utf8.TextIsWellFormed` | harness/context/staging.py:520 | the encoding of any sequence of Unicode scalar values is well formed |
| `Utf8.WellFormedIsText` | harness/context/staging.py:520 | and every well-formed sequence of bytes is such an encoding |
| `Utf8.CutHead` | harness/context/staging.py:514-520 | cutting a UTF-8 text inside a character costs at most two bytes |
| `Utf8.CutTail` | harness/context/staging.py:519-520 | starting inside a character costs at most six |
| `StagingBudget.CopyFits` | harness/context/staging.py:493-522 | a copy is the file if it fits, else exactly as long as allowed for ASCII, at most 8 bytes longer for UTF-8, and never more than three times as long |
| `StagingBudget.AsciiCopy` | harness/context/staging.py:511-520 | of an ASCII file that is too long, beginning and end are kept in equal parts around the marker, or the beginning alone if at most 128 bytes are allowed |
| `StagingBudget.ModeMeans` | harness/context/staging.py:634-659 | which artifacts are indexed by path, which are cut and how long they may be: merged patches of 64000 bytes or more, by setting or by role |
| `Staging.InputStagingService.CopyArtifactWithBudget` | harness/context/staging.py:493-543 | copies are the same with and without the cache, which holds only what truncation gives |
| `Staging.InputStagingService.Stage` | harness/context/staging.py:92-198 | the loop over the visible artifacts, last first, leaves exactly the specified ledger |
| `Staging.ReversedAt` | harness/context/staging.py:92 | the last visible artifact is staged first |
| `StagingBudget.EveryArtifactAccounted` | harness/context/staging.py:92-183 | every existing artifact gets exactly one entry, in order: path only, skipped for a limit that is reached, or staged with its content; the totals are the sums of the entries |
| `StagingBudget.StagingWithinBudget` | harness/context/staging.py:141-173 | never more files than allowed; each file and all together stay within their byte limits for ASCII sources and within 8 bytes of them for UTF-8 sources |
| `Aliases.RepairAliases` | harness/artifacts/validator.py:644-673 | the recursive walk over dicts and lists replaces and reports exactly what is specified |
| `Aliases.RepairContractModeAliases` | harness/artifacts/validator.py:628-642 | a contract is rewritten and annotated iff something was repaired |
| `AliasRepair.NoAliasLeft` | harness/artifacts/validator.py:651-656 | no aliased `mode` is left at any path |
| `AliasRepair.OneRepairPerAlias` | harness/artifacts/validator.py:644-673 | the repairs name exactly the paths of the aliased modes, each once |
| `AliasRepair.OnlyAliasesChange` | harness/artifacts/validator.py:644-673 | at every path the repaired tree has what the given one had, repaired in turn, unless it is an aliased mode |
| `AliasRepair.ModesBecome` | harness/artifacts/validator.py:644-673 | at every path: an alias of setting up becomes `repo_discovery`, one of running a benchmark `benchmark_spec`, in any case and with blanks around; any other mode stays |
| `AliasRepair.OthersStay` | harness/artifacts/validator.py:644-673 | what is no text or no mode is repaired in turn |
| `AliasRepair.ContractFields` | harness/artifacts/validator.py:636-680 | and the notes grow by one text for every repair, no other field changing |
| `Aliases.NoteReads` | harness/artifacts/validator.py:636-673 | how a note reads: the place with dots and brackets, the mode before and after |
| `AliasRepair.RepairIsIdempotent` | harness/artifacts/validator.py:628-642 | repairing twice is repairing once |
| `Acceptance.AcceptanceOracles` | harness/artifacts/acceptance.py:52-74 | the oracles of a plan are its complete entries, in order |
| `AcceptanceVerdict.PlanMeans` | harness/artifacts/acceptance.py:52-74 | which entries of a plan define which oracle, in terms of their raw fields |
| `Acceptance.ValidateShape` | harness/artifacts/acceptance.py:230-290 | the messages about the results by themselves |
| `Acceptance.ValidateTesterOracleResults` | harness/artifacts/acceptance.py:148-227 | the messages about the results against the plan, in order |
| `Acceptance.IndexResults` | harness/artifacts/acceptance.py:165-187 | the sets and dictionaries over the first result of every oracle |
| `AcceptanceVerdict.ShapeMeans` | harness/artifacts/acceptance.py:230-290 | no shape message iff every result is complete and no oracle has two |
| `AcceptanceVerdict.SaysMeans` | harness/artifacts/acceptance.py:300-304 | a result is passed or failed by its number, or else by its word |
| `AcceptanceVerdict.ClaimsMean` | harness/artifacts/acceptance.py:293-297 | and so is the verdict of the tester |
| `AcceptanceVerdict.IdMeans` | harness/artifacts/acceptance.py:174-176 | and the oracle of a result is told by its text |
| `AcceptanceVerdict.NothingReportedIff` | harness/artifacts/acceptance.py:148-227 | nothing is reported iff the results are complete, of known oracles only, one for every required oracle, with proof for passes against a baseline, and in line with the tester's own verdict |
| `AcceptanceVerdict.PassIsSound` | harness/artifacts/acceptance.py:188-216 | then `tests_passed` means: every required oracle has exactly one result, it is passed, and a pass against a baseline has runnable codes and no delta |
| `AcceptanceVerdict.BugIsSound` | harness/artifacts/acceptance.py:217-226 | and `source_bug` without an environment issue means some required oracle failed |
| `ArtifactPlane.ValidateRequiredOutputs` | harness/artifacts/validator.py:110-192 | the issues of a directory, in order |
| `ArtifactPlane.CanonicalizeOutputDir` | harness/artifact_plane/service.py:92-190 | the reported validation is that of the final repaired directory, and each required output gets exactly one report, with its raw content, its repairs and its reasons |
| `ArtifactPlane.OkIffAllAccepted` | harness/artifact_plane/service.py:115-190 | validation is ok iff every required output is accepted and no unrequired `delivery.md` reports a failure |
| `ArtifactPlane.ValidIff` | harness/artifacts/validator.py:110-192 | validation is ok iff every required output is a file that is not empty (but for the fix patch), has no template left, no message and, for markdown, result code 0; a `delivery.md` returns 0; and a plan review has handed over its findings |
| `ArtifactPlane.ReportSays` | harness/artifact_plane/service.py:150-190 | what a report says of an output, and when it accepts it |
| `ArtifactPlane.StrayDeliveryDisagrees` | harness/artifacts/validator.py:148-164 | such a `delivery.md` makes the two disagree: a concrete case |
| `Saga.RunsStayDeclared` | harness/saga/router.py:37-48 | routing in a well-formed saga never leaves its steps and the terminals; if no step is named like a terminal, a terminal ends the run |
| `Saga.RejectedIff` | harness/saga/model.py:20-80 | which definitions the constructors reject |
| `Saga.BugfixIsWellFormed` | harness/saga/model.py:61-159 | the bug-fix saga passes the construction checks |
| `Saga.BugfixSends` | harness/saga/model.py:82-159 | which event sends the bug-fix saga from which step to which, and with which action; no other does |
| `Saga.RunsAreWalks` | harness/saga/router.py:37-48 | its runs are exactly the walks from `plan` along these |
| `Saga.SinceLastPatch` | harness/saga/model.py:82-159 | every run past planning ends with the steps since its last patch, in the fixed order, with any number of rounds of testing |
| `Saga.CompleteRuns` | harness/saga/model.py:82-159 | a run that completes has, since its last patch, exactly materialized, tested one or more times, reviewed, validated and delivered |
| `Saga.CompletedBy` | harness/saga/model.py:82-159 | and the events of such a run since its last patch: canonicalized, snapshot, contract changes between rounds of testing and nowhere else, then test gate passed, review accepted, final gate passed, task completed |
| `Events.InMemoryEventStore.AppendMany` | harness/events/store.py:50-51 | stops at the first duplicate and keeps what came before it |
| `Events.InMemoryEventStore.Stream` | harness/events/store.py:53-68 | the filter passes one after another select what the whole filter selects, in order |
| `Events.SQLiteEventStore.AppendMany` | harness/events/store.py:123-164 | commits the whole batch or nothing |
| `Events.SQLiteEventStore.Stream` | harness/events/store.py:166-190 | selects in insertion order |
| `Events.StreamMeans` | harness/events/store.py:53-68 | a stream has exactly the stored events that match what is asked for in task, type and aggregate, each as often as stored and in that order |
| `Events.WholeBatchIff` | harness/events/store.py:42-51 | a batch goes in whole iff no id repeats |
| `Events.EveryBatch` | harness/events/store.py:42-164 | ids stay unique and order append-only; on a duplicate the table is unchanged and the memory keeps exactly the prefix before it |
| `Events.StreamsAgree` | harness/events/store.py:42-190 | without duplicates the two stores give the same stream under every filter |
| `Overlay.DeepUpdate` | harness/config/runtime.py:164-169 | the recursive update computes the merge |
| `Overlay.MergedAtPath` | harness/config/runtime.py:164-169 | under every path: what the overlay says, laid over what was there; where it says nothing, what was there, unless it put something else on the way |
| `Overlay.OverlayIsIdempotent` | harness/config/runtime.py:76-89 | laying the same overlay again changes nothing |

## Left out

- `ConfigError` carries the text of the offending line, not its number, and file reading and atomic writing of `harness/config/loader.py` are not modelled.
- `Text.ParseInt` and `Text.Lower` know ASCII digits and letters (and the Kelvin sign) only; Python also reads other decimal digits in an unquoted scalar.
- `Config.Value` has no floats; keys are strings, and the round trip is stated for keys without blanks, colons, quotes and `#`.
- `ConfigLoader.DumpMapping` builds the printed lines on values; the printed dicts are not changed, so nothing is lost by it.
- `SchedulerRuns.Next` has one step per effect of `acquire`; real threads, timeouts in seconds and the heartbeat are interleaved steps, and reading limits from a configuration (`from_config`) is not modelled.
- `Visibility.RoundMatches` has no unknown round policy, which the source rejects with an error and no rule of the table uses.
- `PatchAnalysis.ScopeErrors` takes the file names that match the pattern for secrets as a set; the regular expression is not modelled.
- `PatchGate.RunPatchGate` represents git, temporary directories and the export by their outcomes.
- `Health.BackendHealthMonitor` starts from classified failures; `classify_failure` matches substrings and regular expressions of messages.
- `Retry.Config` holds natural numbers; a negative or non-numeric token setting raises before any budget is sent and is not modelled.
- `Retry.AttemptWith` takes the adapter, the validation and the size reports of an attempt as given; workspaces, prompts, progress events and phase recovery are not modelled, an exception while an attempt is set up only ends the call (its run is left RUNNING), and its budgets are those of the Claude adapter.
- `Staging.InputStagingService.Stage` stands for contents by their cache digests; names of staged files, manifests and the choice of limits from configuration are not modelled.
- `Aliases.RepairAliases` and `Overlay.DeepUpdate` rewrite values and return them; update in place and aliasing of the dicts are not captured.
- `Acceptance.ValidateShape` models the check without the demand for numeric codes, and the checks of the plan itself (`validate_acceptance_oracles`) are not modelled.
- `ArtifactPlane.Validate` takes the content checks of each kind of artifact as a count of messages; the repairs of a directory are a parameter that changes nothing when it reports nothing.
- `Saga.RejectedIff`: does not model command types, expected events, timeouts and retry policies of steps, which routing never reads.
- `Events.SQLiteEventStore` is a table that commits or rolls back; SQL text, JSON payload columns and locking are not modelled.
- The repair of oracle kinds in the selected plan works like that of contract modes and is left out.
- Prompts, templates, the command line, the user interface, delivery handoff, preflight and process handling are string assembly or I/O without a hard property.
