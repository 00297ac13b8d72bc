# Verified model of Openclawssy's runtime cores

Openclawssy runs agents: it asks a language model what to do, executes the tool calls the model wants, delegates
work to subagents, keeps the chat of each session in files, and runs scheduled jobs. This project models the
parts of it that are algorithms or state machines, and proves what they promise for every input, every run and
every interleaving. The command `dafny verify dfyconfig.toml` verifies the whole project.

The files, from the bottom up:

* `Strings.dfy`, `Counting.dfy`, `Lines.dfy`: the operations on texts, counts and lines that the rest needs.
* `ToolCalls.dfy`, `ToolLedger.dfy`, `AgentCreation.dfy`, `FailureTracking.dfy`, `ToolExecutor.dfy`,
  `ToolCaps.dfy`, `ToolRun.dfy`: what a run does with the tool calls of its model. The class `Executor` holds the maps and
  counters of the source. Its ghost ledger has one event per requested call; the function `Decide` says from the
  ledger alone what must happen to the next call, and the executor is proved to produce only ledgers that follow
  it. Properties of whole runs are lemmas about such ledgers.
* `TaskGraph.dfy`, `TaskSort.dfy`, `Delegation.dfy`, `DelegationTrigger.dfy`: the topological sort with its
  in-place exchange sort, the planner, the execution of delegated tasks with failure propagation, and the
  decomposition that feeds it.
* `Batches.dfy`, `ModelText.dfy`, `RunLoop.dfy`: the run loop, and what its stops mean for the ledger. Model, tools, subagents and routing are arbitrary functions of
  the number of the call, so every behaviour of them is covered.
* `ReverseScanner.dfy`, `ChatStore.dfy`: the backward line scanner and the two readers built on it.
* `LineDiff.dfy`: the line diff.
* `WorkerPool.dfy`, `Schedules.dfy`, `Scheduler.dfy`: the worker pool as interleaved steps, due times, and the
  job store with the executor that checks it.
* `RunSlots.dfy`: the replaceable run-slot channel as interleaved steps.
* `ToolCallAssembly.dfy`, `ContextBudget.dfy`: streamed tool calls, and the two reductions of a conversation.

What the source does that its names or comments do not say, and that the model shows:

* A run makes at most 6 * cap + 31 turns. The bound is the start value of a measure that every way round the
  loop decreases.
* While delegation is forced, exactly one forbidden call of a batch is dropped: meeting it runs the pending
  subtasks and opens the gate, so later forbidden calls of the same batch pass. A batch comes out clean exactly if
  at most one of its calls was forbidden. The rewriting of calls and the rewrite budget exit are never reached.
* Attempts to create an agent are counted by tool name and agent id. The third attempt under such a key is blocked
  and no earlier one, exactly if the key is not `agent.create|total`: that is also the key of the counter of all
  creations. So an agent called `total` is blocked at once after two other creations, and is created at most once
  under that tool name.
* The two tool names for creation have separate counters, so one agent id can be created four times in a run.
* A run ends for blocked calls exactly if its last two batches were blocked. A failure that is replayed, or repeats
  its output, counts as blocked if its own text speaks of repetition.
* Only tools whose names start with `becomussy.` can share a repetition key with different caps, and only arguments
  that could not be read can share a stored outcome with others of the tool.
* A failed sort names the tasks that were not emitted. These are the tasks that lead into a cycle or to an
  unlisted task, not only those on a cycle.
* A delegated task counts as failed exactly if an ancestor failed, its last attempt was not ok, or that attempt
  succeeded with a text starting with `FAILED:`. So a subagent can succeed and still make its dependents fail.
* The scanner measures a line only at chunk boundaries. A line within the limit is never rejected and one that is
  over it by a whole buffer always is; in between it can be accepted.
* When the scanner gives up, the lines that it completed in the same chunk and did not deliver yet are lost. This
  can happen exactly if the limit is below the buffer size less one. The message readers use a limit above it.
* Two runs of an `@every d` job can be less than d apart, by the fraction of a second that the stamp loses.
* A run slot channel can be replaced between another run's locked section and its send. The limit in force is kept
  in every interleaving exactly if all calls have the same engine limit; with two different engine limits any
  number of runs can work at once.
* A call with an instance limit needs two slots of the channel it finds. On an idle engine it is rejected exactly
  if its engine limit is one; on a busy one the channel in use decides, not the call's own limits.
* In the assembly of streamed calls the next index is above all used ones, so the search for a free index ends
  at once.
* Compaction of a single message over the budget loses it: only the summary remains.

## Model

| member | source | states |
|---|---|---|
| ToolCalls.OneShotIsCacheable | internal/agent/run_state.go:1579-1714 | every one-shot mutation has a cache key, so that its success is remembered |
| ToolCalls.CreationIsUnguarded | internal/agent/run_state.go:1400-1537 | agent creation passes no repetition guard: only its own two counters cap it |
| ToolCalls.GuardKeysApart | internal/agent/run_state.go:1400-1537 | no repetition guard of any call counts under a key that counts agent creations |
| ToolCalls.RepetitionNoticeRecognised | internal/agent/run_state.go:541-571 | the notice of a blocked call is recognised as repetition wherever a run looks for it, and is never empty |
| ToolCalls.RepetitionIsNoticed | internal/agent/run_state.go:177-181 | every error that speaks of repetition counts neither as success nor as failure, whatever surrounds the words |
| ToolCalls.LimitNoticeIsFailure | internal/agent/run_state.go:632-650 | the notice of the creation limit counts as a failure, not as a repetition |
| ToolLedger.ExecutionsAreAttempts | internal/agent/run_state.go:541-650 | no key is executed more often than its counter says |
| ToolLedger.ExecutedWithinCap | internal/agent/run_state.go:541-573 | an executed call with cap c is one of the first c executions under its key, even if calls with other caps share the key |
| ToolLedger.ExecutionsCapped | internal/agent/run_state.go:541-573 | over a whole run a repetition key is executed at most as often as the largest cap with which it was executed |
| ToolLedger.CreationsCapped | internal/agent/run_state.go:601-650 | over a whole run at most eight agent creations are executed, and at most two under one key of tool name and agent id |
| ToolLedger.CachedOutcomesSettle | internal/agent/run_state.go:575-696 | among the executions of a cache key a success is the last one, and so is the second of two equal failures in a row |
| ToolLedger.OneShotSucceedsOnce | internal/agent/run_state.go:523-539 | a one-shot mutation is never executed again once it succeeded |
| ToolLedger.SuccessHappened | internal/agent/run_state.go:674-682 | the executions of a cache key or of a one-shot mutation end in success exactly if one of them succeeded |
| ToolLedger.SettledIsFinal | internal/agent/run_state.go:575-599 | once a cache key has settled, its executions stay the same to the end of the run |
| ToolLedger.SettledCallsReplay | internal/agent/run_state.go:575-599 | every later call with a settled cache key is blocked by a guard or answered with the stored output and error of the settling execution |
| AgentCreation.KeysApart | internal/agent/run_state.go:601-650 | creations count under their own keys only, and no guarded call does |
| AgentCreation.CounterMeaning | internal/agent/run_state.go:601-650 | a creation counter is the number of attempts under its key; the shared one counts all creations as well |
| AgentCreation.CreationDecided | internal/agent/run_state.go:601-650 | when a creation is blocked and when it is over the limit of the run, exactly, in terms of earlier attempts |
| AgentCreation.TotalBlockedAtOnce | internal/agent/run_state.go:606-630 | a run in which the first attempt to create an agent called `total` is blocked |
| AgentCreation.ThirdAlwaysBlockedIff | internal/agent/run_state.go:606-630 | in every run the counter of a key is used up exactly after two attempts under it, if and only if the key is not the shared one |
| AgentCreation.AgentCreatedAtMostFourTimes | internal/agent/run_state.go:601-650 | an agent id is created at most four times, and at most twice if one tool name is used |
| AgentCreation.AgentCreatedFourTimes | internal/agent/run_state.go:601-650 | every id but `total` is created four times in some run |
| AgentCreation.SharedKeyCreatedOnce | internal/agent/run_state.go:606-630 | the agent with the shared key is created at most once under it |
| FailureTracking.RegisterAgrees | internal/agent/run_state.go:177-242 | the failure counters, recovery state and blocker counts are functions of the run's outcomes, kept by every registration |
| FailureTracking.RecoveryCountsFailures | internal/agent/run_state.go:177-208 | in recovery at least the counted failures plus those that started it happened, and outside recovery the failures in a row are below the trigger |
| FailureTracking.CategoryMeans | internal/agent/run_state.go:215-231 | an error is a structural problem exactly if it has one of the five phrases, in any letter case, and it has the category of its phrases if they name one only |
| FailureTracking.BlockerCountMeans | internal/agent/run_state.go:193-196 | the count of a structural problem is the number of failed events that report it |
| ToolExecutor.FreeId | internal/agent/runner.go:923-936 | the suffix search ends, and takes the first candidate that is not in use |
| ToolExecutor.SettleMeaning | internal/agent/run_state.go:657-669 | the result of a call has the output of the reply and its error, that of the execution first, and names the timeout after one; it is a success exactly if the reply is |
| ToolExecutor.SignatureMeans | internal/agent/run_state.go:700-706 | two outcomes of an uncacheable call are told apart by output and error, white space at the ends aside, unless an output holds a zero character |
| ToolExecutor.StoreOutcomeAgrees | internal/agent/run_state.go:674-696 | storing an outcome keeps the success and failure caches in step with the executions of the key |
| ToolExecutor.ExecutedKeepsBooks | internal/agent/run_state.go:674-714 | an execution that the guards allow keeps all maps of outcomes in step with the ledger |
| ToolExecutor.RecordedCallsAreDistinct | internal/agent/run_state.go:517-720 | call records and tool results have equal length and agree one by one, and all assigned call ids differ |
| ToolExecutor.InvocationsAreExecutions | internal/agent/run_state.go:652-719 | the calls of the real executor about a key are as many as the executions that the ledger counts |
| ToolExecutor.InvocationsCapped | internal/agent/run_state.go:517-720 | the real executor is called for at most eight creations, two per key of tool name and agent id, four per agent id, one under the shared key, and for a repetition key at most as often as the largest cap with which it was called |
| ToolExecutor.RepliesAreKept | internal/agent/run_state.go:652-714 | told by the real executor's replies alone: each executed event tells its reply, and exactly the mutations and calls with a successful reply are remembered as done, the calls with its output |
| ToolCaps.KeyTellsCap | internal/agent/run_state.go:1400-1577 | guarded calls under one key are of one tool and have one cap, plugin tools aside |
| ToolCaps.GuardedCallsCapped | internal/agent/run_state.go:541-573 | a guarded call of no plugin reaches the real executor at most as often as its own cap says, with all calls under its key |
| ToolCaps.SubjectCallsCapped | internal/agent/run_state.go:1400-1537 | each subagent task and message goes out once, an inbox is read and a memory written at most twice, a command run at most three times |
| ToolCaps.FileCallsCapped | internal/agent/run_state.go:1539-1577 | a directory is made once and listed at most four times; reading, writing and appending are capped by what the path is |
| ToolCaps.ReaderCallsCapped | internal/agent/run_state.go:1400-1537 | each reader of the system's state is called at most three times |
| ToolCaps.ReadersNeverReplayed | internal/agent/run_state.go:1673-1714 | reading files, directories or state is never answered from a cache |
| ToolCaps.CacheKeyTells | internal/agent/run_state.go:1673-1745 | calls share a stored outcome only if they are the same request, write the same memory, or agree in name and arguments; only arguments that could not be read can coincide with those that could |
| ToolCaps.NewCallExecuted | internal/agent/run_state.go:517-655 | a call that has no key in common with the earlier ones is handed to the real executor |
| ToolRun.Executor.UniqueId | internal/agent/runner.go:923-936 | the assigned id is new, and is the first free candidate |
| ToolRun.Executor.RegisterOutcome | internal/agent/run_state.go:177-208 | the new counters are those of the failure state after the outcome |
| ToolRun.Executor.AnswerCreation | internal/agent/run_state.go:601-650 | tests the counter of the agent and then that of the run, as the ledger decides, and advances the counters that were reached |
| ToolRun.Executor.AnswerGuards | internal/agent/run_state.go:523-573 | blocks exactly repeated successful mutations and calls over their cap, with a repetition notice |
| ToolRun.Executor.AnswerCache | internal/agent/run_state.go:575-599 | replays the stored success, or the failure that came twice, and nothing else |
| ToolRun.Executor.Answer | internal/agent/run_state.go:523-650 | the guards and caches together decide what the ledger decides, and advance exactly the counters of that decision |
| ToolRun.Executor.Invoke | internal/agent/run_state.go:652-714 | calls the real executor once, notes the call, settles its reply, reports progress exactly for fresh outcomes and keeps the outcome maps in step with the ledger |
| ToolRun.Executor.ExecuteCall | internal/agent/run_state.go:517-720 | one requested call gets a fresh id, one event that follows from the ledger, one record, and at most one real execution |
| ToolRun.Executor.ExecuteTools | internal/agent/run_state.go:517-720 | a batch adds exactly one record per call, in order, makes at most one real invocation per call, and keeps ledger and invocations consistent; progress and blocked mutations are reported exactly |
| ToolRun.Executor.RealInvocationsCapped | internal/agent/run_state.go:517-720 | in every reachable state the real executor was called exactly for the executed events, within all caps, each of these events tells its reply, and exactly the successful replies are remembered as such |
| Batches.BlockedExactly | internal/agent/run_state.go:1226-1236 | a batch counts as blocked exactly if it has calls and each was stopped by a guard or creation counter, or has a stale outcome that speaks of repetition itself; a replayed success, a creation over the limit and any progress prevent it |
| Batches.BlockedReportsNothing | internal/agent/run_state.go:177-196 | a blocked batch reports no structural problem |
| Batches.BatchTold | internal/agent/run_state.go:1194-1263 | how one more batch decides about the end of the run, from the ledger and the streak of blocked batches before it |
| Batches.StoppedTwiceEnds | internal/agent/run_state.go:1226-1251 | two batches in a row in which every call was stopped end a run, and for this reason |
| TaskGraph.SortableMeansUnblocked | internal/agent/runner.go:732-814 | distinct tasks can be sorted exactly if no task leads into a cycle or to an unlisted task |
| TaskGraph.StuckIsBlocked | internal/agent/runner.go:801-811 | if every task left has a dependency that is left or unlisted, each of them is blocked |
| TaskGraph.OrderedIsNotBlocked | internal/agent/runner.go:762-811 | a task of an ordered list leads into no cycle and to no unlisted task |
| TaskSort.SortByPriority | internal/agent/runner.go:762-770 | the in-place exchange sort gives a sorted permutation |
| TaskSort.BuildDependents | internal/agent/runner.go:739-745 | the reverse edges list each task as often as it names the dependency |
| TaskSort.StartQueue | internal/agent/runner.go:747-759 | the first degrees count the dependencies and the queue is the set of tasks without any |
| TaskSort.ReduceDegrees | internal/agent/runner.go:789-795 | after the decrements of one emitted task, degrees count the unmet dependencies and the queue is the set of ready tasks |
| TaskSort.HeadIsBest | internal/agent/runner.go:776-798 | the head of the sorted queue is ready and has the least priority of all ready tasks |
| TaskSort.Conclude | internal/agent/runner.go:801-813 | the test on the number of emitted tasks decides exactly whether the tasks can be sorted, also with duplicate ids |
| TaskSort.TopologicalSort | internal/agent/runner.go:732-814 | succeeds exactly for distinct ids, listed dependencies and no cycle; then the result is a permutation with dependencies first, greedy in the priority; else it names exactly the blocked tasks if ids are distinct |
| Delegation.GeneratePlan | internal/agent/planner.go:70-112 | a plan exists exactly if there are tasks and the planned ones can be sorted; it orders all of them and has their least confidence |
| Delegation.PlanKeepsSortable | internal/agent/planner.go:83-111 | routing and filling in blanks keeps named tasks sortable |
| Delegation.FailedWalkSkips | internal/agent/runner.go:518-551 | each task on a path to a failed one is skipped and failed |
| Delegation.AttemptedUnlessAncestorFailed | internal/agent/runner.go:480-674 | a task is attempted exactly when no ancestor failed, at most twice, and every descendant of a failure is failed |
| Delegation.FailedExactly | internal/agent/runner.go:867-869 | a result counts as failed exactly if it is white space followed by `FAILED:` and anything |
| Delegation.SuccessRunsAll | internal/agent/runner.go:486-674 | if every answer is a success whose text spells no failure, every task is attempted exactly once and its recorded text is that of its answer |
| Delegation.CountsAsFailed | internal/agent/runner.go:518-674 | a task counts as failed exactly if an ancestor failed, or its last attempt was not ok or gave a text that spells a failure |
| Delegation.SuccessCountsAsFailed | internal/agent/runner.go:518-551 | a task that succeeds with any text starting with `FAILED:` makes its dependent fail without an attempt |
| Delegation.RunFinishesTasks | internal/agent/runner.go:464-674 | when the planned and sorted list is finished, so are the tasks it was made from, by their own dependencies |
| Delegation.Delegator.FindFailedDependency | internal/agent/runner.go:518-529 | finds a failed dependency exactly if there is one, and misses no result when all dependencies have one |
| Delegation.Delegator.RunTask | internal/agent/runner.go:558-669 | one attempt, and a second only after a failure, each a call of the subagent for this task; the recorded text is that of the last answer |
| Delegation.Delegator.RunNext | internal/agent/runner.go:518-669 | a task is skipped and failed exactly if a dependency failed, else attempted |
| Delegation.Delegator.RunInOrder | internal/agent/runner.go:486-674 | leaves a result for every task, touches no other, meets no missing dependency; the attempts are exactly the subagent calls made, at most two per task |
| Delegation.Delegator.ExecuteDelegated | internal/agent/runner.go:464-674 | fails only without a runner or if the tasks cannot be sorted, and then changes nothing; else every task is finished by its own dependencies, by attempts that are exactly the subagent calls made; if all of them succeed each task is attempted once and has its answer |
| DelegationTrigger.TriggersNeedSignals | internal/agent/complexity.go:85-193 | forced delegation needs two bad signals or a fully blocked batch, and a question to the user suspends all but the highest level |
| DelegationTrigger.TriggersExactly | internal/agent/complexity.go:85-193 | which signals bring up a trigger, exactly |
| DelegationTrigger.BlockedBatchForces | internal/agent/complexity.go:85-193 | a blocked batch alone forces delegation, and is critical exactly with any other bad signal |
| DelegationTrigger.TriggersMonotone | internal/agent/complexity.go:85-193 | worse signals never weaken the trigger or shorten its cooldown |
| DelegationTrigger.QuestionSuspends | internal/agent/complexity.go:162-193 | a question to the user leaves only the critical trigger |
| DelegationTrigger.DecompositionIsChain | internal/agent/decomposer.go:21-207 | every decomposition has two or three subtasks, each depending on the one before it |
| DelegationTrigger.DecompositionSortable | internal/agent/decomposer.go:21-207 | every decomposition is a non-empty list of named tasks that can be sorted |
| RunLoop.DropsAtMostOne | internal/agent/run_state.go:1089-1155 | while delegation is forced, a batch with a forbidden call loses exactly one call and any other none; it comes out clean exactly if at most one call was forbidden |
| RunLoop.Run.constructor | internal/agent/run_state.go:115-175 | a fresh run is valid and its measure is 6 * cap + 31 |
| RunLoop.Run.AskModel | internal/agent/run_state.go:933-975 | at most four calls, repeated exactly after transient errors and only before any tool result |
| RunLoop.Run.FinalizeFromToolResults | internal/agent/runner.go:113-150 | one more model call exactly when there are tool results, and its text if that is an answer without tool calls |
| RunLoop.Run.ComputeDelegationTrigger | internal/agent/run_state.go:1874-1890 | a running cooldown goes down without a trigger; else the trigger is that of the current counters, with subtasks that can be sorted |
| RunLoop.Run.PlannerTakeover | internal/agent/run_state.go:819-869 | a takeover delegates exactly if there is a runner and the configured mode trusts the plan, and then every subtask is finished by its own dependencies; else it ends with the plan, never with an error |
| RunLoop.Run.Delegate | internal/agent/runner.go:464-680 | delegating subtasks that can be sorted succeeds, and every one of them is finished by its own dependencies, from the subagent calls made |
| RunLoop.Run.Activate | internal/agent/run_state.go:797-927 | what a trigger does to mode, lock, cooldown and pending subtasks, exactly; a planner mode delegates exactly if the subtasks may run |
| RunLoop.TrustedPlan | internal/agent/planner.go:172-192 | a plan has built-in roles and a least confidence over 0.7 exactly if each of its tasks has |
| RunLoop.Run.CheckTrigger | internal/agent/run_state.go:773-927 | when a trigger delegates, waits for the plan, or sets mode, lock and cooldown, with and without a runner; delegated subtasks are those of the current counters and are finished, and a lock stays |
| RunLoop.Run.OnModelError | internal/agent/run_state.go:989-1016 | which of the four ends follows a model error, exactly |
| RunLoop.Run.OnPlainText | internal/agent/run_state.go:1018-1061 | when a reply without calls is asked again and when it ends the run, exactly; asking again decreases the measure |
| RunLoop.Run.RunPending | internal/agent/run_state.go:1128-1148 | the pending subtasks are run without an error and all are finished by their own dependencies, and the gate is open afterwards |
| RunLoop.Run.GateCalls | internal/agent/run_state.go:1089-1155 | keeps all calls but the first forbidden one; the gate stays closed exactly if there was none, else the pending subtasks are finished |
| RunLoop.Run.Gate | internal/agent/run_state.go:1089-1185 | a batch that passes a closed gate holds only delegation tools; when the gate opens the pending subtasks are finished; asking again decreases the measure |
| RunLoop.Run.AllRepetitions | internal/agent/run_state.go:1230-1236 | whether a batch has calls and all its results speak of repetition |
| RunLoop.Run.CountBatch | internal/agent/run_state.go:1220-1243 | the counters of batches without progress and of blocked batches, as the ledger says |
| RunLoop.Run.Judge | internal/agent/run_state.go:1194-1276 | which of the five stops applies after a batch, exactly, and the counters; the streak of blocked batches is that of the ledger |
| RunLoop.Run.VerdictOfLog | internal/agent/run_state.go:1194-1263 | the counters that decide after a batch say what the ledger says about the end |
| RunLoop.Run.Batch | internal/agent/run_state.go:1187-1276 | one batch is recorded call by call; structural, mutation, blocked-call and escalation stops follow from the ledger exactly, and going on decreases the measure |
| RunLoop.Run.OnToolCalls | internal/agent/run_state.go:1063-1277 | below the cap the gated batch is run and decides about the end as the ledger says; while the gate stays closed it holds only delegation tools |
| RunLoop.Run.OnReply | internal/agent/run_state.go:976-1277 | a reply leads to at most one batch, which is the reply's calls without the first forbidden one while the gate is closed |
| RunLoop.Run.Turn | internal/agent/run_state.go:757-1277 | each turn ends the run or decreases the measure, keeps the delegation invariant and runs at most one batch, from whose events the stops follow; it ends by delegation only if the subtasks were allowed to run and are finished |
| RunLoop.Run.NextTurn | internal/agent/run_state.go:757-1277 | one turn keeps the account of the batches: while the run goes on none of them gave a reason to stop |
| RunLoop.Run.RunToEnd | internal/agent/run_state.go:757-1277 | the run ends within its measure in turns and within its cap in batches, with a consistent ledger, and never with a planning or delegation error; four of its stops follow from the ledger of its batches exactly, and no earlier batch called for one; a delegated end means finished subtasks, a withheld plan that they were not allowed to run |
| RunLoop.StartAndRun | internal/agent/run_state.go:724-1277 | a whole run makes at most 6 * cap + 31 turns and cap tool batches, where a requested cap counts as it is; it calls the real executor within all caps and keeps exactly its successes; it ends for blocked calls exactly if its last two batches were blocked and no mutation was repeated, and by delegation only with its subtasks finished, whatever model, tools and subagents do |
| Lines.SpansAreReversedLines | internal/chatstore/reverse_scanner.go:43-150 | looking for line feeds from the back gives the split lines in reverse, without an empty first line |
| ReverseScanner.FittingLineAccepted | internal/chatstore/reverse_scanner.go:105-108 | a line within the limit is never rejected |
| ReverseScanner.LongLineRejected | internal/chatstore/reverse_scanner.go:91-111 | a line that is over the limit by a whole buffer or more is always rejected |
| ReverseScanner.OverlongLineAccepted | internal/chatstore/reverse_scanner.go:91-141 | that bound is tight: with the message readers' sizes a line of one byte less than that is not rejected |
| ReverseScanner.ScanOverlong | internal/chatstore/reverse_scanner.go:43-150 | the scan of a file with that line delivers it |
| ReverseScanner.ScanLosesLine | internal/chatstore/reverse_scanner.go:43-150 | for every limit below the buffer size less one, the scan of a file loses a line that fits the limit |
| ReverseScanner.CompletedLineAccepted | internal/chatstore/reverse_scanner.go:91-141 | a line completed within a chunk was measured right of the chunk only |
| ReverseScanner.Scanner.constructor | internal/chatstore/reverse_scanner.go:23-41 | a new scanner has all lines of the file to deliver, and a buffer of at least 4096 bytes |
| ReverseScanner.Scanner.JoinLeftover | internal/chatstore/reverse_scanner.go:164-174 | the prefix and then the kept parts from the last to the first |
| ReverseScanner.Scanner.LineFound | internal/chatstore/reverse_scanner.go:113-133 | the text between two line feeds, the rest of the chunk and the kept parts are one line, which is not rejected |
| ReverseScanner.Scanner.TakeLine | internal/chatstore/reverse_scanner.go:113-140 | completes the line after a line feed and keeps what there is to deliver |
| ReverseScanner.Scanner.KeepRest | internal/chatstore/reverse_scanner.go:94-111 | the rest of a chunk extends the line being built, and is too long exactly over the limit |
| ReverseScanner.Scanner.ScanChunk | internal/chatstore/reverse_scanner.go:91-141 | processing a chunk changes nothing about the lines to deliver |
| ReverseScanner.Scanner.Scan | internal/chatstore/reverse_scanner.go:43-150 | delivers the next line from the back; fails only at the end of the file or at a line over the limit at a chunk boundary |
| ReverseScanner.ScanAll | internal/chatstore/reverse_scanner.go:43-150 | for every file, buffer size and limit: the lines in reverse, all of them exactly if no line is over the limit at a chunk boundary, else those after that line except the ones completed in the last chunk |
| ReverseScanner.LinesComeBack | internal/chatstore/reverse_scanner.go:43-181 | the lines put into a file come out of it in reverse, as they were, whichever line end each got; only an empty first line that ends with a line feed alone is left out |
| ReverseScanner.FinalLineFeedIgnored | internal/chatstore/reverse_scanner.go:113-122 | a missing final line feed makes no difference |
| ChatStore.ClampHistoryCount | internal/chatstore/store.go:633-641 | a count between one and the bound, the requested one if it is in range |
| ChatStore.LineIsTrimmed | internal/chatstore/store.go:353-361 | a line holds what stands between its white space, and a line of white space holds no message |
| ChatStore.AppendedFromBack | internal/chatstore/store.go:296-312 | scanning an appended file gives the encodings, newest first |
| ChatStore.SessionLog.AppendMessage | internal/chatstore/store.go:263-324 | appends one encoded line, exactly if the message has a role and content; it is stored with its own role, text and time, and the text of its parts or the present time only stands in for a missing one |
| ChatStore.SessionLog.ReadRecentMessages | internal/chatstore/store.go:326-387 | for every file: the newest decodable messages up to the clamped limit, oldest first; fails exactly if a line that is too long comes first |
| ChatStore.ReverseMessages | internal/chatstore/store.go:381-384 | swapping from both ends reverses |
| ChatStore.LatestAppended | internal/chatstore/store.go:326-387 | after any appends the latest messages are the last min(limit, count) of them, in order |
| ChatStore.AppendedNotBlocked | internal/chatstore/store.go:326-387 | reading these never fails if their encodings fit the limit, whatever older messages do |
| ChatStore.SessionLog.FindLatestMessage | internal/chatstore/store.go:696-754 | for every file: the newest decodable message with the id; fails exactly if a line that is too long comes first |
| ChatStore.SearchAppended | internal/chatstore/store.go:696-754 | after any appends the search is the search among the appended messages, and is not blocked if the messages from a match on fit |
| ChatStore.LatestWithId | internal/chatstore/store.go:696-754 | that search gives the last append with the id, or none exactly if there is none |
| LineDiff.SplitContentRoundTrip | internal/promptstack/diff.go:118-128 | the lines joined again give the normalised content with a final line feed, and no line holds a line feed |
| LineDiff.NormalizedIsSame | internal/promptstack/diff.go:119 | a content is its own normal form exactly if no carriage return stands before a line feed in it |
| LineDiff.NormalizedPair | internal/promptstack/diff.go:119 | each such pair becomes a line feed, and what is around it is normalised by itself |
| LineDiff.PairsLeft | internal/promptstack/diff.go:119 | a pair is left exactly where a carriage return stood before a pair |
| LineDiff.FillTable | internal/promptstack/diff.go:45-62 | the loops fill the table with the recursive common length |
| LineDiff.CommonBound | internal/promptstack/diff.go:45-62 | no common subsequence is longer than the table says |
| LineDiff.KeptIsLongest | internal/promptstack/diff.go:38-91 | the unchanged lines are a longest common subsequence |
| LineDiff.ScriptOptimal | internal/promptstack/diff.go:38-91 | no other script between the two texts keeps more lines or is shorter |
| LineDiff.NothingToChange | internal/promptstack/diff.go:64-88 | a script that keeps most lines has no addition or removal exactly if the lines are the same |
| LineDiff.ScriptRemovalsFirst | internal/promptstack/diff.go:64-88 | in each changed block removals come before additions |
| LineDiff.DiffLines | internal/promptstack/diff.go:38-91 | unchanged and removed lines joined give the old content, unchanged and added ones the new content, up to line ends and a final line feed, with the most unchanged lines possible; nothing is added or removed exactly if the contents agree up to these |
| WorkerPool.StepInv | internal/scheduler/scheduler.go:389-412 | every step keeps each job at exactly one place and brings the end one step nearer |
| WorkerPool.NoDeadlock | internal/scheduler/scheduler.go:389-412 | unless the pool is done, some goroutine can take a step |
| WorkerPool.EveryInterleaving | internal/scheduler/scheduler.go:381-415 | after any steps at most min(limit, due) jobs are running, every job is unsent, held once or reported once, and the number of steps is fixed |
| WorkerPool.AtTheEnd | internal/scheduler/scheduler.go:402-415 | at the end each due job was run once and has one update |
| WorkerPool.RunPool | internal/scheduler/scheduler.go:381-415 | every interleaving ends, with each due job run once and updated once |
| Schedules.EverySchedule | internal/scheduler/scheduler.go:55-65 | `@every ` and a positive duration is that period, with any white space around them |
| Schedules.ShortSchedule | internal/scheduler/scheduler.go:55-65 | the short forms, in any letter case, are an hour and a day |
| Schedules.OnceSchedule | internal/scheduler/scheduler.go:464-469 | any other schedule is the time that it spells |
| Schedules.NewJobDue | internal/scheduler/scheduler.go:443-479 | an enabled job that never ran is due: an `@every` job always, a one-shot job exactly from its time on, and then it is disabled |
| Schedules.MissedExactly | internal/scheduler/scheduler.go:418-441 | a due run is a missed one exactly if an `@every` job ran before or the time of a one-shot job has passed |
| Schedules.EveryDueAgain | internal/scheduler/scheduler.go:443-462 | after a run an `@every d` job is due exactly from the whole second of that run plus d on |
| Schedules.EveryDueEarly | internal/scheduler/scheduler.go:443-462 | it can be due less than d after the run, exactly if the run was not on a whole second |
| Schedules.OnceSettledIff | internal/scheduler/scheduler.go:464-490 | a one-shot job that ran is never due again, even if enabled again, exactly if it did not run in the zero second |
| Schedules.RunKeepsHistory | internal/scheduler/scheduler.go:443-479 | running a due job keeps `@every d` runs more than d minus a second apart, and one-shot runs single and not early |
| Schedules.SkipKeepsHistory | internal/scheduler/scheduler.go:372-375 | skipping a missed run keeps that as well |
| Schedules.CheckServes | internal/scheduler/scheduler.go:352-416 | whether a check runs, stamps or disables a job, told by its schedule and last run alone |
| Scheduler.BatchAt | internal/scheduler/scheduler.go:222-245 | a batch stamps exactly the jobs it names, whatever its order |
| Scheduler.Insert | internal/scheduler/scheduler.go:108-110 | a job is put at its place in the order of ids |
| Scheduler.Store.Add | internal/scheduler/scheduler.go:78-97 | which jobs are accepted, and that an added job starts a new history |
| Scheduler.Store.List | internal/scheduler/scheduler.go:99-112 | every job exactly once, in the order of ids |
| Scheduler.Store.Remove | internal/scheduler/scheduler.go:114-125 | removes exactly this job |
| Scheduler.Store.SetJobEnabled | internal/scheduler/scheduler.go:264-277 | changes only whether the job is enabled, and keeps its history good |
| Scheduler.Store.UpdateAfterRun | internal/scheduler/scheduler.go:204-220 | stamps and disables the one job |
| Scheduler.Store.BatchUpdateAfterRun | internal/scheduler/scheduler.go:222-245 | applies the updates one by one and drops those of removed jobs |
| Scheduler.Executor.Consider | internal/scheduler/scheduler.go:364-376 | one listed job is passed over, stamped as missed, or collected with the right disable flag |
| Scheduler.Executor.SelectDue | internal/scheduler/scheduler.go:358-377 | selects exactly the enabled due jobs, each once, except missed runs on a first check without catch-up, which are stamped |
| Scheduler.DueRun | internal/scheduler/scheduler.go:381-415 | whatever the order of starts and updates, each selected job gets one run and one stamp and no other job changes |
| Scheduler.Executor.RunDue | internal/scheduler/scheduler.go:381-415 | running the pool and storing the batch leaves the store as the check should |
| Scheduler.Executor.Check | internal/scheduler/scheduler.go:352-416 | one check runs and stamps exactly the jobs it should: every enabled job that never ran once its time has come, and every job whose period is over, except missed runs on a first check without catch-up; it keeps the histories of all jobs good, and while paused it does nothing |
| RunSlots.StepInv | internal/runtime/engine.go:884-907 | every step keeps each channel's tokens equal to the unreturned slots taken from it, and within its capacity |
| RunSlots.ReleaseNeverBlocks | internal/runtime/engine.go:900-903 | a run that returns a slot finds a token in its channel |
| RunSlots.ReplacedOnlyWhenEmpty | internal/runtime/engine.go:888-898 | the installed channel is replaced only for another limit, while no run holds one of its slots |
| RunSlots.AllReturned | internal/runtime/engine.go:249-260 | when all runs are gone every channel is empty |
| RunSlots.EveryInterleaving | internal/runtime/engine.go:249-260 | all of this after any calls in any interleaving |
| RunSlots.CommonLimitAlways | internal/runtime/engine.go:884-907 | with one common engine limit no more runs than that work at a time, whatever the instance limits are |
| RunSlots.DifferentLimitsUnbounded | internal/runtime/engine.go:884-907 | with two engine limits any number of runs can work at once, whatever the instance limits are |
| RunSlots.LimitKeptIff | internal/runtime/engine.go:884-907 | the installed limit is kept in every interleaving exactly if all calls have the same engine limit |
| RunSlots.RacingRunsExceedLimit | internal/runtime/engine.go:896-903 | an example of six steps in which two runs work though the installed limit is one |
| RunSlots.NestedStep | internal/runtime/engine.go:249-260 | no other run moves a run that holds a token of the installed channel to another one; its second send fails exactly if the channel is full |
| RunSlots.NestedRejected | internal/runtime/engine.go:249-260 | if that channel has a single token, the run never works, whatever steps follow |
| RunSlots.NestedReached | internal/runtime/engine.go:249-260 | an idle engine reaches that state with every call of engine limit one that has an instance limit |
| RunSlots.UninterruptedWorks | internal/runtime/engine.go:249-260 | in every reachable state an uninterrupted call works exactly if the channel it finds has room for all its slots, else it is rejected with that channel's limit |
| RunSlots.IdleRejectedIff | internal/runtime/engine.go:249-260 | on an idle engine a call is rejected exactly if its engine limit is one and it has an instance limit |
| ToolCallAssembly.KnownIsLatest | internal/runtime/model.go:789-826 | an id is known exactly if a piece or whole call had it, and belongs to the latest piece with it, else the latest whole call |
| ToolCallAssembly.PieceGoesTo | internal/runtime/model.go:789-820 | each piece of a stream goes to its index; without one to the call of the latest earlier piece or else whole call with its id; else to an index that nothing had before |
| ToolCallAssembly.EachCallOnce | internal/runtime/model.go:820-825 | the result has every index that a whole call or a piece had, exactly once, whole calls first |
| ToolCallAssembly.AssembledSinceReset | internal/runtime/model.go:773-787 | the result is made of the last whole calls and exactly the pieces from their event on |
| ToolCallAssembly.AssembledWithoutReset | internal/runtime/model.go:789-870 | without whole calls it is made of all pieces, and without pieces it is the complete response |
| ToolCallAssembly.FallbackIsFirst | internal/runtime/model.go:759-767 | the complete response that stands in is the first one with calls |
| ToolCallAssembly.OrderGrows | internal/runtime/model.go:820-825 | the calls are listed in the order in which their indexes first occur |
| ToolCallAssembly.ArgumentsConserved | internal/runtime/model.go:836-839 | the arguments of each call are its starting text followed by exactly its pieces, in the order of arrival |
| ToolCallAssembly.LatestWordStays | internal/runtime/model.go:826-835 | id, kind and name of a call are the last ones that a piece gave it, else those of the whole call |
| ToolCallAssembly.Assembly.Reset | internal/runtime/model.go:773-787 | whole calls replace all collected ones, in their order |
| ToolCallAssembly.Assembly.SkipTaken | internal/runtime/model.go:801-806 | the search for a free index ends at the first one |
| ToolCallAssembly.Assembly.Route | internal/runtime/model.go:789-820 | a piece goes where the specification says, and the known ids and the next index are kept |
| ToolCallAssembly.Assembly.Add | internal/runtime/model.go:789-840 | a piece goes to its call as specified and changes exactly this call; order, known ids and next index follow |
| ToolCallAssembly.Assemble | internal/runtime/model.go:736-873 | the result of a whole stream is exactly the specified one, for every stream: the calls made of the pieces since the last whole calls, or those of the first complete response |
| ContextBudget.EstimateIsQuarter | internal/runtime/model.go:1450-1463 | a text costs a quarter of its characters, counted up |
| ContextBudget.MessageCost | internal/runtime/model.go:1434-1448 | a message costs a quarter of its role and content, its parts, and four |
| ContextBudget.ConversationCost | internal/runtime/model.go:1434-1448 | a conversation costs its prompt, eight, and each message once |
| ContextBudget.TruncateKeeps | internal/runtime/model.go:1465-1475 | a cut text is the whole trimmed text, or its first characters and dots with only white space lost between them |
| ContextBudget.SystemMeans | internal/runtime/model.go:1355-1361 | a system message is one with that role, in any letter case and between white space |
| ContextBudget.DropCountExactly | internal/runtime/model.go:1329-1342 | how many messages are summarised at first |
| ContextBudget.SummaryHolds | internal/runtime/model.go:1369-1402 | the summary is its title and the given lines below it |
| ContextBudget.TruncateFits | internal/runtime/model.go:1465-1475 | a cut text fits its limit and costs no more than before |
| ContextBudget.TruncateCompacted | internal/runtime/model.go:1412-1432 | as few contents as possible are cut, from the front and never the last one, and then as few messages as possible dropped; the result fits, or all but the last content is cut and two messages are left |
| ContextBudget.DropKeepsHead | internal/runtime/model.go:1424-1430 | dropping keeps the last messages and, before them, the first system message reached, if any |
| ContextBudget.SummaryNotEmpty | internal/runtime/model.go:1369-1402 | the summary is never empty, so a compacted conversation starts with it |
| ContextBudget.Compact | internal/runtime/model.go:1314-1367 | over the budget: the summary and the longest unchanged suffix tried that fits, or the last message alone, and exactly if that does not fit the summary is cut; a single message is lost |
| ContextBudget.CharsAdd | internal/runtime/engine.go:1120-1126 | each message of a session counts once, with the characters of its trimmed content |
| ContextBudget.ClampSessionContext | internal/runtime/engine.go:1097-1118 | the longest suffix within both limits, or the last message cut so that it fits |

## Left out

- Input and output: HTTP, SQLite, Docker, file locks, atomic writes and clocks. Files are byte sequences, saves
  succeed and nobody else edits them, and times are numbers of nanoseconds.
- JSON: encoding and decoding a message is a pair of functions of which the lemmas about appended files require
  that decoding undoes encoding and that an encoding is one line without white space at its ends. The readers are
  proved for every file and every decoder.
- The key functions take the parsed arguments of a call as arbitrary normalised parts; URL and identifier
  normalisation is not modelled.
- ToolLedger.ExecutionsCapped: speaks of the largest cap with which a key was executed, because calls of different
  plugin tools can share a key with different caps; `ToolCaps.GuardedCallsCapped` has the own cap of every other call.
- Texts are ASCII: Unicode white space and case are not modelled, and the white space around a stored line is
  that of ASCII.
- Prompts, directives, recovery messages and the aggregated text of subtasks, artifacts, delegation events, the
  decision ledger, traces and logs: they do not affect control flow.
- Streaming callbacks, run timeouts and cancellation, except as answers of the model.
- Complexity: the thresholds on ratios of token counts are integer comparisons instead of floating point; the
  budget of the compaction is 4/5 of the window in integers. The summary's lines are an arbitrary function.
- Schedules: parsing of durations and times is arbitrary; formatting is required to keep whole seconds and to
  give four-digit years that can be read back. A clock never shows the first second of year 1, which stands for
  "never"; `Schedules.OnceSettledIff` says what happens there.
- Scheduler.Executor.Check: one check is one step for the store, edits by others while jobs run are not modelled;
  neither are an executor without a store, the ticker, and start and stop.
- The error returns of the streamed response and its text deltas: the assembly of tool calls does not depend on
  them.
- ToolRun.Executor.ExecuteTools: the fields of the source's run state are spread over the classes `Executor`,
  `Delegator` and `Run`; notifications about single calls are not modelled.
- Repair of JSON delimiters, prompt stack versions, contract resolution, manifests, configuration, role scores,
  pagination and metrics: self-contained, with mostly easy properties, or not part of the cores above.
- Path guards, secrets, sandboxes, the command line, dashboards and channel bridges.
