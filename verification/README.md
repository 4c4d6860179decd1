# Verified model of the agent's plan engine, limiters, caches and budgets

This project models the parts of the backend that decide things and proves what they decide. Every module models one
source file, or a part of one:

| module | source |
|---|---|
| `PlanTypes`, `PlanModel`, `PlanParser`, `Kahn`, `Planner`, `Templates` | `backend/app/agent/planner.py` |
| `PlanGraph` | the graph theory behind it: ranks, cycles, depths, the recursive meaning of a finished plan |
| `RetryPolicies`, `StepRetry` | `backend/app/agent/retry_policy.py` and the retry loop of `executor.py` |
| `RunModel`, `RunLog`, `RunRounds`, `Executors` | `backend/app/agent/executor.py`, DAG mode |
| `AgentLoop` | the planning and execution phases of `backend/app/agent/loop.py` |
| `RateLimiters` | the rate limiter of `backend/app/core/middleware.py` |
| `CircuitBreakers` | `backend/app/core/circuit_breaker.py` |
| `LruCaches`, `RetrievalCaches`, `SemanticCaches`, `Doubles` | `backend/app/rag/cache.py`, with the rounding of its scores |
| `ContextEngines`, `ContextWindows` | `backend/app/agent/context.py`, `backend/app/rag/context_window.py` |
| `Rerankers`, `Pipelines` | `backend/app/rag/reranker.py`, the merge and rerank part of `backend/app/rag/pipeline.py` |
| `RagMetrics` | `backend/app/rag/metrics.py` |
| `Options`, `Decimal`, `Texts`, `Tokens`, `Permutations` | what they share: numerals, separated keys, messages, slices, rearrangements |

`dafny verify dfyconfig.toml` checks everything.

## How to read it

**The plan engine.** `Planner.BuildPlan` turns any decoded answer of the model into a plan with distinct identifiers
and an acyclic graph; `AgentLoop.Rebuild` is the copy the loop makes of it; `Executors.Executor.Execute` runs it. One
try of a step is an arbitrary stream of events; `StepRetry.Judge` says what a stream per try comes to, so a run is a
function of the plan, the streams, and the order in which the steps of a round finish, which `FinishAll` chooses
freely. `RunLog.Ordered`, `LogTied` and `Books` are what every moment of every run keeps; `RunRounds.Ended` and
`Concluded` are what its end promises. The recursive meaning of a plan, `PlanGraph.SatisfiesRecursion`, knows nothing
of rounds, counters or orders.

No theorem about ended runs is vacuous: for every plan and every behaviour of the tools, `Executors.Executor.Execute`
reaches a state that satisfies `Concluded`, and with it `Ended`.

**Traces.** The limiter, the breaker and the LRU cache are classes whose ghost field is the trace of everything that
happened; `Valid()` says the fields are a function of it, and the theorems are about every trace. The breaker is cut at
its await, so a trace interleaves any number of overlapping calls.

**Budgets.** `Tokens.Encoder` is an arbitrary token counter or none; statements about all encoders say so, and
numeric ones use the estimate of two tokens per five characters.

**Laws.** A method is specified by a function, and a function that decides anything has laws of its own that do not call
it: `RunLog.MayContinueIff`, `StepRetry.VerdictMeaning`, `PlanParser.WrittenIsKept`, `RateLimiters.AdmittedIff`,
`CircuitBreakers.EntersIff`, `LruCaches.EvictsTheLeastRecent`, `ContextWindows.ScanMeaning` and others read off the
entries, reports, requests or messages themselves what the functions compute.

The `hide` statements keep definitions a proof does not need out of its context; they add no fact.

## Where the code and its own words disagree

- A step that completed without any text stores a result whose text is null, and the prompt of a step that depends on
  it slices that null (`executor.py:863-869`): the run ends with a TypeError. `Crashes` is the exact condition, in terms
  of the plan and the outcomes only; `RunRounds.UnstoppedRun` proves it in both directions, and
  `Templates.ComparisonCrashes` spells it out for comparison plans.
- The loop drops steps whose identifier is empty, zero or null when it rebuilds the plan (`loop.py:278`), so the plan
  that runs may have dangling dependencies; their dependents are then skipped without any failure
  (`AgentLoop.OrphansAreSkipped`).
- The retry policies carry `max_retries`, which the retry loop never reads: the caps hold for every run exactly when at
  most two retries are configured.
- The policy for rate limits asks for a minute and more, but every delay is cut to half a minute
  (`RetryPolicies.RateLimitIsCut`).
- A retrieval result stored while Redis was away is hidden by a live older row once Redis is back
  (`RetrievalCaches.SettingIsSeen`).
- The breaker counts failures since the last recovery, not consecutive ones as its comment says.
- The semantic cache looks up a window of score values, not of Hamming distance as its docstring says. The exact
  condition for one differing sign takes the rounding of scores to doubles into account, which with 64 signs matters
  for most queries (`Doubles`).
- Three times the configured limit can be admitted within one window when Redis fails at the wrong moment, twice for a
  window of one second; the bound is proved and reached for every window and limit.
- The key of the sliding window outlives its window by five seconds, and a pipeline that runs later than that after its
  request miscounts; five seconds is exact.
- `fit` promises to fit the budget; it can exceed it by four tokens, and when it truncates it ignores the system prompt.
  For lists in which no content has to be cut the exact condition is one on the costs of prefixes.
- A raise in a round leaves steps marked as failed that `failed_steps` does not count; `RunRounds.CountersAndSkips` has
  the exact number.
- Every cut context exceeds its budget by exactly five tokens: the cut itself comes to the budget, and the marker is
  added after it. The budget is met exactly when nothing is cut.
- `fit_messages` says it returns the system and user messages too; it returns the history only.
- "Most recently touched" has to forget what was popped or cleared before the LRU cache can be said to hold the newest.

## Model

| member | source | states |
|---|---|---|
| `PlanGraph.AcyclicIffNoCycle` | `backend/app/agent/planner.py:754-784` | a topological rank exists exactly when no chain of dependencies returns to its start: "acyclic" and "no cycle" are the same, for every graph |
| `PlanGraph.DepthExists` | `backend/app/agent/executor.py:119-120` | every ranked graph has a depth function: one more than the deepest dependency |
| `PlanGraph.DepthIsLongestChain` | `backend/app/agent/executor.py:119-120` | the depth of a step is the length of the longest dependency chain that ends in it: no chain is longer, and one is as long |
| `PlanGraph.RecursionSolvable` | `backend/app/agent/planner.py:143-156` | on an acyclic plan the recursion "own outcome if all dependencies completed, skipped otherwise" has a solution |
| `PlanGraph.RecursionUnique` | `backend/app/agent/planner.py:143-156` | and every solution agrees with it step by step |
| `PlanGraph.Confluence` | `backend/app/agent/executor.py:119-201` | any two finished plans over the same acyclic graph and outcomes have the same statuses |
| `PlanGraph.SkippedHasFailedAncestor` | `backend/app/agent/executor.py:149-157` | a skipped step is at the end of a dependency chain that begins with a failed step |
| `PlanGraph.CyclicPlansAreNotPinnedDown` | `backend/app/agent/planner.py:781-784` | with a self-dependence the recursion has two solutions: why cycles must be repaired first |
| `PlanModel.Plan.GetReadySteps` | `backend/app/agent/planner.py:143-156` | returns exactly the pending steps all of whose dependencies completed, each once and in step order, and skips exactly the other pending steps with a failed or skipped dependency, judged by the statuses before the pass; nothing else changes |
| `PlanModel.ReadyAmongMember` | `backend/app/agent/planner.py:147-156` | the returned list has exactly the ready steps |
| `PlanModel.ReadyAmongDistinct` | `backend/app/agent/planner.py:147-156` | each once |
| `PlanModel.Plan.ScreenOne` | `backend/app/agent/planner.py:148-155` | one step of that pass |
| `PlanModel.Plan.IdsOf` | `backend/app/agent/planner.py:145-146` | the identifiers with one of the wanted statuses, no more and no fewer |
| `Kahn.SuccessorsMirror` | `backend/app/agent/planner.py:764-768` | a step occurs in the list of a dependency as often as the dependency is listed by the step |
| `Kahn.BuildAdjacency` | `backend/app/agent/planner.py:764-768` | the adjacency lists mirror the dependencies, repeated edges with their multiplicity |
| `Kahn.Relax` | `backend/app/agent/planner.py:776-779` | each occurrence lowers a degree by one, and a node is queued exactly when its degree reaches zero, once |
| `Kahn.TakeNode` | `backend/app/agent/planner.py:773-779` | the degrees keep counting the unsorted dependencies and the queue keeps holding the unsorted nodes without any |
| `Kahn.DrainedQueue` | `backend/app/agent/planner.py:773-784` | when the queue runs empty, the sorted nodes are all nodes exactly on an acyclic graph |
| `Kahn.CountSortable` | `backend/app/agent/planner.py:762-779` | the number of sorted nodes equals the number of steps exactly when the graph is acyclic, repeated edges included |
| `PlanParser.RenamingProgress` | `backend/app/agent/planner.py:720-722` | each renaming makes the identifier longer, and no used identifier is longer than the longest: why the loop ends |
| `PlanParser.UniqueId` | `backend/app/agent/planner.py:720-722` | the renaming ends in an identifier that is not used, and leaves an unused one alone |
| `PlanParser.FreshId` | `backend/app/agent/planner.py:720-723` | the renaming loop computes it |
| `PlanParser.AssignedDistinct` | `backend/app/agent/planner.py:714-723` | the assigned identifiers are pairwise distinct, whatever identifiers the entries carry |
| `PlanParser.AssignedAsAsked` | `backend/app/agent/planner.py:714-723` | an entry gets the id the model wrote, or, where it wrote none, "s" and its position from one, if no earlier entry has it; otherwise that with "_" and its position from zero, unless this is taken too |
| `PlanParser.WrittenIsKept` | `backend/app/agent/planner.py:714-752` | entries that ask for pairwise distinct ids all keep them, in their order, and each keeps its own dependencies |
| `PlanParser.StepsAsWritten` | `backend/app/agent/planner.py:725-745` | the steps of such a plan are its entries: description, tool hint, retry strategy and fallback tool as written, defaults only for what is missing, empty or unknown |
| `Decimal.ReadBack` | `backend/app/agent/planner.py:719-719` | a rendered position, read back as a decimal number, is the position |
| `PlanParser.RequestedAt` | `backend/app/agent/planner.py:714-745` | the requested graph gives every assigned identifier the dependencies of its entry, and has no other identifiers |
| `PlanParser.ParsePlan` | `backend/app/agent/planner.py:696-752` | no plan exactly for an empty or absent list, TypeError exactly for an unhashable identifier among the entries read, otherwise fresh pending steps, at most max_plan_steps, one for every object in the list and in its order, with the assigned identifiers and the fields the entries give |
| `Planner.FilteredIsClosed` | `backend/app/agent/planner.py:756-760` | filtering leaves only dependencies on existing steps, and changes nothing where all exist |
| `Planner.BreakCycles` | `backend/app/agent/planner.py:762-784` | dependencies are kept as filtered exactly when they have no cycle, and all emptied otherwise |
| `Planner.RepairedIsSound` | `backend/app/agent/planner.py:754-784` | the repaired graph is closed and acyclic over the same steps; a sound graph is left as it is; repairing twice is repairing once |
| `Planner.RepairedDependencies` | `backend/app/agent/planner.py:754-784` | without a cycle exactly the unknown dependencies go, with one all go, whether or not unknown ones are there too |
| `Planner.ValidateDag` | `backend/app/agent/planner.py:754-784` | the dependencies in place become the repaired ones: filtered, and emptied if a cycle is left |
| `Planner.BuildPlan` | `backend/app/agent/planner.py:313-332` | from any decoded answer: the repaired graph of what the answer asks for, or a single step where it is of no use; at least one step, at most max_plan_steps, in the order and with the identifiers and fields of the entries, nothing started, dependencies that exist and form no cycle |
| `Planner.PlannedAsWritten` | `backend/app/agent/planner.py:702-784` | an answer whose entries ask for distinct ids is planned with its own graph, repaired; as written when that is closed and acyclic |
| `Planner.PlanAsWritten` | `backend/app/agent/planner.py:702-752` | and the steps of the plan are the entries read, in their order, under the ids they ask for |
| `AgentLoop.SurvivingIsSound` | `backend/app/agent/loop.py:276-300` | the plan rebuilt from the events stays acyclic; its dependencies still exist exactly when no surviving step depends on one whose identifier is empty, zero or null, which the rebuilding drops |
| `AgentLoop.OrphansAreSkipped` | `backend/app/agent/loop.py:276-300` | a step that depended on a dropped one is skipped whatever the outcomes, behind no failure |
| `AgentLoop.Rebuild` | `backend/app/agent/loop.py:269-323` | the rebuilt plan holds fresh copies of exactly the steps with a truthy identifier, in their order and with all their fields, or the default single step |
| `AgentLoop.RebuiltAsPlanned` | `backend/app/agent/loop.py:276-300` | exactly the steps named by the empty text, zero or null are dropped; without them the plan is rebuilt with its own graph |
| `AgentLoop.RunsAsWritten` | `backend/app/agent/loop.py:258-323` | from the answer to the executor: with distinct truthy ids and a closed acyclic graph the executed graph is the one the model wrote |
| `AgentLoop.ConcludedAsExpected` | `backend/app/agent/executor.py:119-201` | a run no early stop ended raises exactly when the recursion would execute a step that quotes a dependency without text, and otherwise ends in the statuses of the recursion |
| `AgentLoop.PlanPhase` | `backend/app/agent/loop.py:258-323` | the plan that will run is the rebuilt copy of the planned one, all of its steps pending, and its graph is acyclic for every answer of the model |
| `AgentLoop.PlanAndExecute` | `backend/app/agent/loop.py:258-345` | end to end, for every answer of the model and every behaviour of the tools: the executed plan has the rebuilt graph of the planned one, is acyclic, and the run concludes as the two rows above and Executors.Executor.Execute say |
| `Templates.ComparisonDepths` | `backend/app/agent/planner.py:517-536` | a comparison plan has depth two: the searches, then the comparison |
| `Templates.ComparisonIsKept` | `backend/app/agent/planner.py:471-541` | cycle repair leaves a comparison plan as built |
| `Templates.ComparisonCrashes` | `backend/app/agent/planner.py:471-541` | a comparison of any number of entities that no early stop ends raises exactly when every search succeeded and one of the last five produced no text |
| `Templates.BuildComparisonPlan` | `backend/app/agent/planner.py:517-541` | one search per entity without dependencies and a last step that depends on all of them, with distinct identifiers |
| `RetryPolicies.ComputeBackoff` | `backend/app/agent/retry_policy.py:38-45` | a delay is never negative and never above the cap, for every backoff function and every draw of the jitter |
| `RetryPolicies.RetryableIff` | `backend/app/agent/retry_policy.py:50-159` | the error types that may be retried are twelve, and no others |
| `RetryPolicies.WaitFollowsPolicy` | `backend/app/agent/retry_policy.py:38-45` | the delay is what the policy asks for, up to a fifth, where that is at most half a minute, and 24 to 30 seconds where it is more |
| `RetryPolicies.BackoffDoubles` | `backend/app/agent/retry_policy.py:50-159` | what a policy asks for is positive and doubles with every attempt, but for rate limits |
| `RetryPolicies.FirstWaits` | `backend/app/agent/retry_policy.py:50-159` | from the first wait of each type: 60 seconds for rate limits, two, one or half a second for the others |
| `RetryPolicies.RateLimitIsCut` | `backend/app/agent/retry_policy.py:57-60` | the minute and more the table asks for after a rate limit is always cut to 24 to 30 seconds |
| `StepRetry.ReportsErrors` | `backend/app/agent/executor.py:408-416` | a try counts as failed exactly when one of its events is an error |
| `StepRetry.ReportOfJoin` | `backend/app/agent/executor.py:396-418` | the report of a stream is that of its parts: texts joined in order, the later error, the later classified type |
| `StepRetry.ReportOfOne` | `backend/app/agent/executor.py:408-416` | and that of a single event: a chunk its text, an error its message and, if it is not empty, its type |
| `StepRetry.Observe` | `backend/app/agent/executor.py:398-416` | the event loop yields the text, the last error and the last classified type of the stream |
| `StepRetry.RetryAccounting` | `backend/app/agent/executor.py:362-509` | between one and max_attempts primary tries and at most one try per fallback tool; only the last try can be accepted; the step fails exactly when none was; a failing step used up its fallbacks unless its strategy is skip |
| `StepRetry.VerdictMeaning` | `backend/app/agent/executor.py:419-495` | by the reports alone: a step succeeds by its last try, a primary one without error or a fallback without error that has some text since the last primary try; it fails after a primary error when every fallback it may use reported an error or left it without a word |
| `StepRetry.FirstFallback` | `backend/app/agent/executor.py:439-447` | the chain of tools counts before the single fallback tool, and after a failed last primary try the first of them is tried unless the strategy is to skip |
| `StepRetry.SilentIff` | `backend/app/agent/executor.py:396-509` | a step leaves no text, which is what later prompts trip over, exactly when every try was silent and, if it failed, its last error had no message |
| `StepRetry.EmittedIs` | `backend/app/agent/executor.py:396-509` | what a step emits is the texts of all its tries, and, when it failed with a message, a notice that ends with at most 100 characters of the last error |
| `StepRetry.RetriesFollowRetryableErrors` | `backend/app/agent/executor.py:424-433` | every primary try but the last met an error whose latest classified type is retryable, and stopping early means the last one did not |
| `StepRetry.PrimaryTriesIff` | `backend/app/agent/executor.py:364-433` | one primary try for a step that asks the user or is skipped on error; for any other at most max_retries_per_step + 1, and exactly so many when every try before the last meets a retryable error |
| `StepRetry.LatestType` | `backend/app/agent/executor.py:409-413` | the type that decides a retry is the one classified last |
| `StepRetry.NoTypeIsUnknown` | `backend/app/agent/executor.py:362-363` | or unknown when none was |
| `StepRetry.UnclassifiedIsFatal` | `backend/app/agent/executor.py:424-426` | so a step whose errors carry no type is never retried |
| `StepRetry.LatestError` | `backend/app/agent/executor.py:498-500` | the error a failed step keeps is the latest one |
| `StepRetry.ConcatJoin` | `backend/app/agent/executor.py:396-418` | the texts of consecutive tries are joined in their order |
| `StepRetry.PolicyCapsHoldIffConfigured` | `backend/app/agent/retry_policy.py:30-35` | the max_retries of the policies bind every run exactly when at most three attempts are configured: the loop never reads them |
| `StepRetry.PrimaryPhase` | `backend/app/agent/executor.py:366-433` | the attempt loop makes exactly the primary tries of the verdict, shows all their text, and sleeps before each retry as long as the policy of the latest type says, never more than 30 seconds |
| `StepRetry.WaitsAre` | `backend/app/agent/executor.py:367-394` | the wait before retry k is the backoff of the policy for the type classified last before it |
| `StepRetry.FallbackMeaning` | `backend/app/agent/executor.py:445-486` | walking the fallback tools with running texts accepts the try, and ends with the texts, that the verdict says |
| `StepRetry.FallbackOnce` | `backend/app/agent/executor.py:461-483` | a fallback try sees its tool as the hint, and the hint of the step is put back |
| `StepRetry.FallbackPhase` | `backend/app/agent/executor.py:439-486` | the fallback tools are tried in order, each once, until one is accepted; the hint is restored |
| `StepRetry.ExecuteStepWithRetry` | `backend/app/agent/executor.py:345-509` | a step is marked failed exactly when no try was accepted, otherwise its status is untouched and its result is the text since the last primary try, if there is any; its hint is restored on every exit; the text is that of all tries and, on failure, the notice; total sleep is at most (max_attempts - 1) times 30 seconds |
| `RunModel.ScreeningSound` | `backend/app/agent/planner.py:148-156` | collecting the ready steps keeps every invariant and skips only steps behind a failed or skipped dependency |
| `RunModel.StartSound` | `backend/app/agent/executor.py:207-207` | a ready step may be started while others run: its dependencies stay completed |
| `RunModel.DrainSound` | `backend/app/agent/executor.py:313-324` | booking a completion keeps every invariant |
| `RunModel.DeadlockSatisfiesRecursion` | `backend/app/agent/executor.py:149-157` | when nothing is ready, skipping all pending steps yields exactly the recursive meaning, on any graph, cyclic ones included |
| `RunModel.FinishedSatisfiesRecursion` | `backend/app/agent/executor.py:119-119` | and so does a plan that ends with no step pending |
| `RunModel.ExecutedAsExpected` | `backend/app/agent/executor.py:189-199` | in the middle of a run, the dependencies of an executed step already have the statuses the recursion gives them |
| `RunModel.HazardIff` | `backend/app/agent/executor.py:851-869` | a prompt raises exactly when one of the last five listed dependencies completed without text, by positions |
| `RunModel.EarlySilenceIsHarmless` | `backend/app/agent/executor.py:862-862` | so the silence of a dependency listed before them, and not again among them, never raises |
| `RunLog.TrailingFailuresMeaning` | `backend/app/agent/executor.py:238-246` | the failure counter is the length of the run of failed completions at the end of the history |
| `RunLog.SeenMeaning` | `backend/app/agent/executor.py:810-824` | a fingerprint counts as seen exactly when an earlier successful completion with text had it |
| `RunLog.TrailingLowGainMeaning` | `backend/app/agent/executor.py:796-824` | the low-gain counter is the number of successful completions since the latest one that brought something new, or since the start: text, and a fingerprint no earlier success with text had |
| `RunLog.FailureGainsNothing` | `backend/app/agent/executor.py:313-324` | a failed completion changes neither that counter nor the fingerprints |
| `RunLog.MayContinueIff` | `backend/app/agent/executor.py:159-187` | the executor goes on exactly while the last three completions have not all failed and there are no two successes since which nothing new has come |
| `RunLog.OrderSafety` | `backend/app/agent/executor.py:189-260` | over a whole run no step starts twice; when a step starts, every dependency completed before and has a stored result, and neither early stop applied to the completions so far |
| `RunLog.StartKeeps` | `backend/app/agent/executor.py:207-208` | starting a ready step keeps order safety, counters, stored results and statuses consistent |
| `RunLog.DrainKeeps` | `backend/app/agent/executor.py:313-324` | and so does booking a completion |
| `RunLog.ResultIsText` | `backend/app/agent/executor.py:233-233` | the stored result is the emitted text, up to 2000 characters of it; without text there is none |
| `RunLog.ScreenKeeps` | `backend/app/agent/executor.py:120-120` | and so does collecting the ready steps |
| `RunRounds.RoundDone` | `backend/app/agent/executor.py:189-199` | a round turns every ready step into its own outcome and leaves strictly fewer steps pending |
| `RunRounds.RoundOnSchedule` | `backend/app/agent/executor.py:119-199` | without failures, round r runs exactly the steps of depth r |
| `RunRounds.NoDeadlockOnSchedule` | `backend/app/agent/executor.py:149-157` | on an acyclic plan without failures some step is ready as long as one is pending |
| `RunRounds.HeightReached` | `backend/app/agent/executor.py:119-119` | and all steps are done after one round more than the greatest depth |
| `RunRounds.HeightIsLongestChain` | `backend/app/agent/executor.py:119-120` | which is the number of steps of the longest dependency chain: no chain is longer, and one is as long |
| `RunRounds.RoundsMatchLongestChain` | `backend/app/agent/executor.py:119-201` | a run without failures and early stop over a plan with depths never deadlocks, takes exactly as many rounds as the longest dependency chain has steps, and starts each step in the round of its depth |
| `RunRounds.EndByStop` | `backend/app/agent/executor.py:159-187` | when a counter has reached its limit at a round boundary, skipping the pending steps leaves every step final and the books right |
| `RunRounds.StopsForAReason` | `backend/app/agent/executor.py:159-187` | a run that stopped early has three failures in a row at its end, or two successes since which nothing new came |
| `RunRounds.CountersAndSkips` | `backend/app/agent/executor.py:313-324` | at the end completed_steps is the number of completed steps, and failed_steps that of failed steps less those that had failed in a raised round before they were booked; without a raise there are none, the numbers with that of the skipped steps make up the plan, and skipped are exactly the steps that never started |
| `RunRounds.UnstoppedRun` | `backend/app/agent/executor.py:119-201` | on a validated plan a run that no early stop ends raises exactly under the condition of the TypeError, and otherwise ends in the statuses of the recursion |
| `RunRounds.RunsAreConfluent` | `backend/app/agent/executor.py:262-343` | two such runs over the same plan and outcomes agree in statuses and counters, whatever the completion orders |
| `RunRounds.DeadlockSkipsBehindFailures` | `backend/app/agent/executor.py:149-157` | every step that the deadlock branch skips on a validated plan has a failed ancestor |
| `Executors.Executor.UpdateInfoGain` | `backend/app/agent/executor.py:796-824` | an empty or already seen result raises the low-gain counter; a new one resets it and is remembered |
| `Executors.Executor.CountCompletion` | `backend/app/agent/executor.py:234-246` | both counters stay functions of the completions since the last reset |
| `Executors.Executor.GetPreviousResults` | `backend/app/agent/executor.py:851-871` | raises exactly when one of the last five dependencies has a stored result without text; otherwise quotes exactly those that have one, in order, with at most 200 characters |
| `Executors.QuotesAreHeads` | `backend/app/agent/executor.py:851-871` | the prompt of a step that may run quotes the last five of its dependencies, in their order, each with the first 200 characters of what that step emitted |
| `Executors.Executor.DrainStep` | `backend/app/agent/executor.py:313-324` | the booking of one completion: result, status, plan counters, stored result, early-stop counters |
| `Executors.Executor.RunTask` | `backend/app/agent/executor.py:284-294` | the task of a step ends with a raise or with the text its tries foretell; a failure is marked on the step at once, before it is booked |
| `Executors.Executor.FinishAll` | `backend/app/agent/executor.py:296-343` | the tasks of a round end, and are booked after their end, in an arbitrary interleaving; the invariant between bookings is kept throughout; a raise leaves live steps running, or already failed with their own outcome |
| `Executors.Executor.ExecuteRound` | `backend/app/agent/executor.py:189-199` | a round starts exactly the ready steps and ends with all of them booked, or with the first that raised |
| `Executors.Executor.SkipRemaining` | `backend/app/agent/executor.py:155-156` | exactly the pending steps become skipped |
| `Executors.Executor.ExecuteFrom` | `backend/app/agent/executor.py:119-201` | the loop ends, for one of five reasons, with what that reason promises |
| `Executors.Executor.Execute` | `backend/app/agent/executor.py:104-201` | every run of a fresh plan, cyclic or dangling dependencies allowed, ends; every step is then final unless the run raised; order safety, counters and stored results hold; the reason for ending is the true one; and the rounds follow the depths when nothing fails |
| `RateLimiters.Redis.Pipeline` | `backend/app/core/middleware.py:389-401` | the pipeline counts what is left in the window and records the request, and renews the expiry |
| `RateLimiters.RateLimiter.MemoryIncr` | `backend/app/core/middleware.py:403-411` | the counter of the aligned window |
| `RateLimiters.RateLimiter.Call` | `backend/app/core/middleware.py:413-449` | admits exactly when the count of the route taken is within the limit, and announces when to come back |
| `RateLimiters.ExpiryIsHarmless` | `backend/app/core/middleware.py:390-401` | while pipelines run within five seconds of their request, no decision would differ if keys never expired |
| `RateLimiters.ExpirySlackIsExact` | `backend/app/core/middleware.py:399-399` | and five seconds is exactly how late they may be, for every window and limit |
| `RateLimiters.ScoresAreComplete` | `backend/app/core/middleware.py:394-398` | the sorted set holds every request of the window whose pipeline took effect, rejected ones included |
| `RateLimiters.SlidingWindowBound` | `backend/app/core/middleware.py:389-449` | for every identifier, run and time t, Redis answers at most the limit with an admission in (t - W, t] |
| `RateLimiters.FixedWindowBound` | `backend/app/core/middleware.py:403-411` | the counter admits at most the limit in every aligned window |
| `RateLimiters.FallbackBound` | `backend/app/core/middleware.py:403-411` | and at most twice the limit in any window of W seconds |
| `RateLimiters.MixedBound` | `backend/app/core/middleware.py:423-449` | for any interleaving of answers, losses before or after the pipeline took effect, and absence of Redis: at most three times the limit in any window of W seconds, twice where W is one second |
| `RateLimiters.MixedBoundIsTight` | `backend/app/core/middleware.py:423-449` | and a run that reaches that bound, for every window and limit |
| `RateLimiters.OthersDoNotCount` | `backend/app/core/middleware.py:389-411` | a decision is the same when all requests of other identifiers are erased |
| `RateLimiters.AdmittedIff` | `backend/app/core/middleware.py:389-449` | the decision by the earlier requests alone: admitted exactly when fewer than limit of the identifier took effect in Redis in the last W seconds, or, without an answer, fewer than limit went to the counter in the current aligned window |
| `RateLimiters.WaitingSuffices` | `backend/app/core/middleware.py:434-447` | an identifier that waits the announced time and is served the same way is admitted |
| `RateLimiters.WaitingIsNeeded` | `backend/app/core/middleware.py:403-447` | and where the counter rejected, asking it again any earlier is rejected |
| `CircuitBreakers.CircuitBreaker.BeginCall` | `backend/app/core/circuit_breaker.py:46-54` | the check before the await |
| `CircuitBreakers.CircuitBreaker.EndWithSuccess` | `backend/app/core/circuit_breaker.py:57-62` | the end of a call that returned |
| `CircuitBreakers.CircuitBreaker.HandleFailure` | `backend/app/core/circuit_breaker.py:63-92` | the end of a call that raised |
| `CircuitBreakers.StateFollowsTrace` | `backend/app/core/circuit_breaker.py:45-97` | for every interleaving of overlapping calls the three fields are what an observer of the events would compute: failures since the last recovery, time of the latest failure, and whether a probe was let through since |
| `CircuitBreakers.EntersIff` | `backend/app/core/circuit_breaker.py:48-58` | a call runs the function exactly when fewer failures than the threshold were recorded since the last recovery, a probe was let through since the latest, or that is longer ago than the timeout |
| `CircuitBreakers.ClosedBelowThresholdIff` | `backend/app/core/circuit_breaker.py:84-97` | CLOSED means exactly failure_count below the threshold in every run if and only if the threshold is positive |
| `CircuitBreakers.Transitions` | `backend/app/core/circuit_breaker.py:45-97` | which event causes which change of state, both directions: only a late enough call half-opens, any failure in HALF_OPEN reopens, only a success observed in HALF_OPEN closes |
| `CircuitBreakers.QuietPeriod` | `backend/app/core/circuit_breaker.py:48-54` | after a failure that leaves the breaker open, no call enters within the recovery timeout, whatever calls in flight do |
| `CircuitBreakers.OpensWithoutConsecutiveFailures` | `backend/app/core/circuit_breaker.py:29-29` | failures of which no two are consecutive open the breaker, against the comment |
| `CircuitBreakers.CountIsConsecutiveIff` | `backend/app/core/circuit_breaker.py:84-92` | the count is the number of consecutive failures exactly when the latest success found no failure counted or was a recovery; it is never less |
| `LruCaches.BoundedLRUCache.Get` | `backend/app/rag/cache.py:48-52` | the value, if the key is cached; a hit moves the key to the end |
| `LruCaches.BoundedLRUCache.Set` | `backend/app/rag/cache.py:54-59` | the key goes to the end with its new value, and the oldest go until the size fits |
| `LruCaches.BoundedLRUCache.Evict` | `backend/app/rag/cache.py:58-59` | the eviction loop leaves exactly the newest entries |
| `LruCaches.BoundedLRUCache.Pop` | `backend/app/rag/cache.py:61-62` | removes the key and returns its value |
| `LruCaches.BoundedLRUCache.ClearMatching` | `backend/app/rag/cache.py:72-76` | removes exactly the keys with the prefix and changes no value |
| `LruCaches.HoldsTheNewest` | `backend/app/rag/cache.py:41-76` | after any run the cached keys are the newest part of the recency list (removed keys erased), at most max_size of them, all distinct |
| `LruCaches.HoldsExactlyTheNewest` | `backend/app/rag/cache.py:48-59` | while only gets and sets occur they are exactly the max_size most recently touched keys, in that order |
| `LruCaches.RecencyIsByTouch` | `backend/app/rag/cache.py:48-59` | the recency list is ordered by the time of the latest set, or of the latest get that found the key |
| `LruCaches.EvictsTheLeastRecent` | `backend/app/rag/cache.py:48-59` | every cached key was touched later than every evicted one, and nothing is evicted before the cache is full |
| `LruCaches.HoldsLastValues` | `backend/app/rag/cache.py:48-59` | each with the value it was last set to |
| `RetrievalCaches.KeyInjective` | `backend/app/rag/cache.py:87-88` | the key determines organisation, top_k and normalised query |
| `RetrievalCaches.OrgPrefixIsExact` | `backend/app/rag/cache.py:132-132` | a key starts with the prefix of an organisation exactly when it is of that organisation: 1, but never 10 |
| `RetrievalCaches.RetrievalCache.Get` | `backend/app/rag/cache.py:90-111` | returns the live row Redis holds for the key, else the one memory holds, else nothing, and drops an outdated row; a hit is a value once set for the same organisation, top_k and query at most the TTL ago |
| `RetrievalCaches.ClearingIsSeen` | `backend/app/rag/cache.py:129-141` | after an organisation was cleared in both stores every lookup for it misses and all others find what they found; cleared in memory alone, only what Redis held is found |
| `RetrievalCaches.SettingIsSeen` | `backend/app/rag/cache.py:90-127` | within the time to live a set is found again while Redis stays up, or stays down; one made without Redis is hidden by a live older row once Redis is back, and one made in Redis is not found without it |
| `RetrievalCaches.RetrievalCache.Set` | `backend/app/rag/cache.py:113-127` | the value goes to Redis when it is up and to memory otherwise, and is there afterwards |
| `RetrievalCaches.RetrievalCache.ClearForOrg` | `backend/app/rag/cache.py:129-141` | exactly the rows of that organisation are gone, from the memory all instances share, and from Redis when it is up |
| `SemanticCaches.Quantize` | `backend/app/rag/cache.py:173-182` | the loop of bitwise ors computes the binary number of the sampled signs |
| `SemanticCaches.SignsMeaning` | `backend/app/rag/cache.py:178-181` | sign k is that of component k times the step, and the signs reach over the whole embedding |
| `SemanticCaches.SixtyFourSigns` | `backend/app/rag/cache.py:166-181` | an embedding of a positive multiple of 64 components has exactly 64 signs; one of fewer than 64 has a sign for each |
| `Doubles.ToDoubleMonotone` | `backend/app/rag/cache.py:265-267` | rounding scores to doubles, as a sorted set does, keeps their order |
| `Doubles.RoundsToNearest` | `backend/app/rag/cache.py:265-267` | the stored score is the nearest double, and of two equally near ones the even |
| `Doubles.FirstLoss` | `backend/app/rag/cache.py:265-267` | scores up to 2^53 are kept exactly, and the next one is not |
| `SemanticCaches.NeighboursAreFound` | `backend/app/rag/cache.py:209-214` | rounding never narrows the window: a score at most two away from that of the query is found |
| `SemanticCaches.WindowIff` | `backend/app/rag/cache.py:209-214` | the window is one of score values, against the docstring: an entry that differs from the query in one sign is in it exactly when that sign is one of the first two, or its score as a double is that of the end of the window |
| `SemanticCaches.WindowIsNotHamming` | `backend/app/rag/cache.py:209-214` | while the scores are at most 2^53, and so exact, only the first two signs count |
| `SemanticCaches.RoundingLetsSignsIn` | `backend/app/rag/cache.py:173-182` | from 2^57 on, for every query, an entry that differs in the third sign, or one that differs in the fourth, is in the window too |
| `SemanticCaches.RenderInjective` | `backend/app/rag/cache.py:254-256` | keys of different namespace, organisation or hash are different strings |
| `SemanticCaches.ScanIsExact` | `backend/app/rag/cache.py:287-290` | the scan pattern matches exactly the keys of that namespace and organisation, though one namespace prefix begins with the other |
| `SemanticCaches.SemanticCache.Set` | `backend/app/rag/cache.py:245-268` | stores the entry and keeps every unexpired entry indexed under its own namespace and organisation with the score of its embedding as a double |
| `SemanticCaches.SemanticCache.Get` | `backend/app/rag/cache.py:198-240` | returns a live entry of the same namespace and organisation above the threshold and in the window such that none is more similar; a miss means there is none, but for similarities of -1 or less; dropping stale index members keeps index and store in step |
| `SemanticCaches.StoredIsCandidate` | `backend/app/rag/cache.py:198-268` | until it expires a stored entry is a candidate for every lookup of its namespace and organisation whose score is at most two away and which is similar enough: so also for its own embedding |
| `SemanticCaches.CandidatesAreLive` | `backend/app/rag/cache.py:216-238` | and nothing expired, foreign or dissimilar is one |
| `SemanticCaches.SemanticCache.ClearForOrg` | `backend/app/rag/cache.py:273-291` | removes exactly the entries of the organisation in its own and in the retrieval namespace, with their indexes |
| `ContextEngines.EstimateMessagesTokens` | `backend/app/agent/context.py:31-37` | the loop computes the sum of the message costs |
| `ContextEngines.TruncateMessages` | `backend/app/agent/context.py:225-254` | the truncation loop with its inner shrinking loop, which ends, computes the kept messages |
| `ContextEngines.TruncationBound` | `backend/app/agent/context.py:225-254` | its result costs at most four tokens more than the budget, for every encoder and message list |
| `ContextEngines.TruncationThins` | `backend/app/agent/context.py:225-254` | it only drops messages and shortens contents: the rest come in order, with their roles, each a prefix and the marker or an extension of the whole |
| `ContextEngines.DroppedIff` | `backend/app/agent/context.py:242-251` | under the length estimate a message is dropped exactly when it is too long and fewer than six tokens are left |
| `ContextEngines.CutIsGreedy` | `backend/app/agent/context.py:239-251` | a content that is cut keeps the first of the lengths 5r/2, four fifths of it, and so on, that fits together with the marker |
| `ContextEngines.TruncationKeepsWhatFits` | `backend/app/agent/context.py:225-254` | truncating a list that fits changes nothing |
| `ContextEngines.SummaryFits` | `backend/app/agent/context.py:170-188` | under the length estimate a summary keeps to any budget of eight tokens or more |
| `ContextEngines.SummaryHoldsAll` | `backend/app/agent/context.py:170-188` | a summary with room for everything holds every message that is not empty: a short one in full, a longer one with its first 200 characters |
| `ContextEngines.Fit` | `backend/app/agent/context.py:64-143` | both forms of fit compute the fitted list |
| `ContextEngines.FittingIsKept` | `backend/app/agent/context.py:73-81` | a conversation that fits together with its system prompt is returned unchanged, for both forms and every encoder |
| `ContextEngines.FewAreThinned` | `backend/app/agent/context.py:83-84` | no more messages than are kept verbatim are only dropped or shortened, in their order |
| `ContextEngines.ManyAreCompressed` | `backend/app/agent/context.py:86-143` | of more, too long ones, the recent are behind one system message: the summary of the others, made for what is left of the budget, or the reply of the model that was asked; if that is too long it is thinned |
| `ContextEngines.FitBound` | `backend/app/agent/context.py:64-143` | the fitted list costs at most max_context_tokens + 4, whatever the messages, the encoder, the system prompt and the reply of the summarising model |
| `ContextEngines.OvershootsIff` | `backend/app/agent/context.py:225-254` | where no content has to be cut, the truncated list exceeds the budget exactly when some prefix of the messages costs one to four tokens more than it |
| `ContextEngines.FitBoundIsTight` | `backend/app/agent/context.py:64-84` | the four are reached for every positive budget, and the system prompt comes on top of them: truncation does not count it |
| `ContextEngines.RecentMessagesSurvive` | `backend/app/agent/context.py:86-104` | with at least 200 tokens of room beside recent messages, system prompt and margin, the result is the summary and all recent messages verbatim, and fits with the system prompt |
| `ContextWindows.LongestSuffixIsTail` | `backend/app/rag/context_window.py:101-114` | the longest suffix within a budget is unique, and is what is left after dropping oldest messages until the rest fits |
| `ContextWindows.FitTail` | `backend/app/rag/context_window.py:101-114` | the newest-first loop returns that longest suffix |
| `ContextWindows.NoSummaryIff` | `backend/app/rag/context_window.py:116-157` | older messages are compressed to nothing exactly when all of them are blank |
| `ContextWindows.SummaryCost` | `backend/app/rag/context_window.py:116-175` | under the length estimate the summary of fewer than a hundred messages costs at most 582 tokens |
| `ContextWindows.CompressOld` | `backend/app/rag/context_window.py:116-175` | the loop over the messages pairs questions with answers as a fold over them does |
| `ContextWindows.StrippedMeaning` | `backend/app/rag/context_window.py:131-131` | stripping takes spaces off both ends, and all of them |
| `ContextWindows.ScanMeaning` | `backend/app/rag/context_window.py:126-143` | a message adds an exchange exactly when it is a note of the system, or answers a question with neither question nor answer in between; blank messages count as nothing |
| `ContextWindows.SummaryHoldsExchanges` | `backend/app/rag/context_window.py:160-175` | the summary quotes each of the first eight exchanges, in full where question and answer are one line of at most 60 and 80 characters |
| `ContextWindows.SummaryHoldsTopics` | `backend/app/rag/context_window.py:144-158` | where nothing was answered, it names what the first five messages said, in full where that is one line of at most 40 characters |
| `ContextWindows.LongHistory` | `backend/app/rag/context_window.py:74-92` | of a long history only the last max_history_messages count; the newest tail_window of them stay and the others are summarised |
| `ContextWindows.FitMessages` | `backend/app/rag/context_window.py:53-99` | the method computes the summary and the tail for the budget left by prompt, question and context, at least 200 |
| `ContextWindows.HistoryIsVerbatim` | `backend/app/rag/context_window.py:74-99` | behind the summary, if any, comes an unchanged suffix of the history |
| `ContextWindows.HistoryBound` | `backend/app/rag/context_window.py:74-99` | the fitted history costs at most the budget, or the summary where that is more |
| `ContextWindows.CutContextShape` | `backend/app/rag/context_window.py:192-200` | a context within its budget is passed on as it is, another as a prefix and the marker |
| `ContextWindows.CutIsExactlyFiveOver` | `backend/app/rag/context_window.py:188-200` | under the length estimate with an exact quotient, every context that is cut ends up exactly five tokens over its budget, and every other is untouched |
| `ContextWindows.ContextFitsIff` | `backend/app/rag/context_window.py:188-200` | so what is passed on keeps to the budget exactly when nothing was cut |
| `ContextWindows.BuildRagMessages` | `backend/app/rag/context_window.py:178-211` | the method assembles system prompt, fitted history and question with the cut context |
| `ContextWindows.PromptShape` | `backend/app/rag/context_window.py:203-211` | the system prompt comes first, the fitted history next, and last the context, whole or cut, and the question, each under its title |
| `ContextWindows.EverythingFits` | `backend/app/rag/context_window.py:178-211` | where context and up to six messages fit, both are in the prompt word for word, for every encoder |
| `ContextWindows.PromptBound` | `backend/app/rag/context_window.py:178-211` | under the length estimate the whole prompt costs at most max_tokens + 3, or 1002 more than system prompt and question where those leave less room |
| `Permutations.PickPermutes` | `backend/app/rag/reranker.py:172-180` | picking by a permutation of the indices rearranges the candidates |
| `Rerankers.MentionedIff` | `backend/app/rag/reranker.py:171-176` | the candidates put first are exactly those whose number the model wrote |
| `Rerankers.EarlierMentionsFirst` | `backend/app/rag/reranker.py:171-176` | in the order of their first mention |
| `Rerankers.MissingAscends` | `backend/app/rag/reranker.py:177-180` | candidates that are not mentioned follow in their old order |
| `Rerankers.LlmOrderPermutes` | `backend/app/rag/reranker.py:170-180` | for every output of the model the order is a permutation of the candidates |
| `Rerankers.RerankLlm` | `backend/app/rag/reranker.py:170-180` | the two loops compute it |
| `Rerankers.ZhipuPermutesIff` | `backend/app/rag/reranker.py:124-135` | the order of the API rearranges the candidates exactly when it repeats no valid index |
| `Rerankers.ValidIndicesJoin` | `backend/app/rag/reranker.py:124-131` | the valid indices are taken in the order of the results |
| `Rerankers.RerankZhipu` | `backend/app/rag/reranker.py:124-135` | the two loops compute it |
| `Rerankers.RankingIsRanked` | `backend/app/rag/reranker.py:88-90` | the sort puts higher scores first and equal scores in the order of the candidates |
| `Rerankers.RankingPermutes` | `backend/app/rag/reranker.py:88-90` | and loses no candidate that has a score |
| `Rerankers.LocalPermutesIff` | `backend/app/rag/reranker.py:88-95` | the local order rearranges the candidates exactly when no candidate left without a score equals one with a score; so one score per candidate is enough |
| `Rerankers.Rerank` | `backend/app/rag/reranker.py:188-231` | the first way that answers decides; the hits beyond top_n follow unchanged |
| `Rerankers.CandidatesAre` | `backend/app/rag/reranker.py:188-200` | the first top_n hits are reranked, twenty where it is zero and one where it is negative |
| `Rerankers.WhichWayDecides` | `backend/app/rag/reranker.py:188-231` | the local model decides where it is asked and answers, else the API, else the language model; where none answers, or reranking is off, the hits stay as they are |
| `Rerankers.RerankByScore` | `backend/app/rag/reranker.py:64-95` | with a score for every candidate the front of the result is the candidates by descending score, ties in their order |
| `Rerankers.RerankNeverAdds` | `backend/app/rag/reranker.py:188-231` | with a fair API no hit is invented or repeated, however many scores the local model gave |
| `Rerankers.RerankPermutes` | `backend/app/rag/reranker.py:188-231` | with one score per candidate the result is a rearrangement that fixes everything beyond top_n |
| `Pipelines.Retrieve` | `backend/app/rag/pipeline.py:171-202` | each sub-query contributes its first answer within retries + 1 attempts, or nothing |
| `Pipelines.FirstAnswerIs` | `backend/app/rag/pipeline.py:176-195` | a sub-query contributes the hits of its first attempt that answers, and nothing when all of them fail |
| `Pipelines.GatheredJoin` | `backend/app/rag/pipeline.py:171-202` | the hits come in the order of the sub-queries |
| `Pipelines.FirstIndicesMeaning` | `backend/app/rag/pipeline.py:204-219` | the merge keeps exactly the hits without a key and the first hit of every key |
| `Pipelines.DedupKeyIs` | `backend/app/rag/pipeline.py:208-213` | the key of a hit is the first of its chunk id, raw id, document id and source document that is there |
| `Pipelines.ChunksSurvive` | `backend/app/rag/pipeline.py:204-219` | among hits with chunk ids exactly the first of every chunk survives, whatever their documents |
| `Pipelines.FirstIndicesIncrease` | `backend/app/rag/pipeline.py:204-219` | in their order |
| `Pipelines.Merge` | `backend/app/rag/pipeline.py:204-219` | the nested loops compute it |
| `Pipelines.MergedHasNoRepeats` | `backend/app/rag/pipeline.py:204-219` | no key occurs twice in the merge |
| `Pipelines.Search` | `backend/app/rag/pipeline.py:171-240` | retrieval, merge, reranking and slicing composed |
| `Pipelines.FinalHitsDoNotRepeat` | `backend/app/rag/pipeline.py:204-240` | no key occurs twice among the final top_k, whatever the sub-queries found and however it was reranked by a fair API |
| `RagMetrics.KeptStep` | `backend/app/rag/metrics.py:17-24` | pruning after every event leaves what pruning the full log once would leave |
| `RagMetrics.PrunedLogIsExact` | `backend/app/rag/metrics.py:26-43` | a window of one second to one day sees the same events in the pruned log as in the full one |
| `RagMetrics.SinceMeaning` | `backend/app/rag/metrics.py:26-43` | a window over events in order takes exactly the values of the events not before its start, in order |
| `RagMetrics.SumOfJoin` | `backend/app/rag/metrics.py:26-29` | sums add up over the parts of a window |
| `RagMetrics.ExactWindows` | `backend/app/rag/metrics.py:17-34` | those are exactly the windows whose counts pruning never changes |
| `RagMetrics.SortedFacts` | `backend/app/rag/metrics.py:39-39` | the sorted values are the values, in ascending order |
| `RagMetrics.PercentileMeaning` | `backend/app/rag/metrics.py:36-43` | the percentile of a share below one is a recorded value with at most that share of the values below it and more than that at or below it |
| `RagMetrics.RAGMetrics.RecordEvent` | `backend/app/rag/metrics.py:17-24` | appends to the log and keeps every pruned log in step with its full one |
| `RagMetrics.RAGMetrics.WindowSum` | `backend/app/rag/metrics.py:26-29` | the sum over the full log, for windows of one second to one day |
| `RagMetrics.RAGMetrics.WindowCount` | `backend/app/rag/metrics.py:31-34` | the count over the full log, for windows of one second to one day |
| `RagMetrics.RAGMetrics.PercentileOf` | `backend/app/rag/metrics.py:36-43` | the percentile over the full log, for windows of one second to one day |

## Left out

- Executors.Executor.Execute: serial mode is not modelled; its order ignores dependencies, and it indexes an empty list when every pending step was just skipped.
- Executors.Executor.FinishAll: a task runs from its prompt to its end in one piece; tasks share nothing but the stored results, which no longer change for the dependencies of a running step. What the cancellation of the other tasks after a raise leaves behind beyond their statuses, such as the hint of a fallback tool, and a disconnecting client are not modelled.
- Executors.Executor.GetPreviousResults: the descriptions and the untrusted-data wrapper of the quoted results are not modelled; exceptions other than the null slice are not either.
- Executors.Executor.UpdateInfoGain: the fingerprint (normalised text, numbers, MD5) is an arbitrary function of the text.
- StepRetry.ExecuteStepWithRetry: the sleeping itself, the thinking and retry-hint events and the shortening of messages shown to the user are left out; the random jitter is an arbitrary number in its range.
- RetryPolicies.ComputeBackoff: arithmetic is over the reals.
- PlanParser.ParsePlan: starts from decoded JSON; the search for JSON in the answer, dependency entries that are not lists of strings, numbers or nulls, boolean and fractional identifiers, `parallel_group`, `risk_level` and the texts of the goal and the reasoning are left out. The executor reads none of the last four.
- Templates.BuildComparisonPlan: starts from the extracted entities; the keyword classification, the extraction of entities by regular expressions, and the analysis and research templates, which are fixed chains of three or four steps, are left out.
- AgentLoop.PlanAndExecute: stands for a request with planning and tools enabled and a working memory just reset; the conditional routing after an aborted run, reflection and its single-step retries, and the mode without tools are left out.
- RateLimiters.RateLimiter.Call: excluded paths, the parsing of the identifier, the response itself and Redis losing data are left out; times do not go backwards.
- CircuitBreakers.CircuitBreaker.BeginCall: the synchronous wrapper, which is the same code without the await, and the default values returned to callers are left out.
- RetrievalCaches.RetrievalCache.Get: starts from the stripped and lower-cased query, with the cache enabled; a Redis that fails halfway through a clear is not modelled.
- SemanticCaches.SemanticCache.Get: operations on one server are atomic; the hash and the similarity are arbitrary functions.
- ContextEngines.Fit: a message without a role or content is read as its default; the request to the summarising model is an arbitrary reply.
- ContextEngines.TruncationThins: with an encoder that needs more than one token per character a shortened content may also be the whole original followed by remains of the marker; the statement allows for it.
- ContextWindows.CutIsExactlyFiveOver: the quotient of the two counts is exact, where the program divides floating-point numbers.
- Rerankers.RerankZhipu: starts from the decoded indices; the request, its timeout and the other model calls are arbitrary answers or absent.
- Rerankers.RankingIsRanked: scores are real numbers, without NaN.
- Pipelines.FinalHitsDoNotRepeat: an API that repeats an index repeats the hit, so the statement asks for a fair one; Rerankers.ZhipuPermutesIff is the exact condition.
- RagMetrics.RAGMetrics.PercentileOf: sums and products are over the reals; the clock does not go backwards.
- `inject_tool_results`, `progress`, the metrics collector, percentiles of response times, message bus, trace store, authentication, storage, streaming and logging are not modelled: they would add only easy members.
