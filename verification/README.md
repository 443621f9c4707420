# Verified model of the orchestration engine's core

This project models the parts of the engine (`platform/engine`) whose correctness is not
visible from any single function: the dependency-aware planner, the dispatcher with its
semaphore and its retry loop, the context budgeter, the two stores with a time to live, the
FinOps ledger, the provider loop, the write-ahead session file, and the round-robin
injection of agency agents. `dafny verify dfyconfig.toml` checks everything.

Code that changes state step by step is modelled by methods with loops and by classes with
fields (`SemaphoreCell`, `RevisionLedger`, `Invocation`, `AdapterResultCache`,
`InMemoryStorage`, `SemanticMemoryStore`, `FinopsGovernor`, `SessionFile`, `Engine`). Each
method is tied to a specification function, and the results below are about those
functions, so they hold for the methods. Whatever comes from outside (clocks, agents,
providers, gates, log callbacks, reads and writes of the event file, the cache file and the
ledger) is a parameter that ranges over all behaviours; session file and memory store are
taken not to fail. Concurrency is a step system: the results about it hold in every interleaving.

| Files | What they model |
|---|---|
| `PlanGraph`, `Planner`, `PlannerRun`, `CriticalPath` | Kahn layering into execution groups and the critical path |
| `BoundedGroup` | the counting semaphore of a parallel group |
| `SelfRevision`, `InvocationLoop`, `InvocationProperties`, `Verdicts`, `RevisionEvents`, `Dispatcher` | one agent invocation with its retry and revision budgets |
| `SharedEvents` | the event file while a group of invocations uses it |
| `StateDispatch`, `StandIns` | sequential and grouped dispatch of a state, and who runs for whom |
| `Utf8`, `ContextBudgeter`, `BudgetMetrics`, `SurrogateSplits`, `BudgetRoom` | byte counting and the byte budget |
| `Texts`, `SemanticMemory`, `Compaction`, `MemoryRuns` | the tiered memory store, compaction, whole runs |
| `AdapterCache` | the adapter result cache and its file |
| `Finops`, `InFlight`, `Attribution` | budget gate, ledger, invocations in flight, attribution report |
| `ProviderLoop` | providers in order, validation and repair on each |
| `SessionFiles`, `SessionEngine`, `SessionRecords` | the session file, the engine operations that write it, and what a new engine reads back |
| `HybridInjections` | round-robin injection |
| `Sequences`, `OrderedMaps`, `Arithmetic` | stable sort, the ECMAScript `Map`, sums |

## Where the code differs from what is said about it

- `context-budgeter.ts:21` promises output bytes within the budget. That holds exactly when
  each of the first `minItems` ranked items either fits what those before it leave or is cut
  where room for the suffix remains (`WithinBudgetIffRoom`). For suffixes of three bytes or
  more, such as the default one, that is when these items, capped, fit together
  (`WithinBudgetIff`): always under the defaults (`DefaultsStayWithin`), not under a smaller
  budget (`SmallBudgetOverflows`). `OutputBytesBound` is the bound that always holds, and
  `SplitPairIsTight` reaches it.
- `context-budgeter.ts:150` promises a ranking by relevance. Relevance weighs four times what
  freshness does (`RankScoreWeighs`), so it decides for sure exactly when it is more than a
  quarter higher (`RelevanceDecidesIff`).
- `context-budgeter.ts:174` promises that no surrogate pair is split. A pair is split exactly
  when the limit falls strictly inside it (`CutsPairIff`).
- `invoke` comes to the code behind its loop exactly when a budget is negative
  (`TailReachableIff`). It logs one entry per call exactly when the log callback throws in the
  body of no attempt (`OneEntryPerCallIff`); `ThrowingCallbackLogsTwice` is such a run.
- A response can be refused as if the revision budget were used up, without a revision event:
  exactly when its contract did not fail, its score passes the second normalisation, and
  either its approval is missing or its score failed the first one (`RefusedWithoutEventIff`).
  An approved score of 0.01 is refused so (`TinyScoreIsRefused`).
- An append writes its event alone, over all older ones, when reading the file or the first
  write fails; a run loses older events exactly when it has made such an append
  (`OlderEventsStand`), and a file that can always be read does not prevent that
  (`FailedWriteLosesOlder`).
- Marking an event reads and writes the file in different turns. Of the events that a group of
  invocations makes, none is ever missing exactly when nothing is appended between the read and
  the write of a mark (`NothingLostIff`); `OverlapLosesEvent` is a loss.
- An event can say that a run succeeded which has failed (`CallbackFaultMisleads`), but not
  while marks work and the log callback does not throw in the body (`NewestEventTellsTheEnd`).
- A concurrency limit below one makes a group wait for ever (`StuckAtLaunchIff`). The bound
  of the semaphore rests on every task calling `acquire` before any release
  (`LateAcquireBreaksBoundIff`).
- A cache reload that can read the file brings back the look-ups as they were when file and
  memory were last the same (`ReloadRestoresSyncPoint`), so it is harmless exactly when the
  calls that have not reached the file changed no look-up; one that cannot read it starts empty,
  which is harmless exactly when there was nothing to look up (`ReloadHarmlessIff`).
  `UnwrittenInvalidationReturns` and `UnreadReloadForgets` are histories where it does harm.
- Two different calls can share a cache key (`KeysCollide`), but not when adapters and operations
  are free of colons (`KeyIsUnique`).
- A ledger that cannot be read counts as empty. A gate that cannot read it lets a spent session
  go on (`UnreadGateOverspends`); the ceilings then hold, while the ledger has room, exactly when
  a gate that can read it would have let the actual usage through (`RoomyRecordStaysWithinIff`).
- The FinOps gate counts recorded usage only, so invocations in flight together can exceed a
  ceiling, by at most one estimate for each but one of them (`OvershootBounded`), and that much
  is reached (`OvershootReached`).
- Recording usage lowers a total exactly when the rows it takes out of the ledger, the oldest of
  a full one or all of one it cannot read, have more tokens in it than the new row
  (`TotalsKeepIff`). It then loosens the retry governor under some ceilings, and only then
  (`GovernorTightensIff`); `FullLedgerLoosens` is such a recording.
- `state-machine.ts:532` says that critic states require a passing gate result. An advance that
  nothing else stops goes through exactly when its result approves or is missing
  (`CriticAdvancesIff`); `CriticAdvancesUngated` is one without.
- `state-persistence.ts:340-342` says that the write-ahead marker tells crash recovery of an
  interrupted transition. The loader refuses a file without a status, so a crash right behind the
  first intent of a new session is forgotten, transition identifier included
  (`FirstIntentIsForgotten`); at every other point of an advance both survive (`RetryKeepsTheId`).
- A restart reads moves back but no gate results, so the first save after it leaves none in the
  file (`RestartForgetsGates`). State and moves are kept exactly when the flow has the state; the
  idle state starts without moves (`RestartKeepsIff`).
- After a refused gate the file stays in progress (`OpenAdvanceIsSafe`) while the engine reports
  no transition status (`Engine.Advance`).

## Model

| member | source | states |
|---|---|---|
| PlannerRun.BuildGraph | platform/engine/proactive-discovery-optimization.ts:746-764 | For any items, the counter of each id is the number of its known dependencies with repetitions, and each list of dependents mirrors them |
| PlannerRun.ScheduleRounds | platform/engine/proactive-discovery-optimization.ts:766-796 | The round loop ends for any input, repeated and unknown dependencies included; no group is empty; with distinct ids the groups are the depth layers and the order lists dependencies first |
| Planner.GroupIsLongestChain | platform/engine/proactive-discovery-optimization.ts:766-796 | An item is in group k if and only if its longest chain of known dependencies has exactly k edges |
| PlanGraph.AtDepthIsLongestChain | platform/engine/proactive-discovery-optimization.ts:752-764 | Having depth k in the recursive sense is having a longest chain of k edges |
| PlanGraph.DependsOnCycleIffDeep | platform/engine/proactive-discovery-optimization.ts:752-764 | An item depends on a cycle, directly or transitively, if and only if it is deeper than the number of items |
| Planner.LeftOutIffOnOrAboveCycle | platform/engine/proactive-discovery-optimization.ts:786-796 | The items left out of the plan are exactly those that depend on a dependency cycle, self-loops included |
| Planner.ScheduledBelow | platform/engine/proactive-discovery-optimization.ts:772-796 | Everything a scheduled item depends on, directly or transitively, is scheduled |
| Planner.GroupsAreLayering | platform/engine/proactive-discovery-optimization.ts:772-796 | A dependency is always in a strictly earlier group |
| Planner.FewestGroups | platform/engine/proactive-discovery-optimization.ts:772-796 | No valid layering of the scheduled items has fewer layers than the plan has groups |
| CriticalPath.NextEntryIsBest | platform/engine/proactive-discovery-optimization.ts:801-817 | Once the best chains of all dependencies are known, the entry computed for an item is a heaviest chain that ends at it |
| CriticalPath.LongestPath | platform/engine/proactive-discovery-optimization.ts:798-822 | Over an order that lists dependencies first, the entry picked is a real dependency chain with exactly the stated duration, and no chain of scheduled items is heavier |
| CriticalPath.PlanDependencyAwareExecution | platform/engine/proactive-discovery-optimization.ts:742-833 | For any items: order and groups agree and rows say of their items what these are; with distinct ids: depth layers by falling priority, and a maximal critical path, in estimated minutes too |
| CriticalPath.CriticalByEstimates | platform/engine/proactive-discovery-optimization.ts:803-822 | In estimated minutes, a missing estimate counting fifteen and a short one as one: no dependency chain is longer than the critical path if the estimates are whole, and otherwise none by as much as a minute for each step |
| Planner.DurationOfEstimate | platform/engine/proactive-discovery-optimization.ts:803-803 | An estimate from one minute up counts its whole minutes, a shorter one counts as one, a missing one as fifteen |
| Planner.PriorityOfScores | platform/engine/proactive-discovery-optimization.ts:440-450 | The priority is 0.4 impact, 0.35 urgency and 0.2 risk less 0.15 cost, each clamped to [0, 1] and one half if missing, to the nearest thousandth and never negative |
| Planner.GroupIsByPriority | platform/engine/proactive-discovery-optimization.ts:767-795 | A group lists its items by falling priority score, and items of equal score in their input order |
| BoundedGroup.SemaphoreCell.Acquire | platform/engine/dispatcher.ts:1732-1739 | The caller is admitted at once if and only if a slot is free, otherwise it joins the end of the queue |
| BoundedGroup.SemaphoreCell.ResumeWaiter | platform/engine/dispatcher.ts:1740-1743 | A waiter that resumes takes its slot only then, and the mark follows |
| BoundedGroup.SemaphoreCell.Release | platform/engine/dispatcher.ts:1745-1749 | The slot is given back before the first waiter is resolved |
| BoundedGroup.BoundedInEveryRun | platform/engine/dispatcher.ts:1727-1797 | In every interleaving running and woken tasks together never exceed the limit, a task waits only while they equal it, and the reported concurrency is exactly min(limit, tasks that reached the semaphore) |
| BoundedGroup.FirstComeFirstServed | platform/engine/dispatcher.ts:1730-1749 | At any moment the tasks still waiting are the last of those that asked, in submission order |
| BoundedGroup.NeverStuck | platform/engine/dispatcher.ts:1732-1797 | With a limit of at least one some step is possible until every task is done |
| BoundedGroup.EveryMaximalRunFinishes | platform/engine/dispatcher.ts:1751-1797 | Every schedule is finite, and one that cannot go on has finished every task |
| BoundedGroup.StuckAtLaunchIff | platform/engine/dispatcher.ts:1732-1743 | A group is stuck from the start if and only if the limit is below one and some task asks |
| BoundedGroup.LateAcquireBreaksBoundIff | platform/engine/dispatcher.ts:1733-1748 | A task asking late breaks the bound if and only if it arrives between a release and the resumption of the waiter woken by it, all other slots being taken |
| SelfRevision.RefusedWithoutEventIff | platform/engine/self-revision.ts:82-123 | For all scores and thresholds: a response is refused without an event if and only if its contract did not fail, its score passes the second normalisation, and its approval is missing or its score failed the first |
| SelfRevision.TinyScoreIsRefused | platform/engine/self-revision.ts:84-98 | An approved response of one percent, given as a fraction, is refused so |
| SelfRevision.RevisionLedger.Append | platform/engine/self-revision.ts:264-272 | A new event goes behind the others; if the read or the first write fails it replaces them; if an exception leaves the append nothing changes |
| SelfRevision.AppendKeeps | platform/engine/self-revision.ts:264-272 | Event by event: an append that reads and writes at the first try keeps all, one that writes its event alone only that one |
| SelfRevision.RevisionLedger.Mark | platform/engine/self-revision.ts:252-290 | An unknown event, and a file that cannot be read, are left alone; otherwise the event is marked; nobody else uses the file meanwhile |
| SelfRevision.MarkChangesOne | platform/engine/self-revision.ts:279-290 | Event by event: marking touches the named one alone |
| Dispatcher.Invocation.TryBody | platform/engine/dispatcher.ts:1064-1274 | The body of one attempt updates counters, log and events exactly as the transition function for it, faults of store and callback included |
| Dispatcher.Invocation.HandleFailure | platform/engine/dispatcher.ts:1275-1394 | So does the handler, which may log an entry a second time; its entry keeps the revision fields that the body has left in it |
| Dispatcher.Invocation.Invoke | platform/engine/dispatcher.ts:1022-1417 | For every behaviour of the outside the loop in place ends as the recursive run does: same verdict, log, events, counters and sleep |
| Verdicts.SucceedsIff | platform/engine/dispatcher.ts:364-412 | Whatever the outside does, an invocation that ends has succeeded if and only if its last call returned without a failed contract and with no quality assessment or an approval at or above the threshold in percent, continuity did not refuse it, and marking and logging it did not throw |
| Verdicts.ApprovedAtOnce | platform/engine/dispatcher.ts:1106-1274 | A first answer like that ends the invocation as a success after one call |
| Verdicts.RefusedUntilSpent | platform/engine/dispatcher.ts:1106-1194 | An answer that is not approved, given again and again, fails after one call more than there are revisions, with one event and one delay for each; after one call if no event is made |
| Verdicts.DecisionSaysWhy | platform/engine/dispatcher.ts:390-411 | A refusal is blamed on the verifier exactly when the contract failed, and carries the percentages compared |
| Verdicts.FailureCosts | platform/engine/dispatcher.ts:1275-1394 | A failure raised every time: an abort escapes and a fatal one ends at once; a revisable one uses up revisions and then retries with both full series of delays, any other one the retries alone; severity and reason say which |
| Verdicts.EscapesIff | platform/engine/dispatcher.ts:1275-1377 | A failed call lets an exception out if and only if it is an abort or the handler's own event, mark or log entry throws |
| Verdicts.ResultExplains | platform/engine/dispatcher.ts:1178-1393 | Every result gives the severity and the event that go with its reason |
| Verdicts.VerdictEntry | platform/engine/dispatcher.ts:1106-1274 | An answered attempt in which nothing throws logs one entry, with its verdict, the revisions made and the newest event |
| Verdicts.RaisedEntry | platform/engine/dispatcher.ts:1287-1354 | So does a failed one: a retry with its new event when it is revised, otherwise timeout, retry or failure by its attempt number |
| Verdicts.RetriesAreLogged | platform/engine/dispatcher.ts:1287-1294 | Over a run of retries the entries are numbered retries, or timeouts, and the last one a failure |
| InvocationProperties.EndsWithinBudget | platform/engine/dispatcher.ts:1042-1054 | With budgets that are not negative every run leaves from inside the loop, each counter under its cap, after at most one call more than both budgets together |
| InvocationProperties.TailReachableIff | platform/engine/dispatcher.ts:1397-1417 | The code behind the loop can be reached if and only if a budget is negative |
| InvocationProperties.ReturnedRunIsLogged | platform/engine/dispatcher.ts:1054-1394 | In every run that returns the log is longer than the number of calls by exactly the entries logged twice; the last entry, and no other, gives the verdict |
| InvocationProperties.OneEntryPerCallIff | platform/engine/dispatcher.ts:1054-1394 | Whatever fails, in a run that returns there is one entry per call and one more for each call whose log callback was reached in the body and threw; so there is exactly one per call if and only if there is no such call |
| InvocationProperties.OneEntryPerCallOutside | platform/engine/dispatcher.ts:1054-1394 | When the event file never throws, that is so if and only if the callback threw for no call that the invoker answered |
| InvocationProperties.OneEntryPerCall | platform/engine/dispatcher.ts:1054-1394 | Without callback faults a returning run has one entry per invoker call, numbered from 1, with success on the last one if and only if the result is a success and on no other |
| InvocationProperties.ThrowingCallbackLogsTwice | platform/engine/dispatcher.ts:1276-1294 | Whatever the budgets, a log callback that throws something fatal makes the single call of its run show up twice |
| InvocationProperties.SettingsGiveDelays | platform/engine/dispatcher.ts:1600-1605 | Settings that are not negative never give a negative delay |
| Verdicts.DelaysDouble | platform/engine/dispatcher.ts:1600-1605 | Retries and revisions each begin with their own base delay and double it, never above their own cap |
| Verdicts.DefaultBackoff | platform/engine/dispatcher.ts:1600-1605 | By default that is 2, 4, 8, 16 and then 30 seconds |
| InvocationProperties.TotalSleepBounded | platform/engine/dispatcher.ts:1600-1605 | However a run ends, it has slept at most the two full capped backoff series: each exponent at most once per budget |
| RevisionEvents.NewestEventTellsTheEnd | platform/engine/dispatcher.ts:1106-1377 | While marks work and the log callback does not throw in the body, whatever else fails, the newest event of a run tells how it ended, and its other events in the file stay applied |
| RevisionEvents.CallbackFaultMisleads | platform/engine/dispatcher.ts:1240-1294 | A run that fails with its newest event marked as succeeded |
| RevisionEvents.OlderEventsStand | platform/engine/dispatcher.ts:1106-1377 | Whatever fails, each event older than the run is there as it was, unless an append that the run made wrote its event alone; then they are all gone |
| RevisionEvents.AddedIsNotRewritten | platform/engine/self-revision.ts:264-272 | As long as reading and first write succeed no run makes such an append |
| RevisionEvents.FailedWriteLosesOlder | platform/engine/self-revision.ts:264-272 | A run over a readable file whose first write fails and whose second one succeeds loses every older event |
| SharedEvents.NothingLostIff | platform/engine/self-revision.ts:252-290 | In any interleaving of the appends and marks of a group, the file has every event made at every moment if and only if no append falls between the read and the write of a mark |
| SharedEvents.OverlapLosesEvent | platform/engine/self-revision.ts:279-290 | Two invocations of which one loses its event so |
| SharedEvents.ApartIsAtomic | platform/engine/self-revision.ts:252-290 | If the file never changes between the read and the write of a mark, it is the one that atomic appends and marks leave, in the order of the writes |
| SharedEvents.OneTaskIsApart | platform/engine/self-revision.ts:279-290 | One invocation at a time meets that condition |
| StateDispatch.SubstitutionIsJustified | platform/engine/dispatcher.ts:277-303 | An agent is replaced only while it is unavailable and names a capability, and only by an available agent with that capability |
| StandIns.ResolveIsExact | platform/engine/dispatcher.ts:277-303 | A listed agent that is available, or needs no capability, runs itself; otherwise the first of the registry runs that is available and has the capability; nobody is found only if there is none |
| StandIns.TaskBooks | platform/engine/dispatcher.ts:1751-1797 | The task of an id books the answer of the agent that runs for it, by its budget, policy and configuration, or a failure if nobody does |
| StandIns.StepBooks | platform/engine/dispatcher.ts:1450-1515 | So does the sequential loop for every agent it has not used, and a failure stops it if the mode says so |
| StandIns.ParallelIsJustified | platform/engine/dispatcher.ts:1831-1920 | Grouped dispatch never runs an unavailable agent that needs a capability some available one has |
| StandIns.SequentialIsJustified | platform/engine/dispatcher.ts:1422-1518 | Neither does sequential dispatch |
| StandIns.OutputsAreOfSuccesses | platform/engine/dispatcher.ts:1496-1503 | The paths handed on are exactly the outputs, if not empty, of successes |
| StateDispatch.DispatchStateSequential | platform/engine/dispatcher.ts:1422-1518 | The loop in place computes the fold of the sequential step over the registry |
| StateDispatch.DispatchStateParallel | platform/engine/dispatcher.ts:1831-1920 | The loops in place compute the fold over groups, for each failure mode; an agent nobody can stand in for runs itself |
| StateDispatch.GroupOrderIrrelevant | platform/engine/dispatcher.ts:266-275 | A group runs by falling priority, ties by id, and gives the same records in whatever order it lists its agents |
| StateDispatch.PredecessorPaths | platform/engine/dispatcher.ts:1869-1919 | For any groups and failures, the paths are the initial ones followed by the outputs of all successes in order, and completed and failed list exactly the booked results of each kind |
| StateDispatch.SingletonGroupsAreSequential | platform/engine/dispatcher.ts:1831-1920 | One group per agent in registry order gives the completed, failed, results and escalated values of sequential dispatch, for every failure mode and with substitutions, if no two agents have the same one running for them, and only then when failures do not stop it; stand-ins are configured alike and nothing is aborted |
| StateDispatch.SingletonGroupsAreSequentialIff | platform/engine/dispatcher.ts:1450-1462 | For every failure mode the two agree if and only if no agent that the sequential loop comes to before it stops has the same one running for it as an earlier agent |
| Utf8.ByteLength | platform/engine/semantic-memory.ts:464-478 | The counting loop computes the recursive byte count, for unpaired surrogates too |
| Utf8.BytesIsUtf8Length | platform/engine/semantic-memory.ts:464-478 | On well-formed UTF-16 the count is the length of the UTF-8 encoding of the decoded text |
| Utf8.BytesSubadditive | platform/engine/semantic-memory.ts:464-478 | Joining any two texts never counts more bytes than the two apart |
| ContextBudgeter.HardTruncate | platform/engine/context-budgeter.ts:172-185 | The loop cuts where the recursive scan stops, with the step over a surrogate before the fit is tried |
| ContextBudgeter.TruncatedBound | platform/engine/context-budgeter.ts:172-185 | A truncated text exceeds its limit by at most the suffix, plus three bytes when it has surrogates |
| ContextBudgeter.TruncatedOvershoots | platform/engine/context-budgeter.ts:172-185 | With a suffix of three bytes or more a truncated text always exceeds its limit |
| SurrogateSplits.CutsPairIff | platform/engine/context-budgeter.ts:174-184 | A well-formed text that is cut stays well formed if and only if the limit does not fall strictly inside one of its surrogate pairs |
| ContextBudgeter.Budget | platform/engine/context-budgeter.ts:204-269 | The loop in place computes the fold of the placement step over the ranking, with all metrics |
| ContextBudgeter.NothingUnaccounted | platform/engine/context-budgeter.ts:217-269 | Kept and dropped items add up to the input, and the bytes put out to what was taken from the budget |
| ContextBudgeter.GreedilyMaximal | platform/engine/context-budgeter.ts:217-254 | The output is a subsequence of the ranking; only the guaranteed items are cut below their cap; no dropped item, even capped, fits in what is left |
| ContextBudgeter.OutputBytesBound | platform/engine/context-budgeter.ts:212-256 | For all inputs the output stays within the budget plus, for each guaranteed item, the suffix and three bytes; without surrogates the three bytes vanish |
| BudgetRoom.TruncatedFitsIff | platform/engine/context-budgeter.ts:172-185 | A cut text stays within its limit if and only if, behind the last whole character that fits, the suffix still fits and the limit is not inside a surrogate pair |
| BudgetRoom.WithinBudgetIffRoom | platform/engine/context-budgeter.ts:21-21 | For every suffix the documented bound holds if and only if each guaranteed item fits what is left or is cut where room for the suffix remains |
| BudgetRoom.ShortSuffixFits | platform/engine/context-budgeter.ts:172-185 | With a suffix of two bytes a cut item can stay within the budget |
| ContextBudgeter.WithinBudgetIff | platform/engine/context-budgeter.ts:21-21 | For every suffix of at least three bytes that is so if and only if the guaranteed items, capped, fit together |
| ContextBudgeter.WithinBudgetIf | platform/engine/context-budgeter.ts:21-21 | For any suffix that condition is enough |
| ContextBudgeter.DefaultsStayWithin | platform/engine/context-budgeter.ts:139-145 | Under the default options the documented bound holds for all items |
| ContextBudgeter.SmallBudgetOverflows | platform/engine/context-budgeter.ts:233-246 | It fails whenever the budget is smaller than a single admissible item |
| ContextBudgeter.SplitPairIsTight | platform/engine/context-budgeter.ts:176-184 | The three bytes are needed |
| ContextBudgeter.SuffixSurrogatesCount | platform/engine/context-budgeter.ts:172-185 | Surrogates in the suffix alone already break the tighter bound |
| ContextBudgeter.RankedByScore | platform/engine/context-budgeter.ts:157-164 | The ranking rearranges the items by falling score, ties by key |
| BudgetMetrics.RankScoreWeighs | platform/engine/context-budgeter.ts:157-164 | The score is four parts relevance and one part freshness, each clamped to [0, 1] |
| BudgetMetrics.RelevanceDecidesIff | platform/engine/context-budgeter.ts:149-164 | Relevance alone decides between two items, however fresh, if and only if it differs by more than a quarter |
| BudgetMetrics.OutputDescribesItems | platform/engine/context-budgeter.ts:217-254 | Every item put out has the key, tier and clamped relevance of one of the ranking and its own size; one not marked as truncated is whole |
| BudgetMetrics.MetricsAgree | platform/engine/context-budgeter.ts:256-269 | The truncated count is that of the output, and with nothing cut or dropped as many bytes come out as went in |
| ContextBudgeter.OrderOfInputIrrelevant | platform/engine/context-budgeter.ts:157-164 | With distinct keys any reordering of the input gives the identical result |
| HybridInjections.BuildHybridInjections | platform/engine/execution-mode-plan.ts:79-105 | Every point takes the places of the endless round that follow those of the points before it |
| HybridInjections.EachPointDistinct | platform/engine/execution-mode-plan.ts:79-105 | Every point gets min(m, n) different agents |
| HybridInjections.BalancedUsage | platform/engine/execution-mode-plan.ts:79-105 | Over any number of points the usage counts of two agents differ by at most one |
| AdapterCache.AdapterResultCache.constructor | platform/engine/adapter-result-cache.ts:72-77 | A new cache holds what its file holds and has not expired, and nothing if the file cannot be read |
| AdapterCache.KeyIsUnique | platform/engine/adapter-result-cache.ts:60-62 | Without colons in adapters and operations two calls have the same key if and only if they are the same |
| AdapterCache.KeysCollide | platform/engine/adapter-result-cache.ts:60-62 | Two different calls with one key |
| AdapterCache.AdapterResultCache.Get | platform/engine/adapter-result-cache.ts:82-101 | A look-up gives the unexpired result or nothing; an expired entry is dropped from memory and file |
| AdapterCache.AdapterResultCache.Set | platform/engine/adapter-result-cache.ts:106-126 | One entry is replaced, in memory and, if the write succeeds, in the file |
| AdapterCache.AdapterResultCache.Invalidate | platform/engine/adapter-result-cache.ts:138-144 | Only the named entry goes; the answer tells whether there was one |
| AdapterCache.AdapterResultCache.InvalidateAdapter | platform/engine/adapter-result-cache.ts:149-159 | Just the adapter's entries go, and the count is exact |
| AdapterCache.AdapterResultCache.Clear | platform/engine/adapter-result-cache.ts:164-167 | Memory and file are emptied |
| AdapterCache.LookupIsLastSet | platform/engine/adapter-result-cache.ts:82-201 | With a clock that does not run backwards, and whatever fails, a look-up gives the result of the last set that no call and no failed reload has undone, if it is still within its time, and nothing otherwise, as long as every reload that reads the file finds everything in it |
| AdapterCache.ReloadIsTransparent | platform/engine/adapter-result-cache.ts:182-218 | A reload that reads the file and finds everything in it changes no later look-up, whatever else fails |
| AdapterCache.ReloadChangesNothing | platform/engine/adapter-result-cache.ts:182-218 | While every read and write of the file succeeds, replacing the cache by one loaded from disk at any point changes no later look-up |
| AdapterCache.ReloadRestoresSyncPoint | platform/engine/adapter-result-cache.ts:182-218 | Whichever writes failed, a reload brings back every look-up as it was after the last call that was written, or the last reload that could read the file; if it cannot read it there is nothing to look up |
| AdapterCache.ReloadHarmlessIff | platform/engine/adapter-result-cache.ts:182-218 | A reload that can read the file is harmless if and only if the calls since then changed no look-up, and always when the last call that tried to use the file succeeded; one that cannot is harmless if and only if there was nothing to look up |
| AdapterCache.UnwrittenCallIsUndone | platform/engine/adapter-result-cache.ts:182-218 | An unwritten call, or an unread reload, on a settled cache is undone by a reload: the look-ups are exactly those before it |
| AdapterCache.UnreadReloadForgets | platform/engine/adapter-result-cache.ts:182-201 | A written result that is gone after a reload which cannot read the file |
| AdapterCache.UnwrittenInvalidationReturns | platform/engine/adapter-result-cache.ts:203-218 | A history in which an invalidated result comes back |
| SemanticMemory.SemanticMemoryStore.Read | platform/engine/semantic-memory.ts:194-208 | A live entry is returned touched, an expired one is dropped, and nothing else changes |
| SemanticMemory.SemanticMemoryStore.List | platform/engine/semantic-memory.ts:221-234 | The loop drops exactly the expired entries and returns the others sorted |
| SemanticMemory.SemanticMemoryStore.Evict | platform/engine/semantic-memory.ts:245-255 | Exactly the expired entries of the tier go, and the count is exact |
| SemanticMemory.SemanticMemoryStore.SweepExpired | platform/engine/semantic-memory.ts:399-408 | Project and org tiers are swept, the run tier is left alone, and the counts are exact |
| SemanticMemory.ListIsUnexpiredInKeyOrder | platform/engine/semantic-memory.ts:221-234 | A listing has every unexpired entry of the tier exactly once, in key order, and no other |
| SemanticMemory.ReadableFor | platform/engine/semantic-memory.ts:36-40 | An entry can be read for ever in the run tier, for thirty days after it was written in the project tier and for ninety in the org tier; reading counts the access and changes nothing else |
| MemoryRuns.EvictionIsInvisible | platform/engine/semantic-memory.ts:194-255 | List, evict and sweep calls inserted anywhere in a run, any number of them, change no answer of the other calls, compactions included, whatever clock stamps the writes |
| Compaction.Compact | platform/engine/semantic-memory.ts:311-363 | The loops in place compute the fold over the groups, with all counters |
| Compaction.CompactionLosesNothing | platform/engine/semantic-memory.ts:311-363 | An entry that is too young or in an all-blank group stays; any other goes with its trimmed content contained in the compacted entry of its group |
| Compaction.CompactionCounts | platform/engine/semantic-memory.ts:326-362 | Compacted entries, reported keys and the shrinking of the run tier agree, the reported keys are exactly those that vanished, and the org tier is untouched |
| Compaction.CompactionBytes | platform/engine/semantic-memory.ts:326-362 | The bytes before are those of the run entries that went, the bytes after those of the compacted entries now there, one for each entry created |
| Compaction.CompactedUnderTopic | platform/engine/semantic-memory.ts:318-346 | An old entry is found under its topic, or under its own key if it has none |
| Texts.TrimCutsSpaces | platform/engine/semantic-memory.ts:334-343 | Trimming takes the ECMAScript white space off both ends, all of it and nothing else |
| Texts.MergeOfTwo | platform/engine/semantic-memory.ts:343-343 | Merging a text with another puts a blank line between them, and adds nothing for an equal or empty one |
| Compaction.CompactionKeeps | platform/engine/semantic-memory.ts:340-346 | What an unexpired compacted entry contains is still in it after the next compaction |
| MemoryRuns.CompactedContentSurvives | platform/engine/semantic-memory.ts:311-363 | It survives any run of calls, compactions included, while the entry is unexpired and not written over or cleared |
| MemoryRuns.CompactedEntrySurvives | platform/engine/semantic-memory.ts:311-363 | An old entry that is not blank is found in the compacted entry of its group after any later run that leaves that entry alone |
| Finops.CostMonotone | platform/engine/finops-governor.ts:241-246 | With rounding to four decimals, fewer tokens never cost more |
| Finops.PricesPerThousand | platform/engine/finops-governor.ts:137-142 | What a thousand tokens cost, model by model |
| Finops.CostIsPrice | platform/engine/finops-governor.ts:241-246 | Any number of tokens costs its share of that to within half a unit of the fourth decimal |
| Finops.RequestIsPriced | platform/engine/finops-governor.ts:378-391 | A request asks for prompt and completion together, never for less than nothing, at that price |
| Finops.PricedOut | platform/engine/finops-governor.ts:444-526 | Once usage priced above the room under a cost ceiling is recorded, a gate that can read the ledger lets nothing more through for that session or workflow |
| Finops.TwoDollarsAreSpent | platform/engine/finops-governor.ts:241-246 | A hundred thousand tokens of gpt-4o cost two dollars and close a session with a ceiling of one |
| Finops.Aggregate | platform/engine/finops-governor.ts:248-271 | The one pass computes the four totals of the session and of the workflow |
| Finops.FinopsGovernor.EnforceBudget | platform/engine/finops-governor.ts:444-492 | The verdict names the first ceiling that the estimate would exceed, in the order of the checks, over a ledger that counts as empty if it cannot be read, and changes nothing |
| Finops.GateNamesFirst | platform/engine/finops-governor.ts:451-485 | The verdict names the first of the four ceilings that usage and estimate together exceed, and allows if and only if there is none |
| Finops.FinopsGovernor.RecordUsage | platform/engine/finops-governor.ts:494-526 | The row is appended with its computed cost to what could be read, and only the newest 5000 rows stay; a failed write changes nothing and throws |
| Finops.RecordedIsNewest | platform/engine/finops-governor.ts:519-523 | The ledger keeps exactly the newest 5000 rows, in order |
| Finops.SpendingIsRecordedIff | platform/engine/finops-governor.ts:444-526 | Only usage that was allowed and could be written is in the ledger, at the price of its tokens |
| Finops.GatedRecordStaysWithin | platform/engine/finops-governor.ts:444-526 | Recording within an estimate that was allowed by a gate that could read the ledger keeps every ceiling of every session and workflow, whether or not recording can read it |
| Finops.RoomyRecordStaysWithinIff | platform/engine/finops-governor.ts:444-526 | Whatever the gate has said, recording in a ledger with room keeps every ceiling if and only if a gate that can read it would let exactly that usage through |
| Finops.UnreadGateOverspends | platform/engine/finops-governor.ts:227-232 | A gate that cannot read the ledger lets a session at its ceiling spend it once more |
| Finops.UnreadLedgerIsLoosest | platform/engine/finops-governor.ts:227-232 | Without the ledger, gate and governor allow at least what they would with it |
| Finops.RunsStayWithinCeilings | platform/engine/finops-governor.ts:444-526 | So do runs of any length of invocations one after another, across the truncation of the ledger, as long as their gates can read it, whichever of their recordings fail to read or write |
| Finops.TotalsKeepIff | platform/engine/finops-governor.ts:494-526 | Recording changes a total by the new row's tokens less those of the rows taken out, the oldest of a full ledger or all of an unreadable one, so it does not fall if and only if the latter are no more |
| Finops.GovernorFollowsTotals | platform/engine/finops-governor.ts:393-442 | Higher totals never loosen the governor, its retry limit is never negative, and it grants no more retries than requested |
| Finops.GovernorLevels | platform/engine/finops-governor.ts:404-441 | From four fifths of a token limit on no retry is granted, from three fifths on and on the fast path one at most, and below that whatever was asked for |
| Finops.GovernorTightensIff | platform/engine/finops-governor.ts:393-526 | Recording usage loosens the governor under no positive ceilings if and only if neither total falls, as is so while the ledger has room and can be read |
| Finops.FullLedgerLoosens | platform/engine/finops-governor.ts:519-523 | At a full ledger it can: a session at its limit gets all its retries back |
| InFlight.OvershootBounded | platform/engine/finops-governor.ts:444-526 | In every interleaving of at most n invocations in flight whose gates can read the ledger no total exceeds its ceiling by more than n - 1 estimates, so one at a time keeps every ceiling |
| InFlight.OvershootReached | platform/engine/finops-governor.ts:444-526 | For every n up to the size of the ledger that overshoot is reached |
| Attribution.SummarizeAttribution | platform/engine/finops-governor.ts:325-375 | The grouping loop and the sort compute the summary |
| Attribution.BucketsPartition | platform/engine/finops-governor.ts:338-374 | Bucket records and tokens add up exactly to the totals; k rounded bucket costs are within (k + 1) / 2 units of the last place of the rounded total |
| Attribution.BucketIsItsRows | platform/engine/finops-governor.ts:338-366 | There is a bucket for exactly the values that occur, holding exactly the records, tokens and rounded cost of their rows |
| Attribution.BucketOfLedgerRows | platform/engine/finops-governor.ts:325-366 | In terms of the ledger: the bucket of a value holds the rows of the month, cost center and lane asked for that have the value, or none at all for the bucket of unknown ones |
| Attribution.BucketsAreRanked | platform/engine/finops-governor.ts:338-374 | Buckets come by falling cost, ties by key, and no key twice |
| ProviderLoop.TryProvider | platform/engine/agent-runtime-adapter.ts:1274-1355 | What one provider's attempts end as, and after how many completion calls: valid output, outside fault, still invalid after the last attempt, or an answer that repeats the one before |
| ProviderLoop.EndsOneWay | platform/engine/agent-runtime-adapter.ts:1297-1353 | That description leaves no choice: attempts and ending are determined by what the provider answers |
| ProviderLoop.CompleteWithFallback | platform/engine/agent-runtime-adapter.ts:1256-1371 | A response has passed validation and was the last answer; every earlier provider failed with an error that allows the next; there are at most providers * (limit + 1) calls; with a provider and a limit that is not negative there is always a response or an exception |
| ProviderLoop.FallbackIsAllowed | platform/engine/agent-runtime-adapter.ts:1356-1362 | A provider is passed over only if its own failure allows that, and an exception comes from one that does not, or from the last |
| ProviderLoop.ProviderOrderIsUsable | platform/engine/agent-runtime-adapter.ts:1171-1178 | The provider list is never empty, names no provider twice, and holds exactly the configured ones |
| SessionFiles.SessionFile.SaveSessionState | platform/engine/state-persistence.ts:204-254 | The record written holds the merged engine fields and all other fields of the old one |
| SessionFiles.SessionFile.SaveTransitionIntent | platform/engine/state-persistence.ts:347-371 | The record written is the old one with the markers of the transition |
| SessionFiles.SessionFile.SaveTransitionComplete | platform/engine/state-persistence.ts:380-399 | The record written is the old one, complete and without the other markers |
| SessionFiles.SessionFile.AddDegradationEntry | platform/engine/state-persistence.ts:409-442 | The entry is appended to the log; a log that is not an array is replaced |
| SessionFiles.SavedFollows | platform/engine/state-persistence.ts:204-254 | A save keeps the foreign fields, the degradation log and the markers of a transition under way |
| SessionFiles.IntendedFollows | platform/engine/state-persistence.ts:347-371 | An intent keeps foreign fields, log and status, and names its target |
| SessionFiles.CompletedFollows | platform/engine/state-persistence.ts:380-399 | A completion keeps foreign fields, log and status, and is not in progress |
| SessionFiles.DegradedFollows | platform/engine/state-persistence.ts:409-442 | A degradation entry keeps all old entries, the status and the markers |
| SessionFiles.LastSaveCounts | platform/engine/state-persistence.ts:223-251 | Of two saves for the same flow only the last one shows |
| SessionFiles.MarkersLeaveNoTrace | platform/engine/state-persistence.ts:362-399 | Intent, save and completion leave the same record as the save and the completion alone |
| SessionEngine.AdvanceIsSafe | platform/engine/engine.ts:534-577 | Every record that an advance which moves leaves on disk shows the source state until the move is saved and the target state from then on; all but the last are in progress and name the target and the transition; the last is not |
| SessionEngine.OpenAdvanceIsSafe | platform/engine/engine.ts:534-592 | A refused gate, and a fault of the event log or the lease before the machine moves, leave only records that show the source state and are in progress |
| SessionEngine.CriticAdvancesIff | platform/engine/state-machine.ts:532-551 | In a critic state an advance that nothing else stops goes through if and only if its gate result approves or is missing, so it had a passing one if and only if one was supplied |
| SessionEngine.CriticLeavesRecord | platform/engine/state-machine.ts:532-551 | An advance out of a critic state records an approved result for it, unless none was supplied; then no record changes |
| SessionEngine.CriticAdvancesUngated | platform/engine/state-machine.ts:532-551 | A critic state that advances with no gate result at all |
| SessionEngine.OperationIsSafe | platform/engine/engine.ts:489-722 | Advance in all its outcomes, degradation, pause, error and recovery keep the file well formed, in agreement with the machine, and foreign fields and log entries in place |
| SessionEngine.CrashImagesShowAState | platform/engine/engine.ts:489-722 | Over any run every record on disk at any moment shows the state before or after the operation at work |
| SessionEngine.CrashImagesFollow | platform/engine/state-persistence.ts:204-442 | Over any run each record keeps the foreign fields of all records before it and only adds to their degradation logs; target and start time are there exactly while in progress |
| SessionEngine.InProgressOnlyWhileOpen | platform/engine/engine.ts:534-577 | Between operations the file is in progress exactly while an advance that did not move, by its gate or by a fault of event log or lease, has left a transition open, and names its target |
| SessionEngine.AdvanceIsOneSave | platform/engine/engine.ts:534-577 | However many records it writes, an advance leaves the file as one save of the state reached and a completion |
| SessionEngine.RetryKeepsTheId | platform/engine/engine.ts:275-504 | After a crash at any record of an advance that leaves its transition open, a new engine sees the transition and keeps its identifier for the same target if and only if the record is not the first or the file had a status before |
| SessionEngine.FirstIntentIsForgotten | platform/engine/state-persistence.ts:180-187 | The first advance of a new session, lost behind its intent, is neither seen nor kept |
| SessionRecords.SaveRecords | platform/engine/state-machine.ts:646-657 | Every save writes down the state, every move in order with its ends, time and reason, exactly the gate results recorded, each under its state, and the flow |
| SessionRecords.RunRecords | platform/engine/engine.ts:489-722 | After any run in which something was saved the file has the machine written down like that |
| SessionRecords.AdvanceImagesRecord | platform/engine/engine.ts:534-577 | Every record of an advance has the machine written down as it was, with the new gate result, or as it is afterwards |
| SessionRecords.MovesAreWritten | platform/engine/engine.ts:534-577 | An advance that moves writes down one move, from the old state to the next one of the flow |
| SessionRecords.ErrorsAreWritten | platform/engine/state-machine.ts:600-610 | An error, and a hook that throws, write down one move to the error state with its reason |
| SessionRecords.OthersKeepMachine | platform/engine/state-machine.ts:600-640 | Recovery changes the state only, an error adds its move only, and all other operations but an advance leave the machine alone |
| SessionRecords.NoTargetIff | platform/engine/state-machine.ts:475-477 | An advance has no target if and only if the flow has none for the state |
| SessionRecords.UncriticalIgnoresGate | platform/engine/state-machine.ts:532-551 | Outside states named CRITIC_ a gate result makes no difference |
| SessionRecords.CriticalRefuses | platform/engine/state-machine.ts:532-551 | In them a result that is not approved is written down and keeps the machine there |
| SessionRecords.AdvancedForgetsResume | platform/engine/engine.ts:499-577 | After a finished transition the next one goes under a new identifier |
| SessionRecords.DegradationSays | platform/engine/engine.ts:685-691 | A degradation entry says when, what, why, and the state given or else the machine's |
| SessionRecords.SaveKeepsTexts | platform/engine/state-persistence.ts:223-251 | Flow texts that the machine does not give stay as the file has them, anything there that is no text goes, and a governance mode stays unless it is falsy |
| SessionRecords.RestartKeepsIff | platform/engine/state-machine.ts:425-447 | A new engine on that file has the same state and moves if and only if the flow has the state, the idle state being without moves |
| SessionRecords.RestartReplays | platform/engine/engine.ts:300-310 | After an interrupted transition it has those of the event log instead, where there are any |
| SessionRecords.RestartRecoversTheSame | platform/engine/state-machine.ts:616-640 | After any run that ends in the error state a restart changes nothing of where recovery leads |
| SessionRecords.RestartForgetsGates | platform/engine/state-machine.ts:396-396 | A new engine's first save leaves no gate results |
| SessionEngine.RecoverUndoesErrors | platform/engine/state-machine.ts:600-640 | Recovery after any number of errors in a row brings back the state of the first one |
| SessionEngine.Engine.Advance | platform/engine/engine.ts:489-602 | In every outcome, faults of event log and lease included, the ordered side effects write exactly the records of the specification and leave machine, resume markers and reported status accordingly |
| SessionEngine.Engine.AdvanceMachine | platform/engine/state-machine.ts:521-562 | The machine's own step records and saves a gate result before it refuses or moves |
| SessionEngine.Engine.Recover | platform/engine/state-machine.ts:616-640 | The backward search in place finds the last good state; outside the error state nothing is written |
| SessionEngine.Engine.PauseAtCheckpoint | platform/engine/engine.ts:699-722 | A pause writes a save and a completion |

## Left out

- CrashImagesFollow: needs a file that is an object whose log, if any, is an array and whose markers match its status; a JSON value that is not an object is not modelled.
- RevisionLedger.Append: an event is known by its place among all ever made; the random identifiers of the source are taken as never repeating.
- NewestEventTellsTheEnd: needs marks that work and a log callback that does not throw in the body; after such a fault an event can keep a status that no longer fits, and `OlderEventsStand` says what still holds.
- RevisionLedger.Mark: one step, as it is for an invocation that has the file to itself; `SharedEvents` takes its read and write apart, for appends that go behind the others.
- OvershootBounded: a gate that cannot read the ledger is left to `UnreadGateOverspends` and `RoomyRecordStaysWithinIff`.
- CacheStore: a file that changes under the cache, by another process, is not modelled.
- StartAgreesIff: the event log's replay is any state and history.
- Floating point: scores, costs and delays are reals, and `toFixed` rounds half up.
- `localeCompare` is any total order on strings; the score of a priority signal is any function of the agent.
- `classifyError`, the pattern of revisable errors and `shouldFallbackProvider` are part of what comes from outside. The pattern at runtime-adapter/profile.ts:13 looks for "failed validation", which the validation error built at agent-runtime-adapter.ts:859 does not contain by itself.
- SHA-256 and the hashing of parameters: a cache key is any string, and different parameters may share one.
- Cache files written by others, with a key that repeats.
- Session and workflow identifiers, model names, month keys, and the budgets and quality threshold of an invocation are taken as already resolved and normalised.
- `evaluateAgentBudget` is a verdict for each agent; confidence scores, context building and log fields other than those in the log entries of the model are not modelled.
- Parallel dispatch of a state without groups, which is the sequential one.
- Sequential dispatch appends outputs to the path list of its caller; the model returns the list instead.
- Waiting time of a group; metrics, freshness scores, pruning and the sweeper timer of the memory store; `has` and `stats` of the cache.
- Model routing, the completion cache, tool rounds and the artifact file of the provider adapter.
- Transition leases (granted or refused here), the contents of the transition event log, hooks after a transition, SSE, the durable snapshot store, run history and the legacy spellings of states and modes. Nothing is claimed about the lease when a hook fails.
- The decoding of a stored history into moves is any function.
- Writes of the session file are atomic and succeed, as the store is taken to provide; one reading of the clock stamps all writes of a compaction.
- With repeated work item ids the planner is only shown to end, to list each group once in its order, and to report rows of the items.
