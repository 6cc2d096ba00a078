# cks-mcp: a verified model

A Dafny model of the protocols behind the cks-mcp server: how several processes
evolve one knowledge session, how Researcher and Reviewer agents move an object
through a redelivering outbox, how a forked pointer is arbitrated, and the
stateful pieces those rest on. `dafny verify dfyconfig.toml` checks everything.

| module | models |
|---|---|
| `Evolution`, `EvolveHandler` | evolution operators, and the commit retry loop of one call |
| `EvolveProtocol`, `EvolveRuns`, `EvolveCall` | any number of processes interleaving such calls on one store, the runs where the guarantee fails, and the retry loop as a path of that machine |
| `PipelineLog`, `Pipeline`, `PipelineSteps` | the transition log, all interleavings of Researcher and Reviewer workers with crashes, redelivery and stale commits, and the step functions as code |
| `PipelineRuns`, `PipelineLateWrites`, `PipelineStranding` | what the pipeline promises over whole runs and exactly when, the runs that break it, and from which starts they exist |
| `PipelineTrace` | run ids from submission through tasks to log entries |
| `PipelineEvolve` | a pipeline step's write as a call of `evolve_knowledge` on the session's structures |
| `TaskQueue`, `DrainLoop`, `Drain` | the outbox, and one drain of a queue as moves and as code |
| `Orchestrator`, `ConcurrentRun`, `TokenBudget` | sequential and concurrent runs, their sandbox, and the outbox and budget they share |
| `AgentLoop`, `TaskLease` | the resolver under heartbeat, and the lease on a queue entry in time |
| `LcaArbiter`, `ForkResolution`, `ForkStore` | the double breadth-first search for a common ancestor, winner selection over version vectors, and redelivery of a fork |
| `JsonScanner`, `Supersession` | string-aware JSON extraction, and the supersession-chain walk |
| `CircuitBreaker`, `ConflictInbox`, `GoogleSchema` | the LLM breaker over whole runs, the bounded inbox, the schema rewrite for Gemini |

## Assumed of the libraries

cks_runtime and cks-core are not part of this model. What the code relies on is
taken as their contract:

- a commit compares the expected version with the head and appends or refuses; a
  refused commit has already executed on the process's own copy of the session
  (`tools/evolve/handler.py:344-346`);
- an evolution applies as a whole or not at all, fails on a duplicate id, and
  removing an object removes the relations that reference it;
- a pipeline step calls `evolve_knowledge` on the copy refreshed at its start, and
  nothing reloads that copy in between; seen through the object's graph the call
  is then one of the three writes of `Pipeline` (`PipelineEvolve.CallIsWrite`, for
  every way of writing ids, logs and statuses down that can be read back);
- no two transition entries carry the same timestamp;
- claiming from the outbox is atomic, and the stored retry count is the one last
  written;
- `query_subgraph` returns the ball of a radius in an undirected graph;
- `resolve_pointer` collapses the register onto one row whose vector never shrinks;
- sha256 and its truncation are injective on the contents considered;
- provenance checking and validation are an arbitrary deterministic judge, and an
  LLM answer is an arbitrary verdict.

## Where the code does less than it says

Each of these is a lemma; where a promise fails, the lemma gives the exact
condition under which it holds.

- Attempt 0 of `evolve_knowledge` reloads the session but commits the operation
  built before the reload. A write committed in between is dropped without any
  conflict being reported (`EvolveRuns.LostUpdate`); per id, it survives exactly
  when base and head agree on it (`KeepsOthersExactly`). Duplicate ids are caught
  against the base, not the head (`DuplicatesCaughtOnHead`).
- For a pipeline step that window includes its LLM call. The transition log is
  append-only, and the first verdict final, if and only if no write lands after
  the stored version has moved away from what its step read
  (`PipelineRuns.LogOnlyAppendsExactly`, `FirstVerdictFinalExactly`). One worker
  at a time is safe in every run; two workers and one redelivered task are enough
  to erase a verdict, to turn a rejection into an approval, and to strand the
  object (`PipelineStranding.SafeExactlyAlone`, `StrandsExactlyWithTwo`,
  `PipelineLateWrites`).
- A call that gives up leaves its refused result in the in-memory session; unless
  that is refreshed, the next call stores it (`RefusedChangeSurfaces`, and
  `RefusedChangesOccur` reaches such a copy). When every call starts on a copy
  that equals its version, every commit rests on a stored one (`EveryBaseStored`).
- `_operations_already_applied` compares ids only (`AppliedSeesIdsOnly`): a no-op
  answer can drop an object whose id holds other content (`TwoContentsOneId`), and
  cannot when all requests agree on that content (`NoOpKeepsContent`). It does not
  recognise a batch that cascades onto its own relation
  (`AppliedAfterSuccessExactly`).
- A worker whose lease was lost keeps silent exactly when its resolver returned;
  one that raises reports a failure all the same
  (`AgentLoop.SilentAfterLostLeaseExactly`), and a renewal that raises fails a
  resolved entry (`ReportedExactly`). The renewal gap of `TaskLease`
  includes any time the event loop is blocked, such as by the synchronous
  `call_llm` of the pipeline steps.
- With `max_retries` of one or less the first failure dead-letters
  (`Drain.DeadOnLastFailure`).
- `PipelineResult.degraded` is set only for a sandboxed run, and also when the
  budget ran out; its documentation says otherwise on both counts.
- A rejected object whose content does not change is never resolved
  while its verdict is final, though it is not stranded either.
- The fork winner depends on list order exactly when two newest candidates have
  equal vectors (`ConvergesExactlyWhenUnambiguous`). A causally older one wins
  exactly when none is newest and times and ids prefer an outdated one
  (`OlderWinsExactly`); never when timestamps follow causality (`NeverTheOlder`).
  An empty list has no winner, although `_select_winner` is documented never to raise.
- `find_lca` on two equal ids reports success whether or not the id exists, and
  two branches count as non-overlapping only when one is deeper than the probe
  (`NonOverlappingExactly`), because a delta always contains the ancestor.
- The live successor of a premise is live only when its chain reaches a live step
  (`LiveExactlyWhenReachable`).
- The inbox cap fails for a limit of zero (`CapExactly`).
- The Gemini rewrite is not idempotent (`IdempotentExactly`) and drops properties
  whose names are schema keywords (`PropertyNamesKeptExactly`).

## Model

| member | source | states |
|---|---|---|
| `EvolveProtocol.EveryCommitExplained` | src/cks_mcp/tools/evolve/handler.py:326-448 | over every interleaving of any number of processes: each committed version is its operations applied to the recorded base and passed both checks; a retry's base is the version it follows, attempt 0's the version read or, after a give-up without refresh, the refused result on it |
| `EvolveProtocol.NoWriteLost` | src/cks_mcp/tools/evolve/handler.py:372-407 | while every commit is a retry, or an attempt 0 whose head did not move between read and reload, the store is the serial application of all commits in order |
| `EvolveProtocol.KeepsOthersExactly` | src/cks_mcp/tools/evolve/handler.py:248-331 | an id the operations spare is put back as the base has it, so it is kept if and only if base and head agree on it; a commit on its head has the head as base |
| `EvolveProtocol.EveryBaseStored` | src/cks_mcp/tools/evolve/handler.py:344-365 | in every run whose calls start on copies equal to their version, as after a refresh or restart, every commit is its operations applied to a stored version |
| `EvolveProtocol.DuplicatesCaughtOnHead` | src/cks_mcp/tools/evolve/handler.py:398-409 | any batch on distinct ids: a commit adds only ids its base lacks, or that its own cascade has vacated; on its head the base is the version it follows |
| `EvolveProtocol.CallsAreBounded` | src/cks_mcp/tools/evolve/handler.py:326-365 | at most six commits tried per call, never a transaction opened over another, none left active after a conflict; giving up means at least six versions by others since the reload |
| `EvolveProtocol.NoOpIsThere` | src/cks_mcp/tools/evolve/handler.py:382-397 | a no-op answer names a stored version that reflects every operation of the request |
| `EvolveProtocol.RefreshSyncs` | src/cks_mcp/session_refresh.py:38-59 | in every run a refresh between calls and a restart leave a process with the head, no transaction and nothing of a refused call |
| `EvolveProtocol.StepKeeps` | src/cks_mcp/tools/evolve/handler.py:182-450 | every step of every process keeps the invariant of store and processes; versions and log only grow |
| `EvolveRuns.LostUpdate` | src/cks_mcp/tools/evolve/handler.py:314-331 | for any two requests that pass the checks: a call overtaken between its read and its reload commits at attempt 0 over the other's version and drops its effect, and both answer that they committed |
| `EvolveRuns.RefusedChangeSurfaces` | src/cks_mcp/tools/evolve/handler.py:344-365 | after a give-up the process's copy holds the refused result on its version, and its next call commits on top of it |
| `EvolveRuns.RefusedChangesOccur` | src/cks_mcp/tools/evolve/handler.py:356-365 | from every start over an object and two processes that rename it, a run of six beaten tries ends with such a copy |
| `EvolveRuns.NoOpDropsContent` | src/cks_mcp/tools/evolve/handler.py:373-397 | for any two requests such that the other's version reflects all ids of mine: mine answers that its change is there, and only the other's version is stored |
| `EvolveRuns.TwoContentsOneId` | src/cks_mcp/tools/evolve/handler.py:382-397 | two processes add one id with different contents: one is told its change is there, and the head holds the other's content |
| `EvolveRuns.NoOpKeepsContent` | src/cks_mcp/tools/evolve/handler.py:70-101 | in every run whose requests give an id one content and never update it, a no-op answer to a request adding it names a version with that content |
| `EvolveCall.CallIsPath` | src/cks_mcp/tools/evolve/handler.py:182-450 | in every run of the machine that starts with a process's call and lasts until it ends, the process's crashes excluded: outcome, store and copy are exactly what the retry loop computes from the versions stored in each of its waits |
| `EvolveCall.EveryShapeIsACall` | src/cks_mcp/tools/evolve/handler.py:182-450 | whatever the others are given to do in each wait, the process's own actions interleaved with it make such a run |
| `EvolveHandler.EvolveKnowledge` | src/cks_mcp/tools/evolve/handler.py:182-450 | the loop as code computes exactly the ending that follows from what others commit in each wait; no transaction stays active |
| `EvolveHandler.CalledExplained` | src/cks_mcp/tools/evolve/handler.py:326-448 | every ending is explained: attempt k is reached only when each earlier one was beaten, a retry commits on the version it follows, a give-up was beaten six times |
| `EvolveHandler.CommitOnce` | src/cks_mcp/tools/evolve/handler.py:328-355 | one attempt commits exactly when nobody committed in its wait; a refused one leaves the store to the others and no transaction active |
| `EvolveHandler.Rebase` | src/cks_mcp/tools/evolve/handler.py:372-439 | after a conflict: copy equals the head; stops as already applied, or with the fresh check's refusal, or not at all |
| `EvolveHandler.CommitFollowsWhat` | src/cks_mcp/tools/evolve/handler.py:314-331 | a call starting from the head commits on the version it follows, except attempt 0 after a commit between read and reload, which applies to the older version |
| `EvolveHandler.CommittedStores` | src/cks_mcp/tools/evolve/handler.py:326-370 | the version a committed call stores, item by item: what each operation is for at each named id, and the item of its base everywhere else unless cascaded away |
| `EvolveHandler.SessionLocks.LockFor` | src/cks_mcp/tools/evolve/handler.py:120-136 | one lock per session id, for good; two ids never share one |
| `Evolution.OperationsAlreadyApplied` | src/cks_mcp/tools/evolve/handler.py:70-101 | true exactly when every operation is an addition whose id is there or a removal whose id is not |
| `Evolution.AppliedAfterSuccessExactly` | src/cks_mcp/tools/evolve/handler.py:70-101 | right after an add/remove batch on distinct ids succeeded the check is true if and only if the batch did not cascade onto an id it added |
| `Evolution.AppliedIsStable` | src/cks_mcp/tools/evolve/handler.py:70-101 | it stays true under any later evolution that spares those ids |
| `Evolution.AppliedExactlyWhenIdle` | src/cks_mcp/tools/evolve/handler.py:70-101 | it is true if and only if running the batch again as insertions and deletions leaves the id set unchanged |
| `Evolution.AppliedSeesIdsOnly` | src/cks_mcp/tools/evolve/handler.py:86-101 | it cannot tell structures with the same ids apart, whatever their content |
| `Evolution.ApplyFrame` | src/cks_mcp/tools/evolve/schema.py:29-44 | whatever a batch neither names nor cascades onto, it leaves exactly as it was |
| `Evolution.UnnamedFate` | src/cks_mcp/tools/evolve/schema.py:36-38 | an unnamed id survives a batch exactly when no object it references is removed, and never appears |
| `Evolution.BatchDoesWhatItNames` | src/cks_mcp/tools/evolve/schema.py:29-51 | after every successful batch on distinct ids, at each named id: a removed item is gone; an added item is exactly as given; a rename has the new name and the old fields and participants; an update has, key by key, the patch value, nothing for null, else the old value in merge and nothing in replace mode; unless the batch then removes an object the item connects |
| `Evolution.BatchFailsExactly` | src/cks_mcp/tools/evolve/schema.py:29-51 | a batch fails if and only if some operation adds an id that is there, connects a missing participant, removes as a relation what is none, or is about an id that is not there, where the operations before it have led |
| `PipelineRuns.LogOnlyAppendsExactly` | src/cks_mcp/pipeline/schema.py:166-210 | from any reachable state, in every interleaving with crashes, redelivery and stale commits: every step appends to the log if and only if no write lands on a version other than the one its step read |
| `PipelineRuns.LogTellsTheGraph` | src/cks_mcp/pipeline/schema.py:118-163 | in every run, stale commits included: one entry per agent and content, there exactly when the deterministic node is; status is the last entry's target; the verdict node agrees with the verdict entry |
| `PipelineRuns.FirstVerdictFinalExactly` | src/cks_mcp/pipeline/reviewer_step.py:108-219 | the first verdict is still the object's verdict at the end of a run, with log, node and status unchanged, if and only if no write landed stale since |
| `PipelineRuns.NeverStranded` | src/cks_mcp/pipeline/researcher_step.py:93-112 | in every reachable state the object is resolved, or some queue entry for it is pending, in progress or dead-lettered, as long as no write landed on a resolved object and left it unresolved |
| `PipelineRuns.LateWriteStrandsExactly` | src/cks_mcp/pipeline/researcher_step.py:172-201 | with the object resolved and every task done, a worker that writes and then crashes strands it if and only if its write lands and does not resolve it again |
| `PipelineLateWrites.LateFindingErasesVerdict` | src/cks_mcp/pipeline/researcher_step.py:85-172 | from every start with two workers, a run reaches a verdict and a redelivered Researcher's late commit leaves none: entry, node and status are gone |
| `PipelineLateWrites.LateApprovalOverturnsRejection` | src/cks_mcp/pipeline/reviewer_step.py:102-193 | from every start with two workers, a run records a rejection and a redelivered Reviewer's late commit turns it into an approval |
| `PipelineLateWrites.LateFindingStrands` | src/cks_mcp/pipeline/researcher_step.py:85-201 | from every start with one task and two workers, a run resolves the object and a late commit followed by a crash strands it |
| `PipelineStranding.SafeExactlyAlone` | src/cks_mcp/pipeline/researcher_step.py:85-201 | no write lands stale in any run from a start, so the log only grows and the first verdict is final, if and only if it has at most one worker |
| `PipelineStranding.StrandsExactlyWithTwo` | src/cks_mcp/pipeline/researcher_step.py:85-201 | with any number of queue entries: some run from a start strands the object if and only if there are at least two workers |
| `PipelineStranding.ReopeningStrands` | src/cks_mcp/pipeline/researcher_step.py:85-201 | from every reachable state in which a write is about to reopen a resolved object, with a second worker and nothing dead-lettered, some schedule ends stranded |
| `PipelineStranding.Quiesce` | src/cks_mcp/pipeline/reviewer_step.py:102-123 | a single worker can bring every task of a resolved object to its end without touching the graph |
| `PipelineStranding.NoneDeadWhileRetried` | src/cks_mcp/orchestrator.py:481-493 | no task of the pipeline is dead-lettered in a run whose failures all leave a retry |
| `PipelineStranding.FailureSettles` | src/cks_mcp/orchestrator.py:481-493 | a failed task goes back to pending before its last retry and is dead after it; nothing else changes |
| `PipelineTrace.RunIdsTravel` | src/cks_mcp/pipeline/researcher_step.py:204-229 | in every run every task carries a run id that some submission brought, every entry written names the run of a task of its stage, its agent and the content, and what a stage hands on is of the same run |
| `PipelineEvolve.CallIsWrite` | src/cks_mcp/tools/evolve/handler.py:182-450 | whatever others store in its waits, a step's whole evolve call acts on the object's graph as one write of the machine: on the copy at attempt 0, on the head at a retry, a lost race exactly when the node was found, and nothing otherwise |
| `PipelineEvolve.BatchTells` | src/cks_mcp/pipeline/researcher_step.py:132-172 | a step's three operations change the object's graph by one node, the log read plus one entry, and the status, and fail when the node is there; the content is untouched |
| `PipelineRuns.NothingDangles` | src/cks_mcp/pipeline/reviewer_step.py:195-215 | in every run every review entry names an existing finding; a worker that lost the race for its node finds the winner's entry exactly while the node is there |
| `PipelineRuns.UnmovedIsAtomic` | src/cks_mcp/pipeline/researcher_step.py:132-172 | a commit on the version its step read is one atomic evolve on the head: its node was missing there, and its patch appends to the stored log |
| `PipelineRuns.StepAppendsExactly` | src/cks_mcp/pipeline/researcher_step.py:160-172 | one step from any reachable state keeps the log as a prefix if and only if it is not a stale commit |
| `Pipeline.StepKeeps` | src/cks_mcp/pipeline/reviewer_step.py:89-243 | every step of every worker, stale commit, crash, expiry and new submission keeps the invariant that each version tells the object's story |
| `Pipeline.StoryFind` | src/cks_mcp/pipeline/schema.py:118-163 | what guard and lookup answer at each stage of an object's story |
| `Pipeline.LandingTells` | src/cks_mcp/pipeline/researcher_step.py:132-172 | whatever it is built on, a commit leaves the log its step read plus one new entry, with the node to match |
| `PipelineSteps.Resolve` | src/cks_mcp/pipeline/researcher_step.py:72-201 | a whole step as code, for either agent, any interference at its awaits and any ending of its evolve, is the machine's own path for that worker: at each phase the one action it calls for; it succeeds exactly when it routed the object |
| `PipelineSteps.Guard` | src/cks_mcp/pipeline/reviewer_step.py:102-123 | refresh and idempotency guard: route the recorded outcome, or keep the log just read |
| `PipelineSteps.WriteNode` | src/cks_mcp/pipeline/researcher_step.py:132-197 | node and transition together, on the copy or on the head, or a duplicate to recover from, or another failure |
| `PipelineSteps.Recover` | src/cks_mcp/pipeline/researcher_step.py:173-197 | reload and route by the winner's entry, or fail without one |
| `PipelineSteps.HandOn` | src/cks_mcp/pipeline/reviewer_step.py:222-243 | the next stage is enqueued exactly when there is one |
| `PipelineSteps.Shared.Evolve` | src/cks_mcp/tools/evolve/handler.py:248-409 | all of node and log patch, or nothing: attempt 0 is built on and checked against the caller's copy, a retry against what is stored |
| `PipelineLog.FindIsLast` | src/cks_mcp/pipeline/schema.py:141-163 | the lookup returns the last matching entry, none exactly when nothing matches |
| `PipelineLog.GuardAgreesWithLookup` | src/cks_mcp/pipeline/schema.py:118-163 | the forward guard and the backward lookup never disagree |
| `PipelineLog.GuardExactly` | src/cks_mcp/pipeline/schema.py:118-163 | both find something if and only if some entry is of that agent and, if a hash is given, of that very content |
| `PipelineLog.AppendFound` | src/cks_mcp/pipeline/schema.py:166-210 | appending to the log just read keeps every entry and the content, refreshes the status, and is what the next lookup finds |
| `PipelineLog.GuardedAppendOnce` | src/cks_mcp/pipeline/schema.py:118-138 | guarded appends keep at most one entry per agent and content |
| `Drain.DrainStep` | src/cks_mcp/orchestrator.py:389-515 | while its steps enqueue what they like onto other queues, and onto this one up to some claim, the drain terminates; budget, rows and result, error exits included, are those of a path of loop moves; without an error claims = processed + abandoned, the counters are the log's, and nothing eligible is left; rows are the replay of the log, in which each claim took an eligible row and each step that ran enqueued its entries |
| `Drain.HandleClaim` | src/cks_mcp/orchestrator.py:416-502 | one claim: where an infrastructure call stops it, what was spent, what the step enqueued, and the row with its report, as `RowsByReports` tells it |
| `Drain.RunIfFunded` | src/cks_mcp/orchestrator.py:434-454 | the step runs, and enqueues, exactly when the budget still grants it; the budget is consulted exactly when not yet known to be exhausted |
| `TaskQueue.Outbox.Dequeue` | src/cks_mcp/tools/claim_conflict_task/handler.py:49-67 | claims an eligible row, and none only when there is none |
| `Drain.AllowanceUpdate` | src/cks_mcp/orchestrator.py:481-493 | the remaining retries summed over live rows change by one row's share |
| `Drain.ReplayMoves` | src/cks_mcp/orchestrator.py:481-493 | over a whole drain each row moves by its own failures alone, and not at all once completed or dead; other queues' rows do not move |
| `Drain.DeadOnLastFailure` | src/cks_mcp/orchestrator.py:481-493 | an entry with retry count 0, there at the start or enqueued during the drain, fails at most max(1, max_retries) times from then on and is dead-lettered exactly on that last failure |
| `Drain.RowsByReports` | src/cks_mcp/orchestrator.py:459-493 | where a drain leaves each row: completed, in progress, or pending again with its retry count one higher per failure and due after min(2^count, 3600) seconds, as its last report says; dead exactly when its failures reach the limit; untouched without a report |
| `Drain.CompletedExactly` | src/cks_mcp/orchestrator.py:466-478 | an entry not completed before is completed at the end of a drain if and only if some report on it said so |
| `Drain.ClaimsAreDue` | src/cks_mcp/tools/claim_conflict_task/handler.py:49-67 | every claim of a drain takes an entry of its queue that is pending and due |
| `Drain.NothingDueLeft` | src/cks_mcp/orchestrator.py:405-414 | a drain that ends without an error leaves nothing pending and due in its queue |
| `TaskQueue.BackoffDoubles` | src/cks_mcp/tools/fail_conflict_task/handler.py:22-35 | the wait is a second for retry count 0 and doubles up to an hour |
| `Drain.EnqueuedElsewhere` | src/cks_mcp/orchestrator.py:389-515 | while steps enqueue onto other queues only, a drain takes its queue through the very states it would with nothing enqueued, and the new entries lie behind, untouched and in order |
| `Drain.ReplaySplit` | src/cks_mcp/orchestrator.py:389-515 | a drain's log can be cut anywhere: the rest is a legal drain of the rows reached there |
| `Orchestrator.DueIsClaimed` | src/cks_mcp/orchestrator.py:615-682 | an entry that is there when a step begins is claimed by the drain of the next step for its queue, if it is due by that drain's end and the drain does not break off |
| `Orchestrator.HandedOn` | src/cks_mcp/orchestrator.py:615-682 | an entry that one step enqueues for a later step is claimed by that step's drain in the same run, if it is due by the drain's end and the drain does not break off |
| `Orchestrator.ExitSandbox` | src/cks_mcp/orchestrator.py:579-613 | merged if and only if sandboxed, every step clean and the merge worked; degraded only when sandboxed |
| `Orchestrator.RunSequential` | src/cks_mcp/orchestrator.py:615-682 | results are those of a chain of drains, one per step in order, each on the budget and the rows the one before left, entries its steps enqueued included; only the last can be failed or exhausted; merged if and only if all ran clean in a sandbox that merges; the chain's invocations are what the budget spent, within the token cap |
| `ConcurrentRun.BudgetBoundsEveryInterleaving` | src/cks_mcp/orchestrator.py:434-454 | in every interleaving of drains on one budget and one outbox: at most floor(max_tokens / 1000) invocations, and every claim processed, abandoned or in hand |
| `ConcurrentRun.NothingStartsAfterExhaustion` | src/cks_mcp/pipeline/token_budget.py:83-107 | once the budget is exhausted no drain invokes a step again |
| `ConcurrentRun.OneHolder` | src/cks_mcp/orchestrator.py:684-705 | in every interleaving of drains, other people's submissions included, no entry is in two loops' hands at once |
| `ConcurrentRun.DeadOnLastFailureInterleaved` | src/cks_mcp/orchestrator.py:481-493 | in every interleaving an entry fails at most max(1, max_retries) times and is dead-lettered exactly on that last failure; completed or dead, it never moves again |
| `ConcurrentRun.EntriesSettled` | src/cks_mcp/orchestrator.py:459-493 | in every interleaving every entry is left as the last claim or report on it says, untouched without any, and becomes completed if and only if some report said so |
| `ConcurrentRun.CustodyStep` | src/cks_mcp/orchestrator.py:684-705 | every move keeps each held entry in progress with one holder, changes entries of the mover's queue alone, and each by at most the failure it reports; a submission appends its entries |
| `ConcurrentRun.GatheredResults` | src/cks_mcp/orchestrator.py:389-515 | a gathered result without error has claims = processed + abandoned, failed <= processed, and a failure if exhausted |
| `ConcurrentRun.DrainAlone` | src/cks_mcp/orchestrator.py:389-515 | the drain as code, with budget and outbox to itself, is a run of the interleaving machine with one loop, with the same result, budget and rows |
| `DrainLoop.PathKeeps` | src/cks_mcp/orchestrator.py:434-454 | over any moves of one loop, each invocation and nothing else spends 1000 tokens within the cap, and none follows exhaustion |
| `ConcurrentRun.RunConcurrent` | src/cks_mcp/orchestrator.py:684-735 | results, invocations and outbox are those of the scheduled run of the interleaving machine; merged if and only if sandboxed, every drain clean and the merge worked |
| `TokenBudget.Tracker.Consume` | src/cks_mcp/pipeline/token_budget.py:83-107 | grants and records, or refuses for good without recording, or raises |
| `TokenBudget.SpendIsGranted` | src/cks_mcp/pipeline/token_budget.py:83-107 | over any sequence of requests only granted ones are recorded and both caps hold |
| `TokenBudget.GrantsExactly` | src/cks_mcp/pipeline/token_budget.py:83-107 | a fresh budget grants exactly the longest run of requests that stays within both caps, the one reaching a cap included, and is exhausted if and only if a request was left |
| `TokenBudget.ExhaustedForGood` | src/cks_mcp/pipeline/token_budget.py:70-75 | exhaustion is sticky |
| `AgentLoop.RunResolverWithHeartbeat` | src/cks_mcp/agents/agent_loop.py:50-90 | raises when the resolver or a renewal raised, else the resolution and whether a renewal failed |
| `AgentLoop.Reported` | src/cks_mcp/orchestrator.py:447-493 | what the worker reports for any beats and ending |
| `AgentLoop.SilentAfterLostLeaseExactly` | src/cks_mcp/agents/agent_loop.py:65-69 | after a failed renewal the worker reports nothing if and only if its resolver returned |
| `AgentLoop.ReportedExactly` | src/cks_mcp/orchestrator.py:447-493 | each report by its cause: completion if and only if the resolver returned a resolved entry and every beat renewed; silence if and only if it returned after a failed renewal; failure otherwise |
| `TaskLease.ExclusiveExactly` | src/cks_mcp/agents/agent_loop.py:57-69 | two workers never hold one entry, in every timed run, if and only if renewal gap plus reporting delay is below the stale window |
| `TaskLease.RenewingKeepsTheLease` | src/cks_mcp/agents/agent_loop.py:57-69 | a worker that renews in time keeps its lease, with a stamp as young as its last renewal, for as long as it runs |
| `TaskLease.StepKeeps` | src/cks_mcp/agents/critic_agent/critic_agent.py:162-164 | an active worker's stamp is the entry's and too young to be taken over |
| `LcaArbiter.FindLca` | src/cks_mcp/agents/fork_resolution_agent/lca_arbiter.py:101-179 | for different ids: found if and only if within 2 * max_depth hops; then the depths are the true distances and the node is the least by (sum, max, id) over the whole graph |
| `LcaArbiter.MeetingPointIsLca` | src/cks_mcp/agents/fork_resolution_agent/lca_arbiter.py:140-167 | the best id of the first intersecting level is the best of the graph |
| `LcaArbiter.LcaOnShortestPath` | src/cks_mcp/agents/fork_resolution_agent/lca_arbiter.py:87-94 | the depths add up to the distance of the two ids |
| `LcaArbiter.LcaUnique` | src/cks_mcp/agents/fork_resolution_agent/lca_arbiter.py:92-94 | swapping the ids gives the same node with depths swapped |
| `LcaArbiter.BallIsPaths` | src/cks_mcp/agents/fork_resolution_agent/lca_arbiter.py:33-42 | the ball is exactly the ends of short undirected paths |
| `LcaArbiter.OneHop` | src/cks_mcp/agents/fork_resolution_agent/lca_arbiter.py:33-42 | one hop leads to whatever a relation of any size also connects |
| `LcaArbiter.ExtractDelta` | src/cks_mcp/agents/fork_resolution_agent/lca_arbiter.py:187-280 | the probe loop computes the delta, unreachable tips included |
| `LcaArbiter.DeltaExactly` | src/cks_mcp/agents/fork_resolution_agent/lca_arbiter.py:221-273 | for a tip d <= 6 hops from another lca the delta is exactly what lies within max(d, 1) hops of either, by paths; for a farther or unreachable tip, or the lca itself, exactly the tip if it exists |
| `LcaArbiter.DeltaCoversShortestPaths` | src/cks_mcp/agents/fork_resolution_agent/lca_arbiter.py:221-273 | within the default radius the probe rediscovers the depth and the delta holds every node of every shortest path |
| `LcaArbiter.Arbitrate` | src/cks_mcp/agents/fork_resolution_agent/lca_arbiter.py:390-420 | find, extract, classify; competing claims for every search within the default depth |
| `LcaArbiter.NonOverlappingExactly` | src/cks_mcp/agents/fork_resolution_agent/lca_arbiter.py:288-310 | non-overlapping if and only if one branch lies deeper than the probe |
| `ForkResolution.WinnersAgreeUpToEqual` | src/cks_mcp/agents/fork_resolution_agent/fork_resolution_agent.py:222-265 | any two orders give the same winner, or two newest candidates with equal vectors |
| `ForkResolution.ConvergesExactlyWhenUnambiguous` | src/cks_mcp/agents/fork_resolution_agent/fork_resolution_agent.py:222-265 | all orders give one winner if and only if the newest candidate is unique |
| `ForkResolution.UnambiguousCases` | src/cks_mcp/agents/fork_resolution_agent/fork_resolution_agent.py:231-242 | no equal pair, or at most two candidates: never ambiguous |
| `ForkResolution.OrderCanDecide` | src/cks_mcp/agents/fork_resolution_agent/fork_resolution_agent.py:234-240 | three candidates on which list order decides |
| `ForkResolution.StrictMaximumWins` | src/cks_mcp/agents/fork_resolution_agent/fork_resolution_agent.py:222-242 | a candidate that dominates all others wins in any position |
| `ForkResolution.NeverTheOlderOfTwo` | src/cks_mcp/agents/fork_resolution_agent/fork_resolution_agent.py:245-256 | of two candidates the dominated one never wins |
| `ForkResolution.OlderWinsExactly` | src/cks_mcp/agents/fork_resolution_agent/fork_resolution_agent.py:245-265 | a causally older candidate wins if and only if no candidate is newest and the one with the greatest (time, id), or the least id when times do not differ, is outdated |
| `ForkResolution.NeverTheOlder` | src/cks_mcp/agents/fork_resolution_agent/fork_resolution_agent.py:258-265 | with every candidate stamped and whatever is causally newer strictly later, the winner is never the causally older one |
| `ForkResolution.OlderOfThreeCanWin` | src/cks_mcp/agents/fork_resolution_agent/fork_resolution_agent.py:258-263 | three candidates on which a dominated one wins by its timestamp |
| `ForkResolution.CoversPointwise` | src/cks_mcp/agents/fork_resolution_agent/fork_resolution_agent.py:234-240 | the relation between vectors is the pointwise order, absent replicas at 0 |
| `ForkResolution.CausalityExactly` | src/cks_mcp/agents/fork_resolution_agent/fork_resolution_agent.py:234-240 | each of the four answers by the counters of all replicas |
| `ForkResolution.EmptyTimeIsNone` | src/cks_mcp/agents/fork_resolution_agent/fork_resolution_agent.py:245-265 | an empty timestamp counts as none |
| `ForkResolution.WinnerIsACandidate` | src/cks_mcp/agents/fork_resolution_agent/fork_resolution_agent.py:245-265 | the winner is one of the ids; there is none exactly for the empty list |
| `ForkResolution.FallbackConverges` | src/cks_mcp/agents/fork_resolution_agent/fork_resolution_agent.py:258-265 | without a causally newest candidate the choice is order-free |
| `ForkStore.CrdtStore.ResolveFork` | src/cks_mcp/agents/fork_resolution_agent/fork_resolution_agent.py:410-508 | outcome for every event; the register is collapsed exactly on success, no other key changes, the event is marked exactly when resolved |
| `ForkStore.ForkDecided` | src/cks_mcp/agents/fork_resolution_agent/fork_resolution_agent.py:483-508 | for any register and any two or more surviving ids, each standing with its live row or without one, the answer is a causally newest candidate if there is any, else the one that times and ids prefer; it is chosen if and only if its row is live |
| `ForkStore.OutcomeExactly` | src/cks_mcp/agents/fork_resolution_agent/fork_resolution_agent.py:410-482 | every other outcome by its cause in the event, the objects and the rows |
| `ForkStore.RedeliveryExactly` | src/cks_mcp/agents/fork_resolution_agent/fork_resolution_agent.py:478-508 | a second run over a collapsed register picks the same winner if and only if its vector is nonzero or it is the least surviving id |
| `ForkStore.CollapsedWinnerWins` | src/cks_mcp/agents/fork_resolution_agent/fork_resolution_agent.py:483-499 | with a nonzero vector, in any list order |
| `ForkStore.DeliverTwice` | src/cks_mcp/agents/fork_resolution_agent/fork_resolution_agent.py:410-508 | two deliveries of one event, ids in any order: the register stays collapsed onto the first winner; after a choice the second agrees if and only if the vector of the winner's row is nonzero or the winner is the least surviving id, and reports the pointer gone otherwise; with one candidate or none it always agrees |
| `ForkStore.SecondAnswer` | src/cks_mcp/agents/fork_resolution_agent/fork_resolution_agent.py:410-508 | the same of the outcomes alone, for every register the first run can leave |
| `JsonScanner.ExtractJson` | src/cks_mcp/llm/providers/json_extract.py:20-48 | the object scanner's loop computes the specified extraction, errors included |
| `JsonScanner.ExtractJsonArray` | src/cks_mcp/tools/arbitrate_inference_conflict/handler.py:425-453 | so does the array scanner's |
| `JsonScanner.ExtractedExactly` | src/cks_mcp/llm/providers/json_extract.py:20-46 | on any text: the answer is t if and only if t runs from the first opener to the character that closes it, counted outside string literals, and no sooner |
| `JsonScanner.ErrorsExactly` | src/cks_mcp/llm/providers/json_extract.py:22-48 | each error if and only if its cause: no opener at all, or one that is never closed |
| `JsonScanner.RoundTrip` | src/cks_mcp/llm/providers/json_extract.py:20-48 | every printed value comes back exactly, after any prefix without the opener and before any suffix |
| `JsonScanner.TruncatedRejected` | src/cks_mcp/llm/providers/json_extract.py:12-18 | every proper prefix of a printed value is rejected |
| `JsonScanner.BraceScannerDropsItems` | src/cks_mcp/tools/arbitrate_inference_conflict/handler.py:420-424 | on an array of objects the object scanner answers the first item alone |
| `JsonScanner.FeedAppend` | src/cks_mcp/llm/providers/json_extract.py:26-46 | scanning a concatenation continues from the state after its first part |
| `Supersession.FindLiveSuccessor` | src/cks_mcp/tools/arbitrate_inference_conflict/handler.py:949-962 | the walk terminates on every graph and computes the specified successor |
| `Supersession.SuccessorIdempotent` | src/cks_mcp/tools/arbitrate_inference_conflict/handler.py:949-962 | idempotent on cycles, self-loops and dangling ids |
| `Supersession.SuccessorReached` | src/cks_mcp/tools/arbitrate_inference_conflict/handler.py:953-962 | the answer is on the chain of the id it was asked for |
| `Supersession.SuccessorExactly` | src/cks_mcp/tools/arbitrate_inference_conflict/handler.py:949-962 | the answer is where the chain of pointers between steps ends, or else the first id it comes back to |
| `Supersession.LiveExactlyWhenReachable` | src/cks_mcp/tools/arbitrate_inference_conflict/handler.py:949-962 | the answer is live if and only if the chain reaches a live step |
| `Supersession.CycleHasNoLiveSuccessor` | src/cks_mcp/tools/arbitrate_inference_conflict/handler.py:949-962 | a two-step cycle answers a superseded step |
| `Supersession.ResolveStalePremises` | src/cks_mcp/tools/arbitrate_inference_conflict/handler.py:899-928 | per requested id: not found, not a step, or resolved if and only if some premise differs from its successor, with exactly those fixes; committing the operations moves every premise of every requested step to its successor and changes nothing else; only stale steps get one |
| `Supersession.SecondRunFindsNothing` | src/cks_mcp/tools/arbitrate_inference_conflict/handler.py:902-946 | after one committed run no requested step cites an id its chain leads away from, and a second run finds nothing to fix; premises keep number and order |
| `CircuitBreaker.LLMCircuitBreaker.ResolveConfidenceConflicts` | src/cks_mcp/agents/critic_agent/critic_agent.py:687-742 | attempted exactly when not open; every answer's effect on breaker and resolution |
| `CircuitBreaker.LLMCircuitBreaker.Configure` | src/cks_mcp/agents/critic_agent/critic_agent.py:394-397 | new settings apply, failures and opening time are kept |
| `CircuitBreaker.FailuresTakeTime` | src/cks_mcp/agents/critic_agent/critic_agent.py:372-392 | n >= threshold failures with no success between span at least (n - threshold) cooldowns |
| `CircuitBreaker.FailuresSpaced` | src/cks_mcp/agents/critic_agent/critic_agent.py:372-392 | from the threshold on, consecutive failures are a cooldown apart |
| `CircuitBreaker.BoundIsTight` | src/cks_mcp/agents/critic_agent/critic_agent.py:372-392 | a fresh breaker attains the bound for every n |
| `CircuitBreaker.OpenExactly` | src/cks_mcp/agents/critic_agent/critic_agent.py:360-392 | over every run of a fresh breaker a call is blocked if and only if at least threshold attempted calls failed on the LLM since the last commit and the last of them ended less than a cooldown ago |
| `ConflictInbox.RingBuffer.Record` | src/cks_mcp/conflict_inbox.py:186-199 | append and evict as the history says |
| `ConflictInbox.RingBuffer.List` | src/cks_mcp/conflict_inbox.py:233-259 | peek and drain, filtered or full: answer and remaining buffer |
| `ConflictInbox.RunIsSound` | src/cks_mcp/conflict_inbox.py:186-314 | over every run each record is buffered, delivered, evicted or cleared, and the buffer is an in-order part of what was recorded |
| `ConflictInbox.ExactlyOnePlace` | src/cks_mcp/conflict_inbox.py:186-314 | in exactly one of the four |
| `ConflictInbox.CapExactly` | src/cks_mcp/conflict_inbox.py:196-199 | the cap holds over all runs if and only if max_records >= 1 |
| `ConflictInbox.NoCapAtZero` | src/cks_mcp/conflict_inbox.py:196-199 | with max_records = 0 the buffer holds everything recorded, without bound |
| `ConflictInbox.EvictedOnlyWhenFull` | src/cks_mcp/conflict_inbox.py:196-199 | a record is evicted only while max_records newer ones are buffered |
| `ConflictInbox.ListingExactly` | src/cks_mcp/conflict_inbox.py:233-259 | a filtered listing holds exactly the buffered records of its key, draining leaves exactly the others, both in order |
| `ConflictInbox.RecordingKeepsNewest` | src/cks_mcp/conflict_inbox.py:186-199 | after every recording the buffer ends with the new record, after as many of the newest before it as fit |
| `ConflictInbox.ClearingAndPeeking` | src/cks_mcp/conflict_inbox.py:233-314 | clearing empties the buffer; peeking changes nothing |
| `ConflictInbox.NothingKeptBelowZero` | src/cks_mcp/conflict_inbox.py:196-199 | a negative limit keeps nothing |
| `GoogleSchema.NormalizeGood` | src/cks_mcp/llm/providers/google.py:116-139 | the rewritten tree fits at every depth if and only if the descriptions it copies do |
| `GoogleSchema.StringDescriptionsSuffice` | src/cks_mcp/llm/providers/google.py:116-139 | string descriptions are enough |
| `GoogleSchema.ThriceIsTwice` | src/cks_mcp/llm/providers/google.py:116-139 | three applications equal two |
| `GoogleSchema.IdempotentExactly` | src/cks_mcp/llm/providers/google.py:130-135 | idempotent if and only if no array it keeps has items that are missing, not a dict, a composition, or without a type that stays truthy, and every description it copies already fits |
| `GoogleSchema.PropertyNamesKeptExactly` | src/cks_mcp/llm/providers/google.py:117-129 | property names survive if and only if none is a rejected keyword |

## Left out

- `resolve_inference_conflict` among the evolution operators; it rewrites `superseded_by` fields of other objects and adds nothing to the commit protocol.
- Calls of `evolve_knowledge` without a session, unparseable operations and unknown extensions: they return before the protocol starts.
- The jitter of the retry backoff: a wait is an arbitrary stretch of other processes' commits.
- `EvolveProtocol` takes one process's call at a time, as the per-session lock ensures within a process; fairness of that lock is not modelled.
- The cascade report, serialisation and diagnostics of a successful response.
- Pipeline workers of one process share one in-memory session and a lock: a refresh by one while another waits would give that one a base between its read and the head. Each worker here has a copy of its own.
- PipelineSteps.Guard: `refresh_session` swallows every failure, and the step then goes on with the session copy it already had. Here a refresh always shows the head.
- Verdict parsing: every LLM answer is an arbitrary approval or rejection, or a raise.
- SynthesizerStep, whose review entry names a node that is never added.
- `start_pipeline` beyond its enqueue, and `run_id` grouping in `list_pipeline_runs`.
- Drain.DrainStep: other workers, and entries submitted by others, while one drain runs; both are in `ConcurrentRun`. A drain whose own steps never stop enqueuing onto the queue it drains need not end, and is not described.
- TaskQueue.Outbox.Dequeue: the storage's reclaim of a stale lease; a drain whose claims could be taken back need not end. Leases are in `TaskLease` and `Pipeline`.
- The idempotency cache's write and the degradation record beyond the fact that one is made; both update an object that nothing creates.
- The unsupported-backend exit of the drain loop, event payloads, logging and metrics.
- Costs are exact reals where the source has floats.
- LivenessReporter: best-effort writes about the process, not about its work.
- LcaArbiter.Arbitrate: the validity check of `resolve_with_lca`, which can reclassify a branch as erroneous, and the Resolution object it builds.
- LcaArbiter.ExtractDelta: the edges of a delta; classification looks at node ids only.
- `_try_lca_resolution`, which the fork agent does not call, and the agent's claim loop, which is the drain loop's.
- ForkStore.CrdtStore.ResolveFork: the payload that is not an object and the storage without a CRDT store, which return before anything is read.
- `ConflictInbox` has three queues of one shape; one generic buffer stands for each, and the lock is implicit.
- The critic agent's other resolvers and its claim loop.
- The tool-level arguments of `arbitrate_inference_conflict`, its prompts and its LLM path.
- HTTP, transports, auth, telemetry, settings and plugins.
