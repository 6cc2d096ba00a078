/** Sequential and concurrent runs, their sandbox, and their shared budget. */
module Orchestrator {
  import opened Wrappers
  import opened AgentLoop
  import opened TaskQueue
  import opened Drain
  import opened DrainLoop
  import TokenBudget

  // ---------------------------------------------------------------------
  // Entering and leaving the sandbox
  // ---------------------------------------------------------------------

  datatype Context = Context(sandbox: Option<string>, parent: Option<string>)

  /** mergeFailed: the error field set from a failed merge. */
  datatype PipelineResult = PipelineResult(
    steps: seq<StepResult>, sandbox: Option<string>, merged: bool, fromCache: bool, degraded: bool, mergeFailed: bool)

  /** What the surroundings answer: the cached sandbox of an earlier run, the
      branch fork_sandbox made, and whether merge_branch reports a merge. */
  datatype Surroundings = Surroundings(cached: Option<string>, forked: Option<string>, mergeWorks: bool)

  method EnterSandbox(parent: Option<string>, around: Surroundings) returns (ctx: Context, fromCache: bool)
    ensures fromCache <==> parent.Some? && around.cached.Some?
    ensures ctx.parent == parent
    ensures ctx.sandbox == if parent.None? then None else if fromCache then around.cached else around.forked
  {
    if parent.None? {
      return Context(None, None), false;
    }
    if around.cached.Some? {
      return Context(around.cached, parent), true;
    }
    return Context(around.forked, parent), false;
  }

  /** A step that reports failed tasks or an exhausted budget. */
  predicate Stops(s: StepResult) {
    s.failed > 0 || s.budgetExhausted
  }

  ghost predicate Clean(steps: seq<StepResult>) {
    forall s :: s in steps ==> !Stops(s) && !s.error
  }

  method ExitSandbox(ctx: Context, steps: seq<StepResult>, degraded: bool, around: Surroundings)
      returns (r: PipelineResult)
    requires degraded <==> exists s :: s in steps && Stops(s)
    ensures r.steps == steps && r.sandbox == ctx.sandbox && !r.fromCache
    ensures r.merged <==> ctx.sandbox.Some? && ctx.parent.Some? && Clean(steps) && around.mergeWorks
    ensures r.mergeFailed <==> ctx.sandbox.Some? && ctx.parent.Some? && Clean(steps) && !around.mergeWorks
    ensures r.degraded <==> ctx.sandbox.Some? && ctx.parent.Some? && exists s :: s in steps && Stops(s)
  {
    r := PipelineResult(steps, ctx.sandbox, false, false, false, false);
    if ctx.sandbox.None? || ctx.parent.None? {
      return;
    }
    if degraded || exists s :: s in steps && s.error {
      return r.(degraded := degraded);
    }
    return if around.mergeWorks then r.(merged := true) else r.(mergeFailed := true);
  }

  // ---------------------------------------------------------------------
  // run_sequential
  // ---------------------------------------------------------------------

  datatype Caps = Caps(maxTokens: int, maxCostUsd: real, costPerToken: real)

  /** One drain of the run: what it started from, and what it did. */
  datatype Pass = Pass(start: Ground, claims: nat, invoked: nat, log: seq<Handled>, moves: seq<Move>)

  /** The pass is a drain of one queue with result r, ending in the state end. */
  ghost predicate IsDrain(p: Pass, end: Ground, r: StepResult, taskType: string, world: nat -> Event) {
    Accounts(p.start, end, p.log, p.moves, r, p.claims, p.invoked, taskType, world)
  }

  function EndOf(passes: seq<Pass>, i: nat, last: Ground): Ground
    requires i < |passes|
  {
    if i + 1 < |passes| then passes[i + 1].start else last
  }

  /** The results are those of consecutive drains of the steps' queues, each
      one going on with the budget and the rows that the one before left, and so
      with whatever the steps before enqueued. */
  ghost predicate Chained(passes: seq<Pass>, steps: seq<StepResult>, start: Ground, end: Ground,
                          taskTypes: seq<string>, worlds: nat -> nat -> Event) {
    && |passes| == |steps| <= |taskTypes|
    && (if passes == [] then end == start else passes[0].start == start)
    && end.maxRetries == start.maxRetries
    && forall i :: 0 <= i < |passes| ==>
         && passes[i].start.maxRetries == start.maxRetries
         && IsDrain(passes[i], EndOf(passes, i, end), steps[i], taskTypes[i], worlds(i))
  }

  function TotalInvoked(passes: seq<Pass>): nat {
    if passes == [] then 0 else TotalInvoked(passes[..|passes| - 1]) + passes[|passes| - 1].invoked
  }

  lemma ChainExtends(passes: seq<Pass>, steps: seq<StepResult>, start: Ground, p: Pass, r: StepResult, end: Ground,
                     taskTypes: seq<string>, worlds: nat -> nat -> Event)
    requires Chained(passes, steps, start, p.start, taskTypes, worlds) && |passes| < |taskTypes|
    requires IsDrain(p, end, r, taskTypes[|passes|], worlds(|passes|)) && end.maxRetries == p.start.maxRetries
    ensures Chained(passes + [p], steps + [r], start, end, taskTypes, worlds)
    ensures TotalInvoked(passes + [p]) == TotalInvoked(passes) + p.invoked
  {
    OneMore(passes, p);
    hide IsDrain, TotalInvoked;
    var next := passes + [p];
    forall i | 0 <= i < |next|
      ensures next[i].start.maxRetries == start.maxRetries
      ensures IsDrain(next[i], EndOf(next, i, end), (steps + [r])[i], taskTypes[i], worlds(i))
    {
      if i < |passes| {
        assert IsDrain(passes[i], EndOf(passes, i, p.start), steps[i], taskTypes[i], worlds(i));
      }
    }
  }

  lemma OneMore(passes: seq<Pass>, p: Pass)
    ensures TotalInvoked(passes + [p]) == TotalInvoked(passes) + p.invoked
  {
    assert (passes + [p])[..|passes|] == passes;
  }

  function Budgeted(caps: Caps): TokenBudget.Budget {
    TokenBudget.Fresh(caps.maxTokens, caps.maxCostUsd, caps.costPerToken)
  }

  /** Each step's queue is drained in turn on one fresh budget, until a step
      stops the run; the drain's error alone does not stop it, only the merge. */
  method RunSequential(outbox: Outbox, parent: Option<string>, around: Surroundings, taskTypes: seq<string>, caps: Caps,
                       maxRetries: int, worlds: nat -> nat -> Event, ghost quiet: nat)
      returns (r: PipelineResult, recorded: bool, ghost passes: seq<Pass>, ghost budget: TokenBudget.Budget)
    requires forall i :: 0 <= i < |taskTypes| ==> QuietFrom(quiet, taskTypes[i], worlds(i))
    modifies outbox
    ensures r.fromCache <==> parent.Some? && around.cached.Some?
    ensures r.fromCache ==> r.steps == [] && r.merged
    ensures r.sandbox == if parent.None? then None else if r.fromCache then around.cached else around.forked
    ensures Chained(passes, r.steps, Ground(Budgeted(caps), old(outbox.rows), maxRetries),
                    Ground(budget, outbox.rows, maxRetries), taskTypes, worlds)
    ensures forall i :: 0 <= i < |r.steps| - 1 ==> !Stops(r.steps[i])
    ensures !r.fromCache && |r.steps| < |taskTypes| ==> r.steps != [] && Stops(r.steps[|r.steps| - 1])
    ensures !r.fromCache ==> (r.merged <==>
      parent.Some? && around.forked.Some? && |r.steps| == |taskTypes| && Clean(r.steps) && around.mergeWorks)
    ensures !r.fromCache ==>
      (r.degraded <==> parent.Some? && around.forked.Some? && exists s :: s in r.steps && Stops(s))
    ensures !r.fromCache ==> (recorded <==> parent.Some? && exists s :: s in r.steps && Stops(s))
    ensures budget.spent == TotalInvoked(passes) * ESTIMATED_TOKENS_PER_STEP_CALL <= Max(0, caps.maxTokens)
  {
    hide Accounts, QuietFrom, Chained, TotalInvoked;
    ghost var start := Ground(Budgeted(caps), outbox.rows, maxRetries);
    passes, budget, recorded := [], start.budget, false;
    ChainStarts(start, taskTypes, worlds);
    var ctx, fromCache := EnterSandbox(parent, around);
    if fromCache {
      return PipelineResult([], ctx.sandbox, true, true, false, false), false, [], start.budget;
    }
    var tracker := new TokenBudget.Tracker(caps.maxTokens, caps.maxCostUsd, caps.costPerToken);
    var results: seq<StepResult> := [];
    var degraded := false;
    for i := 0 to |taskTypes|
      invariant |results| == i && !degraded
      invariant forall j :: 0 <= j < i ==> !Stops(results[j])
      invariant |passes| == i
      invariant Chained(passes, results, start, Ground(tracker.State(), outbox.rows, maxRetries), taskTypes, worlds)
      invariant tracker.State().spent == TotalInvoked(passes) * ESTIMATED_TOKENS_PER_STEP_CALL <= Max(0, caps.maxTokens)
      invariant tracker.maxTokens == caps.maxTokens
    {
      ghost var before := Ground(tracker.State(), outbox.rows, maxRetries);
      var result, claims;
      ghost var invoked, log, moves;
      result, claims, invoked, log, moves := DrainStep(outbox, tracker, taskTypes[i], maxRetries, worlds(i), quiet);
      ghost var pass := Pass(before, claims, invoked, log, moves);
      ghost var after := Ground(tracker.State(), outbox.rows, maxRetries);
      DrainSpends(pass, after, result, taskTypes[i], worlds(i));
      ChainExtends(passes, results, start, pass, result, after, taskTypes, worlds);
      passes, results := passes + [pass], results + [result];
      if result.failed > 0 && !result.budgetExhausted {
        degraded := true;
        break;
      }
      if result.budgetExhausted {
        degraded := true;
        break;
      }
    }
    assert degraded ==> Stops(results[|results| - 1]);
    recorded, budget := degraded && ctx.parent.Some?, tracker.State();
    ChainLengths(passes, results, start, Ground(budget, outbox.rows, maxRetries), taskTypes, worlds);
    r := ExitSandbox(ctx, results, degraded, around);
  }

  lemma DrainSpends(p: Pass, end: Ground, r: StepResult, taskType: string, world: nat -> Event)
    requires IsDrain(p, end, r, taskType, world)
    ensures Spends(p.start.budget, end.budget, p.invoked)
  {
  }

  lemma ChainStarts(start: Ground, taskTypes: seq<string>, worlds: nat -> nat -> Event)
    ensures Chained([], [], start, start, taskTypes, worlds) && TotalInvoked([]) == 0
  {
  }

  lemma ChainLengths(passes: seq<Pass>, steps: seq<StepResult>, start: Ground, end: Ground,
                     taskTypes: seq<string>, worlds: nat -> nat -> Event)
    requires Chained(passes, steps, start, end, taskTypes, worlds)
    ensures |passes| == |steps| <= |taskTypes|
  {
  }

  // ---------------------------------------------------------------------
  // From one step to a later one
  // ---------------------------------------------------------------------

  /** What a pass leaves to the next. */
  lemma PassAt(passes: seq<Pass>, steps: seq<StepResult>, start: Ground, end: Ground,
               taskTypes: seq<string>, worlds: nat -> nat -> Event, i: nat)
    requires Chained(passes, steps, start, end, taskTypes, worlds) && i < |passes|
    ensures |passes| == |steps| <= |taskTypes|
    ensures var p, rows := passes[i], EndOf(passes, i, end).rows;
      && rows == Replay(p.start.rows, p.log, p.start.maxRetries)
      && Legal(p.start.rows, p.log, taskTypes[i], p.start.maxRetries)
      && (!steps[i].error ==> NoneLeft(rows, taskTypes[i], worlds(i)(p.claims).now))
  {
    assert IsDrain(passes[i], EndOf(passes, i, end), steps[i], taskTypes[i], worlds(i));
    hide Drained, Replay, Legal, Faithful, FaithfulBefore, Enqueues, Count;
  }

  /** A row waits unchanged while other queues are drained. */
  lemma {:induction false} RowWaits(passes: seq<Pass>, steps: seq<StepResult>, start: Ground, end: Ground,
                                    taskTypes: seq<string>, worlds: nat -> nat -> Event, i: nat, j: nat, at: nat)
    requires Chained(passes, steps, start, end, taskTypes, worlds)
    requires i <= j < |passes| && at < |passes[i].start.rows|
    requires forall m :: i <= m < j && m < |taskTypes| ==> taskTypes[m] != passes[i].start.rows[at].taskType
    ensures at < |passes[j].start.rows| && passes[j].start.rows[at] == passes[i].start.rows[at]
    decreases j
  {
    hide Chained, Replay, Legal;
    if i < j {
      RowWaits(passes, steps, start, end, taskTypes, worlds, i, j - 1, at);
      PassAt(passes, steps, start, end, taskTypes, worlds, j - 1);
      var p := passes[j - 1];
      ReplayMoves(p.start.rows, p.log, taskTypes[j - 1], p.start.maxRetries, at);
    }
  }

  /** An entry there when pass i begins is handled by the first pass j from then
      on that drains its queue: unless that drain breaks off, some claim of it
      is for the entry, if it is due by then. */
  lemma DueIsClaimed(passes: seq<Pass>, steps: seq<StepResult>, start: Ground, end: Ground,
                     taskTypes: seq<string>, worlds: nat -> nat -> Event, i: nat, j: nat, at: nat)
    requires Chained(passes, steps, start, end, taskTypes, worlds)
    requires i <= j < |passes| == |steps| <= |taskTypes| && !steps[j].error
    requires at < |passes[i].start.rows|
    requires Claimable(passes[i].start.rows[at], taskTypes[j], worlds(j)(passes[j].claims).now)
    requires forall m :: i <= m < j ==> taskTypes[m] != taskTypes[j]
    ensures exists k :: 0 <= k < |passes[j].log| && passes[j].log[k].id == at
  {
    hide Chained, Replay, Legal;
    var q := passes[j];
    PassAt(passes, steps, start, end, taskTypes, worlds, j);
    RowWaits(passes, steps, start, end, taskTypes, worlds, i, j, at);
    AllHandled(q.start.rows, EndOf(passes, j, end).rows, q.log, q.start.maxRetries, taskTypes[j],
               worlds(j)(q.claims).now, at);
  }

  /** What step i enqueues for a later step j is handled by j's drain in the
      same run, on the same terms. */
  lemma HandedOn(passes: seq<Pass>, steps: seq<StepResult>, start: Ground, end: Ground,
                 taskTypes: seq<string>, worlds: nat -> nat -> Event, i: nat, j: nat, e: nat)
    requires Chained(passes, steps, start, end, taskTypes, worlds)
    requires i < j < |passes| == |steps| <= |taskTypes| && !steps[j].error
    requires forall k :: 0 <= k < |passes[i].log| ==> Elsewhere(passes[i].log[k].added, taskTypes[i])
    requires e < |AddedBy(passes[i].log)|
    requires Claimable(AddedBy(passes[i].log)[e], taskTypes[j], worlds(j)(passes[j].claims).now)
    requires forall m :: i < m < j ==> taskTypes[m] != taskTypes[j]
    ensures exists k :: 0 <= k < |passes[j].log| && passes[j].log[k].id == |passes[i].start.rows| + e
  {
    hide Chained, Replay, Legal, AddedBy;
    var p := passes[i];
    PassAt(passes, steps, start, end, taskTypes, worlds, i);
    EnqueuedElsewhere(p.start.rows, p.log, taskTypes[i], p.start.maxRetries);
    BareLength(p.start.rows, p.log, p.start.maxRetries);
    assert passes[i + 1].start.rows[|p.start.rows| + e] == AddedBy(p.log)[e];
    DueIsClaimed(passes, steps, start, end, taskTypes, worlds, i + 1, j, |p.start.rows| + e);
  }
}
