/** run_concurrent: several drains, interleaved at will, on one budget and one
    outbox. */
module ConcurrentRun {
  import opened Wrappers
  import opened AgentLoop
  import opened TaskQueue
  import opened Drain
  import opened DrainLoop
  import opened Orchestrator
  import TokenBudget

  /** Several loops, and what they share. */
  datatype Run = Run(ground: Ground, loops: seq<Loop>)

  /** A move of one loop, or entries submitted by somebody else. */
  datatype Action = Act(who: nat, move: Move) | Submit(entries: seq<Row>)

  predicate Moves(run: Run, a: Action) {
    a.Act? && a.who < |run.loops| && Due(run.ground, run.loops[a.who], a.move)
  }

  function Step(run: Run, a: Action): Run {
    if Moves(run, a) then
      var l := run.loops[a.who];
      Run(Shared(run.ground, l, a.move), run.loops[a.who := Next(run.ground, l, a.move)])
    else if a.Submit? then run.(ground := run.ground.(rows := run.ground.rows + a.entries))
    else run
  }

  function After(run: Run, actions: seq<Action>): Run
    decreases |actions|
  {
    if actions == [] then run else After(Step(run, actions[0]), actions[1..])
  }

  /** One fresh loop per queue. */
  function Begin(start: Ground, queues: seq<string>): Run {
    Run(start, seq(|queues|, w requires 0 <= w < |queues| => Fresh(queues[w])))
  }

  function Starting(caps: Caps, rows: seq<Row>, maxRetries: int): Ground {
    Ground(Budgeted(caps), rows, maxRetries)
  }

  // ---------------------------------------------------------------------
  // The budget
  // ---------------------------------------------------------------------

  function Invoked(loops: seq<Loop>): nat {
    if loops == [] then 0 else Invoked(loops[..|loops| - 1]) + loops[|loops| - 1].invoked
  }

  lemma {:induction false} InvokedUpdate(loops: seq<Loop>, w: nat, l: Loop)
    requires w < |loops|
    ensures Invoked(loops[w := l]) == Invoked(loops) - loops[w].invoked + l.invoked
  {
    var init := loops[..|loops| - 1];
    if w == |loops| - 1 {
      assert loops[w := l][..|loops| - 1] == init;
    } else {
      assert loops[w := l][..|loops| - 1] == init[w := l];
      InvokedUpdate(init, w, l);
    }
  }

  ghost predicate BudgetOk(b: TokenBudget.Budget, invoked: nat) {
    && b.spent == invoked * ESTIMATED_TOKENS_PER_STEP_CALL
    && (invoked > 0 ==> b.spent <= b.maxTokens)
  }

  ghost predicate Ok(run: Run) {
    && BudgetOk(run.ground.budget, Invoked(run.loops))
    && forall w :: 0 <= w < |run.loops| ==> LoopOk(run.ground.budget.exhausted, run.loops[w])
  }

  lemma StepKeeps(run: Run, a: Action)
    requires Ok(run)
    ensures var next := Step(run, a);
      && Ok(next) && next.ground.budget.maxTokens == run.ground.budget.maxTokens
      && (run.ground.budget.exhausted ==>
            next.ground.budget == run.ground.budget && Invoked(next.loops) == Invoked(run.loops))
  {
    hide Invoked, LoopOk, Shared, Next, Due;
    if Moves(run, a) {
      var l := run.loops[a.who];
      assert LoopOk(run.ground.budget.exhausted, l);
      MoveKeeps(run.ground, l, a.move);
      InvokedUpdate(run.loops, a.who, Next(run.ground, l, a.move));
      OthersKeep(run, a);
    }
  }

  /** Another loop's move can only exhaust the budget for good. */
  lemma OthersKeep(run: Run, a: Action)
    requires Ok(run) && Moves(run, a)
    ensures var b := Shared(run.ground, run.loops[a.who], a.move).budget;
      forall w :: 0 <= w < |run.loops| && w != a.who ==> LoopOk(b.exhausted, run.loops[w])
  {
    hide Invoked, LoopOk;
    var b := Shared(run.ground, run.loops[a.who], a.move).budget;
    assert b.exhausted || !run.ground.budget.exhausted;
    forall w | 0 <= w < |run.loops| && w != a.who
      ensures LoopOk(b.exhausted, run.loops[w])
    {
      StaysOk(run.ground.budget.exhausted, b.exhausted, run.loops[w]);
    }
  }

  lemma StaysOk(exhausted: bool, later: bool, l: Loop)
    requires LoopOk(exhausted, l) && (exhausted ==> later)
    ensures LoopOk(later, l)
  {
  }

  lemma {:induction false} RunKeeps(run: Run, actions: seq<Action>)
    requires Ok(run)
    ensures var end := After(run, actions);
      && Ok(end) && end.ground.budget.maxTokens == run.ground.budget.maxTokens
      && (run.ground.budget.exhausted ==>
            end.ground.budget == run.ground.budget && Invoked(end.loops) == Invoked(run.loops))
    decreases |actions|
  {
    hide Ok, Step;
    if actions != [] {
      StepKeeps(run, actions[0]);
      RunKeeps(Step(run, actions[0]), actions[1..]);
    }
  }

  lemma {:induction false} NoneInvoked(loops: seq<Loop>)
    requires forall w :: 0 <= w < |loops| ==> loops[w].invoked == 0
    ensures Invoked(loops) == 0
  {
    if loops != [] {
      NoneInvoked(loops[..|loops| - 1]);
    }
  }

  lemma BeginOk(caps: Caps, rows: seq<Row>, maxRetries: int, queues: seq<string>)
    ensures var first := Begin(Starting(caps, rows, maxRetries), queues);
      Ok(first) && first.ground.budget.maxTokens == caps.maxTokens
  {
    NoneInvoked(Begin(Starting(caps, rows, maxRetries), queues).loops);
    hide Invoked;
  }

  /** In every interleaving: at most floor(maxTokens / 1000) steps are ever
      invoked; every claim is processed, abandoned or still in hand. */
  lemma BudgetBoundsEveryInterleaving(caps: Caps, rows: seq<Row>, maxRetries: int, queues: seq<string>,
                                      actions: seq<Action>)
    ensures var end := After(Begin(Starting(caps, rows, maxRetries), queues), actions);
      && Ok(end) && Invoked(end.loops) * ESTIMATED_TOKENS_PER_STEP_CALL <= Max(0, caps.maxTokens)
      && Invoked(end.loops) <= Max(0, caps.maxTokens) / 1000
  {
    BeginOk(caps, rows, maxRetries, queues);
    hide After, LoopOk, Invoked, Begin;
    RunKeeps(Begin(Starting(caps, rows, maxRetries), queues), actions);
  }

  /** Once the budget is exhausted, no loop ever invokes a step again. */
  lemma NothingStartsAfterExhaustion(caps: Caps, rows: seq<Row>, maxRetries: int, queues: seq<string>,
                                     before: seq<Action>, after: seq<Action>)
    requires After(Begin(Starting(caps, rows, maxRetries), queues), before).ground.budget.exhausted
    ensures var mid := After(Begin(Starting(caps, rows, maxRetries), queues), before);
      Invoked(After(mid, after).loops) == Invoked(mid.loops) && After(mid, after).ground.budget.exhausted
  {
    BudgetBoundsEveryInterleaving(caps, rows, maxRetries, queues, before);
    RunKeeps(After(Begin(Starting(caps, rows, maxRetries), queues), before), after);
  }

  // ---------------------------------------------------------------------
  // The outbox
  // ---------------------------------------------------------------------

  /** A loop with a claim in hand holds an entry of its queue, in progress and
      with the retry count it was claimed with. */
  predicate Holds(rows: seq<Row>, l: Loop) {
    Busy(l) ==>
      var task := l.stage.task;
      && task.id < |rows| && rows[task.id].status.InProgress?
      && rows[task.id].retryCount == task.retryCount && rows[task.id].taskType == l.queue
  }

  /** And no two loops hold the same. */
  ghost predicate Custody(run: Run) {
    && (forall w :: 0 <= w < |run.loops| ==> Holds(run.ground.rows, run.loops[w]))
    && forall v, w :: 0 <= v < w < |run.loops| && Busy(run.loops[v]) && Busy(run.loops[w]) ==>
         run.loops[v].stage.task.id != run.loops[w].stage.task.id
  }

  /** The entry a due move touches, if any: the one claimed, or in hand. */
  function Touched(l: Loop, m: Move): Option<nat> {
    match m
    case Claim(_, Some(task)) => Some(task.id)
    case Tell(_) => if l.stage.Reporting? then Some(l.stage.task.id) else None
    case _ => None
  }

  /** A failure reported on entry i. */
  function FailsAt(run: Run, a: Action, i: nat): nat {
    if Moves(run, a) && a.move.Tell? && run.loops[a.who].stage.task.id == i && run.loops[a.who].stage.report.Fail?
    then 1 else 0
  }

  function FailuresIn(run: Run, actions: seq<Action>, i: nat): nat
    decreases |actions|
  {
    if actions == [] then 0 else FailsAt(run, actions[0], i) + FailuresIn(Step(run, actions[0]), actions[1..], i)
  }

  /** What a move does to one entry. */
  lemma MoveTouches(g: Ground, l: Loop, m: Move, i: nat)
    requires Due(g, l, m) && Holds(g.rows, l) && i < |g.rows|
    ensures var rows := Shared(g, l, m).rows;
      && |rows| >= |g.rows|
      && RowMoved(g.rows[i], rows[i], if m.Tell? && l.stage.task.id == i && l.stage.report.Fail? then 1 else 0,
                  g.maxRetries)
      && (Touched(l, m) != Some(i) || l.queue != g.rows[i].taskType ==> rows[i] == g.rows[i])
    ensures Shared(g, l, m).maxRetries == g.maxRetries
  {
    hide NoneLeft, Consulted;
  }

  /** The loop that moves keeps custody of what it holds; a claim was free. */
  lemma MoverHolds(g: Ground, l: Loop, m: Move)
    requires Due(g, l, m) && Holds(g.rows, l)
    ensures var next := Next(g, l, m);
      && Holds(Shared(g, l, m).rows, next)
      && (Busy(next) ==> if Busy(l) then next.stage.task == l.stage.task
                         else Touched(l, m) == Some(next.stage.task.id) && g.rows[next.stage.task.id].status.Pending?)
    ensures Touched(l, m).Some? ==>
      || (Busy(l) && Touched(l, m).value == l.stage.task.id)
      || (Touched(l, m).value < |g.rows| && g.rows[Touched(l, m).value].status.Pending?)
  {
    hide NoneLeft, Consulted;
  }

  /** Every step leaves each entry to one loop, moves it by at most the failure
      it reports, and changes entries of its own queue alone. */
  lemma CustodyStep(run: Run, a: Action)
    requires Custody(run)
    ensures Custody(Step(run, a)) && Step(run, a).ground.maxRetries == run.ground.maxRetries
    ensures |Step(run, a).loops| == |run.loops| && |Step(run, a).ground.rows| >= |run.ground.rows|
    ensures forall i :: 0 <= i < |run.ground.rows| ==>
      RowMoved(run.ground.rows[i], Step(run, a).ground.rows[i], FailsAt(run, a, i), run.ground.maxRetries)
    ensures forall i :: 0 <= i < |run.ground.rows| && Step(run, a).ground.rows[i] != run.ground.rows[i] ==>
      a.Act? && a.who < |run.loops| && run.loops[a.who].queue == run.ground.rows[i].taskType
    ensures a.Submit? ==> Step(run, a).ground.rows == run.ground.rows + a.entries && Step(run, a).loops == run.loops
  {
    hide Due, Shared, Next, RowMoved, Touched;
    if Moves(run, a) {
      var g, l := run.ground, run.loops[a.who];
      MoveSizes(g, l, a.move);
      forall i | 0 <= i < |g.rows|
        ensures RowMoved(g.rows[i], Step(run, a).ground.rows[i], FailsAt(run, a, i), g.maxRetries)
        ensures Touched(l, a.move) != Some(i) || l.queue != g.rows[i].taskType ==>
          Step(run, a).ground.rows[i] == g.rows[i]
      {
        MoveTouches(g, l, a.move, i);
      }
      MoverHolds(g, l, a.move);
    } else {
      forall i | 0 <= i < |run.ground.rows|
        ensures RowMoved(run.ground.rows[i], Step(run, a).ground.rows[i], 0, run.ground.maxRetries)
      {
        NotMoved(run.ground.rows[i], run.ground.maxRetries);
      }
    }
  }

  lemma MoveSizes(g: Ground, l: Loop, m: Move)
    requires Due(g, l, m)
    ensures |Shared(g, l, m).rows| >= |g.rows| && Shared(g, l, m).maxRetries == g.maxRetries
  {
  }

  lemma NotMoved(row: Row, maxRetries: int)
    ensures RowMoved(row, row, 0, maxRetries)
  {
  }

  lemma MovedTwice(was: Row, mid: Row, now: Row, fails: nat, more: nat, maxRetries: int)
    requires RowMoved(was, mid, fails, maxRetries) && RowMoved(mid, now, more, maxRetries)
    ensures RowMoved(was, now, fails + more, maxRetries)
  {
  }

  lemma {:induction false} CustodyRun(run: Run, actions: seq<Action>)
    requires Custody(run)
    ensures var end := After(run, actions);
      && Custody(end) && |end.loops| == |run.loops| && |end.ground.rows| >= |run.ground.rows|
      && end.ground.maxRetries == run.ground.maxRetries
      && forall i :: 0 <= i < |run.ground.rows| ==>
           RowMoved(run.ground.rows[i], end.ground.rows[i], FailuresIn(run, actions, i), run.ground.maxRetries)
    decreases |actions|
  {
    hide Custody, Step, FailsAt, RowMoved;
    if actions == [] {
      forall i | 0 <= i < |run.ground.rows|
        ensures RowMoved(run.ground.rows[i], run.ground.rows[i], 0, run.ground.maxRetries)
      {
        NotMoved(run.ground.rows[i], run.ground.maxRetries);
      }
    } else {
      var next := Step(run, actions[0]);
      CustodyStep(run, actions[0]);
      CustodyRun(next, actions[1..]);
      var end := After(next, actions[1..]);
      forall i | 0 <= i < |run.ground.rows|
        ensures RowMoved(run.ground.rows[i], end.ground.rows[i], FailuresIn(run, actions, i), run.ground.maxRetries)
      {
        MovedTwice(run.ground.rows[i], next.ground.rows[i], end.ground.rows[i],
                   FailsAt(run, actions[0], i), FailuresIn(next, actions[1..], i), run.ground.maxRetries);
      }
    }
  }

  /** What may happen to an entry. */
  datatype Mark = Claimed | Answered(report: Report, now: int)

  function MarkOf(run: Run, a: Action, i: nat): seq<Mark> {
    if !Moves(run, a) then []
    else
      var l := run.loops[a.who];
      match a.move
      case Claim(_, Some(task)) => if task.id == i then [Claimed] else []
      case Tell(now) => if l.stage.task.id == i then [Answered(l.stage.report, now)] else []
      case _ => []
  }

  /** Everything that happened to entry i over a run, in order. */
  function History(run: Run, actions: seq<Action>, i: nat): seq<Mark>
    decreases |actions|
  {
    if actions == [] then [] else MarkOf(run, actions[0], i) + History(Step(run, actions[0]), actions[1..], i)
  }

  /** How a row stands once the last of it has happened. */
  ghost predicate Marked(row: Row, mark: Mark) {
    match mark
    case Claimed => row.status.InProgress?
    case Answered(report, now) => StandsAfter(row, report, now)
  }

  predicate SaysComplete(history: seq<Mark>) {
    exists k :: 0 <= k < |history| && history[k].Answered? && history[k].report.Complete?
  }

  lemma MoveMarks(run: Run, a: Action, i: nat)
    requires Custody(run) && i < |run.ground.rows|
    ensures i < |Step(run, a).ground.rows|
    ensures var was, now, marks := run.ground.rows[i], Step(run, a).ground.rows[i], MarkOf(run, a, i);
      && |marks| <= 1
      && (marks == [] ==> now == was)
      && (marks != [] ==> Marked(now, marks[0]) && !was.status.Completed? && !was.status.Dead?)
  {
    hide Consulted, NoneLeft, Settled, StandsAfter;
    if Moves(run, a) {
      var g, l := run.ground, run.loops[a.who];
      assert Holds(g.rows, l);
      if a.move.Tell? {
        var task := l.stage.task;
        SettledStands(g.rows[task.id], l.stage.report, task.retryCount, g.maxRetries, a.move.now);
      }
    }
  }

  /** In every interleaving, every entry is left as the last claim or report on
      it says, and untouched without any; one not completed before is completed
      exactly by a report that says so. */
  lemma {:induction false} EntriesByReports(run: Run, actions: seq<Action>, i: nat)
    requires Custody(run) && i < |run.ground.rows|
    ensures i < |After(run, actions).ground.rows|
    ensures var was, now, history := run.ground.rows[i], After(run, actions).ground.rows[i], History(run, actions, i);
      && (if history == [] then now == was else Marked(now, history[|history| - 1]))
      && (!was.status.Completed? ==>
            (now.status.Completed? <==> SaysComplete(history)))
      && (was.status.Completed? || was.status.Dead? ==> history == [])
    decreases |actions|
  {
    hide Custody, Step, MarkOf, StandsAfter;
    if actions != [] {
      var next, marks := Step(run, actions[0]), MarkOf(run, actions[0], i);
      CustodyStep(run, actions[0]);
      MoveMarks(run, actions[0], i);
      EntriesByReports(next, actions[1..], i);
      var later := History(next, actions[1..], i);
      MarksJoin(marks, later);
      CompletedBy(next.ground.rows[i], marks);
    }
  }

  /** So it is from every reachable state on. */
  lemma EntriesSettled(start: Ground, queues: seq<string>, before: seq<Action>, after: seq<Action>, i: nat)
    requires i < |After(Begin(start, queues), before).ground.rows|
    ensures var mid := After(Begin(start, queues), before);
      var end, history := After(mid, after), History(mid, after, i);
      var was := mid.ground.rows[i];
      && i < |end.ground.rows|
      && (if history == [] then end.ground.rows[i] == was else Marked(end.ground.rows[i], history[|history| - 1]))
      && (!was.status.Completed? ==> (end.ground.rows[i].status.Completed? <==> SaysComplete(history)))
  {
    hide After, Custody, History, Marked, SaysComplete;
    BeginCustody(start, queues);
    CustodyRun(Begin(start, queues), before);
    EntriesByReports(After(Begin(start, queues), before), after, i);
  }

  lemma MarksJoin(marks: seq<Mark>, later: seq<Mark>)
    ensures SaysComplete(marks + later) <==> SaysComplete(marks) || SaysComplete(later)
  {
    if k :| 0 <= k < |marks| && marks[k].Answered? && marks[k].report.Complete? {
      assert (marks + later)[k] == marks[k];
    }
    if k :| 0 <= k < |later| && later[k].Answered? && later[k].report.Complete? {
      assert (marks + later)[|marks| + k] == later[k];
    }
  }

  lemma CompletedBy(row: Row, marks: seq<Mark>)
    requires |marks| <= 1 && (marks != [] ==> Marked(row, marks[0]))
    ensures marks != [] ==> (row.status.Completed? <==> SaysComplete(marks))
  {
    if marks != [] && row.status.Completed? {
      assert marks[0].Answered? && marks[0].report.Complete?;
    }
  }

  /** In every interleaving, no entry is in two loops' hands at once. */
  lemma OneHolder(start: Ground, queues: seq<string>, actions: seq<Action>, v: nat, w: nat)
    requires var end := After(Begin(start, queues), actions);
      v < w < |end.loops| && Busy(end.loops[v]) && Busy(end.loops[w])
    ensures var end := After(Begin(start, queues), actions);
      && end.loops[v].stage.task.id != end.loops[w].stage.task.id
      && forall u :: u == v || u == w ==>
           var id := end.loops[u].stage.task.id;
           id < |end.ground.rows| && end.ground.rows[id].status.InProgress?
  {
    hide After;
    CustodyRun(Begin(start, queues), actions);
  }

  /** In every interleaving, an entry that at some point is alive with retry
      count 0 fails at most max(1, max_retries) times from then on, whoever
      reports it, and is dead-lettered exactly on that last failure; an entry
      completed or dead never moves again. */
  lemma DeadOnLastFailureInterleaved(start: Ground, queues: seq<string>, before: seq<Action>, after: seq<Action>,
                                     i: nat)
    requires i < |After(Begin(start, queues), before).ground.rows|
    ensures var mid := After(Begin(start, queues), before);
      var was, end, fails := mid.ground.rows[i], After(mid, after), FailuresIn(mid, after, i);
      var last := if start.maxRetries <= 1 then 1 else start.maxRetries;
      && i < |end.ground.rows|
      && (was.status.Completed? || was.status.Dead? ==> end.ground.rows[i] == was && fails == 0)
      && (was.retryCount == 0 && !was.status.Dead? ==>
            fails <= last && (end.ground.rows[i].status.Dead? <==> fails == last))
  {
    hide After, Custody;
    BeginCustody(start, queues);
    CustodyRun(Begin(start, queues), before);
    CustodyRun(After(Begin(start, queues), before), after);
  }

  lemma BeginCustody(start: Ground, queues: seq<string>)
    ensures Custody(Begin(start, queues))
  {
  }

  // ---------------------------------------------------------------------
  // The run
  // ---------------------------------------------------------------------

  function Results(run: Run): seq<StepResult> {
    seq(|run.loops|, w requires 0 <= w < |run.loops| => ResultOf(run.loops[w]))
  }

  /** A gathered result without error accounts for every claim. */
  lemma GatheredResults(caps: Caps, rows: seq<Row>, maxRetries: int, queues: seq<string>, actions: seq<Action>, w: nat)
    requires var end := After(Begin(Starting(caps, rows, maxRetries), queues), actions);
      w < |end.loops| && end.loops[w].stage.Ended?
    ensures var l := After(Begin(Starting(caps, rows, maxRetries), queues), actions).loops[w];
      && l.failed <= l.processed
      && (!l.error ==> l.claims == l.processed + l.abandoned)
      && (!l.error && l.budgetExhausted ==> l.failed > 0)
  {
    BudgetBoundsEveryInterleaving(caps, rows, maxRetries, queues, actions);
    var end := After(Begin(Starting(caps, rows, maxRetries), queues), actions);
    assert LoopOk(end.ground.budget.exhausted, end.loops[w]);
  }

  /** gather waits for every loop; then the same way out as a sequential run. */
  method RunConcurrent(outbox: Outbox, parent: Option<string>, around: Surroundings, queues: seq<string>, caps: Caps,
                       maxRetries: int, schedule: seq<Action>)
      returns (r: PipelineResult, recorded: bool, ghost invoked: nat)
    requires var end := After(Begin(Starting(caps, outbox.rows, maxRetries), queues), schedule);
      forall w :: 0 <= w < |end.loops| ==> end.loops[w].stage.Ended?
    modifies outbox
    ensures r.fromCache <==> parent.Some? && around.cached.Some?
    ensures r.fromCache ==> r.steps == [] && r.merged && invoked == 0 && outbox.rows == old(outbox.rows)
    ensures r.sandbox == if parent.None? then None else if r.fromCache then around.cached else around.forked
    ensures !r.fromCache ==>
      var end := After(Begin(Starting(caps, old(outbox.rows), maxRetries), queues), schedule);
      && |r.steps| == |end.loops| && (forall w :: 0 <= w < |end.loops| ==> r.steps[w] == ResultOf(end.loops[w]))
      && invoked == Invoked(end.loops) && outbox.rows == end.ground.rows
    ensures !r.fromCache ==> (r.merged <==> parent.Some? && around.forked.Some? && Clean(r.steps) && around.mergeWorks)
    ensures !r.fromCache ==>
      (r.degraded <==> parent.Some? && around.forked.Some? && exists s :: s in r.steps && Stops(s))
    ensures !r.fromCache ==> (recorded <==> parent.Some? && exists s :: s in r.steps && Stops(s))
    ensures invoked * ESTIMATED_TOKENS_PER_STEP_CALL <= Max(0, caps.maxTokens)
  {
    hide After, Step;
    var ctx, fromCache := EnterSandbox(parent, around);
    if fromCache {
      return PipelineResult([], ctx.sandbox, true, true, false, false), false, 0;
    }
    ghost var first := Begin(Starting(caps, outbox.rows, maxRetries), queues);
    var run := Begin(Starting(caps, outbox.rows, maxRetries), queues);
    var i := 0;
    while i < |schedule|
      invariant i <= |schedule| && After(run, schedule[i..]) == After(first, schedule)
      invariant outbox.rows == run.ground.rows
    {
      OneStep(run, schedule[i..]);
      assert schedule[i..][1..] == schedule[i + 1..];
      run := Step(run, schedule[i]);
      outbox.rows := run.ground.rows;
      i := i + 1;
    }
    NoStep(run, schedule[i..]);
    BudgetBoundsEveryInterleaving(caps, old(outbox.rows), maxRetries, queues, schedule);
    invoked := Invoked(run.loops);
    var results := Results(run);
    var degraded := exists s :: s in results && Stops(s);
    recorded := degraded && ctx.parent.Some?;
    r := ExitSandbox(ctx, results, degraded, around);
  }

  /** A drain that has budget and outbox to itself, as code, is this machine
      with one loop: result, budget and rows, error exits included, are those of
      a run. */
  method DrainAlone(outbox: Outbox, budget: TokenBudget.Tracker, taskType: string, maxRetries: int, world: nat -> Event,
                    ghost quiet: nat)
      returns (r: StepResult, ghost actions: seq<Action>)
    requires QuietFrom(quiet, taskType, world)
    modifies outbox, budget
    ensures var end := After(Begin(old(Ground(budget.State(), outbox.rows, maxRetries)), [taskType]), actions);
      && end.ground == Ground(budget.State(), outbox.rows, maxRetries) && |end.loops| == 1
      && end.loops[0].stage.Ended? && ResultOf(end.loops[0]) == r
  {
    hide Replay, Legal, Faithful, Enqueues, FaithfulBefore, Count, Path, After;
    ghost var g0 := Ground(budget.State(), outbox.rows, maxRetries);
    var claims;
    ghost var invoked, log, moves;
    r, claims, invoked, log, moves := DrainStep(outbox, budget, taskType, maxRetries, world, quiet);
    actions := seq(|moves|, i requires 0 <= i < |moves| => Act(0, moves[i]));
    PathIsRun(Alone(g0, Fresh(taskType)), moves, actions);
    assert Begin(g0, [taskType]) == Run(g0, [Fresh(taskType)]);
  }

  lemma {:induction false} PathIsRun(d: Alone, moves: seq<Move>, actions: seq<Action>)
    requires |actions| == |moves| && forall i :: 0 <= i < |moves| ==> actions[i] == Act(0, moves[i])
    ensures After(Run(d.ground, [d.loop]), actions) == Run(Path(d, moves).ground, [Path(d, moves).loop])
    decreases |moves|
  {
    if moves != [] {
      var next := Moved(d, moves[0]);
      PathIsRun(next, moves[1..], actions[1..]);
      PathAppend(d, [moves[0]], moves[1..]);
      PathOne(d, moves[0]);
      assert [moves[0]] + moves[1..] == moves;
      assert Step(Run(d.ground, [d.loop]), actions[0]) == Run(next.ground, [next.loop]);
    }
    hide Path, Step, Moved;
  }

  lemma OneStep(run: Run, actions: seq<Action>)
    requires actions != []
    ensures After(run, actions) == After(Step(run, actions[0]), actions[1..])
  {
  }

  lemma NoStep(run: Run, actions: seq<Action>)
    requires actions == []
    ensures After(run, actions) == run
  {
  }
}
