/** _drain_step: one worker drains one queue of the outbox. */
module Drain {
  import opened Wrappers
  import opened AgentLoop
  import opened TaskQueue
  import opened DrainLoop
  import TokenBudget

  // ---------------------------------------------------------------------
  // One drain
  // ---------------------------------------------------------------------

  /** Where an infrastructure call raises while one claim is handled. */
  datatype Fault = NoFault | AtClaim | AtStart | AtReport | AtPublish

  /** What the world does to the k-th claim: the time, how the step's run
      under heartbeat ends, what the step enqueues if it runs, and which
      infrastructure call raises, if any. */
  datatype Event = Event(now: int, run: Run, enqueued: seq<Row>, fault: Fault)

  /** From the given claim on, no step enqueues onto the queue it drains. */
  ghost predicate QuietFrom(quiet: nat, taskType: string, world: nat -> Event) {
    forall k :: k >= quiet ==> Elsewhere(world(k).enqueued, taskType)
  }

  /** Failures a task may still be granted: what the drain consumes. */
  function Allowance(row: Row, taskType: string, maxRetries: int): nat {
    if row.taskType != taskType || !row.status.Pending? then 0
    else if maxRetries - row.retryCount <= 1 then 1
    else maxRetries - row.retryCount
  }

  function TotalAllowance(rows: seq<Row>, taskType: string, maxRetries: int): nat {
    if rows == [] then 0
    else TotalAllowance(rows[..|rows| - 1], taskType, maxRetries) + Allowance(rows[|rows| - 1], taskType, maxRetries)
  }

  lemma {:induction false} AllowanceUpdate(rows: seq<Row>, i: nat, row: Row, taskType: string, maxRetries: int)
    requires i < |rows|
    ensures TotalAllowance(rows[i := row], taskType, maxRetries)
         == TotalAllowance(rows, taskType, maxRetries)
          - Allowance(rows[i], taskType, maxRetries) + Allowance(row, taskType, maxRetries)
  {
    var init := rows[..|rows| - 1];
    if i == |rows| - 1 {
      assert rows[i := row][..|rows| - 1] == init;
    } else {
      assert rows[i := row][..|rows| - 1] == init[i := row];
      AllowanceUpdate(init, i, row, taskType, maxRetries);
    }
  }

  /** Entries for other queues allow no failure in this one. */
  lemma {:induction false} AllowanceAppend(rows: seq<Row>, more: seq<Row>, taskType: string, maxRetries: int)
    requires Elsewhere(more, taskType)
    ensures TotalAllowance(rows + more, taskType, maxRetries) == TotalAllowance(rows, taskType, maxRetries)
    decreases |more|
  {
    if more == [] {
      assert rows + more == rows;
    } else {
      var init := more[..|more| - 1];
      assert (rows + more)[..|rows + more| - 1] == rows + init;
      AllowanceAppend(rows, init, taskType, maxRetries);
    }
  }

  /** One claimed task, what was reported on it, and what its run enqueued. */
  datatype Handled = Handled(id: nat, report: Report, now: int, added: seq<Row>)

  /** The claim takes an eligible row, the run enqueues, the report settles. */
  function HandledRows(rows: seq<Row>, h: Handled, maxRetries: int): seq<Row> {
    if h.id >= |rows| then rows
    else
      Told(Held(rows, h.id) + h.added, Task(h.id, rows[h.id].retryCount), h.report, maxRetries, h.now)
  }

  function Replay(rows: seq<Row>, log: seq<Handled>, maxRetries: int): seq<Row> {
    if log == [] then rows
    else HandledRows(Replay(rows, log[..|log| - 1], maxRetries), log[|log| - 1], maxRetries)
  }

  function Count(log: seq<Handled>, report: Report): nat {
    if log == [] then 0
    else Count(log[..|log| - 1], report) + if log[|log| - 1].report == report then 1 else 0
  }

  /** The first invoked claims ran their step and reported its outcome; once
      the budget refused, every later claim failed without a run. */
  ghost predicate Faithful(log: seq<Handled>, invoked: nat, world: nat -> Event) {
    forall k :: 0 <= k < |log| ==> log[k].report == if k < invoked then ReportOf(world(k).run) else Fail
  }

  /** The step of every invoked claim enqueued what it does, and no other. */
  ghost predicate Enqueues(log: seq<Handled>, invoked: nat, world: nat -> Event) {
    forall k :: 0 <= k < |log| ==>
      log[k].now == world(k).now && log[k].added == Added(world(k), k < invoked)
  }

  function Added(event: Event, ran: bool): seq<Row> {
    if ran then event.enqueued else []
  }

  /** Every entry claimed a row that was eligible at its time. */
  predicate Legal(rows: seq<Row>, log: seq<Handled>, taskType: string, maxRetries: int) {
    log == []
    || (var init, last := log[..|log| - 1], log[|log| - 1];
        var now := Replay(rows, init, maxRetries);
        Legal(rows, init, taskType, maxRetries) && last.id < |now| && Claimable(now[last.id], taskType, last.now))
  }

  /** One more entry: the replay advances, and allowance is used up unless
      something was added to this queue. */
  lemma LogStep(rows: seq<Row>, log: seq<Handled>, h: Handled, taskType: string, maxRetries: int)
    requires Legal(rows, log, taskType, maxRetries)
    requires var now := Replay(rows, log, maxRetries);
      h.id < |now| && Claimable(now[h.id], taskType, h.now)
    ensures var now, next := Replay(rows, log, maxRetries), Replay(rows, log + [h], maxRetries);
      && next == HandledRows(now, h, maxRetries)
      && Legal(rows, log + [h], taskType, maxRetries)
      && (Elsewhere(h.added, taskType) ==>
            TotalAllowance(next, taskType, maxRetries) < TotalAllowance(now, taskType, maxRetries))
    ensures forall report :: Count(log + [h], report) == Count(log, report) + if h.report == report then 1 else 0
  {
    assert (log + [h])[..|log|] == log;
    var now := Replay(rows, log, maxRetries);
    var held := now[h.id].(status := InProgress);
    var row := Settled(held, h.report, now[h.id].retryCount, maxRetries, h.now);
    AllowanceUpdate(now, h.id, row, taskType, maxRetries);
    assert HandledRows(now, h, maxRetries) == now[h.id := row] + h.added;
    if Elsewhere(h.added, taskType) {
      AllowanceAppend(now[h.id := row], h.added, taskType, maxRetries);
    }
  }

  lemma FaithfulStep(log: seq<Handled>, invoked: nat, ran: bool, world: nat -> Event, h: Handled)
    requires Faithful(log, invoked, world) && Enqueues(log, invoked, world)
    requires invoked <= |log| && (ran ==> invoked == |log|)
    requires h.now == world(|log|).now && h.added == Added(world(|log|), ran)
    ensures Enqueues(log + [h], if ran then invoked + 1 else invoked, world)
    ensures h.report == (if ran then ReportOf(world(|log|).run) else Fail) ==>
      Faithful(log + [h], if ran then invoked + 1 else invoked, world)
  {
    hide ReportOf;
  }

  /** The counters once a claim has been handled to its end. */
  function Counted(l: Loop, report: Report, ran: bool): Loop {
    Loop(l.queue, Looking, l.claims + 1,
         if ran then l.invoked + 1 else l.invoked,
         if report.Nothing? then l.processed else l.processed + 1,
         if report.Nothing? then l.abandoned + 1 else l.abandoned,
         if report.Fail? then l.failed + 1 else l.failed,
         !ran, false)
  }

  /** What holds each time around the loop. */
  ghost predicate Kept(rows0: seq<Row>, rows: seq<Row>, log: seq<Handled>, l: Loop,
                       taskType: string, maxRetries: int, world: nat -> Event) {
    && rows == Replay(rows0, log, maxRetries)
    && Legal(rows0, log, taskType, maxRetries)
    && Faithful(log, l.invoked, world) && Enqueues(log, l.invoked, world)
    && |log| == l.claims == l.processed + l.abandoned
    && l.abandoned == Count(log, Nothing)
    && l.failed == Count(log, Fail)
    && l.processed == Count(log, Complete) + Count(log, Fail)
    && l.invoked <= l.claims
    && (l.budgetExhausted <==> l.invoked < l.claims)
    && (l.budgetExhausted ==> l.failed > 0)
  }

  lemma KeptAtStart(rows: seq<Row>, taskType: string, maxRetries: int, world: nat -> Event)
    ensures Kept(rows, rows, [], Fresh(taskType), taskType, maxRetries, world)
  {
  }

  lemma Unfold(rows0: seq<Row>, rows: seq<Row>, log: seq<Handled>, l: Loop,
               taskType: string, maxRetries: int, world: nat -> Event)
    requires Kept(rows0, rows, log, l, taskType, maxRetries, world)
    ensures rows == Replay(rows0, log, maxRetries) && Legal(rows0, log, taskType, maxRetries)
    ensures Faithful(log, l.invoked, world) && Enqueues(log, l.invoked, world)
    ensures l.invoked <= l.claims == |log| == l.processed + l.abandoned
    ensures l.abandoned == Count(log, Nothing) && l.failed == Count(log, Fail) <= l.processed
    ensures l.processed == Count(log, Complete) + Count(log, Fail)
    ensures (l.budgetExhausted <==> l.invoked < l.claims) && (l.budgetExhausted ==> l.failed > 0)
  {
  }

  lemma HandledIs(rows: seq<Row>, h: Handled, maxRetries: int)
    requires h.id < |rows|
    ensures var left, task := Held(rows, h.id) + h.added, Task(h.id, rows[h.id].retryCount);
      HandledRows(rows, h, maxRetries)
        == if h.report.Nothing? then left else Told(left, task, h.report, maxRetries, h.now)
  {
  }

  /** Handling one claim to its end keeps it, and uses allowance up. */
  lemma KeptStep(rows0: seq<Row>, rows: seq<Row>, log: seq<Handled>, l: Loop, id: nat, report: Report, ran: bool,
                 taskType: string, maxRetries: int, world: nat -> Event)
    requires Kept(rows0, rows, log, l, taskType, maxRetries, world)
    requires var event := world(l.claims);
      && id < |rows| && Claimable(rows[id], taskType, event.now)
      && report == (if ran then ReportOf(event.run) else Fail)
      && (l.budgetExhausted ==> !ran)
    ensures var h := Handled(id, report, world(l.claims).now, Added(world(l.claims), ran));
      var next := HandledRows(rows, h, maxRetries);
      && Kept(rows0, next, log + [h], Counted(l, report, ran), taskType, maxRetries, world)
      && (Elsewhere(h.added, taskType) ==>
            TotalAllowance(next, taskType, maxRetries) < TotalAllowance(rows, taskType, maxRetries))
  {
    hide Replay, Legal, Count, HandledRows, TotalAllowance, ReportOf, Claimable, Faithful, Enqueues, Elsewhere, Added;
    var h := Handled(id, report, world(l.claims).now, Added(world(l.claims), ran));
    LogStep(rows0, log, h, taskType, maxRetries);
    FaithfulStep(log, l.invoked, ran, world, h);
  }

  /** So does leaving it claimed, for the part that survives an error. */
  lemma LeftStep(rows0: seq<Row>, rows: seq<Row>, log: seq<Handled>, l: Loop, id: nat, ran: bool,
                 taskType: string, maxRetries: int, world: nat -> Event)
    requires Kept(rows0, rows, log, l, taskType, maxRetries, world)
    requires id < |rows| && Claimable(rows[id], taskType, world(l.claims).now)
    requires l.budgetExhausted ==> !ran
    ensures var left := log + [Handled(id, Nothing, world(l.claims).now, Added(world(l.claims), ran))];
      && Held(rows, id) + Added(world(l.claims), ran) == Replay(rows0, left, maxRetries)
      && Legal(rows0, left, taskType, maxRetries)
      && Enqueues(left, if ran then l.invoked + 1 else l.invoked, world)
    ensures l.failed <= l.processed && l.processed + l.abandoned == l.claims == |log| && l.invoked <= l.claims
  {
    var h := Handled(id, Nothing, world(l.claims).now, Added(world(l.claims), ran));
    LogStep(rows0, log, h, taskType, maxRetries);
    HandledIs(rows, h, maxRetries);
    hide Replay, Legal, Count, Faithful, Enqueues, HandledRows, Elsewhere;
    FaithfulStep(log, l.invoked, ran, world, h);
  }

  // ---------------------------------------------------------------------
  // The drain as a path of its loop's moves
  // ---------------------------------------------------------------------

  /** From an untouched loop on g0, the moves lead to g and l. */
  predicate OnPath(g0: Ground, queue: string, moves: seq<Move>, g: Ground, l: Loop) {
    Path(Alone(g0, Fresh(queue)), moves) == Alone(g, l)
  }

  /** The drain stops here: its queue is empty, or something raised. */
  ghost predicate Drained(g0: Ground, queue: string, moves: seq<Move>, g: Ground,
                          r: StepResult, claims: nat, invoked: nat) {
    exists l: Loop :: OnPath(g0, queue, moves, g, l)
      && l.stage.Ended? && ResultOf(l) == r && l.claims == claims && l.invoked == invoked
  }

  /** Every invocation, and nothing else, spent the estimate, within the cap. */
  predicate Spends(b0: TokenBudget.Budget, b: TokenBudget.Budget, invoked: nat) {
    && b.spent == b0.spent + invoked * ESTIMATED_TOKENS_PER_STEP_CALL && b.maxTokens == b0.maxTokens
    && (invoked > 0 ==> b.spent <= b.maxTokens) && (b0.exhausted ==> invoked == 0)
  }

  lemma PathStarts(g0: Ground, queue: string)
    ensures OnPath(g0, queue, [], g0, Fresh(queue))
  {
  }

  /** One more move, when it is due. */
  lemma PathMoves(g0: Ground, queue: string, moves: seq<Move>, g: Ground, l: Loop, m: Move)
    requires OnPath(g0, queue, moves, g, l) && Due(g, l, m)
    ensures OnPath(g0, queue, moves + [m], Shared(g, l, m), Next(g, l, m))
  {
    PathAppend(Alone(g0, Fresh(queue)), moves, [m]);
    PathOne(Alone(g, l), m);
    hide Shared, Next, Path, Due;
  }

  lemma PathEnds(g0: Ground, queue: string, moves: seq<Move>, g: Ground, l: Loop, m: Move)
    requires OnPath(g0, queue, moves, g, l) && Due(g, l, m) && (m.Break? || (m.Claim? && m.found.None?))
    ensures Drained(g0, queue, moves + [m], g, ResultOf(l).(error := l.error || m.Break?), l.claims, l.invoked)
    ensures Spends(g0.budget, g.budget, l.invoked)
  {
    hide OnPath, Path, Spends, NoneLeft;
    PathMoves(g0, queue, moves, g, l, m);
    assert OnPath(g0, queue, moves + [m], g, Next(g, l, m));
    PathSpends(g0, queue, moves, g, l);
  }

  lemma PathSpends(g0: Ground, queue: string, moves: seq<Move>, g: Ground, l: Loop)
    requires OnPath(g0, queue, moves, g, l)
    ensures Spends(g0.budget, g.budget, l.invoked)
  {
    hide Path, LoopOk;
    FreshOk(g0.budget.exhausted, queue);
    PathKeeps(Alone(g0, Fresh(queue)), moves);
    assert Path(Alone(g0, Fresh(queue)), moves) == Alone(g, l);
    assert l.invoked - Fresh(queue).invoked == l.invoked;
  }

  lemma FreshOk(exhausted: bool, queue: string)
    ensures LoopOk(exhausted, Fresh(queue))
  {
  }

  lemma PathClaims(g0: Ground, queue: string, moves: seq<Move>, g: Ground, l: Loop, now: int, task: Task)
    requires OnPath(g0, queue, moves, g, l) && l.stage.Looking? && Eligible(g.rows, l.queue, now, task)
    ensures OnPath(g0, queue, moves + [Claim(now, Some(task))], g.(rows := Held(g.rows, task.id)),
                   l.(stage := Holding(task), claims := l.claims + 1))
  {
    PathMoves(g0, queue, moves, g, l, Claim(now, Some(task)));
    hide OnPath;
  }

  /** A claim is taken up: the step runs if it is funded, and what is left is
      to report; and after the report. */
  lemma PathHandles(g0: Ground, queue: string, moves: seq<Move>, g: Ground, l: Loop, c: Meeting)
    requires OnPath(g0, queue, moves, g, l) && l.stage.Looking? && !l.error
    requires Eligible(g.rows, l.queue, c.now, c.task)
    requires !Granted(g.budget, l) ==> c.report == Fail
    ensures var ran, left := Granted(g.budget, l), Taken(g, l, c);
      && (c.report.Nothing? ==>
            OnPath(g0, queue, moves + Handling(c, ran), left, Counted(l, c.report, ran)))
      && (!c.report.Nothing? ==>
            && OnPath(g0, queue, moves + Taking(c, ran), left, Awaiting(l, c, ran))
            && OnPath(g0, queue, moves + Handling(c, ran),
                      left.(rows := Told(left.rows, c.task, c.report, g.maxRetries, c.now)),
                      Counted(l, c.report, ran)))
  {
    hide Path, Consulted, Next, Shared, Claimable, Settled;
    var d, ran := Alone(g, l), Granted(g.budget, l);
    TakingLeads(d, c);
    PathAppend(Alone(g0, Fresh(queue)), moves, Taking(c, ran));
    if !c.report.Nothing? {
      PathAppend(d, Taking(c, ran), [Tell(c.now)]);
      PathTells(Path(d, Taking(c, ran)), c.now);
    } else {
      assert Handling(c, ran) == Taking(c, ran);
    }
    PathAppend(Alone(g0, Fresh(queue)), moves, Handling(c, ran));
  }

  /** The loop when its step has ended and the report is still to be made. */
  function Awaiting(l: Loop, c: Meeting, ran: bool): Loop {
    l.(stage := Reporting(c.task, c.report), claims := l.claims + 1, budgetExhausted := !ran,
       invoked := if ran then l.invoked + 1 else l.invoked)
  }

  lemma PathTells(d: Alone, now: int)
    requires d.loop.stage.Reporting? && d.loop.stage.task.id < |d.ground.rows|
    ensures var g, l := d.ground, d.loop;
      Path(d, [Tell(now)])
        == Alone(g.(rows := Told(g.rows, l.stage.task, l.stage.report, g.maxRetries, now)),
                 l.(stage := Looking, processed := l.processed + 1,
                    failed := l.failed + if l.stage.report.Fail? then 1 else 0))
  {
    PathOne(d, Tell(now));
  }

  /** The step runs, and enqueues, only if the shared budget still pays for it. */
  method RunIfFunded(outbox: Outbox, budget: TokenBudget.Tracker, budgetExhausted: bool, event: Event)
      returns (report: Report, ran: bool)
    modifies outbox, budget
    ensures report == if ran then ReportOf(event.run) else Fail
    ensures ran <==> !budgetExhausted && TokenBudget.Reply(old(budget.State()), ESTIMATED_TOKENS_PER_STEP_CALL).Granted?
    ensures budget.State() == if budgetExhausted then old(budget.State())
                              else TokenBudget.Charged(old(budget.State()), ESTIMATED_TOKENS_PER_STEP_CALL)
    ensures outbox.rows == old(outbox.rows) + Added(event, ran)
  {
    if budgetExhausted {
      return Fail, false;
    }
    var granted := budget.Consume(ESTIMATED_TOKENS_PER_STEP_CALL);
    if !granted.Granted? {
      return Fail, false;
    }
    outbox.Enqueue(event.enqueued);
    return ReportOf(event.run), true;
  }

  /** Where an infrastructure call stops the handling of a claim, if at all. */
  function StopOf(event: Event, report: Report): Fault {
    if event.fault.AtStart? then AtStart
    else if report.Nothing? then NoFault
    else if event.fault.AtReport? || event.fault.AtPublish? then event.fault
    else NoFault
  }

  /** The rows once a claim has been handled, as far as it was. */
  function Reported(rows: seq<Row>, task: Task, report: Report, stop: Fault, maxRetries: int, now: int): seq<Row>
    requires task.id < |rows|
  {
    if stop.AtStart? || stop.AtReport? || report.Nothing? then rows else Told(rows, task, report, maxRetries, now)
  }

  /** One claimed task: announce it, run the step if funded, report. */
  method HandleClaim(outbox: Outbox, budget: TokenBudget.Tracker, task: Task, event: Event, maxRetries: int,
                     budgetExhausted: bool)
      returns (report: Report, ran: bool, stop: Fault)
    requires task.id < |outbox.rows|
    modifies outbox, budget
    ensures stop == StopOf(event, report)
    ensures stop.AtStart? ==> !ran && budget.State() == old(budget.State())
    ensures !stop.AtStart? ==>
      && ran == (!budgetExhausted && TokenBudget.Reply(old(budget.State()), ESTIMATED_TOKENS_PER_STEP_CALL).Granted?)
      && report == (if ran then ReportOf(event.run) else Fail)
      && budget.State() == (if budgetExhausted then old(budget.State())
                            else TokenBudget.Charged(old(budget.State()), ESTIMATED_TOKENS_PER_STEP_CALL))
    ensures outbox.rows == Reported(old(outbox.rows) + Added(event, ran), task, report, stop, maxRetries, event.now)
  {
    hide Settled, ReportOf;
    if event.fault.AtStart? {
      assert outbox.rows + [] == outbox.rows;
      return Fail, false, AtStart;
    }
    report, ran := RunIfFunded(outbox, budget, budgetExhausted, event);
    if report.Nothing? {
      return report, ran, NoFault;
    }
    if event.fault.AtReport? {
      return report, ran, AtReport;
    }
    outbox.Settle(task.id, Settled(outbox.rows[task.id], report, task.retryCount, maxRetries, event.now));
    stop := if event.fault.AtPublish? then AtPublish else NoFault;
  }

  /** What a handled claim adds to the log, the moves and the counters. */
  function Logged(log: seq<Handled>, id: nat, report: Report, ran: bool, event: Event, stop: Fault): seq<Handled> {
    log + [Handled(id, if stop.AtStart? || stop.AtReport? then Nothing else report, event.now, Added(event, ran))]
  }

  function Traced(moves: seq<Move>, c: Meeting, ran: bool, stop: Fault): seq<Move> {
    match stop
    case AtStart => moves + [Claim(c.now, Some(c.task))] + [Break]
    case AtReport => moves + Taking(c, ran) + [Break]
    case AtPublish => moves + Handling(c, ran) + [Break]
    case _ => moves + Handling(c, ran)
  }

  function Tallied(l: Loop, report: Report, ran: bool, stop: Fault): Loop {
    match stop
    case AtStart => l.(claims := l.claims + 1)
    case AtReport =>
      l.(claims := l.claims + 1, invoked := if ran then l.invoked + 1 else l.invoked, budgetExhausted := !ran)
    case _ => Counted(l, report, ran)
  }

  /** An error has its cause in the last claim tried: the claim itself raised,
      or a call made for the task it had claimed. */
  predicate Broke(world: nat -> Event, claims: nat) {
    world(claims).fault.AtClaim?
    || (claims > 0 && !world(claims - 1).fault.NoFault? && !world(claims - 1).fault.AtClaim?)
  }

  /** Up to the last claim, the log is what the world made of each. */
  ghost predicate FaithfulBefore(log: seq<Handled>, invoked: nat, world: nat -> Event) {
    log == [] || Faithful(log[..|log| - 1], Min(invoked, |log| - 1), world)
  }

  lemma FaithfulPrefix(log: seq<Handled>, invoked: nat, world: nat -> Event, h: Handled)
    requires Faithful(log, invoked, world) && invoked <= |log|
    ensures FaithfulBefore(log, invoked, world)
    ensures FaithfulBefore(log + [h], invoked, world)
    ensures invoked == |log| ==> FaithfulBefore(log + [h], invoked + 1, world)
  {
    assert (log + [h])[..|log|] == log;
    hide ReportOf;
  }

  /** Everything a drain promises. Its result, budget and rows are those of a
      path of loop moves; the rows are the replay of its log, in which each
      claim took an eligible row and each step that ran enqueued what it does;
      without an error, the counters are the log's, every claim is accounted
      for, and nothing eligible is left. */
  ghost predicate Accounts(g0: Ground, g: Ground, log: seq<Handled>, moves: seq<Move>, r: StepResult, claims: nat,
                           invoked: nat, taskType: string, world: nat -> Event) {
    && Drained(g0, taskType, moves, g, r, claims, invoked)
    && claims == |log| && invoked <= claims
    && g.rows == Replay(g0.rows, log, g0.maxRetries) && Legal(g0.rows, log, taskType, g0.maxRetries)
    && Enqueues(log, invoked, world)
    && (!r.error ==>
          && Faithful(log, invoked, world) && NoneLeft(g.rows, taskType, world(claims).now)
          && r.abandoned == Count(log, Nothing) && r.failed == Count(log, Fail)
          && r.processed == Count(log, Complete) + Count(log, Fail)
          && claims == r.processed + r.abandoned
          && (r.budgetExhausted <==> invoked < claims) && (r.budgetExhausted ==> r.failed > 0))
    && (r.error ==> Broke(world, claims) && FaithfulBefore(log, invoked, world))
    && r.failed <= r.processed && r.processed + r.abandoned <= claims <= r.processed + r.abandoned + 1
    && Spends(g0.budget, g.budget, invoked)
  }

  lemma NowQuiet(quiet: nat, taskType: string, world: nat -> Event, k: nat)
    requires QuietFrom(quiet, taskType, world)
    ensures k >= quiet ==> Elsewhere(world(k).enqueued, taskType)
  {
  }

  /** What holds each time around the loop, path included. */
  ghost predicate Going(g0: Ground, g: Ground, log: seq<Handled>, moves: seq<Move>, l: Loop,
                        taskType: string, world: nat -> Event) {
    && l.queue == taskType && l.stage.Looking? && !l.error && g.maxRetries == g0.maxRetries
    && Kept(g0.rows, g.rows, log, l, taskType, g0.maxRetries, world) && OnPath(g0, taskType, moves, g, l)
  }

  /** Nothing left to claim, or the claim itself raised. */
  lemma GoingEnds(g0: Ground, g: Ground, log: seq<Handled>, moves: seq<Move>, l: Loop, m: Move,
                  taskType: string, world: nat -> Event)
    requires Going(g0, g, log, moves, l, taskType, world)
    requires if m.Claim? then m == Claim(world(l.claims).now, None) && NoneLeft(g.rows, taskType, m.now)
             else m == Break && world(l.claims).fault.AtClaim?
    ensures Accounts(g0, g, log, moves + [m], ResultOf(l).(error := m.Break?), l.claims, l.invoked, taskType, world)
  {
    hide Kept, OnPath, Drained, Replay, Legal, Faithful, Enqueues, FaithfulBefore, Count, NoneLeft, Spends;
    Unfold(g0.rows, g.rows, log, l, taskType, g0.maxRetries, world);
    FaithfulPrefix(log, l.invoked, world, Handled(0, Nothing, 0, []));
    PathEnds(g0, taskType, moves, g, l, m);
  }

  lemma FaithfulLogged(rows0: seq<Row>, rows: seq<Row>, log: seq<Handled>, l: Loop, id: nat, report: Report, ran: bool,
                       stop: Fault, taskType: string, maxRetries: int, world: nat -> Event)
    requires Kept(rows0, rows, log, l, taskType, maxRetries, world)
    requires if stop.AtStart? then !ran else ran ==> !l.budgetExhausted
    ensures FaithfulBefore(Logged(log, id, report, ran, world(l.claims), stop), Tallied(l, report, ran, stop).invoked,
                           world)
  {
    hide Kept, Faithful, FaithfulBefore, Enqueues, Replay, Legal, Count, Added;
    Unfold(rows0, rows, log, l, taskType, maxRetries, world);
    var event := world(l.claims);
    FaithfulPrefix(log, l.invoked, world,
                   Handled(id, if stop.AtStart? || stop.AtReport? then Nothing else report, event.now,
                           Added(event, ran)));
  }

  /** How a claim may have been handled, from g to g'. */
  ghost predicate ClaimHandled(g: Ground, l: Loop, task: Task, report: Report, ran: bool, stop: Fault, g': Ground,
                               taskType: string, event: Event) {
    && Eligible(g.rows, taskType, event.now, task)
    && stop == StopOf(event, report)
    && (if stop.AtStart? then g'.budget == g.budget && !ran
        else ran == Granted(g.budget, l) && report == (if ran then ReportOf(event.run) else Fail)
             && g'.budget == Consulted(g.budget, l))
    && g'.maxRetries == g.maxRetries
    && g'.rows == Reported(Held(g.rows, task.id) + Added(event, ran), task, report, stop, g.maxRetries, event.now)
  }

  /** A claim handled to its end keeps the loop going. */
  lemma GoingOn(g0: Ground, g: Ground, log: seq<Handled>, moves: seq<Move>, l: Loop,
                task: Task, report: Report, ran: bool, stop: Fault, g': Ground, taskType: string, world: nat -> Event)
    requires Going(g0, g, log, moves, l, taskType, world)
    requires ClaimHandled(g, l, task, report, ran, stop, g', taskType, world(l.claims)) && stop.NoFault?
    ensures var event := world(l.claims);
      var c := Meeting(task, event.now, report, event.enqueued);
      && Going(g0, g', Logged(log, task.id, report, ran, event, stop), Traced(moves, c, ran, stop),
               Tallied(l, report, ran, stop), taskType, world)
      && (Elsewhere(event.enqueued, taskType) ==>
            TotalAllowance(g'.rows, taskType, g.maxRetries) < TotalAllowance(g.rows, taskType, g.maxRetries))
  {
    hide Kept, OnPath, Claimable, TotalAllowance, ReportOf, Taking, Handling, Told, Consulted, HandledRows, Granted;
    var event := world(l.claims);
    ExhaustedRefuses(g.budget, l);
    HandledIs(g.rows, Handled(task.id, report, event.now, Added(event, ran)), g.maxRetries);
    KeptStep(g0.rows, g.rows, log, l, task.id, report, ran, taskType, g.maxRetries, world);
    PathHandles(g0, taskType, moves, g, l, Meeting(task, event.now, report, event.enqueued));
  }

  /** A claim broken off ends it with an error. */
  lemma GoingBreaks(g0: Ground, g: Ground, log: seq<Handled>, moves: seq<Move>, l: Loop,
                    task: Task, report: Report, ran: bool, stop: Fault, g': Ground,
                    taskType: string, world: nat -> Event)
    requires Going(g0, g, log, moves, l, taskType, world)
    requires ClaimHandled(g, l, task, report, ran, stop, g', taskType, world(l.claims)) && !stop.NoFault?
    ensures var event := world(l.claims);
      var c := Meeting(task, event.now, report, event.enqueued);
      var l' := Tallied(l, report, ran, stop);
      Accounts(g0, g', Logged(log, task.id, report, ran, event, stop), Traced(moves, c, ran, stop),
               ResultOf(l').(error := true), l'.claims, l'.invoked, taskType, world)
  {
    hide Kept, OnPath, Drained, Replay, Legal, Faithful, Enqueues, Count, Claimable, TotalAllowance, ReportOf,
      Taking, Handling, Told, Consulted;
    hide HandledRows, Granted, FaithfulBefore, Spends, NoneLeft;
    var event := world(l.claims);
    var c := Meeting(task, event.now, report, event.enqueued);
    ExhaustedRefuses(g.budget, l);
    FaithfulLogged(g0.rows, g.rows, log, l, task.id, report, ran, stop, taskType, g.maxRetries, world);
    LeftStep(g0.rows, g.rows, log, l, task.id, ran, taskType, g.maxRetries, world);
    if stop.AtStart? {
      PathClaims(g0, taskType, moves, g, l, event.now, task);
      assert Held(g.rows, task.id) + [] == Held(g.rows, task.id);
      PathEnds(g0, taskType, moves + [Claim(event.now, Some(task))], g',
               l.(stage := Holding(task), claims := l.claims + 1), Break);
    } else {
      PathHandles(g0, taskType, moves, g, l, c);
      if stop.AtReport? {
        PathEnds(g0, taskType, moves + Taking(c, ran), g', Awaiting(l, c, ran), Break);
      } else {
        var h := Handled(task.id, report, event.now, Added(event, ran));
        var after := Counted(l, report, ran);
        HandledIs(g.rows, h, g.maxRetries);
        KeptStep(g0.rows, g.rows, log, l, task.id, report, ran, taskType, g.maxRetries, world);
        Unfold(g0.rows, g'.rows, log + [h], after, taskType, g.maxRetries, world);
        PathEnds(g0, taskType, moves + Handling(c, ran), g', after, Break);
      }
    }
  }

  lemma ExhaustedRefuses(b: TokenBudget.Budget, l: Loop)
    ensures l.budgetExhausted ==> !Granted(b, l)
  {
  }

  lemma GoingStarts(g: Ground, taskType: string, world: nat -> Event)
    ensures Going(g, g, [], [], Fresh(taskType), taskType, world)
  {
    KeptAtStart(g.rows, taskType, g.maxRetries, world);
    PathStarts(g, taskType);
    hide Kept, OnPath;
  }

  /** Steps may enqueue onto any other queue at any time, and onto this one for
      as long as that stops at some claim; else the loop need not end. */
  method DrainStep(outbox: Outbox, budget: TokenBudget.Tracker, taskType: string, maxRetries: int, world: nat -> Event,
                   ghost quiet: nat)
      returns (r: StepResult, claims: nat, ghost invoked: nat, ghost log: seq<Handled>, ghost moves: seq<Move>)
    requires QuietFrom(quiet, taskType, world)
    modifies outbox, budget
    ensures Accounts(old(Ground(budget.State(), outbox.rows, maxRetries)),
                     Ground(budget.State(), outbox.rows, maxRetries),
                     log, moves, r, claims, invoked, taskType, world)
  {
    hide TotalAllowance, Going, TokenBudget.Reply, TokenBudget.Charged, ReportOf, Claimable, Drained, Reported;
    hide Legal, Replay, Count, Faithful, Enqueues, FaithfulBefore, Logged, Traced, Elsewhere, Accounts, QuietFrom,
      Added;
    var processed, abandoned, failed, budgetExhausted, error := 0, 0, 0, false, false;
    claims, invoked, log, moves := 0, 0, [], [];
    ghost var g0 := Ground(budget.State(), outbox.rows, maxRetries);
    ghost var l := Fresh(taskType);
    GoingStarts(g0, taskType, world);
    while true
      invariant Going(g0, Ground(budget.State(), outbox.rows, maxRetries), log, moves, l, taskType, world)
      invariant !error
      invariant l == Loop(taskType, Looking, claims, invoked, processed, abandoned, failed, budgetExhausted, false)
      decreases if claims < quiet then quiet - claims else 0, TotalAllowance(outbox.rows, taskType, maxRetries)
    {
      ghost var g := Ground(budget.State(), outbox.rows, maxRetries);
      var event := world(claims);
      if event.fault.AtClaim? {
        GoingEnds(g0, g, log, moves, l, Break, taskType, world);
        moves, error := moves + [Break], true;
        break;
      }
      var claimed := outbox.Dequeue(taskType, event.now);
      if claimed.None? {
        GoingEnds(g0, g, log, moves, l, Claim(event.now, None), taskType, world);
        moves := moves + [Claim(event.now, None)];
        break;
      }
      var task := claimed.value;
      NowQuiet(quiet, taskType, world, claims);
      var report, ran, stop := HandleClaim(outbox, budget, task, event, maxRetries, budgetExhausted);
      ghost var next := Ground(budget.State(), outbox.rows, maxRetries);
      if stop.NoFault? {
        GoingOn(g0, g, log, moves, l, task, report, ran, stop, next, taskType, world);
      } else {
        GoingBreaks(g0, g, log, moves, l, task, report, ran, stop, next, taskType, world);
      }
      log := Logged(log, task.id, report, ran, event, stop);
      moves := Traced(moves, Meeting(task, event.now, report, event.enqueued), ran, stop);
      l := Tallied(l, report, ran, stop);
      claims := claims + 1;
      if !stop.AtStart? {
        invoked := if ran then invoked + 1 else invoked;
        budgetExhausted := !ran;
        if !stop.AtReport? {
          abandoned := if report.Nothing? then abandoned + 1 else abandoned;
          processed := if report.Nothing? then processed else processed + 1;
          failed := if report.Fail? then failed + 1 else failed;
        }
      }
      if !stop.NoFault? {
        error := true;
        break;
      }
    }
    r := StepResult(processed, abandoned, failed, budgetExhausted, error);
  }

  // ---------------------------------------------------------------------
  // Bounded retries
  // ---------------------------------------------------------------------

  /** How often a task failed during a drain. */
  function Failures(log: seq<Handled>, id: nat): nat {
    if log == [] then 0
    else
      var last := log[|log| - 1];
      Failures(log[..|log| - 1], id) + if last.id == id && last.report.Fail? then 1 else 0
  }

  /** Over any drain, each row moves by its own failures alone. */
  lemma {:induction false} ReplayMoves(rows: seq<Row>, log: seq<Handled>, taskType: string, maxRetries: int, i: nat)
    requires Legal(rows, log, taskType, maxRetries) && i < |rows|
    ensures var now := Replay(rows, log, maxRetries);
      && |now| >= |rows| && RowMoved(rows[i], now[i], Failures(log, i), maxRetries)
      && (rows[i].taskType != taskType ==> now[i] == rows[i])
    decreases |log|
  {
    if log != [] {
      ReplayMoves(rows, log[..|log| - 1], taskType, maxRetries, i);
    }
  }

  predicate NoneOn(log: seq<Handled>, i: nat) {
    forall k :: 0 <= k < |log| ==> log[k].id != i
  }

  /** Entry k of the log is the last on row i. */
  predicate LastOn(log: seq<Handled>, k: nat, i: nat) {
    k < |log| && log[k].id == i && forall j :: k < j < |log| ==> log[j].id != i
  }

  /** Where a drain leaves each row: as its last report says, dead-lettered
      exactly when its failures reach the limit, and else with its retry count
      higher by them; untouched without any. */
  lemma {:induction false} RowsByReports(rows: seq<Row>, log: seq<Handled>, taskType: string, maxRetries: int, i: nat)
    requires Legal(rows, log, taskType, maxRetries) && i < |rows|
    ensures i < |Replay(rows, log, maxRetries)|
    ensures var now, fails := Replay(rows, log, maxRetries)[i], Failures(log, i);
      && (NoneOn(log, i) ==> now == rows[i])
      && (!now.status.Dead? ==> now.retryCount == rows[i].retryCount + fails)
      && forall k: nat :: LastOn(log, k, i) ==>
           && StandsAfter(now, log[k].report, log[k].now)
           && (log[k].report.Fail? ==> (now.status.Dead? <==> rows[i].retryCount + fails >= maxRetries))
    decreases |log|
  {
    hide HandledRows, StandsAfter, Claimable;
    if log != [] {
      var init, last := log[..|log| - 1], log[|log| - 1];
      RowsByReports(rows, init, taskType, maxRetries, i);
      RowHandled(Replay(rows, init, maxRetries), last, taskType, maxRetries, i);
      LastMoves(log, i);
    }
  }

  /** Each claim takes an entry of this queue that is pending and due. */
  lemma {:induction false} ClaimsAreDue(rows: seq<Row>, log: seq<Handled>, taskType: string, maxRetries: int, k: nat)
    requires Legal(rows, log, taskType, maxRetries) && k < |log|
    ensures var now := Replay(rows, log[..k], maxRetries);
      && log[k].id < |now| && now[log[k].id].taskType == taskType
      && now[log[k].id].status.Pending? && now[log[k].id].nextRetryAt <= log[k].now
    decreases |log|
  {
    hide Replay;
    var init := log[..|log| - 1];
    if k < |init| {
      ClaimsAreDue(rows, init, taskType, maxRetries, k);
      assert init[..k] == log[..k];
    }
  }

  /** When a drain ends without an error, its queue has nothing pending and due. */
  lemma NothingDueLeft(g0: Ground, g: Ground, log: seq<Handled>, moves: seq<Move>, r: StepResult, claims: nat,
                       invoked: nat, taskType: string, world: nat -> Event, i: nat)
    requires Accounts(g0, g, log, moves, r, claims, invoked, taskType, world) && !r.error && i < |g.rows|
    ensures g.rows[i].taskType == taskType && g.rows[i].status.Pending? ==> world(claims).now < g.rows[i].nextRetryAt
  {
    hide Drained, Replay, Legal, Count, Faithful, Enqueues;
    assert !Claimable(g.rows[i], taskType, world(claims).now);
  }

  lemma LastMoves(log: seq<Handled>, i: nat)
    requires log != []
    ensures var init, last := log[..|log| - 1], log[|log| - 1];
      && (NoneOn(log, i) <==> last.id != i && NoneOn(init, i))
      && forall k: nat :: LastOn(log, k, i) ==>
           && log[k] == (if last.id == i then last else log[k])
           && (last.id != i ==> LastOn(init, k, i) && init[k] == log[k])
  {
  }

  /** What one handled claim does to one row. */
  lemma RowHandled(rows: seq<Row>, h: Handled, taskType: string, maxRetries: int, i: nat)
    requires i < |rows| && h.id < |rows| && Claimable(rows[h.id], taskType, h.now)
    ensures var after := HandledRows(rows, h, maxRetries);
      && i < |after| && !rows[h.id].status.Dead? && !rows[h.id].status.Completed?
      && (h.id != i ==> after[i] == rows[i])
      && (h.id == i ==>
            && StandsAfter(after[i], h.report, h.now)
            && (h.report.Fail? ==> (after[i].status.Dead? <==> rows[i].retryCount + 1 >= maxRetries))
            && (!after[i].status.Dead? ==>
                  after[i].retryCount == rows[i].retryCount + if h.report.Fail? then 1 else 0))
  {
    hide Settled, StandsAfter;
    if h.id == i {
      SettledStands(rows[i].(status := InProgress), h.report, rows[i].retryCount, maxRetries, h.now);
    }
  }

  /** An entry becomes completed exactly by a report that says so. */
  lemma {:induction false} CompletedExactly(rows: seq<Row>, log: seq<Handled>, taskType: string, maxRetries: int,
                                            i: nat)
    requires Legal(rows, log, taskType, maxRetries) && i < |rows| && !rows[i].status.Completed?
    ensures i < |Replay(rows, log, maxRetries)|
    ensures Replay(rows, log, maxRetries)[i].status.Completed?
       <==> exists k :: 0 <= k < |log| && log[k].id == i && log[k].report.Complete?
    decreases |log|
  {
    hide HandledRows, Claimable;
    if log != [] {
      var init, last := log[..|log| - 1], log[|log| - 1];
      CompletedExactly(rows, init, taskType, maxRetries, i);
      RowHandled(Replay(rows, init, maxRetries), last, taskType, maxRetries, i);
      assert last == log[|log| - 1];
    }
  }

  /** A replay is one of its first part, then one of the rest. */
  lemma {:induction false} ReplaySplit(rows: seq<Row>, before: seq<Handled>, after: seq<Handled>,
                                       taskType: string, maxRetries: int)
    ensures Replay(rows, before + after, maxRetries) == Replay(Replay(rows, before, maxRetries), after, maxRetries)
    ensures Legal(rows, before + after, taskType, maxRetries)
       <==> Legal(rows, before, taskType, maxRetries)
            && Legal(Replay(rows, before, maxRetries), after, taskType, maxRetries)
    decreases |after|
  {
    hide HandledRows;
    if after == [] {
      assert before + after == before;
    } else {
      var init := after[..|after| - 1];
      assert (before + after)[..|before + after| - 1] == before + init;
      ReplaySplit(rows, before, init, taskType, maxRetries);
    }
  }

  /** A task with retry count 0, there from the start or enqueued by a step of
      this very drain, fails at most max(1, max_retries) times from then on, and
      is dead-lettered exactly on that last failure. */
  lemma DeadOnLastFailure(rows: seq<Row>, before: seq<Handled>, after: seq<Handled>, taskType: string, maxRetries: int,
                          i: nat)
    requires Legal(rows, before + after, taskType, maxRetries) && i < |Replay(rows, before, maxRetries)|
    requires var row := Replay(rows, before, maxRetries)[i];
      row.retryCount == 0 && !row.status.Dead?
    ensures var now, fails := Replay(rows, before + after, maxRetries), Failures(after, i);
      var last := if maxRetries <= 1 then 1 else maxRetries;
      i < |now| && fails <= last && (now[i].status.Dead? <==> fails == last)
  {
    ReplaySplit(rows, before, after, taskType, maxRetries);
    ReplayMoves(Replay(rows, before, maxRetries), after, taskType, maxRetries, i);
  }

  // ---------------------------------------------------------------------
  // What a drain hands on
  // ---------------------------------------------------------------------

  /** Everything enqueued over a drain, in order. */
  function AddedBy(log: seq<Handled>): seq<Row> {
    if log == [] then [] else AddedBy(log[..|log| - 1]) + log[|log| - 1].added
  }

  /** The same drain, had its steps enqueued nothing. */
  function Bare(log: seq<Handled>): seq<Handled> {
    seq(|log|, k requires 0 <= k < |log| => log[k].(added := []))
  }

  lemma HandledBehind(rows: seq<Row>, more: seq<Row>, h: Handled, maxRetries: int)
    requires h.id < |rows|
    ensures HandledRows(rows + more, h, maxRetries)
         == HandledRows(rows, h.(added := []), maxRetries) + (more + h.added)
  {
    hide Settled;
  }

  /** While steps enqueue onto other queues only, the drain takes its own queue
      through the same states, and what they enqueued lies behind it untouched. */
  lemma {:induction false} EnqueuedElsewhere(rows: seq<Row>, log: seq<Handled>, taskType: string, maxRetries: int)
    requires forall k :: 0 <= k < |log| ==> Elsewhere(log[k].added, taskType)
    ensures Elsewhere(AddedBy(log), taskType)
    ensures Legal(rows, log, taskType, maxRetries) <==> Legal(rows, Bare(log), taskType, maxRetries)
    ensures Legal(rows, log, taskType, maxRetries) ==>
      Replay(rows, log, maxRetries) == Replay(rows, Bare(log), maxRetries) + AddedBy(log)
    decreases |log|
  {
    hide HandledRows;
    if log != [] {
      var init, last := log[..|log| - 1], log[|log| - 1];
      EnqueuedElsewhere(rows, init, taskType, maxRetries);
      assert Bare(log)[..|log| - 1] == Bare(init);
      var bare, more := Replay(rows, Bare(init), maxRetries), AddedBy(init);
      if last.id < |bare| {
        HandledBehind(bare, more, last, maxRetries);
      } else if last.id < |bare + more| {
        assert (bare + more)[last.id] == more[last.id - |bare|];
      }
    }
  }

  lemma {:induction false} BareLength(rows: seq<Row>, log: seq<Handled>, maxRetries: int)
    ensures |Replay(rows, Bare(log), maxRetries)| == |rows|
    decreases |log|
  {
    if log != [] {
      assert Bare(log)[..|log| - 1] == Bare(log[..|log| - 1]);
      BareLength(rows, log[..|log| - 1], maxRetries);
    }
  }

  /** A row nobody claims stays as it is. */
  lemma {:induction false} UnclaimedStays(rows: seq<Row>, log: seq<Handled>, maxRetries: int, i: nat)
    requires i < |rows| && forall k :: 0 <= k < |log| ==> log[k].id != i
    ensures i < |Replay(rows, log, maxRetries)| && Replay(rows, log, maxRetries)[i] == rows[i]
    decreases |log|
  {
    if log != [] {
      UnclaimedStays(rows, log[..|log| - 1], maxRetries, i);
    }
  }

  /** A drain that ends without an error has handled every entry, there when it
      began, that is eligible at its end if left alone. */
  lemma AllHandled(rows0: seq<Row>, rows: seq<Row>, log: seq<Handled>, maxRetries: int, taskType: string, now: int,
                   i: nat)
    requires rows == Replay(rows0, log, maxRetries) && NoneLeft(rows, taskType, now)
    requires i < |rows0| && Claimable(rows0[i], taskType, now)
    ensures exists k :: 0 <= k < |log| && log[k].id == i
  {
    if forall k :: 0 <= k < |log| ==> log[k].id != i {
      UnclaimedStays(rows0, log, maxRetries, i);
    }
  }
}
