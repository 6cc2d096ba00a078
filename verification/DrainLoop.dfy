/** The moves of one drain loop, and what they do to its counters and to the
    budget and the outbox it shares. */
module DrainLoop {
  import opened Wrappers
  import opened AgentLoop
  import opened TaskQueue
  import TokenBudget

  const ESTIMATED_TOKENS_PER_STEP_CALL: int := 1000

  datatype StepResult = StepResult(
    processed: nat, abandoned: nat, failed: nat, budgetExhausted: bool, error: bool)

  /** What loops share. */
  datatype Ground = Ground(budget: TokenBudget.Budget, rows: seq<Row>, maxRetries: int)

  /** Where a drain loop is: about to claim, holding a claim it has not funded,
      running its step, about to report, or done. */
  datatype Stage =
    | Looking
    | Holding(task: Task)
    | Running(task: Task)
    | Reporting(task: Task, report: Report)
    | Ended

  datatype Loop = Loop(
    queue: string, stage: Stage, claims: nat, invoked: nat, processed: nat, abandoned: nat, failed: nat,
    budgetExhausted: bool, error: bool)

  function Fresh(queue: string): Loop {
    Loop(queue, Looking, 0, 0, 0, 0, 0, false, false)
  }

  function ResultOf(l: Loop): StepResult {
    StepResult(l.processed, l.abandoned, l.failed, l.budgetExhausted, l.error)
  }

  /** Claim finds a task or an empty queue; Fund decides whether the step runs;
      Finish ends the step, which may have enqueued entries; Tell writes the
      report; Break is an infrastructure call raising, which ends this loop
      only. */
  datatype Move =
    | Claim(now: int, found: Option<Task>)
    | Fund
    | Finish(report: Report, added: seq<Row>)
    | Tell(now: int)
    | Break

  predicate Due(g: Ground, l: Loop, m: Move) {
    match m
    case Claim(now, None) => l.stage.Looking? && NoneLeft(g.rows, l.queue, now)
    case Claim(now, Some(task)) => l.stage.Looking? && Eligible(g.rows, l.queue, now, task)
    case Fund => l.stage.Holding?
    case Finish(_, _) => l.stage.Running?
    case Tell(_) => l.stage.Reporting? && l.stage.task.id < |g.rows|
    case Break => !l.stage.Ended?
  }

  predicate Granted(b: TokenBudget.Budget, l: Loop) {
    !l.budgetExhausted && TokenBudget.Reply(b, ESTIMATED_TOKENS_PER_STEP_CALL).Granted?
  }

  /** The budget once a claim has been funded or not; only a funding that is
      not refused out of hand consults it. */
  function Consulted(b: TokenBudget.Budget, l: Loop): TokenBudget.Budget {
    if l.budgetExhausted then b else TokenBudget.Charged(b, ESTIMATED_TOKENS_PER_STEP_CALL)
  }

  /** The rows once a task's report is in. */
  function Told(rows: seq<Row>, task: Task, report: Report, maxRetries: int, now: int): seq<Row>
    requires task.id < |rows|
  {
    rows[task.id := Settled(rows[task.id], report, task.retryCount, maxRetries, now)]
  }

  /** What a move does to the shared part. */
  function Shared(g: Ground, l: Loop, m: Move): Ground
    requires Due(g, l, m)
  {
    match m
    case Claim(_, Some(task)) => g.(rows := Held(g.rows, task.id))
    case Fund => g.(budget := Consulted(g.budget, l))
    case Finish(_, added) => g.(rows := g.rows + added)
    case Tell(now) => g.(rows := Told(g.rows, l.stage.task, l.stage.report, g.maxRetries, now))
    case _ => g
  }

  /** And to the loop that makes it. */
  function Next(g: Ground, l: Loop, m: Move): Loop
    requires Due(g, l, m)
  {
    match m
    case Claim(_, Some(task)) => l.(stage := Holding(task), claims := l.claims + 1)
    case Claim(_, None) => l.(stage := Ended)
    case Fund =>
      if Granted(g.budget, l) then l.(stage := Running(l.stage.task), invoked := l.invoked + 1)
      else l.(stage := Reporting(l.stage.task, Fail), budgetExhausted := true)
    case Finish(report, _) =>
      if report.Nothing? then l.(stage := Looking, abandoned := l.abandoned + 1)
      else l.(stage := Reporting(l.stage.task, report))
    case Tell(_) =>
      l.(stage := Looking, processed := l.processed + 1, failed := l.failed + if l.stage.report.Fail? then 1 else 0)
    case Break => l.(stage := Ended, error := true)
  }

  // ---------------------------------------------------------------------
  // One loop by itself
  // ---------------------------------------------------------------------

  datatype Alone = Alone(ground: Ground, loop: Loop)

  function Moved(d: Alone, m: Move): Alone {
    if Due(d.ground, d.loop, m) then Alone(Shared(d.ground, d.loop, m), Next(d.ground, d.loop, m)) else d
  }

  function Path(d: Alone, moves: seq<Move>): Alone {
    if moves == [] then d else Moved(Path(d, moves[..|moves| - 1]), moves[|moves| - 1])
  }

  lemma {:induction false} PathAppend(d: Alone, xs: seq<Move>, ys: seq<Move>)
    ensures Path(d, xs + ys) == Path(Path(d, xs), ys)
    decreases |ys|
  {
    if ys == [] {
      assert xs + ys == xs;
    } else {
      assert (xs + ys)[..|xs + ys| - 1] == xs + ys[..|ys| - 1];
      PathAppend(d, xs, ys[..|ys| - 1]);
    }
  }

  predicate Busy(l: Loop) {
    l.stage.Holding? || l.stage.Running? || l.stage.Reporting?
  }

  ghost predicate LoopOk(exhausted: bool, l: Loop) {
    && l.failed <= l.processed
    && (Busy(l) ==> l.claims == l.processed + l.abandoned + 1)
    && (!Busy(l) && !l.error ==> l.claims == l.processed + l.abandoned)
    && (l.error ==> l.stage.Ended? && l.processed + l.abandoned <= l.claims <= l.processed + l.abandoned + 1)
    && (l.budgetExhausted ==> exhausted)
    && (l.budgetExhausted && !l.error ==> l.failed > 0 || (l.stage.Reporting? && l.stage.report.Fail?))
    && l.invoked <= l.claims
    && (l.stage.Reporting? ==> !l.stage.report.Nothing?)
    && (l.stage.Holding? ==> l.invoked < l.claims)
    && (l.stage.Running? ==> !l.budgetExhausted)
  }

  /** What one move does to what a loop has spent and still accounts for. */
  lemma MoveKeeps(g: Ground, l: Loop, m: Move)
    requires LoopOk(g.budget.exhausted, l) && Due(g, l, m)
    ensures var b, b', l' := g.budget, Shared(g, l, m).budget, Next(g, l, m);
      && LoopOk(b'.exhausted, l') && l'.queue == l.queue
      && b'.spent == b.spent + (l'.invoked - l.invoked) * ESTIMATED_TOKENS_PER_STEP_CALL
      && (l'.invoked > l.invoked ==> b'.spent <= b'.maxTokens)
      && b'.maxTokens == b.maxTokens && (b.exhausted ==> b' == b && l'.invoked == l.invoked)
      && l.invoked <= l'.invoked
  {
  }

  /** Over any path of one loop. */
  lemma {:induction false} PathKeeps(d: Alone, moves: seq<Move>)
    requires LoopOk(d.ground.budget.exhausted, d.loop)
    ensures var e := Path(d, moves);
      var b, b' := d.ground.budget, e.ground.budget;
      && LoopOk(b'.exhausted, e.loop)
      && b'.spent == b.spent + (e.loop.invoked - d.loop.invoked) * ESTIMATED_TOKENS_PER_STEP_CALL
      && (e.loop.invoked > d.loop.invoked ==> b'.spent <= b'.maxTokens)
      && b'.maxTokens == b.maxTokens
      && (b.exhausted ==> e.loop.invoked == d.loop.invoked && b' == b)
      && d.loop.invoked <= e.loop.invoked
  {
    if moves != [] {
      var init := moves[..|moves| - 1];
      PathKeeps(d, init);
      var mid := Path(d, init);
      if Due(mid.ground, mid.loop, moves[|moves| - 1]) {
        MoveKeeps(mid.ground, mid.loop, moves[|moves| - 1]);
      }
      hide LoopOk, Shared, Next, Due;
    }
  }

  /** One claim, as it is met: the task, the time, and how its step ends if it
      runs. */
  datatype Meeting = Meeting(task: Task, now: int, report: Report, added: seq<Row>)

  /** Handling one claim to the end of its step, and to its report. */
  function Taking(c: Meeting, ran: bool): seq<Move> {
    [Claim(c.now, Some(c.task)), Fund] + if ran then [Finish(c.report, c.added)] else []
  }

  function Handling(c: Meeting, ran: bool): seq<Move> {
    Taking(c, ran) + if c.report.Nothing? then [] else [Tell(c.now)]
  }

  /** The shared part once the step has ended. */
  function Taken(g: Ground, l: Loop, c: Meeting): Ground
    requires c.task.id < |g.rows|
  {
    g.(budget := Consulted(g.budget, l),
       rows := Held(g.rows, c.task.id) + if Granted(g.budget, l) then c.added else [])
  }

  lemma TakingLeads(d: Alone, c: Meeting)
    requires Due(d.ground, d.loop, Claim(c.now, Some(c.task)))
    ensures var l, ran := d.loop, Granted(d.ground.budget, d.loop);
      var held := l.(claims := l.claims + 1, invoked := if ran then l.invoked + 1 else l.invoked,
                     budgetExhausted := l.budgetExhausted || !ran);
      Path(d, Taking(c, ran)) == Alone(Taken(d.ground, l, c),
        if !ran then held.(stage := Reporting(c.task, Fail))
        else if c.report.Nothing? then held.(stage := Looking, abandoned := l.abandoned + 1)
        else held.(stage := Reporting(c.task, c.report)))
  {
    hide TokenBudget.Reply, TokenBudget.Charged, LoopOk, NoneLeft, Claimable;
    var ran := Granted(d.ground.budget, d.loop);
    var claim := Claim(c.now, Some(c.task));
    var d2 := Moved(Moved(d, claim), Fund);
    PathTwo(d, claim, Fund);
    PathAppend(d, [claim, Fund], if ran then [Finish(c.report, c.added)] else []);
    PathOne(d2, Finish(c.report, c.added));
    assert Held(d.ground.rows, c.task.id) + [] == Held(d.ground.rows, c.task.id);
  }

  lemma PathOne(d: Alone, m: Move)
    ensures Path(d, [m]) == Moved(d, m) && Path(d, []) == d
  {
    assert [m][..0] == [];
    hide Moved;
  }

  lemma PathTwo(d: Alone, m: Move, n: Move)
    ensures Path(d, [m, n]) == Moved(Moved(d, m), n)
  {
    PathOne(d, m);
    PathOne(Moved(d, m), n);
    PathAppend(d, [m], [n]);
    assert [m] + [n] == [m, n];
  }
}
