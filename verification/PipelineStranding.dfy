/** Exactly when an object can be stranded, or a log rewritten, at all. */
module PipelineStranding {
  import opened Wrappers
  import opened PipelineLog
  import opened Pipeline
  import opened PipelineRuns
  import opened PipelineLateWrites

  // ---------------------------------------------------------------------
  // One worker alone
  // ---------------------------------------------------------------------

  /** Nobody else moves the stored version while the one worker has a copy. */
  predicate Alone(sys: System) {
    && |sys.workers| <= 1
    && forall w :: 0 <= w < |sys.workers| ==>
         match sys.workers[w]
         case Asking(_, copy) => copy == sys.board.graph
         case Writing(_, copy, _) => copy == sys.board.graph
         case _ => true
  }

  lemma AloneStep(sys: System, a: Action)
    requires Alone(sys)
    ensures Alone(Step(sys, a)) && !Stale(sys, a)
  {
    hide Landed, HasAgentTransitioned, FindTransition;
  }

  lemma {:induction false} AloneRun(sys: System, actions: seq<Action>)
    requires Alone(sys)
    ensures NoneStale(sys, actions)
    decreases |actions|
  {
    hide Step, Alone, Stale;
    if actions != [] {
      AloneStep(sys, actions[0]);
      AloneRun(Step(sys, actions[0]), actions[1..]);
    }
  }

  lemma {:induction false} StaleAtTheEnd(sys: System, actions: seq<Action>, a: Action)
    requires Stale(Run(sys, actions), a)
    ensures !NoneStale(sys, actions + [a])
    decreases |actions|
  {
    hide Step, Stale;
    if actions == [] {
      assert actions + [a] == [a];
    } else {
      assert (actions + [a])[1..] == actions[1..] + [a];
      StaleAtTheEnd(Step(sys, actions[0]), actions[1..], a);
    }
  }

  /** The log only appends, and the first verdict is final, in all runs from a
      start if and only if it has at most one worker. */
  lemma SafeExactlyAlone(first: System)
    requires Init(first)
    ensures (forall actions :: NoneStale(first, actions)) <==> |first.workers| <= 1
  {
    if |first.workers| <= 1 {
      forall actions
        ensures NoneStale(first, actions)
      {
        AloneRun(first, actions);
      }
    } else {
      var actions := ResearchOvertaken(|first.board.queue|, true);
      LateFindingErasesVerdict(first, true);
      StaleAtTheEnd(first, actions, Write(0, OnCopy));
    }
  }

  // ---------------------------------------------------------------------
  // Emptying the queue of a resolved object
  // ---------------------------------------------------------------------

  /** A worker that claims a task of a resolved object skips its work. */
  function Skipping(v: nat, task: nat): seq<Action> {
    [Claim(v, task), Read(v, true)] + [Route(v), Report(v, false)]
  }

  function Handed(b: Board, task: nat): Option<Task>
    requires task < |b.queue|
  {
    var t := b.queue[task];
    var entry := Latest(b.graph.subject, t.kind);
    if entry.Some? then NextTask(t.kind, entry.value.to, entry.value.node, t.runId) else None
  }

  lemma ClaimAndRead(g0: Graph, sys: System, v: nat, task: nat)
    requires Untouched(g0) && Story(g0, sys.board.graph) && Settled(g0, sys.board.graph)
    requires v < |sys.workers| && sys.workers[v].Resting?
    requires task < |sys.board.queue| && sys.board.queue[task].state.Pending?
    ensures Run(sys, [Claim(v, task), Read(v, true)])
         == System(Mark(sys.board, task, InProgress),
                   sys.workers[v := Routing(task, Handed(sys.board, task))], sys.clock + 2)
    ensures sys.board.queue[task].kind.Research? ==>
      && Handed(sys.board, task).Some? && Handed(sys.board, task).value.kind.Review?
      && Handed(sys.board, task).value.state.Pending?
    ensures sys.board.queue[task].kind.Review? ==> Handed(sys.board, task).None?
  {
    StoryFind(g0, sys.board.graph, sys.board.queue[task].kind);
    var s1 := Step(sys, Claim(v, task));
    RunOne(sys, Claim(v, task));
    RunOne(s1, Read(v, true));
    RunAppend(sys, [Claim(v, task)], [Read(v, true)]);
    assert [Claim(v, task)] + [Read(v, true)] == [Claim(v, task), Read(v, true)];
    hide Run, NodesTell, HasAgentTransitioned, FindTransition;
  }

  /** What one skipped task leaves: it is done, and research has handed on. */
  lemma Skipped(g0: Graph, sys: System, v: nat, task: nat)
    requires Untouched(g0) && Story(g0, sys.board.graph) && Settled(g0, sys.board.graph)
    requires v < |sys.workers| && sys.workers[v].Resting?
    requires task < |sys.board.queue| && sys.board.queue[task].state.Pending?
    ensures var end, t := Run(sys, Skipping(v, task)), sys.board.queue[task];
      && end.board.graph == sys.board.graph && end.workers == sys.workers
      && end.board.queue == Queued(sys.board.queue, Handed(sys.board, task))[task := t.(state := Done)]
  {
    hide Run, Step, Story, Settled, Handed;
    ClaimAndRead(g0, sys, v, task);
    var mid := Run(sys, [Claim(v, task), Read(v, true)]);
    Finishing(mid, v);
    RunOne(mid, Route(v));
    RunOne(Step(mid, Route(v)), Report(v, false));
    RunAppend(mid, [Route(v)], [Report(v, false)]);
    assert [Route(v)] + [Report(v, false)] == [Route(v), Report(v, false)];
    RunAppend(sys, [Claim(v, task), Read(v, true)], [Route(v), Report(v, false)]);
    QueueAfter(sys.board.queue, task, Handed(sys.board, task));
    assert mid.workers[v := Resting] == sys.workers;
  }

  predicate DoneUpTo(queue: seq<Task>, i: nat) {
    i <= |queue| && forall t :: 0 <= t < i ==> queue[t].state.Done?
  }

  predicate NoneDead(queue: seq<Task>) {
    forall t :: 0 <= t < |queue| ==> !queue[t].state.Dead?
  }

  /** Only a failure past its last retry dead-letters a task. */
  lemma {:induction false} NoneDeadWhileRetried(sys: System, actions: seq<Action>)
    requires NoneDead(sys.board.queue) && (forall a :: a in actions && a.Report? ==> a.retry)
    requires forall w :: 0 <= w < |sys.workers| ==> NextAlive(sys.workers[w])
    ensures NoneDead(Run(sys, actions).board.queue)
    decreases |actions|
  {
    hide Step;
    if actions != [] {
      assert actions[0] in actions && forall a :: a in actions[1..] ==> a in actions;
      AliveStep(sys, actions[0]);
      NoneDeadWhileRetried(Step(sys, actions[0]), actions[1..]);
    }
  }

  /** And a failure past its last retry does; one before it puts the task back. */
  lemma FailureSettles(sys: System, w: nat, retry: bool)
    requires Busy(sys, w) && sys.workers[w].Failed?
    ensures var t, next := sys.workers[w].task, Step(sys, Report(w, retry));
      && next.board.queue[t].state == (if retry then Pending else Dead)
      && next.board.graph == sys.board.graph && next.workers[w].Resting?
      && forall u :: 0 <= u < |sys.board.queue| && u != t ==> next.board.queue[u] == sys.board.queue[u]
  {
  }

  predicate NextAlive(phase: Phase) {
    phase.Routing? && phase.next.Some? ==> !phase.next.value.state.Dead?
  }

  lemma AliveStep(sys: System, a: Action)
    requires NoneDead(sys.board.queue) && (a.Report? ==> a.retry)
    requires forall w :: 0 <= w < |sys.workers| ==> NextAlive(sys.workers[w])
    ensures NoneDead(Step(sys, a).board.queue)
    ensures forall w :: 0 <= w < |Step(sys, a).workers| ==> NextAlive(Step(sys, a).workers[w])
  {
    hide Landed, Lands, Latest, Handled;
  }

  function ResearchFrom(queue: seq<Task>, i: nat): nat
    decreases |queue| - i
  {
    if i >= |queue| then 0 else (if queue[i].kind.Research? then 1 else 0) + ResearchFrom(queue, i + 1)
  }

  /** Marking a task before i, and a review at the end, add no research. */
  lemma {:induction false} ResearchSame(queue: seq<Task>, next: seq<Task>, i: nat)
    requires |queue| <= |next| && forall t :: i <= t < |queue| ==> next[t].kind == queue[t].kind
    requires forall t :: |queue| <= t < |next| ==> next[t].kind.Review?
    ensures ResearchFrom(next, i) == ResearchFrom(queue, i)
    decreases |next| - i
  {
    if i < |next| {
      ResearchSame(queue, next, i + 1);
    }
  }

  /** One worker can bring every task of a resolved object to its end, the
      rest of the system standing still. */
  lemma {:induction false} Quiesce(g0: Graph, sys: System, v: nat, i: nat) returns (actions: seq<Action>)
    requires Untouched(g0) && Story(g0, sys.board.graph) && Settled(g0, sys.board.graph)
    requires v < |sys.workers| && sys.workers[v].Resting?
    requires DoneUpTo(sys.board.queue, i) && NoneDead(sys.board.queue)
    ensures var end := Run(sys, actions);
      && end.board.graph == sys.board.graph && end.workers == sys.workers
      && |end.board.queue| >= |sys.board.queue| && DoneUpTo(end.board.queue, |end.board.queue|)
      && forall t :: 0 <= t < |sys.board.queue| ==> end.board.queue[t].kind == sys.board.queue[t].kind
    decreases ResearchFrom(sys.board.queue, i), |sys.board.queue| - i
  {
    hide Run, Story, Settled, Handed;
    if i == |sys.board.queue| {
      actions := [];
      RunNone(sys);
    } else {
      var first := Release(sys, i);
      var mid := Run(sys, first);
      ResearchSame(sys.board.queue, mid.board.queue, i);
      if mid.board.queue[i].state.Done? {
        var rest := Quiesce(g0, mid, v, i + 1);
        RunAppend(sys, first, rest);
        actions := first + rest;
      } else {
        ClaimAndRead(g0, mid, v, i);
        Skipped(g0, mid, v, i);
        var next := Run(mid, Skipping(v, i));
        ResearchSame(mid.board.queue, next.board.queue, i + 1);
        var rest := Quiesce(g0, next, v, i + 1);
        RunAppend(mid, Skipping(v, i), rest);
        RunAppend(sys, first, Skipping(v, i) + rest);
        actions := first + (Skipping(v, i) + rest);
      }
    }
  }

  lemma RunNone(sys: System)
    ensures Run(sys, []) == sys
  {
  }

  /** A claimed task goes back to the queue. */
  lemma Release(sys: System, i: nat) returns (actions: seq<Action>)
    requires i < |sys.board.queue| && NoneDead(sys.board.queue)
    ensures var t, end := sys.board.queue[i], Run(sys, actions);
      && end.board.graph == sys.board.graph && end.workers == sys.workers
      && end.board.queue == sys.board.queue[i := t.(state := if t.state.Done? then Done else Pending)]
  {
    if sys.board.queue[i].state.InProgress? {
      actions := [Expire(i)];
      RunOne(sys, Expire(i));
    } else {
      actions := [];
      assert sys.board.queue[i := sys.board.queue[i]] == sys.board.queue;
    }
  }

  // ---------------------------------------------------------------------
  // Stranding
  // ---------------------------------------------------------------------

  /** Worker v is free, if need be after a crash. */
  lemma Freed(g0: Graph, sys: System, v: nat) returns (actions: seq<Action>)
    requires Inv(g0, sys) && v < |sys.workers|
    ensures Run(sys, actions).board == sys.board && Run(sys, actions).workers == sys.workers[v := Resting]
  {
    assert WorkerOk(g0, sys.board, sys.workers[v], sys.clock);
    if sys.workers[v].Resting? {
      actions := [];
      RunNone(sys);
      assert sys.workers[v := sys.workers[v]] == sys.workers;
    } else {
      actions := [Quit(v)];
      RunOne(sys, Quit(v));
    }
    hide Run, Story, CopyOk;
  }

  /** Only the clock, and so the new entry's time, separates a landing now
      from the same landing later. */
  lemma LandsLater(g0: Graph, sys: System, later: System, a: Action)
    requires Untouched(g0) && Inv(g0, sys) && Inv(g0, later) && Reopens(sys, a)
    requires later.board.graph == sys.board.graph
    requires |later.workers| == |sys.workers| && later.workers[a.who] == sys.workers[a.who]
    requires var task := sys.workers[a.who].task;
      task < |later.board.queue| && later.board.queue[task].kind == sys.board.queue[task].kind
    ensures Lands(later, a)
    ensures !TargetOf(later.board.queue[later.workers[a.who].task].kind, later.workers[a.who].approved).Resolved?
  {
    LandingTells(g0, sys, a);
    StoryFind(g0, Landed(sys, a), Review);
    hide Story, CopyOk, Landed, HasAgentTransitioned, FindTransition;
  }

  /** From every reachable state in which a write would reopen the object, with
      a second worker and nothing dead-lettered: some schedule of these two
      ends with the object unresolved and every task done. */
  lemma ReopeningStrands(first: System, before: seq<Action>, a: Action, v: nat) returns (actions: seq<Action>)
    requires Init(first) && Reopens(Run(first, before), a) && NoneDead(Run(first, before).board.queue)
    requires v < |Run(first, before).workers| && v != a.who
    ensures Stranded(Run(first, before + actions).board)
  {
    hide Run, Story, Settled, Lands, Landed, ResolvedNow, Stranded, NodeOf, Inv, Untouched;
    var g0, sys := first.board.graph, Run(first, before);
    Reached(first, before);
    SettledHere(g0, sys);
    var freed := Freed(g0, sys, v);
    RunAppend(first, before, freed);
    var free := Run(sys, freed);
    var emptied := Quiesce(g0, free, v, 0);
    RunAppend(first, before + freed, emptied);
    var quiet := Run(free, emptied);
    Reached(first, before + freed + emptied);
    LandsThere(sys, a);
    LandsLater(g0, sys, quiet, a);
    LateWriteStrandsExactly(first, before + freed + emptied, a.who, a.how);
    RunAppend(first, before + freed + emptied, [a, Quit(a.who)]);
    actions := freed + emptied + [a, Quit(a.who)];
    assert before + actions == before + freed + emptied + [a, Quit(a.who)];
  }

  lemma SettledHere(g0: Graph, sys: System)
    requires Untouched(g0) && Inv(g0, sys) && ResolvedNow(sys.board.graph)
    ensures Story(g0, sys.board.graph) && Settled(g0, sys.board.graph)
  {
    SettledMeans(g0, sys.board.graph);
  }

  lemma LandsThere(sys: System, a: Action)
    requires Lands(sys, a)
    ensures a == Write(a.who, a.how) && a.who < |sys.workers|
    ensures sys.workers[a.who].Writing? && sys.workers[a.who].task < |sys.board.queue|
  {
  }

  lemma {:induction false} NoneStaleNoneReopens(g0: Graph, sys: System, actions: seq<Action>)
    requires Untouched(g0) && Inv(g0, sys) && NoneStale(sys, actions)
    ensures NoneReopens(sys, actions)
    decreases |actions|
  {
    hide Step, Inv, Stale, Landed, Lands, Latest, Untouched;
    if actions != [] {
      if ResolvedNow(sys.board.graph) {
        VerdictStep(g0, sys, actions[0]);
      }
      StepKeeps(g0, sys, actions[0]);
      NoneStaleNoneReopens(g0, Step(sys, actions[0]), actions[1..]);
    }
  }

  /** From two workers on, a late finding on the approved object reopens it. */
  lemma LateFindingReopens(first: System) returns (before: seq<Action>)
    requires Init(first) && |first.workers| >= 2
    ensures var mid := Run(first, before);
      |mid.workers| >= 2 && NoneDead(mid.board.queue) && Reopens(mid, Write(0, OnCopy))
  {
    hide Run, Inv, Handled, ResearchOvertaken, FindTransition;
    before := ResearchOvertaken(|first.board.queue|, true);
    var mid := Run(first, before);
    ResearchIsOvertaken(first, true);
    LateLanding(first, mid);
    LateFindingErasesVerdict(first, true);
  }

  /** The object is never stranded, in all runs from a start, if and only if
      there is at most one worker. */
  lemma StrandsExactlyWithTwo(first: System)
    requires Init(first)
    ensures (exists actions :: Stranded(Run(first, actions).board)) <==> |first.workers| >= 2
  {
    hide Run, Inv, Stranded, NoneStale, Reopens;
    if |first.workers| >= 2 {
      var before := LateFindingReopens(first);
      var actions := ReopeningStrands(first, before, Write(0, OnCopy), 1);
      assert Stranded(Run(first, before + actions).board);
    } else {
      forall actions
        ensures !Stranded(Run(first, actions).board)
      {
        Starts(first);
        SafeExactlyAlone(first);
        NoneStaleNoneReopens(first.board.graph, first, actions);
        NeverStranded(first, actions);
      }
    }
  }
}
