/** What the pipeline promises over whole runs, and exactly when. */
module PipelineRuns {
  import opened Wrappers
  import opened PipelineLog
  import opened Pipeline

  // ---------------------------------------------------------------------
  // In every run
  // ---------------------------------------------------------------------

  /** One entry per agent for this content, there exactly when the agent's
      node is; the status is the last entry's target; the verdict node says
      what the verdict entry says. Not even a stale landing breaks this. */
  lemma LogTellsTheGraph(first: System, actions: seq<Action>, kind: Kind)
    requires Init(first)
    ensures var g := Run(first, actions).board.graph;
      && OncePer(g.subject.log, AgentOf(kind), ContentHash(g.subject))
      && (Handled(g.subject, kind) <==> NodeOf(g.subject, kind) in g.nodes)
      && (g.subject.log == first.board.graph.subject.log
          || (g.subject.log != [] && g.subject.status == Some(g.subject.log[|g.subject.log| - 1].to)))
      && (Latest(g.subject, Review).Some? ==>
            NodeOf(g.subject, Review) in g.nodes
            && g.nodes[NodeOf(g.subject, Review)] == Verdict(Latest(g.subject, Review).value.to.Resolved?))
  {
    Reached(first, actions);
    var g0, g := first.board.graph, Run(first, actions).board.graph;
    StoryFind(g0, g, kind);
    StoryFind(g0, g, Review);
    StoryOnce(g0, g, kind);
    hide Run, HasAgentTransitioned, FindTransition;
  }

  lemma StoryOnce(g0: Graph, g: Graph, kind: Kind)
    requires Untouched(g0) && Story(g0, g)
    ensures OncePer(g.subject.log, AgentOf(kind), ContentHash(g.subject))
  {
    var hash := Some(ContentHash(g.subject));
    HasMeans(g0.subject.log, AgentOf(kind), hash);
    forall k | 0 <= k < |g0.subject.log|
      ensures !Matches(g.subject.log[k], AgentOf(kind), hash)
    {
      assert g.subject.log[k] == g0.subject.log[k];
    }
    hide HasAgentTransitioned, FindTransition, NodesTell;
  }

  /** A reviewer always finds the finding its task names; a worker that lost
      the race for its node finds the winner's entry exactly while the node
      is still there. */
  lemma NothingDangles(first: System, actions: seq<Action>)
    requires Init(first)
    ensures var end := Run(first, actions);
      && (forall t :: 0 <= t < |end.board.queue| && end.board.queue[t].kind.Review? ==>
            end.board.queue[t].finding.Some? && end.board.queue[t].finding.value in end.board.graph.nodes
            && end.board.graph.nodes[end.board.queue[t].finding.value] == Finding)
      && forall w :: 0 <= w < |end.workers| && end.workers[w].Recovering? ==>
           end.workers[w].task < |end.board.queue|
           && (RouteFrom(end.board, end.workers[w].task).Routing?
               <==> NodeOf(end.board.graph.subject, end.board.queue[end.workers[w].task].kind) in end.board.graph.nodes)
  {
    Reached(first, actions);
    var g0, end := first.board.graph, Run(first, actions);
    StoryFind(g0, end.board.graph, Research);
    StoryFind(g0, end.board.graph, Review);
    forall w | 0 <= w < |end.workers| && end.workers[w].Recovering?
      ensures end.workers[w].task < |end.board.queue|
    {
      assert WorkerOk(g0, end.board, end.workers[w], end.clock);
    }
    forall t | 0 <= t < |end.board.queue| && end.board.queue[t].kind.Review?
      ensures end.board.queue[t].finding == Some(NodeOf(end.board.graph.subject, Research))
      ensures Stage(g0, end.board.graph) >= 1
    {
      assert TaskOk(g0, end.board.graph, end.board.queue[t]);
    }
    hide Run, HasAgentTransitioned, FindTransition;
  }

  // ---------------------------------------------------------------------
  // When the log only grows
  // ---------------------------------------------------------------------

  /** A write lands although the stored version is no longer the one its step
      read: the head moved between the step's read and its commit. */
  predicate Stale(sys: System, a: Action) {
    Lands(sys, a) && sys.workers[a.who].copy != sys.board.graph
  }

  /** A landing that is not stale is the atomic evolve on the head. */
  lemma UnmovedIsAtomic(g0: Graph, sys: System, a: Action)
    requires Untouched(g0) && Inv(g0, sys) && Lands(sys, a) && !Stale(sys, a)
    ensures var b, phase := sys.board, sys.workers[a.who];
      var task := b.queue[phase.task];
      && NodeOf(b.graph.subject, task.kind) !in b.graph.nodes
      && Landed(sys, a)
           == Extended(b.graph, task.kind, b.graph.subject, phase.approved, task.runId, sys.clock)
  {
    hide Extended;
  }

  /** One step, from any reachable state: the log is kept and appended to
      unless a write lands stale. */
  lemma StepAppendsExactly(g0: Graph, sys: System, a: Action)
    requires Untouched(g0) && Inv(g0, sys)
    ensures sys.board.graph.subject.log <= Step(sys, a).board.graph.subject.log <==> !Stale(sys, a)
  {
    if Lands(sys, a) {
      LandingTells(g0, sys, a);
      var copy, graph := sys.workers[a.who].copy, sys.board.graph;
      if copy.subject.log == graph.subject.log {
        StoryDetermined(g0, copy, graph);
      }
    }
    hide Landed, Lands, Story, NodesTell, CopyOk;
  }

  predicate OnlyAppends(sys: System, actions: seq<Action>)
    decreases |actions|
  {
    actions == [] || (
      && sys.board.graph.subject.log <= Step(sys, actions[0]).board.graph.subject.log
      && OnlyAppends(Step(sys, actions[0]), actions[1..]))
  }

  predicate NoneStale(sys: System, actions: seq<Action>)
    decreases |actions|
  {
    actions == [] || (!Stale(sys, actions[0]) && NoneStale(Step(sys, actions[0]), actions[1..]))
  }

  lemma {:induction false} RunAppendsExactly(g0: Graph, sys: System, actions: seq<Action>)
    requires Untouched(g0) && Inv(g0, sys)
    ensures OnlyAppends(sys, actions) <==> NoneStale(sys, actions)
    ensures OnlyAppends(sys, actions) ==> sys.board.graph.subject.log <= Run(sys, actions).board.graph.subject.log
    decreases |actions|
  {
    if actions != [] {
      StepAppendsExactly(g0, sys, actions[0]);
      StepKeeps(g0, sys, actions[0]);
      RunAppendsExactly(g0, Step(sys, actions[0]), actions[1..]);
    }
    hide Step, Stale, Inv;
  }

  /** From every reachable state on, in every interleaving with crashes and
      redelivery: the log only grows by appending if and only if no write
      lands after the head moved away from what its step read. */
  lemma LogOnlyAppendsExactly(first: System, before: seq<Action>, after: seq<Action>)
    requires Init(first)
    ensures OnlyAppends(Run(first, before), after) <==> NoneStale(Run(first, before), after)
    ensures NoneStale(Run(first, before), after) ==>
      Run(first, before).board.graph.subject.log <= Run(Run(first, before), after).board.graph.subject.log
  {
    Reached(first, before);
    RunAppendsExactly(first.board.graph, Run(first, before), after);
  }

  // ---------------------------------------------------------------------
  // When the first verdict is final
  // ---------------------------------------------------------------------

  /** A verdict that is not on the log, and is not new, never comes back. */
  lemma GoneStep(g0: Graph, sys: System, verdict: Entry, a: Action)
    requires Untouched(g0) && Inv(g0, sys) && verdict.at < sys.clock
    requires Latest(sys.board.graph.subject, Review) != Some(verdict)
    ensures Latest(Step(sys, a).board.graph.subject, Review) != Some(verdict)
  {
    if Lands(sys, a) {
      LandingTells(g0, sys, a);
      StoryFind(g0, Landed(sys, a), Review);
    }
    hide Landed, Lands, Story, FindTransition, HasAgentTransitioned, CopyOk;
  }

  lemma {:induction false} GoneForGood(g0: Graph, sys: System, verdict: Entry, actions: seq<Action>)
    requires Untouched(g0) && Inv(g0, sys) && verdict.at < sys.clock
    requires Latest(sys.board.graph.subject, Review) != Some(verdict)
    ensures Latest(Run(sys, actions).board.graph.subject, Review) != Some(verdict)
    decreases |actions|
  {
    if actions != [] {
      GoneStep(g0, sys, verdict, actions[0]);
      StepKeeps(g0, sys, actions[0]);
      GoneForGood(g0, Step(sys, actions[0]), verdict, actions[1..]);
    }
    hide Step, Inv, Latest;
  }

  /** With a verdict on the log, a step either leaves the graph alone or is a
      stale landing, and then the verdict is not the same any more. */
  lemma VerdictStep(g0: Graph, sys: System, a: Action)
    requires Untouched(g0) && Inv(g0, sys) && Latest(sys.board.graph.subject, Review).Some?
    ensures Latest(sys.board.graph.subject, Review).value.at < sys.clock
    ensures Stale(sys, a) <==> Lands(sys, a)
    ensures !Stale(sys, a) ==> Step(sys, a).board.graph == sys.board.graph
    ensures Stale(sys, a) ==>
      Latest(Step(sys, a).board.graph.subject, Review) != Latest(sys.board.graph.subject, Review)
  {
    StoryFind(g0, sys.board.graph, Review);
    if Lands(sys, a) {
      LandingTells(g0, sys, a);
      StoryFind(g0, Landed(sys, a), Review);
    }
    hide Landed, Lands, Story, FindTransition, HasAgentTransitioned;
  }

  lemma {:induction false} VerdictRun(g0: Graph, sys: System, actions: seq<Action>)
    requires Untouched(g0) && Inv(g0, sys) && Latest(sys.board.graph.subject, Review).Some?
    ensures Latest(Run(sys, actions).board.graph.subject, Review) == Latest(sys.board.graph.subject, Review)
       <==> NoneStale(sys, actions)
    ensures NoneStale(sys, actions) ==> Run(sys, actions).board.graph == sys.board.graph
    decreases |actions|
  {
    if actions != [] {
      VerdictStep(g0, sys, actions[0]);
      StepKeeps(g0, sys, actions[0]);
      var next := Step(sys, actions[0]);
      if Stale(sys, actions[0]) {
        assert next.clock >= sys.clock;
        GoneForGood(g0, next, Latest(sys.board.graph.subject, Review).value, actions[1..]);
      } else {
        VerdictRun(g0, next, actions[1..]);
      }
    }
    hide Step, Inv, Latest, Stale;
  }

  /** The first verdict is the object's verdict at the end, and nothing else
      about the object has changed either, if and only if no write landed
      stale since. A rejected object is then never resolved. */
  lemma FirstVerdictFinalExactly(first: System, before: seq<Action>, after: seq<Action>)
    requires Init(first) && Latest(Run(first, before).board.graph.subject, Review).Some?
    ensures var mid := Run(first, before);
      var verdict, end := Latest(mid.board.graph.subject, Review), Run(mid, after).board.graph;
      && (Latest(end.subject, Review) == verdict <==> NoneStale(mid, after))
      && (NoneStale(mid, after) ==> end == mid.board.graph && end.subject.status == Some(verdict.value.to))
  {
    Reached(first, before);
    var g0, mid := first.board.graph, Run(first, before);
    VerdictRun(g0, mid, after);
    StoryFind(g0, mid.board.graph, Review);
    hide Run, FindTransition, HasAgentTransitioned, NoneStale;
  }

  // ---------------------------------------------------------------------
  // When the object is never stranded
  // ---------------------------------------------------------------------

  predicate Live(t: Task) {
    !t.state.Done?
  }

  predicate ResolvedNow(g: Graph) {
    Latest(g.subject, Review).Some? && Latest(g.subject, Review).value.to.Resolved?
  }

  predicate Stranded(b: Board) {
    !ResolvedNow(b.graph) && forall t :: 0 <= t < |b.queue| ==> !Live(b.queue[t])
  }

  /** A write lands on a resolved object and leaves it unresolved. */
  predicate Reopens(sys: System, a: Action) {
    Lands(sys, a) && ResolvedNow(sys.board.graph) && !ResolvedNow(Landed(sys, a))
  }

  predicate NoneReopens(sys: System, actions: seq<Action>)
    decreases |actions|
  {
    actions == [] || (!Reopens(sys, actions[0]) && NoneReopens(Step(sys, actions[0]), actions[1..]))
  }

  /** A worker ready to complete its task has put a later one on the queue. */
  ghost predicate HandedOn(g0: Graph, b: Board, phase: Phase) {
    match phase
    case Routing(_, None) => Settled(g0, b.graph)
    case Finished(task) => task < |b.queue| - 1 || Settled(g0, b.graph)
    case _ => true
  }

  /** The newest task is live, or the object is resolved. */
  ghost predicate Moving(g0: Graph, sys: System) {
    && sys.board.queue != []
    && (Live(sys.board.queue[|sys.board.queue| - 1]) || Settled(g0, sys.board.graph))
    && forall w :: 0 <= w < |sys.workers| ==> HandedOn(g0, sys.board, sys.workers[w])
  }

  lemma SettledMeans(g0: Graph, g: Graph)
    requires Untouched(g0) && Story(g0, g)
    ensures Settled(g0, g) <==> ResolvedNow(g)
  {
    StoryFind(g0, g, Review);
    hide Story, HasAgentTransitioned, FindTransition;
  }

  lemma MovingPhase(g0: Graph, sys: System, a: Action)
    requires Untouched(g0) && Inv(g0, sys) && Moving(g0, sys) && !Reopens(sys, a) && Due(sys, a) && ByWorker(a)
    ensures HandedOn(g0, NextBoard(sys, a), NextPhase(sys, a))
  {
    SettledMeans(g0, sys.board.graph);
    assert HandedOn(g0, sys.board, sys.workers[a.who]);
    if a.Write? && Lands(sys, a) {
      LandingTells(g0, sys, a);
    } else if a.Read? || a.Reread? {
      StoryFind(g0, sys.board.graph, sys.board.queue[sys.workers[a.who].task].kind);
    }
    hide Story, CopyOk, Landed, Lands, ResolvedNow, HasAgentTransitioned, FindTransition;
  }

  /** A resolved object stays resolved where nothing reopens it. */
  lemma SettledStays(g0: Graph, sys: System, a: Action)
    requires Untouched(g0) && Inv(g0, sys) && !Reopens(sys, a) && Settled(g0, sys.board.graph)
    ensures Settled(g0, Step(sys, a).board.graph)
  {
    SettledMeans(g0, sys.board.graph);
    if Lands(sys, a) {
      LandingTells(g0, sys, a);
      SettledMeans(g0, Landed(sys, a));
    }
    hide Story, CopyOk, Landed, Lands, ResolvedNow, Settled, NextPhase;
  }

  lemma MovingStep(g0: Graph, sys: System, a: Action)
    requires Untouched(g0) && Inv(g0, sys) && Moving(g0, sys) && !Reopens(sys, a)
    ensures Moving(g0, Step(sys, a))
  {
    if Settled(g0, sys.board.graph) {
      SettledStays(g0, sys, a);
    }
    if Due(sys, a) {
      if ByWorker(a) {
        MovingPhase(g0, sys, a);
        assert WorkerOk(g0, sys.board, sys.workers[a.who], sys.clock);
      }
    }
    hide Story, CopyOk, Landed, Reopens, NextPhase;
  }

  lemma {:induction false} MovingRun(g0: Graph, sys: System, actions: seq<Action>)
    requires Untouched(g0) && Inv(g0, sys) && Moving(g0, sys) && NoneReopens(sys, actions)
    ensures Moving(g0, Run(sys, actions))
    decreases |actions|
  {
    if actions != [] {
      MovingStep(g0, sys, actions[0]);
      StepKeeps(g0, sys, actions[0]);
      MovingRun(g0, Step(sys, actions[0]), actions[1..]);
    }
    hide Step, Moving, Inv, Reopens;
  }

  /** Wherever crashes fall, and even if writes land stale: while none reopens
      a resolved object, the object is resolved or some task for it is pending,
      in progress or dead-lettered. */
  lemma NeverStranded(first: System, actions: seq<Action>)
    requires Init(first) && NoneReopens(first, actions)
    ensures !Stranded(Run(first, actions).board)
  {
    var g0 := first.board.graph;
    assert Inv(g0, first) && Moving(g0, first);
    MovingRun(g0, first, actions);
    Reached(first, actions);
    SettledMeans(g0, Run(first, actions).board.graph);
    var queue := Run(first, actions).board.queue;
    assert Live(queue[|queue| - 1]) || Settled(g0, Run(first, actions).board.graph);
    hide Run, NoneReopens, Story, ResolvedNow;
  }

  /** The other half, at the point where it matters: with the object resolved
      and every task done, a worker that writes and then crashes strands the
      object exactly when its write lands and does not resolve it again. */
  lemma LateWriteStrandsExactly(first: System, actions: seq<Action>, w: nat, how: How)
    requires Init(first)
    requires var sys := Run(first, actions);
      && w < |sys.workers| && sys.workers[w].Writing? && ResolvedNow(sys.board.graph)
      && forall t :: 0 <= t < |sys.board.queue| ==> sys.board.queue[t].state.Done?
    ensures var sys := Run(first, actions);
      && sys.workers[w].task < |sys.board.queue|
      && (Stranded(Run(sys, [Write(w, how), Quit(w)]).board)
          <==> Lands(sys, Write(w, how))
               && !TargetOf(sys.board.queue[sys.workers[w].task].kind, sys.workers[w].approved).Resolved?)
  {
    Reached(first, actions);
    var g0, sys := first.board.graph, Run(first, actions);
    var a := Write(w, how);
    assert WorkerOk(g0, sys.board, sys.workers[w], sys.clock);
    var next := Step(sys, a);
    var end := Step(next, Quit(w));
    RunOne(sys, a);
    RunOne(next, Quit(w));
    RunAppend(sys, [a], [Quit(w)]);
    assert [a] + [Quit(w)] == [a, Quit(w)];
    if Lands(sys, a) {
      LandingTells(g0, sys, a);
      StoryFind(g0, Landed(sys, a), Review);
    }
    assert end.board.queue == sys.board.queue;
    hide Run, Story, CopyOk, Landed, Lands, HasAgentTransitioned, FindTransition;
  }
}
