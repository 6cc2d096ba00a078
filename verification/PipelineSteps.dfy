/** The two step functions as code, run by one worker amid all the others. */
module PipelineSteps {
  import opened Wrappers
  import opened PipelineLog
  import opened Pipeline

  datatype EvolveResult = Evolved | Duplicate | OtherError

  /** What the processes share, and each worker's place in its step. */
  class Shared {
    var graph: Graph
    var queue: seq<Task>
    var workers: seq<Phase>
    var clock: nat

    function Sys(): System
      reads this
    {
      System(Board(graph, queue), workers, clock)
    }

    /** Whatever the other workers do while this one awaits. */
    method Others(actions: seq<Action>)
      modifies this
      ensures Sys() == Run(old(Sys()), actions)
    {
      var i := 0;
      while i < |actions|
        invariant i <= |actions| && Run(Sys(), actions[i..]) == Run(old(Sys()), actions)
      {
        var next := Step(Sys(), actions[i]);
        assert actions[i..][1..] == actions[i + 1..];
        graph, queue, workers, clock := next.board.graph, next.board.queue, next.workers, next.clock;
        i := i + 1;
      }
    }

    /** The worker moves on; its step took an instant. */
    method Goto(w: nat, phase: Phase)
      requires w < |workers|
      modifies this`workers, this`clock
      ensures workers == old(workers)[w := phase] && clock == old(clock) + 1
    {
      workers := workers[w := phase];
      clock := clock + 1;
    }

    /** Node, relation and log patch in one evolution. Attempt 0 is built on,
        and checked for duplicates against, the caller's copy; a retry against
        what is stored. It fails whole if the node's id is taken there, or for
        reasons of its own. */
    method Evolve(id: NodeId, node: Node, patch: Patch, copy: Graph, how: How) returns (result: EvolveResult)
      modifies this`graph
      ensures result == if how.Refused? then OtherError
                        else if id in Base(old(graph), copy, how).nodes then Duplicate else Evolved
      ensures graph == if result.Evolved?
                       then (var base := Base(old(graph), copy, how);
                             Graph(Patched(base.subject, patch), base.nodes[id := node]))
                       else old(graph)
    {
      if how.Refused? {
        return OtherError;
      }
      var base := if how.OnCopy? then copy else graph;
      if id in base.nodes {
        return Duplicate;
      }
      graph := Graph(Patched(base.subject, patch), base.nodes[id := node]);
      return Evolved;
    }

    method Enqueue(task: Task)
      modifies this`queue
      ensures queue == old(queue) + [task]
    {
      queue := queue + [task];
    }
  }

  function Base(stored: Graph, copy: Graph, how: How): Graph {
    if how.OnCopy? then copy else stored
  }

  predicate NotBy(w: nat, actions: seq<Action>) {
    forall a :: a in actions && ByWorker(a) ==> a.who != w
  }

  /** Others leave a worker where it is, with the same task and object. */
  lemma {:induction false} OthersKeep(sys: System, actions: seq<Action>, w: nat, task: nat)
    requires NotBy(w, actions) && w < |sys.workers| && task < |sys.board.queue|
    ensures var end := Run(sys, actions);
      && |end.workers| == |sys.workers| && end.workers[w] == sys.workers[w]
      && task < |end.board.queue|
      && end.board.queue[task].(state := sys.board.queue[task].state) == sys.board.queue[task]
    decreases |actions|
  {
    if actions != [] {
      OneKeeps(sys, actions[0], w, task);
      assert forall a :: a in actions[1..] ==> a in actions;
      OthersKeep(Step(sys, actions[0]), actions[1..], w, task);
      hide Step;
    }
  }

  lemma OneKeeps(sys: System, a: Action, w: nat, task: nat)
    requires (ByWorker(a) ==> a.who != w) && w < |sys.workers| && task < |sys.board.queue|
    ensures var end := Step(sys, a);
      && |end.workers| == |sys.workers| && end.workers[w] == sys.workers[w]
      && task < |end.board.queue|
      && end.board.queue[task].(state := sys.board.queue[task].state) == sys.board.queue[task]
  {
    hide NextPhase;
  }

  /** A stretch of the others, then one step of this worker. */
  lemma ThenStep(sys: System, others: seq<Action>, a: Action)
    ensures Run(sys, others + [a]) == Step(Run(sys, others), a)
  {
    RunAppend(sys, others, [a]);
    RunOne(Run(sys, others), a);
  }

  // ---------------------------------------------------------------------
  // The parts both steps share
  // ---------------------------------------------------------------------

  ghost predicate At(shared: Shared, w: nat, phase: Phase)
    reads shared
  {
    !phase.Resting? && w < |shared.workers| && shared.workers[w] == phase && phase.task < |shared.queue|
  }

  /** Reload the session, then look the agent's latest transition up. */
  method Recover(shared: Shared, w: nat, task: nat, theirs: seq<Action>) returns (won: bool, next: Option<Task>)
    requires At(shared, w, Recovering(task)) && NotBy(w, theirs)
    modifies shared
    ensures shared.Sys() == Run(old(shared.Sys()), theirs + [Reread(w)])
    ensures At(shared, w, if won then Routing(task, next) else Failed(task))
  {
    OthersKeep(shared.Sys(), theirs, w, task);
    ThenStep(shared.Sys(), theirs, Reread(w));
    shared.Others(theirs);
    var kind, runId := shared.queue[task].kind, shared.queue[task].runId;
    var winner := FindTransition(shared.graph.subject.log, AgentOf(kind), Some(ContentHash(shared.graph.subject)));
    if winner.None? {
      shared.Goto(w, Failed(task));
      return false, None;
    }
    next := NextTask(kind, winner.value.to, winner.value.node, runId);
    shared.Goto(w, Routing(task, next));
    return true, next;
  }

  /** Add the node and the transition, unless somebody else has. */
  method WriteNode(shared: Shared, w: nat, task: nat, copy: Graph, approved: bool, how: How, theirs: seq<Action>)
      returns (result: EvolveResult, next: Option<Task>)
    requires At(shared, w, Writing(task, copy, approved)) && NotBy(w, theirs)
    modifies shared
    ensures shared.Sys() == Run(old(shared.Sys()), theirs + [Write(w, how)])
    ensures At(shared, w, match result
                          case Evolved => Routing(task, next)
                          case Duplicate => Recovering(task)
                          case OtherError => Failed(task))
  {
    OthersKeep(shared.Sys(), theirs, w, task);
    ThenStep(shared.Sys(), theirs, Write(w, how));
    shared.Others(theirs);
    var kind, runId := shared.queue[task].kind, shared.queue[task].runId;
    var id := NodeOf(copy.subject, kind);
    var entry := EntryFor(copy.subject, kind, approved, runId, shared.clock);
    next := NextTask(kind, entry.to, Some(id), runId);
    result := shared.Evolve(id, NodeFor(kind, approved), AppendTransition(copy.subject.log, entry), copy, how);
    match result {
      case Evolved => shared.Goto(w, Routing(task, next));
      case Duplicate => shared.Goto(w, Recovering(task));
      case OtherError => shared.Goto(w, Failed(task));
    }
  }

  /** Enqueue the next stage, if there is one; the step is then done. */
  method HandOn(shared: Shared, w: nat, task: nat, next: Option<Task>, theirs: seq<Action>)
    requires At(shared, w, Routing(task, next)) && NotBy(w, theirs)
    modifies shared
    ensures shared.Sys() == Run(old(shared.Sys()), theirs + [Route(w)])
    ensures At(shared, w, Finished(task))
  {
    OthersKeep(shared.Sys(), theirs, w, task);
    ThenStep(shared.Sys(), theirs, Route(w));
    shared.Others(theirs);
    if next.Some? {
      shared.Enqueue(next.value);
    }
    shared.Goto(w, Finished(task));
  }

  /** Refresh the session and run the guard: either the agent has handled this
      content, and its recorded outcome is routed again, or the log just read
      is kept for the entry to come. */
  method Guard(shared: Shared, w: nat, task: nat, found: bool, theirs: seq<Action>) returns (phase: Phase)
    requires At(shared, w, Claimed(task)) && NotBy(w, theirs)
    modifies shared
    ensures shared.Sys() == Run(old(shared.Sys()), theirs + [Read(w, found)])
    ensures At(shared, w, phase) && phase.task == task
    ensures phase.Failed? || (found && (phase.Routing? || phase.Asking?))
  {
    OthersKeep(shared.Sys(), theirs, w, task);
    ThenStep(shared.Sys(), theirs, Read(w, found));
    shared.Others(theirs);
    if !found {
      phase := Failed(task);
    } else {
      var kind, runId := shared.queue[task].kind, shared.queue[task].runId;
      var hash, log := ContentHash(shared.graph.subject), shared.graph.subject.log;
      if HasAgentTransitioned(log, AgentOf(kind), Some(hash)) {
        GuardAgreesWithLookup(log, AgentOf(kind), Some(hash));
        var prior := FindTransition(log, AgentOf(kind), Some(hash)).value;
        phase := Routing(task, NextTask(kind, prior.to, prior.node, runId));
      } else {
        phase := Asking(task, shared.graph);
      }
    }
    shared.Goto(w, phase);
  }

  /** The LLM's answer: none when the call raises. */
  method Ask(shared: Shared, w: nat, task: nat, copy: Graph, llm: Option<bool>, theirs: seq<Action>)
    requires At(shared, w, Asking(task, copy)) && NotBy(w, theirs)
    modifies shared
    ensures shared.Sys() == Run(old(shared.Sys()), theirs + [Answer(w, llm)])
    ensures At(shared, w, if llm.Some? then Writing(task, copy, llm.value) else Failed(task))
  {
    OthersKeep(shared.Sys(), theirs, w, task);
    ThenStep(shared.Sys(), theirs, Answer(w, llm));
    shared.Others(theirs);
    shared.Goto(w, if llm.Some? then Writing(task, copy, llm.value) else Failed(task));
  }

  // ---------------------------------------------------------------------
  // The whole step
  // ---------------------------------------------------------------------

  /** What comes from outside: whether the refresh shows the object, what the
      LLM answers, how the evolve ends, and what the others do at each await. */
  datatype World = World(found: bool, llm: Option<bool>, how: How, others: nat -> seq<Action>)

  /** The k-th thing a step may have to do, and the phase that calls for it. */
  function Own(w: nat, world: World, k: nat): Action {
    match k
    case 0 => Read(w, world.found)
    case 1 => Answer(w, world.llm)
    case 2 => Write(w, world.how)
    case 3 => Reread(w)
    case _ => Route(w)
  }

  predicate Calls(phase: Phase, k: nat) {
    match phase
    case Claimed(_) => k == 0
    case Asking(_, _) => k == 1
    case Writing(_, _, _) => k == 2
    case Recovering(_) => k == 3
    case Routing(_, _) => k == 4
    case _ => false
  }

  /** The others, then worker w. */
  function Stretch(w: nat, world: World, k: nat): seq<Action> {
    world.others(k) + [Own(w, world, k)]
  }

  /** The machine's path from here through the k-th thing and those after it:
      at each phase the one action it calls for. */
  function Path(sys: System, w: nat, world: World, k: nat): seq<Action>
    requires w < |sys.workers|
    decreases 5 - k
  {
    if k >= 5 then []
    else if !Calls(sys.workers[w], k) then Path(sys, w, world, k + 1)
    else
      var next := Run(sys, Stretch(w, world, k));
      Stretch(w, world, k) + if w < |next.workers| then Path(next, w, world, k + 1) else []
  }

  lemma OnPath(sys: System, w: nat, world: World, k: nat)
    requires w < |sys.workers| && k < 5
    ensures !Calls(sys.workers[w], k) ==> Path(sys, w, world, k) == Path(sys, w, world, k + 1)
    ensures var next := Run(sys, Stretch(w, world, k));
      Calls(sys.workers[w], k) && w < |next.workers| ==>
        Run(sys, Path(sys, w, world, k)) == Run(next, Path(next, w, world, k + 1))
  {
    var next := Run(sys, Stretch(w, world, k));
    if Calls(sys.workers[w], k) && w < |next.workers| {
      RunAppend(sys, Stretch(w, world, k), Path(next, w, world, k + 1));
    }
    hide Run;
  }

  lemma {:induction false} OffPath(sys: System, w: nat, world: World, k: nat)
    requires w < |sys.workers| && (sys.workers[w].Finished? || sys.workers[w].Failed?)
    ensures Run(sys, Path(sys, w, world, k)) == sys
    decreases 5 - k
  {
    if k < 5 {
      OffPath(sys, w, world, k + 1);
    }
  }

  /** One whole step, whatever the others do at each await. It is the machine's
      path for this worker, and reports success exactly when it ran to its
      end. */
  method Resolve(shared: Shared, w: nat, task: nat, world: World) returns (resolved: bool)
    requires At(shared, w, Claimed(task)) && forall k :: NotBy(w, world.others(k))
    modifies shared
    ensures shared.Sys() == Run(old(shared.Sys()), Path(old(shared.Sys()), w, world, 0))
    ensures At(shared, w, if resolved then Finished(task) else Failed(task))
  {
    hide Step, Run, NotBy, Path;
    OnPath(shared.Sys(), w, world, 0);
    var phase := Guard(shared, w, task, world.found, world.others(0));
    if phase.Failed? {
      OffPath(shared.Sys(), w, world, 1);
      return false;
    }
    OnPath(shared.Sys(), w, world, 1);
    var next: Option<Task>;
    if phase.Routing? {
      next := phase.next;
      OnPath(shared.Sys(), w, world, 2);
      OnPath(shared.Sys(), w, world, 3);
    } else {
      Ask(shared, w, task, phase.copy, world.llm, world.others(1));
      if world.llm.None? {
        OffPath(shared.Sys(), w, world, 2);
        return false;
      }
      OnPath(shared.Sys(), w, world, 2);
      var result;
      result, next := WriteNode(shared, w, task, phase.copy, world.llm.value, world.how, world.others(2));
      OnPath(shared.Sys(), w, world, 3);
      if result.OtherError? {
        OffPath(shared.Sys(), w, world, 3);
        return false;
      }
      if result.Duplicate? {
        var won;
        won, next := Recover(shared, w, task, world.others(3));
        if !won {
          OffPath(shared.Sys(), w, world, 4);
          return false;
        }
      }
    }
    OnPath(shared.Sys(), w, world, 4);
    HandOn(shared, w, task, next, world.others(4));
    OffPath(shared.Sys(), w, world, 5);
    return true;
  }
}
