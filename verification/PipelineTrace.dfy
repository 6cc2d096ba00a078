/** Run ids through the pipeline: from the submission through every stage's
    task to the entries of the log. */
module PipelineTrace {
  import opened Wrappers
  import opened PipelineLog
  import opened Pipeline

  /** The run ids a run starts with, and those submitted on the way. */
  function Origins(queue: seq<Task>, actions: seq<Action>): set<Option<string>> {
    (set t | t in queue :: t.runId) + Submitted(actions)
  }

  function Submitted(actions: seq<Action>): set<Option<string>> {
    set a | a in actions && a.Submit? :: a.runId
  }

  /** What completing this task puts on the queue: a review after research; a
      renewed research, or nothing, after a review; for the same run. */
  predicate HandsOn(t: Task, next: Option<Task>) {
    if next.None? then t.kind.Review?
    else next.value.runId == t.runId && next.value.state.Pending? && next.value.kind != t.kind
  }

  predicate Carries(queue: seq<Task>, phase: Phase) {
    phase.Routing? ==> phase.task < |queue| && HandsOn(queue[phase.task], phase.next)
  }

  /** The entry was made for some task, by the agent of its stage, about the
      object's content. */
  ghost predicate MadeFor(queue: seq<Task>, subject: Object, entry: Entry) {
    && entry.hash == Some(ContentHash(subject))
    && exists t :: t in queue && t.runId == entry.runId
         && entry.agent == if t.kind.Research? then ResearcherAgent else ReviewerAgent
  }

  ghost predicate Traced(n: nat, queue: seq<Task>, g: Graph) {
    forall j :: n <= j < |g.subject.log| ==> MadeFor(queue, g.subject, g.subject.log[j])
  }

  ghost predicate CopyTraced(n: nat, queue: seq<Task>, phase: Phase) {
    match phase
    case Asking(_, copy) => Traced(n, queue, copy)
    case Writing(_, copy, _) => Traced(n, queue, copy)
    case _ => true
  }

  ghost predicate Tracked(n: nat, origins: set<Option<string>>, sys: System) {
    && Traced(n, sys.board.queue, sys.board.graph)
    && (forall t :: t in sys.board.queue ==> t.runId in origins)
    && forall w :: 0 <= w < |sys.workers| ==>
         Carries(sys.board.queue, sys.workers[w]) && CopyTraced(n, sys.board.queue, sys.workers[w])
  }

  /** Tasks keep their kind and run; new ones may come behind. */
  predicate Extends(queue: seq<Task>, next: seq<Task>) {
    && |queue| <= |next|
    && forall t :: 0 <= t < |queue| ==> next[t].kind == queue[t].kind && next[t].runId == queue[t].runId
  }

  lemma MadeForStays(queue: seq<Task>, next: seq<Task>, subject: Object, entry: Entry)
    requires MadeFor(queue, subject, entry) && Extends(queue, next)
    ensures MadeFor(next, subject, entry)
  {
    var t :| t in queue && t.runId == entry.runId
      && entry.agent == if t.kind.Research? then ResearcherAgent else ReviewerAgent;
    var i :| 0 <= i < |queue| && queue[i] == t;
    assert next[i] in next;
  }

  lemma TracedStays(n: nat, queue: seq<Task>, next: seq<Task>, g: Graph)
    requires Traced(n, queue, g) && Extends(queue, next)
    ensures Traced(n, next, g)
  {
    forall j | n <= j < |g.subject.log|
      ensures MadeFor(next, g.subject, g.subject.log[j])
    {
      MadeForStays(queue, next, g.subject, g.subject.log[j]);
    }
  }

  lemma QueueExtends(sys: System, a: Action)
    ensures Extends(sys.board.queue, Step(sys, a).board.queue)
  {
    hide NextPhase, Landed, Lands;
  }

  /** What the pipeline's own rule for the next stage says. */
  lemma RuleHandsOn(t: Task, to: Status, node: Option<NodeId>)
    ensures HandsOn(t, NextTask(t.kind, to, node, t.runId))
  {
  }

  lemma LandedTraced(n: nat, sys: System, a: Action)
    requires Lands(sys, a) && Traced(n, sys.board.queue, sys.workers[a.who].copy)
    requires BaseOf(sys, a.who, a.how).subject.content == sys.workers[a.who].copy.subject.content
    ensures Traced(n, sys.board.queue, Landed(sys, a))
  {
    var phase := sys.workers[a.who];
    var t := sys.board.queue[phase.task];
    var next, copy := Landed(sys, a), phase.copy;
    forall j | n <= j < |next.subject.log|
      ensures MadeFor(sys.board.queue, next.subject, next.subject.log[j])
    {
      if j < |copy.subject.log| {
        assert MadeFor(sys.board.queue, copy.subject, copy.subject.log[j]);
      } else {
        assert t in sys.board.queue;
      }
    }
  }

  /** The stepping worker: what it routes next, and the copy it holds. */
  lemma PhaseTracked(g0: Graph, origins: set<Option<string>>, sys: System, a: Action)
    requires Untouched(g0) && Inv(g0, sys) && Tracked(|g0.subject.log|, origins, sys) && Due(sys, a) && ByWorker(a)
    ensures Carries(sys.board.queue, NextPhase(sys, a))
    ensures CopyTraced(|g0.subject.log|, sys.board.queue, NextPhase(sys, a))
  {
    hide Traced, HandsOn, Story, Past, Latest, Handled, TaskOk, CopyOk;
    var phase := sys.workers[a.who];
    assert Carries(sys.board.queue, phase) && CopyTraced(|g0.subject.log|, sys.board.queue, phase);
    match a
    case Read(_, _) => RouteCarries(sys.board, phase.task);
    case Reread(_) => RouteCarries(sys.board, phase.task);
    case Write(_, _) =>
      var t := sys.board.queue[phase.task];
      RuleHandsOn(t, TargetOf(t.kind, phase.approved), Some(NodeOf(phase.copy.subject, t.kind)));
    case _ =>
  }

  lemma RouteCarries(b: Board, task: nat)
    requires task < |b.queue|
    ensures Carries(b.queue, RouteFrom(b, task))
  {
    hide HandsOn, Latest;
    var t := b.queue[task];
    if Latest(b.graph.subject, t.kind).Some? {
      var entry := Latest(b.graph.subject, t.kind).value;
      RuleHandsOn(t, entry.to, entry.node);
    }
  }

  /** What others rely on survives a longer queue. */
  lemma OthersTracked(n: nat, queue: seq<Task>, next: seq<Task>, phase: Phase)
    requires Carries(queue, phase) && CopyTraced(n, queue, phase) && Extends(queue, next)
    ensures Carries(next, phase) && CopyTraced(n, next, phase)
  {
    hide Traced;
    match phase
    case Asking(_, copy) => TracedStays(n, queue, next, copy);
    case Writing(_, copy, _) => TracedStays(n, queue, next, copy);
    case _ =>
  }

  lemma BoardTracked(g0: Graph, origins: set<Option<string>>, sys: System, a: Action)
    requires Untouched(g0) && Inv(g0, sys) && Tracked(|g0.subject.log|, origins, sys) && Due(sys, a)
    ensures Traced(|g0.subject.log|, NextBoard(sys, a).queue, NextBoard(sys, a).graph)
    ensures forall t :: t in NextBoard(sys, a).queue ==>
      t.runId in (if a.Submit? then origins + {a.runId} else origins)
  {
    hide Traced, Past, Latest, Handled, TaskOk;
    var n := |g0.subject.log|;
    QueueExtends(sys, a);
    if a.Write? && Lands(sys, a) {
      var phase := sys.workers[a.who];
      assert WorkerOk(g0, sys.board, phase, sys.clock) && CopyTraced(n, sys.board.queue, phase);
      LandedTraced(n, sys, a);
    }
    TracedStays(n, sys.board.queue, NextBoard(sys, a).queue, NextBoard(sys, a).graph);
    hide Story, Landed, Lands;
  }

  lemma TrackedStep(g0: Graph, origins: set<Option<string>>, sys: System, a: Action)
    requires Untouched(g0) && Inv(g0, sys) && Tracked(|g0.subject.log|, origins, sys)
    ensures Tracked(|g0.subject.log|, if a.Submit? then origins + {a.runId} else origins, Step(sys, a))
  {
    hide Traced, Carries, CopyTraced, Extends, Inv, NextBoard, NextPhase, Untouched;
    if Due(sys, a) {
      var queue, next := sys.board.queue, Step(sys, a).board.queue;
      QueueExtends(sys, a);
      BoardTracked(g0, origins, sys, a);
      forall w | 0 <= w < |sys.workers|
        ensures Carries(next, sys.workers[w]) && CopyTraced(|g0.subject.log|, next, sys.workers[w])
      {
        OthersTracked(|g0.subject.log|, queue, next, sys.workers[w]);
      }
      if ByWorker(a) {
        PhaseTracked(g0, origins, sys, a);
        OthersTracked(|g0.subject.log|, queue, next, NextPhase(sys, a));
      }
    }
  }

  lemma {:induction false} TrackedRun(g0: Graph, origins: set<Option<string>>, sys: System, actions: seq<Action>)
    requires Untouched(g0) && Inv(g0, sys) && Tracked(|g0.subject.log|, origins, sys)
    ensures Tracked(|g0.subject.log|, origins + Submitted(actions), Run(sys, actions))
    decreases |actions|
  {
    hide Tracked, Inv, Step, Untouched;
    if actions == [] {
      assert origins + Submitted([]) == origins;
    } else {
      var a, rest := actions[0], actions[1..];
      var more := if a.Submit? then origins + {a.runId} else origins;
      TrackedStep(g0, origins, sys, a);
      StepKeeps(g0, sys, a);
      TrackedRun(g0, more, Step(sys, a), rest);
      assert actions == [a] + rest;
      assert more + Submitted(rest) == origins + Submitted(actions);
    }
  }

  /** In every run: every task carries a run id that some submission brought;
      every entry written is its agent's, about this content, and names the run
      of a task of its stage; and the task a stage hands on is of the other
      kind, pending, and of the same run. */
  lemma RunIdsTravel(first: System, actions: seq<Action>, w: nat)
    requires Init(first)
    ensures var end := Run(first, actions);
      && (forall t :: t in end.board.queue ==> t.runId in Origins(first.board.queue, actions))
      && (forall j :: |first.board.graph.subject.log| <= j < |end.board.graph.subject.log| ==>
            MadeFor(end.board.queue, end.board.graph.subject, end.board.graph.subject.log[j]))
      && (Busy(end, w) && end.workers[w].Routing? ==>
            var next := Step(end, Route(w)).board.queue;
            var t, last := end.board.queue[end.workers[w].task], next[|next| - 1];
            && (t.kind.Research? ==> |next| == |end.board.queue| + 1)
            && (|next| > |end.board.queue| ==>
                  last.runId == t.runId && last.kind != t.kind && last.state.Pending?))
  {
    hide Run, Inv, MadeFor;
    var g0 := first.board.graph;
    Began(first);
    var origins := set t | t in first.board.queue :: t.runId;
    TrackedRun(g0, origins, first, actions);
    var end := Run(first, actions);
    if Busy(end, w) && end.workers[w].Routing? {
      assert Carries(end.board.queue, end.workers[w]);
    }
  }

  lemma Began(first: System)
    requires Init(first)
    ensures Inv(first.board.graph, first)
    ensures Tracked(|first.board.graph.subject.log|, set t | t in first.board.queue :: t.runId, first)
  {
    Reached(first, []);
    assert Run(first, []) == first;
    hide Story, Past, TaskOk, WorkerOk;
  }
}
