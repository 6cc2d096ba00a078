/** Two workers and one redelivered task are enough for a stale landing: runs
    from the start that erase a verdict, reverse one, and strand the object. */
module PipelineLateWrites {
  import opened Wrappers
  import opened PipelineLog
  import opened Pipeline
  import opened PipelineRuns

  /** A step up to the LLM's answer. */
  function Drafting(w: nat, task: nat, approved: bool): seq<Action> {
    [Claim(w, task), Read(w, true), Answer(w, Some(approved))]
  }

  /** The rest of it: commit, hand on, complete. */
  function Publishing(w: nat): seq<Action> {
    [Write(w, OnHead), Route(w), Report(w, false)]
  }

  lemma RunThree(sys: System, a: Action, b: Action, c: Action)
    ensures Run(sys, [a, b, c]) == Step(Step(Step(sys, a), b), c)
  {
    hide Step;
    var rest := [a, b, c][1..];
    assert rest == [b, c] && rest[1..] == [c];
    RunOne(Step(Step(sys, a), b), c);
    assert Run(sys, [a, b, c]) == Run(Step(sys, a), rest) == Run(Step(Step(sys, a), b), rest[1..]);
  }

  predicate CanDraft(sys: System, w: nat, task: nat) {
    && w < |sys.workers| && sys.workers[w].Resting?
    && task < |sys.board.queue| && sys.board.queue[task].state.Pending?
    && !Handled(sys.board.graph.subject, sys.board.queue[task].kind)
  }

  lemma Drafted(sys: System, w: nat, task: nat, approved: bool)
    requires CanDraft(sys, w, task)
    ensures Run(sys, Drafting(w, task, approved))
         == System(Mark(sys.board, task, InProgress), sys.workers[w := Writing(task, sys.board.graph, approved)],
                   sys.clock + 3)
  {
    RunThree(sys, Claim(w, task), Read(w, true), Answer(w, Some(approved)));
    hide Run, HasAgentTransitioned, FindTransition;
  }

  predicate CanPublish(sys: System, w: nat) {
    && w < |sys.workers| && sys.workers[w].Writing? && sys.workers[w].task < |sys.board.queue|
    && sys.workers[w].copy == sys.board.graph
    && NodeOf(sys.board.graph.subject, sys.board.queue[sys.workers[w].task].kind) !in sys.board.graph.nodes
  }

  /** The next stage's task, if any, at the end of the queue. */
  function Queued(queue: seq<Task>, next: Option<Task>): seq<Task> {
    if next.Some? then queue + [next.value] else queue
  }

  lemma Wrote(sys: System, w: nat)
    requires CanPublish(sys, w)
    ensures var phase := sys.workers[w];
      var t := sys.board.queue[phase.task];
      var node := Some(NodeOf(sys.board.graph.subject, t.kind));
      var next := NextTask(t.kind, TargetOf(t.kind, phase.approved), node, t.runId);
      Step(sys, Write(w, OnHead))
        == System(Board(Extended(sys.board.graph, t.kind, sys.board.graph.subject, phase.approved, t.runId, sys.clock),
                        sys.board.queue),
                  sys.workers[w := Routing(phase.task, next)], sys.clock + 1)
  {
    hide Extended, NextTask;
  }

  lemma Finishing(sys: System, w: nat)
    requires w < |sys.workers| && sys.workers[w].Routing? && sys.workers[w].task < |sys.board.queue|
    ensures var phase := sys.workers[w];
      Step(Step(sys, Route(w)), Report(w, false))
        == System(Board(sys.board.graph,
                        Queued(sys.board.queue, phase.next)[phase.task := sys.board.queue[phase.task].(state := Done)]),
                  sys.workers[w := Resting], sys.clock + 2)
  {
  }

  lemma Published(sys: System, w: nat)
    requires CanPublish(sys, w)
    ensures var phase := sys.workers[w];
      var t := sys.board.queue[phase.task];
      var graph := Extended(sys.board.graph, t.kind, sys.board.graph.subject, phase.approved, t.runId, sys.clock);
      var next := NextTask(t.kind, TargetOf(t.kind, phase.approved), Some(NodeOf(graph.subject, t.kind)), t.runId);
      Run(sys, Publishing(w))
        == System(Board(graph, Queued(sys.board.queue, next)[phase.task := t.(state := Done)]),
                  sys.workers[w := Resting], sys.clock + 3)
  {
    RunThree(sys, Write(w, OnHead), Route(w), Report(w, false));
    Wrote(sys, w);
    Finishing(Step(sys, Write(w, OnHead)), w);
    hide Run, Step, NextTask, Queued;
  }

  /** Worker w researches or reviews the task all by itself, from claim to
      completion; an approval is what the answer says. */
  function Turn(w: nat, task: nat, approved: bool): seq<Action> {
    Drafting(w, task, approved) + Publishing(w)
  }

  /** What a whole turn makes of a board whose graph tells a story. */
  lemma TurnTaken(g0: Graph, sys: System, w: nat, task: nat, approved: bool)
    requires Untouched(g0) && Inv(g0, sys) && CanDraft(sys, w, task)
    ensures var t := sys.board.queue[task];
      var graph := Extended(sys.board.graph, t.kind, sys.board.graph.subject, approved, t.runId, sys.clock + 3);
      var next := NextTask(t.kind, TargetOf(t.kind, approved), Some(NodeOf(graph.subject, t.kind)), t.runId);
      && Run(sys, Turn(w, task, approved))
           == System(Board(graph, Queued(sys.board.queue, next)[task := t.(state := Done)]), sys.workers, sys.clock + 6)
      && Stage(g0, graph) == Stage(g0, sys.board.graph) + 1
      && graph.subject.log[|graph.subject.log| - 1].to == TargetOf(t.kind, approved)
  {
    Drafted(sys, w, task, approved);
    var t := sys.board.queue[task];
    var mid := Run(sys, Drafting(w, task, approved));
    ReadyToPublish(g0, sys, task);
    Published(mid, w);
    RunAppend(sys, Drafting(w, task, approved), Publishing(w));
    QueueAfter(sys.board.queue, task,
               NextTask(t.kind, TargetOf(t.kind, approved), Some(NodeOf(sys.board.graph.subject, t.kind)), t.runId));
    assert mid.workers[w := Resting] == sys.workers;
    hide Run, Handled, Inv, NextTask, Queued;
  }

  lemma ReadyToPublish(g0: Graph, sys: System, task: nat)
    requires Untouched(g0) && Inv(g0, sys) && task < |sys.board.queue|
    requires !Handled(sys.board.graph.subject, sys.board.queue[task].kind)
    ensures NodeOf(sys.board.graph.subject, sys.board.queue[task].kind) !in sys.board.graph.nodes
  {
    StoryFind(g0, sys.board.graph, sys.board.queue[task].kind);
    hide HasAgentTransitioned, FindTransition, Past;
  }

  lemma QueueAfter(queue: seq<Task>, task: nat, next: Option<Task>)
    requires task < |queue|
    ensures var held := queue[task := queue[task].(state := InProgress)];
      Queued(held, next)[task := held[task].(state := Done)]
        == Queued(queue, next)[task := queue[task].(state := Done)]
  {
  }

  // ---------------------------------------------------------------------
  // The failing runs
  // ---------------------------------------------------------------------

  /** A draft whose task then goes back to the queue. */
  function Delivery(w: nat, task: nat, approved: bool): seq<Action> {
    Drafting(w, task, approved) + [Expire(task)]
  }

  /** Worker 0 drafts a finding; its task is redelivered to worker 1, who
      researches the object and then reviews it. */
  function ResearchOvertaken(n: nat, approved: bool): seq<Action> {
    Delivery(0, 0, true) + (Turn(1, 0, true) + Turn(1, n, approved))
  }

  /** Worker 1 researches; worker 0 drafts an approval; its task is redelivered
      to worker 1, who rejects. */
  function ReviewOvertaken(n: nat): seq<Action> {
    Turn(1, 0, true) + (Delivery(0, n, true) + Turn(1, n, false))
  }

  lemma Redelivered(sys: System, w: nat, task: nat, approved: bool)
    requires CanDraft(sys, w, task)
    ensures Run(sys, Delivery(w, task, approved))
         == System(sys.board, sys.workers[w := Writing(task, sys.board.graph, approved)], sys.clock + 4)
  {
    Drafted(sys, w, task, approved);
    var mid := Run(sys, Drafting(w, task, approved));
    RunAppend(sys, Drafting(w, task, approved), [Expire(task)]);
    RunOne(mid, Expire(task));
    assert sys.board.queue[task := sys.board.queue[task].(state := InProgress)][task := sys.board.queue[task]]
        == sys.board.queue;
    assert Step(mid, Expire(task)).board == sys.board;
    hide Run, Handled;
  }

  /** What a turn leaves behind, in short. */
  lemma TurnLeaves(g0: Graph, sys: System, w: nat, task: nat, approved: bool)
    requires Untouched(g0) && Inv(g0, sys) && CanDraft(sys, w, task)
    ensures var t, end := sys.board.queue[task], Run(sys, Turn(w, task, approved));
      && Inv(g0, end) && end.workers == sys.workers
      && Stage(g0, end.board.graph) == Stage(g0, sys.board.graph) + 1
      && end.board.graph.subject.log[|end.board.graph.subject.log| - 1].to == TargetOf(t.kind, approved)
      && (t.kind.Review? && approved ==> end.board.queue == sys.board.queue[task := t.(state := Done)])
      && (t.kind.Research? ==>
            exists review :: end.board.queue == sys.board.queue[task := t.(state := Done)] + [review]
              && review.kind.Review? && review.state.Pending?)
      && |end.board.queue| >= |sys.board.queue| && end.board.queue[task] == t.(state := Done)
      && forall u :: 0 <= u < |sys.board.queue| && u != task ==> end.board.queue[u] == sys.board.queue[u]
  {
    TurnTaken(g0, sys, w, task, approved);
    RunKeeps(g0, sys, Turn(w, task, approved));
    var t := sys.board.queue[task];
    var next := NextTask(t.kind, TargetOf(t.kind, approved), Some(NodeOf(sys.board.graph.subject, t.kind)), t.runId);
    if t.kind.Research? {
      assert (sys.board.queue + [next.value])[task := t.(state := Done)]
          == sys.board.queue[task := t.(state := Done)] + [next.value];
    }
    hide Run, Inv, Handled, Turn;
  }

  /** A research turn, on a fresh object, leaves a review task to draft from. */
  lemma Researched(first: System, sys: System)
    requires Init(first) && Inv(first.board.graph, sys) && sys.board == first.board
    requires |sys.workers| >= 2 && sys.workers[1].Resting?
    ensures var g0, n, end := first.board.graph, |first.board.queue|, Run(sys, Turn(1, 0, true));
      && Inv(g0, end) && end.workers == sys.workers && Stage(g0, end.board.graph) == 1
      && |end.board.queue| == n + 1 && end.board.queue[0].kind.Research? && end.board.queue[0].state.Done?
      && (forall u :: 0 < u < n ==> end.board.queue[u] == first.board.queue[u])
      && end.board.queue[n].kind.Review? && CanDraft(end, 1, n)
  {
    TurnLeaves(first.board.graph, sys, 1, 0, true);
    StoryFind(first.board.graph, Run(sys, Turn(1, 0, true)).board.graph, Review);
    hide Run, Handled, Turn, Story, Past;
  }

  lemma Starts(first: System)
    requires Init(first)
    ensures Inv(first.board.graph, first)
  {
    Reached(first, []);
    assert Run(first, []) == first;
  }

  lemma InvTells(g0: Graph, sys: System)
    requires Inv(g0, sys)
    ensures Story(g0, sys.board.graph)
  {
  }

  /** The first run reaches a verdict by worker 1 while worker 0 still holds
      the copy it read before. */
  lemma ResearchIsOvertaken(first: System, approved: bool)
    requires Init(first) && |first.workers| >= 2
    ensures var g0, n := first.board.graph, |first.board.queue|;
      var mid := Run(first, ResearchOvertaken(n, approved));
      && Inv(g0, mid) && |mid.workers| == |first.workers|
      && mid.workers[0] == Writing(0, g0, true)
      && |mid.board.queue| > n && mid.board.queue[0].kind.Research?
      && Stage(g0, mid.board.graph) == 2
      && mid.board.graph.subject.log[|g0.subject.log| + 1].to == TargetOf(Review, approved)
      && (approved && n == 1 ==> forall t :: 0 <= t < |mid.board.queue| ==> mid.board.queue[t].state.Done?)
      && (approved ==> forall t :: 0 <= t < |mid.board.queue| ==> !mid.board.queue[t].state.Dead?)
      && forall v :: 0 < v < |mid.workers| ==> mid.workers[v].Resting?
  {
    hide Run, Inv, Handled, Turn, Delivery, Story, NodeOf, TargetOf, Latest, Mark, NextTask, Queued, Extended;
    var g0, n := first.board.graph, |first.board.queue|;
    var draft, turns := Delivery(0, 0, true), Turn(1, 0, true) + Turn(1, n, approved);
    Reached(first, draft);
    Redelivered(first, 0, 0, true);
    var s1 := Run(first, draft);
    Researched(first, s1);
    var s2 := Run(s1, Turn(1, 0, true));
    TurnLeaves(g0, s2, 1, n, approved);
    RunAppend(s1, Turn(1, 0, true), Turn(1, n, approved));
    RunAppend(first, draft, turns);
  }

  lemma ReviewIsOvertaken(first: System)
    requires Init(first) && |first.workers| >= 2
    ensures var g0, n := first.board.graph, |first.board.queue|;
      var mid := Run(first, ReviewOvertaken(n));
      && Inv(g0, mid) && |mid.workers| == |first.workers|
      && mid.workers[0].Writing? && mid.workers[0].task == n && mid.workers[0].approved
      && |mid.board.queue| > n && mid.board.queue[n].kind.Review?
      && Stage(g0, mid.workers[0].copy) == 1 && Story(g0, mid.workers[0].copy)
      && Stage(g0, mid.board.graph) == 2
      && mid.board.graph.subject.log[|g0.subject.log| + 1].to == NeedsResearch
  {
    hide Run, Inv, Handled, Turn, Delivery, Story, NodeOf, Latest, Mark, NextTask, Queued, Extended;
    var g0, n := first.board.graph, |first.board.queue|;
    var draft := Delivery(0, n, true);
    Starts(first);
    Researched(first, first);
    var s1 := Run(first, Turn(1, 0, true));
    InvTells(g0, s1);
    Redelivered(s1, 0, n, true);
    RunKeeps(g0, s1, draft);
    var s2 := Run(s1, draft);
    TurnLeaves(g0, s2, 1, n, false);
    RunAppend(s1, draft, Turn(1, n, false));
    RunAppend(first, Turn(1, 0, true), draft + Turn(1, n, false));
  }

  /** The stale landing after either run. */
  lemma LateLanding(first: System, mid: System)
    requires Init(first) && Inv(first.board.graph, mid) && |mid.workers| > 0
    requires mid.workers[0].Writing? && mid.workers[0].task < |mid.board.queue|
    requires Stage(first.board.graph, mid.board.graph) == 2
    ensures var a := Write(0, OnCopy);
      var g0, phase, end := first.board.graph, mid.workers[0], Step(mid, a);
      && Lands(mid, a) && Stale(mid, a)
      && Story(g0, end.board.graph) && end.board.queue == mid.board.queue
      && Stage(g0, end.board.graph) == Stage(g0, phase.copy) + 1
      && Latest(mid.board.graph.subject, Review)
           == Some(mid.board.graph.subject.log[|first.board.graph.subject.log| + 1])
      && (var kind := mid.board.queue[phase.task].kind;
          end.board.graph.subject.status == Some(TargetOf(kind, phase.approved)))
  {
    var g0, a := first.board.graph, Write(0, OnCopy);
    assert WorkerOk(g0, mid.board, mid.workers[0], mid.clock);
    assert Lands(mid, a) by {
      assert CopyOk(g0, mid.board.queue[mid.workers[0].task].kind, mid.workers[0].copy, mid.clock);
    }
    LandingTells(g0, mid, a);
    StoryFind(g0, mid.board.graph, Review);
    hide NodesTell, HasAgentTransitioned, FindTransition, Past;
  }

  /** A late finding erases a verdict: from every start with two workers, a run
      reaches a verdict and the next landing leaves none. */
  lemma LateFindingErasesVerdict(first: System, approved: bool)
    requires Init(first) && |first.workers| >= 2
    ensures var mid := Run(first, ResearchOvertaken(|first.board.queue|, approved));
      var end := Step(mid, Write(0, OnCopy)).board.graph;
      && Stale(mid, Write(0, OnCopy))
      && Latest(mid.board.graph.subject, Review).Some?
      && Latest(mid.board.graph.subject, Review).value.to == TargetOf(Review, approved)
      && Latest(end.subject, Review).None? && NodeOf(end.subject, Review) !in end.nodes
      && end.subject.status == Some(AwaitingReview)
  {
    hide Run, Inv, Handled, ResearchOvertaken, Step, Lands, FindTransition;
    var mid := Run(first, ResearchOvertaken(|first.board.queue|, approved));
    ResearchIsOvertaken(first, approved);
    LateLanding(first, mid);
    StoryFind(first.board.graph, Step(mid, Write(0, OnCopy)).board.graph, Review);
  }

  /** A late approval overturns a recorded rejection. */
  lemma LateApprovalOverturnsRejection(first: System)
    requires Init(first) && |first.workers| >= 2
    ensures var mid := Run(first, ReviewOvertaken(|first.board.queue|));
      var end := Step(mid, Write(0, OnCopy)).board.graph;
      && Stale(mid, Write(0, OnCopy))
      && Latest(mid.board.graph.subject, Review).Some?
      && Latest(mid.board.graph.subject, Review).value.to == NeedsResearch
      && Latest(end.subject, Review).Some? && Latest(end.subject, Review).value.to == Resolved
      && end.subject.status == Some(Resolved)
  {
    hide Run, Inv, Handled, ReviewOvertaken, Step, Lands, FindTransition;
    var mid := Run(first, ReviewOvertaken(|first.board.queue|));
    ReviewIsOvertaken(first);
    LateLanding(first, mid);
    StoryFind(first.board.graph, Step(mid, Write(0, OnCopy)).board.graph, Review);
  }

  /** A late finding on an approved object, and a crash, strand it. */
  lemma LateFindingStrands(first: System)
    requires Init(first) && |first.workers| >= 2 && |first.board.queue| == 1
    ensures var mid := Run(first, ResearchOvertaken(1, true));
      Stranded(Run(mid, [Write(0, OnCopy), Quit(0)]).board)
  {
    hide Run, Inv, Handled, ResearchOvertaken, Step, Stranded, FindTransition;
    var actions := ResearchOvertaken(1, true);
    var mid := Run(first, actions);
    ResearchIsOvertaken(first, true);
    LateLanding(first, mid);
    LateWriteStrandsExactly(first, actions, 0, OnCopy);
  }
}
