/** Any number of Researcher and Reviewer workers moving one object whose
    content stays fixed, over an outbox that redelivers tasks. Each worker
    reads, and first commits against, its own copy of the session. */
module Pipeline {
  import opened Wrappers
  import opened PipelineLog

  // ---------------------------------------------------------------------
  // What the workers share
  // ---------------------------------------------------------------------

  datatype Kind = Research | Review

  datatype TaskState = Pending | InProgress | Done | Dead

  datatype Task = Task(kind: Kind, state: TaskState, finding: Option<NodeId>, runId: Option<string>)

  datatype Node = Finding | Verdict(approved: bool)

  /** What one version of the session holds about the object. */
  datatype Graph = Graph(subject: Object, nodes: map<NodeId, Node>)

  datatype Board = Board(graph: Graph, queue: seq<Task>)

  /** The digest of the content, modelled as an injective function of it. */
  function ContentHash(subject: Object): string {
    subject.content
  }

  function AgentOf(kind: Kind): Agent {
    if kind.Research? then ResearcherAgent else ReviewerAgent
  }

  function NodeOf(subject: Object, kind: Kind): NodeId {
    NodeId(AgentOf(kind), subject.id, ContentHash(subject))
  }

  function TargetOf(kind: Kind, approved: bool): Status {
    if kind.Research? then AwaitingReview else if approved then Resolved else NeedsResearch
  }

  function EntryFor(subject: Object, kind: Kind, approved: bool, runId: Option<string>, at: nat): Entry {
    Entry(at, AgentOf(kind), TargetOf(kind, approved), Some(NodeOf(subject, kind)), Some(ContentHash(subject)), runId)
  }

  function NodeFor(kind: Kind, approved: bool): Node {
    if kind.Research? then Finding else Verdict(approved)
  }

  /** The next stage: research always hands on to review; a review hands back
      to research only when its verdict was a rejection. */
  function NextTask(kind: Kind, to: Status, node: Option<NodeId>, runId: Option<string>): Option<Task> {
    if kind.Research? then Some(Task(Review, Pending, node, runId))
    else if to.NeedsResearch? then Some(Task(Research, Pending, None, runId))
    else None
  }

  predicate Handled(subject: Object, kind: Kind) {
    HasAgentTransitioned(subject.log, AgentOf(kind), Some(ContentHash(subject)))
  }

  function Latest(subject: Object, kind: Kind): Option<Entry> {
    FindTransition(subject.log, AgentOf(kind), Some(ContentHash(subject)))
  }

  /** A step's batch, made from the object it read, applied to base: its node,
      and the log it read plus one entry in place of whatever log base has. */
  function Extended(base: Graph, kind: Kind, read: Object, approved: bool, runId: Option<string>, at: nat): Graph {
    Graph(Patched(base.subject, AppendTransition(read.log, EntryFor(read, kind, approved, runId, at))),
          base.nodes[NodeOf(read, kind) := NodeFor(kind, approved)])
  }

  function Mark(b: Board, task: nat, state: TaskState): Board
    requires task < |b.queue|
  {
    b.(queue := b.queue[task := b.queue[task].(state := state)])
  }

  // ---------------------------------------------------------------------
  // The machine
  // ---------------------------------------------------------------------

  /** copy is the worker's session as it was refreshed at the start of the
      step; nothing reloads it before the evolve. */
  datatype Phase =
    | Resting
    | Claimed(task: nat)
    | Asking(task: nat, copy: Graph)
    | Writing(task: nat, copy: Graph, approved: bool)
    | Recovering(task: nat)
    | Routing(task: nat, next: Option<Task>)
    | Finished(task: nat)
    | Failed(task: nat)

  /** clock: every step happens at an instant of its own. */
  datatype System = System(board: Board, workers: seq<Phase>, clock: nat)

  /** How an evolve ends: as attempt 0, built on the worker's copy and landing
      on whatever is stored by then; as a retry, built on the head; or refused
      for any reason but the duplicate node. */
  datatype How = OnCopy | OnHead | Refused

  /** Submit is start_pipeline naming the object once more. Quit is a crash or
      a worker that noticed its lease is gone; Expire puts a task back whoever
      still works on it. */
  datatype Action =
    | Claim(who: nat, task: nat)
    | Read(who: nat, found: bool)
    | Answer(who: nat, llm: Option<bool>)
    | Write(who: nat, how: How)
    | Reread(who: nat)
    | Route(who: nat)
    | Report(who: nat, retry: bool)
    | Quit(who: nat)
    | Expire(task: nat)
    | Submit(runId: Option<string>)

  function AfterRead(b: Board, task: nat): Phase
    requires task < |b.queue|
  {
    if Handled(b.graph.subject, b.queue[task].kind) then RouteFrom(b, task) else Asking(task, b.graph)
  }

  /** Route by the latest recorded entry; without one the step fails. */
  function RouteFrom(b: Board, task: nat): Phase
    requires task < |b.queue|
  {
    var kind := b.queue[task].kind;
    match Latest(b.graph.subject, kind)
    case Some(entry) => Routing(task, NextTask(kind, entry.to, entry.node, b.queue[task].runId))
    case None => Failed(task)
  }

  predicate Busy(sys: System, w: nat) {
    w < |sys.workers| && !sys.workers[w].Resting? && sys.workers[w].task < |sys.board.queue|
  }

  predicate Due(sys: System, a: Action) {
    match a
    case Submit(_) => true
    case Expire(task) => task < |sys.board.queue| && sys.board.queue[task].state.InProgress?
    case Claim(w, task) =>
      w < |sys.workers| && sys.workers[w].Resting? && task < |sys.board.queue| && sys.board.queue[task].state.Pending?
    case Read(w, _) => Busy(sys, w) && sys.workers[w].Claimed?
    case Answer(w, _) => Busy(sys, w) && sys.workers[w].Asking?
    case Write(w, _) => Busy(sys, w) && sys.workers[w].Writing?
    case Reread(w) => Busy(sys, w) && sys.workers[w].Recovering?
    case Route(w) => Busy(sys, w) && sys.workers[w].Routing?
    case Report(w, _) => Busy(sys, w) && (sys.workers[w].Finished? || sys.workers[w].Failed?)
    case Quit(w) => Busy(sys, w)
  }

  predicate ByWorker(a: Action) {
    !a.Expire? && !a.Submit?
  }

  /** The version the evolve builds on, and checks for duplicate ids. */
  function BaseOf(sys: System, w: nat, how: How): Graph
    requires Busy(sys, w) && sys.workers[w].Writing?
  {
    if how.OnCopy? then sys.workers[w].copy else sys.board.graph
  }

  /** The write commits. */
  predicate Lands(sys: System, a: Action) {
    a.Write? && Due(sys, a) && !a.how.Refused? &&
    var phase := sys.workers[a.who];
    NodeOf(phase.copy.subject, sys.board.queue[phase.task].kind) !in BaseOf(sys, a.who, a.how).nodes
  }

  function Landed(sys: System, a: Action): Graph
    requires Lands(sys, a)
  {
    var phase := sys.workers[a.who];
    var task := sys.board.queue[phase.task];
    Extended(BaseOf(sys, a.who, a.how), task.kind, phase.copy.subject, phase.approved, task.runId, sys.clock)
  }

  function NextBoard(sys: System, a: Action): Board
    requires Due(sys, a)
  {
    var b := sys.board;
    match a
    case Submit(runId) => b.(queue := b.queue + [Task(Research, Pending, None, runId)])
    case Expire(task) => Mark(b, task, Pending)
    case Claim(_, task) => Mark(b, task, InProgress)
    case Write(_, _) => if Lands(sys, a) then b.(graph := Landed(sys, a)) else b
    case Route(w) =>
      var next := sys.workers[w].next;
      if next.Some? then b.(queue := b.queue + [next.value]) else b
    case Report(w, retry) =>
      var phase := sys.workers[w];
      Mark(b, phase.task, if phase.Finished? then Done else if retry then Pending else Dead)
    case _ => b
  }

  function NextPhase(sys: System, a: Action): Phase
    requires Due(sys, a) && ByWorker(a)
  {
    var b, phase := sys.board, sys.workers[a.who];
    match a
    case Claim(_, task) => Claimed(task)
    case Read(_, found) => if found then AfterRead(b, phase.task) else Failed(phase.task)
    case Answer(_, llm) => if llm.Some? then Writing(phase.task, phase.copy, llm.value) else Failed(phase.task)
    case Write(_, how) =>
      var task := b.queue[phase.task];
      if how.Refused? then Failed(phase.task)
      else if !Lands(sys, a) then Recovering(phase.task)
      else Routing(phase.task, NextTask(task.kind, TargetOf(task.kind, phase.approved),
                                        Some(NodeOf(phase.copy.subject, task.kind)), task.runId))
    case Reread(_) => RouteFrom(b, phase.task)
    case Route(_) => Finished(phase.task)
    case Report(_, _) | Quit(_) => Resting
  }

  function Step(sys: System, a: Action): System {
    if !Due(sys, a) then sys
    else if !ByWorker(a) then System(NextBoard(sys, a), sys.workers, sys.clock + 1)
    else System(NextBoard(sys, a), sys.workers[a.who := NextPhase(sys, a)], sys.clock + 1)
  }

  function Run(sys: System, actions: seq<Action>): System
    decreases |actions|
  {
    if actions == [] then sys else Run(Step(sys, actions[0]), actions[1..])
  }

  lemma {:induction false} RunAppend(sys: System, xs: seq<Action>, ys: seq<Action>)
    ensures Run(sys, xs + ys) == Run(Run(sys, xs), ys)
    decreases |xs|
  {
    if xs == [] {
      assert xs + ys == ys;
    } else {
      assert (xs + ys)[1..] == xs[1..] + ys;
      RunAppend(Step(sys, xs[0]), xs[1..], ys);
      hide Step;
    }
  }

  lemma RunOne(sys: System, a: Action)
    ensures Run(sys, [a]) == Step(sys, a)
  {
    assert [a][1..] == [];
    assert Run(sys, [a]) == Run(Step(sys, a), []);
    hide Step;
  }

  // ---------------------------------------------------------------------
  // What holds in every run
  // ---------------------------------------------------------------------

  /** How many transitions the pipeline has written: the finding, the verdict. */
  function Stage(g0: Graph, g: Graph): int {
    |g.subject.log| - |g0.subject.log|
  }

  predicate WrittenBy(entry: Entry, subject: Object, kind: Kind) {
    entry == EntryFor(subject, kind, entry.to.Resolved?, entry.runId, entry.at)
  }

  /** The nodes are the original ones and those of the stages reached. */
  ghost predicate NodesTell(g0: Graph, g: Graph) {
    var research, review := NodeOf(g.subject, Research), NodeOf(g.subject, Review);
    && (research in g.nodes <==> Stage(g0, g) >= 1)
    && (review in g.nodes <==> Stage(g0, g) == 2)
    && (Stage(g0, g) >= 1 ==> g.nodes[research] == Finding)
    && (Stage(g0, g) == 2 ==> g.nodes[review] == Verdict(g.subject.log[|g.subject.log| - 1].to.Resolved?))
    && g.nodes - {research, review} == g0.nodes
  }

  /** A version that tells the object's story: nothing yet, a finding, or a
      finding and a verdict on it. */
  ghost predicate Story(g0: Graph, g: Graph) {
    var n, log := |g0.subject.log|, g.subject.log;
    && g.subject.id == g0.subject.id && g.subject.content == g0.subject.content
    && g0.subject.log <= log && Stage(g0, g) <= 2
    && (Stage(g0, g) >= 1 ==> WrittenBy(log[n], g.subject, Research))
    && (Stage(g0, g) == 2 ==> WrittenBy(log[n + 1], g.subject, Review))
    && g.subject.status == (if Stage(g0, g) == 0 then g0.subject.status else Some(log[|log| - 1].to))
    && NodesTell(g0, g)
  }

  /** Its entries were written before now. */
  ghost predicate Past(g0: Graph, g: Graph, clock: nat) {
    forall j :: |g0.subject.log| <= j < |g.subject.log| ==> g.subject.log[j].at < clock
  }

  predicate Settled(g0: Graph, g: Graph) {
    Stage(g0, g) == 2 && g.subject.log[|g.subject.log| - 1].to.Resolved?
  }

  /** Review tasks exist only once the finding does, and name it. */
  predicate TaskOk(g0: Graph, g: Graph, t: Task) {
    t.kind.Review? ==> Stage(g0, g) >= 1 && t.finding == Some(NodeOf(g.subject, Research))
  }

  /** A copy read before its own agent had written, and what it rests on. */
  ghost predicate CopyOk(g0: Graph, kind: Kind, copy: Graph, clock: nat) {
    Story(g0, copy) && Past(g0, copy, clock) && Stage(g0, copy) == if kind.Research? then 0 else 1
  }

  ghost predicate WorkerOk(g0: Graph, b: Board, phase: Phase, clock: nat) {
    phase.Resting? || (
      && phase.task < |b.queue|
      && match phase
         case Asking(task, copy) => CopyOk(g0, b.queue[task].kind, copy, clock)
         case Writing(task, copy, _) => CopyOk(g0, b.queue[task].kind, copy, clock)
         case Routing(_, Some(next)) => TaskOk(g0, b.graph, next) && next.state.Pending?
         case _ => true)
  }

  ghost predicate Inv(g0: Graph, sys: System) {
    && Story(g0, sys.board.graph) && Past(g0, sys.board.graph, sys.clock)
    && (forall t :: 0 <= t < |sys.board.queue| ==> TaskOk(g0, sys.board.graph, sys.board.queue[t]))
    && forall w :: 0 <= w < |sys.workers| ==> WorkerOk(g0, sys.board, sys.workers[w], sys.clock)
  }

  /** No agent has handled this content before. */
  ghost predicate Untouched(g0: Graph) {
    && !Handled(g0.subject, Research) && !Handled(g0.subject, Review)
    && NodeOf(g0.subject, Research) !in g0.nodes && NodeOf(g0.subject, Review) !in g0.nodes
  }

  /** The object enters through research tasks and nothing else. */
  ghost predicate Init(sys: System) {
    && Untouched(sys.board.graph)
    && sys.board.queue != []
    && (forall t :: 0 <= t < |sys.board.queue| ==>
          sys.board.queue[t].kind.Research? && sys.board.queue[t].state.Pending?)
    && forall w :: 0 <= w < |sys.workers| ==> sys.workers[w].Resting?
  }

  /** What the guard and the lookup say at each stage. */
  lemma StoryFind(g0: Graph, g: Graph, kind: Kind)
    requires Untouched(g0) && Story(g0, g)
    ensures Handled(g.subject, kind) <==> Stage(g0, g) >= if kind.Research? then 1 else 2
    ensures Latest(g.subject, kind)
         == if Stage(g0, g) >= (if kind.Research? then 1 else 2)
            then Some(g.subject.log[|g0.subject.log| + if kind.Research? then 0 else 1]) else None
  {
    var log, n, hash := g.subject.log, |g0.subject.log|, Some(ContentHash(g.subject));
    HasMeans(g0.subject.log, AgentOf(kind), hash);
    HasMeans(log, AgentOf(kind), hash);
    forall k | 0 <= k < n
      ensures !Matches(log[k], AgentOf(kind), hash)
    {
      assert log[k] == g0.subject.log[k];
    }
    var k := FindIsLast(log, AgentOf(kind), hash);
    hide HasAgentTransitioned, FindTransition, NodesTell;
  }

  /** A story is determined by its log. */
  lemma StoryDetermined(g0: Graph, g: Graph, h: Graph)
    requires Story(g0, g) && Story(g0, h) && g.subject.log == h.subject.log
    ensures g == h
  {
    forall id
      ensures id in g.nodes <==> id in h.nodes
      ensures id in g.nodes ==> g.nodes[id] == h.nodes[id]
    {
      assert id in g.nodes - {NodeOf(g.subject, Research), NodeOf(g.subject, Review)} <==> id in g0.nodes;
    }
    assert g.nodes == h.nodes;
  }

  /** Whatever copy or head a step's batch is built on, the result tells a
      story again, one stage past the log that the step had read. */
  lemma ExtendedTells(g0: Graph, base: Graph, kind: Kind, copy: Graph, approved: bool, runId: Option<string>, at: nat)
    requires Story(g0, base) && CopyOk(g0, kind, copy, at)
    requires Stage(g0, base) == if kind.Research? then 0 else 1
    ensures var next := Extended(base, kind, copy.subject, approved, runId, at);
      && Story(g0, next) && Past(g0, next, at + 1) && Stage(g0, next) == Stage(g0, copy) + 1
      && next.subject.log == copy.subject.log + [EntryFor(copy.subject, kind, approved, runId, at)]
  {
    var next := Extended(base, kind, copy.subject, approved, runId, at);
    assert next.nodes - {NodeOf(next.subject, Research), NodeOf(next.subject, Review)}
        == base.nodes - {NodeOf(next.subject, Research), NodeOf(next.subject, Review)};
  }

  /** A write that lands, on the copy or on the head. */
  lemma LandingTells(g0: Graph, sys: System, a: Action)
    requires Untouched(g0) && Inv(g0, sys) && Lands(sys, a)
    ensures var phase := sys.workers[a.who];
      var task := sys.board.queue[phase.task];
      var entry := EntryFor(phase.copy.subject, task.kind, phase.approved, task.runId, sys.clock);
      && CopyOk(g0, task.kind, phase.copy, sys.clock)
      && Stage(g0, phase.copy) <= Stage(g0, sys.board.graph)
      && Landed(sys, a).subject.log == phase.copy.subject.log + [entry]
      && Story(g0, Landed(sys, a)) && Past(g0, Landed(sys, a), sys.clock + 1)
      && 1 <= Stage(g0, Landed(sys, a)) == Stage(g0, phase.copy) + 1
  {
    var phase := sys.workers[a.who];
    var task := sys.board.queue[phase.task];
    assert WorkerOk(g0, sys.board, phase, sys.clock);
    assert TaskOk(g0, sys.board.graph, task);
    var base := BaseOf(sys, a.who, a.how);
    assert Story(g0, base) && Stage(g0, base) == if task.kind.Research? then 0 else 1 by {
      hide Past;
    }
    ExtendedTells(g0, base, task.kind, phase.copy, phase.approved, task.runId, sys.clock);
    hide Extended, Story, Past;
  }

  /** How a board may change under a worker's feet. */
  ghost predicate Advances(g0: Graph, b: Board, next: Board) {
    && next.graph.subject.id == b.graph.subject.id && next.graph.subject.content == b.graph.subject.content
    && (Stage(g0, b.graph) >= 1 ==> Stage(g0, next.graph) >= 1)
    && |b.queue| <= |next.queue|
    && forall t :: 0 <= t < |b.queue| ==>
         next.queue[t].kind == b.queue[t].kind && next.queue[t].finding == b.queue[t].finding
  }

  /** What a worker relies on survives whatever the others do. */
  lemma WorkerStable(g0: Graph, b: Board, next: Board, phase: Phase, clock: nat)
    requires WorkerOk(g0, b, phase, clock) && Advances(g0, b, next)
    ensures WorkerOk(g0, next, phase, clock + 1)
  {
    hide Story;
  }

  /** The board after a step: its graph, its tasks, and what it advanced. */
  lemma BoardKeeps(g0: Graph, sys: System, a: Action)
    requires Untouched(g0) && Inv(g0, sys) && Due(sys, a)
    ensures var next := NextBoard(sys, a);
      && Story(g0, next.graph) && Past(g0, next.graph, sys.clock + 1) && Advances(g0, sys.board, next)
      && forall t :: 0 <= t < |next.queue| ==> TaskOk(g0, next.graph, next.queue[t])
  {
    if a.Write? && Lands(sys, a) {
      LandingTells(g0, sys, a);
    }
    if ByWorker(a) {
      assert WorkerOk(g0, sys.board, sys.workers[a.who], sys.clock);
    }
    hide Story, Landed, Lands;
  }

  /** The stepping worker itself. */
  lemma PhaseKeeps(g0: Graph, sys: System, a: Action)
    requires Untouched(g0) && Inv(g0, sys) && Due(sys, a) && ByWorker(a)
    ensures WorkerOk(g0, NextBoard(sys, a), NextPhase(sys, a), sys.clock + 1)
  {
    var b := sys.board;
    BoardKeeps(g0, sys, a);
    var phase := sys.workers[a.who];
    assert WorkerOk(g0, b, phase, sys.clock);
    if a.Write? && Lands(sys, a) {
      LandingTells(g0, sys, a);
    } else if a.Read? || a.Reread? {
      StoryFind(g0, b.graph, b.queue[phase.task].kind);
    }
    hide HasAgentTransitioned, FindTransition, NodesTell, Landed, Lands;
  }

  lemma AdvancesSelf(g0: Graph, b: Board)
    ensures Advances(g0, b, b)
  {
  }

  /** Every step, stale landings included, keeps all of this. */
  lemma StepKeeps(g0: Graph, sys: System, a: Action)
    requires Untouched(g0) && Inv(g0, sys)
    ensures var next := Step(sys, a);
      Inv(g0, next) && Advances(g0, sys.board, next.board) && |next.workers| == |sys.workers| && next.clock >= sys.clock
  {
    hide Story, Past, WorkerOk, NextBoard, NextPhase, Advances, TaskOk;
    if Due(sys, a) {
      BoardKeeps(g0, sys, a);
      forall w | 0 <= w < |sys.workers|
        ensures WorkerOk(g0, NextBoard(sys, a), sys.workers[w], sys.clock + 1)
      {
        WorkerStable(g0, sys.board, NextBoard(sys, a), sys.workers[w], sys.clock);
      }
      if ByWorker(a) {
        PhaseKeeps(g0, sys, a);
      }
    } else {
      AdvancesSelf(g0, sys.board);
    }
  }

  lemma {:induction false} RunKeeps(g0: Graph, sys: System, actions: seq<Action>)
    requires Untouched(g0) && Inv(g0, sys)
    ensures Inv(g0, Run(sys, actions)) && |Run(sys, actions).workers| == |sys.workers|
    decreases |actions|
  {
    if actions != [] {
      StepKeeps(g0, sys, actions[0]);
      RunKeeps(g0, Step(sys, actions[0]), actions[1..]);
      hide Inv, Step;
    }
  }

  lemma Reached(first: System, actions: seq<Action>)
    requires Init(first)
    ensures Inv(first.board.graph, Run(first, actions)) && |Run(first, actions).workers| == |first.workers|
  {
    assert Inv(first.board.graph, first);
    RunKeeps(first.board.graph, first, actions);
  }
}
