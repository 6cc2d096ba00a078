/** A pipeline step's write is a call of evolve_knowledge: the session's
    structures tell what the object's graph is, and each ending of the call is
    one of the machine's three. */
module PipelineEvolve {
  import opened Wrappers
  import opened PipelineLog
  import opened Pipeline
  import Ev = Evolution
  import Handler = EvolveHandler

  // ---------------------------------------------------------------------
  // An object in a structure
  // ---------------------------------------------------------------------

  const STATUS: string := "current_status"
  const LOG: string := "transition_log"

  /** How ids, logs and statuses are written down, and how they, nodes and
      contents are read. */
  datatype Coding = Coding(
    key: NodeId -> string, unkey: string -> NodeId,
    log: seq<Entry> -> string, unlog: string -> seq<Entry>,
    status: Status -> string, unstatus: string -> Status,
    unnode: Ev.Fields -> Node,
    content: Ev.Fields -> string)

  /** What is written is read back. */
  ghost predicate Faithful(c: Coding) {
    && (forall n :: c.unkey(c.key(n)) == n)
    && (forall log :: c.unlog(c.log(log)) == log)
    && (forall status :: c.unstatus(c.status(status)) == status)
  }

  /** The content is what remains without the two bookkeeping fields. */
  function SubjectOf(c: Coding, id: string, s: Ev.Structure): Object {
    if id !in s then Object(id, "", None, [])
    else
      var fields := s[id].fields;
      Object(id, c.content(fields - {STATUS, LOG}),
             if STATUS in fields then Some(c.unstatus(fields[STATUS])) else None,
             if LOG in fields then c.unlog(fields[LOG]) else [])
  }

  /** The graph is what the structure holds about the object. */
  ghost predicate Shows(c: Coding, s: Ev.Structure, g: Graph) {
    && g.subject == SubjectOf(c, g.subject.id, s)
    && (forall n :: n in g.nodes <==> c.key(n) in s)
    && forall n :: n in g.nodes ==> g.nodes[n] == c.unnode(s[c.key(n)].fields)
  }

  // ---------------------------------------------------------------------
  // The batch of a step
  // ---------------------------------------------------------------------

  /** The step's own text: its node's and its relation's fields and names. */
  datatype Draft = Draft(
    name: string, fields: Ev.Fields,
    relation: string, relationName: string, relationFields: Ev.Fields)

  /** The draft says what the verdict is; neither relation nor object has a
      node's id. */
  ghost predicate Fits(c: Coding, d: Draft, read: Object, kind: Kind, approved: bool) {
    && c.unnode(d.fields) == NodeFor(kind, approved)
    && forall n :: c.key(n) != d.relation && c.key(n) != read.id
  }

  function Patch(c: Coding, read: Object, entry: Entry): map<string, Option<string>> {
    var patch := AppendTransition(read.log, entry);
    map[STATUS := Some(c.status(patch.status)), LOG := Some(c.log(patch.log))]
  }

  /** Node, relation and log patch, made from the object as it was read. */
  function Batch(c: Coding, d: Draft, read: Object, kind: Kind, entry: Entry): seq<Ev.Operation> {
    var key := c.key(NodeOf(read, kind));
    [Ev.AddObject(key, d.name, d.fields),
     Ev.AddRelation(d.relation, d.relationName, d.relationFields, [key, read.id])]
    + [Ev.UpdateObject(read.id, Patch(c, read, entry), false)]
  }

  lemma ApplyFirst(op: Ev.Operation, rest: seq<Ev.Operation>, s: Ev.Structure)
    ensures Ev.Apply([op] + rest, s)
         == match Ev.ApplyOne(op, s)
            case None => None
            case Some(next) => Ev.Apply(rest, next)
  {
    hide Ev.ApplyOne;
    assert ([op] + rest)[1..] == rest;
  }

  /** When the batch goes through, and what it leaves at each id. */
  lemma BatchApplied(c: Coding, d: Draft, s: Ev.Structure, read: Object, kind: Kind, entry: Entry)
    requires c.key(NodeOf(read, kind)) != read.id
    ensures var after, key := Ev.Apply(Batch(c, d, read, kind, entry), s), c.key(NodeOf(read, kind));
      after.Some? ==>
        && key !in s && read.id in s && d.relation != key && d.relation != read.id
        && key in after.value && after.value[key].fields == d.fields
        && read.id in after.value
        && after.value[read.id].fields == Ev.Merged(s[read.id].fields, Patch(c, read, entry))
        && forall x :: x != key && x != d.relation && x != read.id ==> Ev.Lookup(after.value, x) == Ev.Lookup(s, x)
  {
    var ops := Batch(c, d, read, kind, entry);
    assert ops == [ops[0]] + ([ops[1]] + ([ops[2]] + []));
    ApplyFirst(ops[0], [ops[1]] + ([ops[2]] + []), s);
    if Ev.ApplyOne(ops[0], s).Some? {
      var s1 := Ev.ApplyOne(ops[0], s).value;
      ApplyFirst(ops[1], [ops[2]] + [], s1);
      if Ev.ApplyOne(ops[1], s1).Some? {
        ApplyFirst(ops[2], [], Ev.ApplyOne(ops[1], s1).value);
      }
    }
    hide Ev.Merged, Patch, NodeOf;
  }

  lemma PatchTells(c: Coding, s: Ev.Structure, next: Ev.Structure, read: Object, entry: Entry)
    requires Faithful(c) && read.id in s && read.id in next
    requires next[read.id].fields == Ev.Merged(s[read.id].fields, Patch(c, read, entry))
    ensures SubjectOf(c, read.id, next) == Patched(SubjectOf(c, read.id, s), AppendTransition(read.log, entry))
  {
    assert next[read.id].fields - {STATUS, LOG} == s[read.id].fields - {STATUS, LOG};
  }

  lemma NodeAdded(c: Coding, s: Ev.Structure, next: Ev.Structure, g: Graph, h: Graph, n: NodeId)
    requires Faithful(c) && Shows(c, s, g) && c.key(n) in next
    requires forall m :: m != n ==> Ev.Lookup(next, c.key(m)) == Ev.Lookup(s, c.key(m))
    requires h.subject == SubjectOf(c, h.subject.id, next)
    requires h.nodes == g.nodes[n := c.unnode(next[c.key(n)].fields)]
    ensures Shows(c, next, h)
  {
    hide SubjectOf;
    forall m
      ensures m in h.nodes <==> c.key(m) in next
      ensures m in h.nodes ==> h.nodes[m] == c.unnode(next[c.key(m)].fields)
    {
      assert m != n ==> Ev.Lookup(next, c.key(m)) == Ev.Lookup(s, c.key(m));
    }
  }

  /** One node more, and the object's two fields replaced: that is all a batch
      changes of what the graph tells; it fails if the node is there. */
  lemma BatchTells(c: Coding, d: Draft, s: Ev.Structure, g: Graph, read: Object, kind: Kind, approved: bool,
                   runId: Option<string>, at: nat)
    requires Faithful(c) && Fits(c, d, read, kind, approved) && Shows(c, s, g) && g.subject.id == read.id
    ensures var after := Ev.Apply(Batch(c, d, read, kind, EntryFor(read, kind, approved, runId, at)), s);
      && (NodeOf(read, kind) in g.nodes ==> after.None?)
      && (after.Some? ==> Shows(c, after.value, Extended(g, kind, read, approved, runId, at)))
  {
    hide Ev.Apply, Ev.Merged, SubjectOf, Patch, Batch, NodeFor, NodeOf;
    var entry, n := EntryFor(read, kind, approved, runId, at), NodeOf(read, kind);
    BatchApplied(c, d, s, read, kind, entry);
    var after := Ev.Apply(Batch(c, d, read, kind, entry), s);
    if after.Some? {
      PatchTells(c, s, after.value, read, entry);
      forall m | m != n
        ensures Ev.Lookup(after.value, c.key(m)) == Ev.Lookup(s, c.key(m))
      {
        assert c.unkey(c.key(m)) == m && c.unkey(c.key(n)) == n;
      }
      NodeAdded(c, s, after.value, g, Extended(g, kind, read, approved, runId, at), n);
    }
  }

  // ---------------------------------------------------------------------
  // The call is the machine's write
  // ---------------------------------------------------------------------

  /** Worker w is about to write, with this call: the request is the batch of
      its draft, made from the copy it read. */
  ghost predicate Calling(c: Coding, d: Draft, sys: System, w: nat, request: Handler.Request, read: Handler.Copy) {
    && Busy(sys, w) && sys.workers[w].Writing?
    && var phase, task := sys.workers[w], sys.board.queue[sys.workers[w].task];
       var subject := phase.copy.subject;
       && Shows(c, read.structure, phase.copy)
       && Fits(c, d, subject, task.kind, phase.approved)
       && request.ops == Batch(c, d, subject, task.kind,
                               EntryFor(subject, task.kind, phase.approved, task.runId, sys.clock))
  }

  /** A commit; a lost race, against the copy or the head; or a refusal. */
  function EndsAs(key: string, call: Handler.Ending): How {
    match call.outcome
    case Committed(_, attempt) => if attempt == 0 then OnCopy else OnHead
    case EvolutionFailed =>
      if key !in call.copy.structure then Refused else if call.waits == 0 then OnCopy else OnHead
    case _ => Refused
  }

  lemma Batched(c: Coding, d: Draft, sys: System, w: nat, request: Handler.Request, read: Handler.Copy,
                s: Ev.Structure, g: Graph)
    requires Faithful(c) && Calling(c, d, sys, w, request, read)
    requires Shows(c, s, g) && g.subject.id == sys.workers[w].copy.subject.id
    ensures var phase, task := sys.workers[w], sys.board.queue[sys.workers[w].task];
      var subject, after := phase.copy.subject, Ev.Apply(request.ops, s);
      && (NodeOf(subject, task.kind) in g.nodes ==> after.None?)
      && (after.Some? ==>
            Shows(c, after.value, Extended(g, task.kind, subject, phase.approved, task.runId, sys.clock)))
  {
    hide Ev.Apply, Shows, SubjectOf, Extended, Batch, NodeOf, Fits, Faithful;
    var phase, task := sys.workers[w], sys.board.queue[sys.workers[w].task];
    BatchTells(c, d, s, g, phase.copy.subject, task.kind, phase.approved, task.runId, sys.clock);
  }

  /** The log patch keeps the batch from ever counting as applied already. */
  lemma NeverAlreadyThere(c: Coding, d: Draft, s: Ev.Structure, read: Object, kind: Kind, entry: Entry)
    ensures var ops := Batch(c, d, read, kind, entry);
      ops != [] && !Ev.AlreadyApplied(s, ops)
  {
    var ops := Batch(c, d, read, kind, entry);
    assert ops[2] in ops && !Ev.Reflected(ops[2], s);
  }

  /** The head when the call is over, but for its own commit. */
  function LastSeen(judge: Handler.Judge, request: Handler.Request, others: nat -> seq<Ev.Structure>,
                    before: seq<Ev.Structure>, read: Handler.Copy): Ev.Structure
    requires before != []
  {
    var stored := before + Handler.Interference(others, Handler.Called(judge, request, others, before, read).waits);
    stored[|stored| - 1]
  }

  /** Whatever is stored in the call's waits: seen through the graph, the call
      is one write of the machine, ending on the copy for attempt 0, on the head
      for a retry, and as a lost race exactly when it found the node. */
  lemma CallIsWrite(c: Coding, d: Draft, sys: System, w: nat, judge: Handler.Judge, request: Handler.Request,
                    others: nat -> seq<Ev.Structure>, before: seq<Ev.Structure>, read: Handler.Copy)
    requires Faithful(c) && before != [] && Calling(c, d, sys, w, request, read)
    requires Shows(c, LastSeen(judge, request, others, before, read), sys.board.graph)
    requires sys.board.graph.subject.id == sys.workers[w].copy.subject.id
    ensures var call := Handler.Called(judge, request, others, before, read);
      var key := c.key(NodeOf(sys.workers[w].copy.subject, sys.board.queue[sys.workers[w].task].kind));
      var a := Write(w, EndsAs(key, call));
      && call.versions != []
      && (call.outcome.Committed? <==> Lands(sys, a))
      && Shows(c, call.versions[|call.versions| - 1], Step(sys, a).board.graph)
      && (Step(sys, a).workers[w].Recovering? <==> call.outcome.EvolutionFailed? && key in call.copy.structure)
  {
    hide Ev.Apply, Ev.AlreadyApplied, SubjectOf, Extended, Handler.Attempts, Handler.Contended,
      Handler.Check, Handler.Interference, Handler.Called, Fits, Batch, Faithful, NodeOf, NextTask;
    var call := Handler.Called(judge, request, others, before, read);
    var phase, task := sys.workers[w], sys.board.queue[sys.workers[w].task];
    Handler.CalledExplained(judge, request, others, before, read);
    NeverAlreadyThere(c, d, call.copy.structure, phase.copy.subject, task.kind,
                      EntryFor(phase.copy.subject, task.kind, phase.approved, task.runId, sys.clock));
    Batched(c, d, sys, w, request, read, read.structure, phase.copy);
    Batched(c, d, sys, w, request, read, LastSeen(judge, request, others, before, read), sys.board.graph);
  }
}
