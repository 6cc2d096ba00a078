/** Families of runs: where the guarantee fails, and what a no-op answer says
    about content. */
module EvolveRuns {
  import opened Wrappers
  import opened Evolution
  import opened EvolveHandler
  import opened EvolveProtocol

  // ---------------------------------------------------------------------
  // Where the guarantee fails
  // ---------------------------------------------------------------------

  /** Process b's whole call falls between a's read and a's reload. */
  function Overtaken(a: nat, b: nat, mine: Request, theirs: Request): seq<Action> {
    [Start(a, mine), Start(b, theirs), ReloadFirst(b), Begin(b), Commit(b), ReloadFirst(a), Begin(a), Commit(a)]
  }

  /** A call that nobody interrupts: built on its copy, committed on the head. */
  lemma UndisturbedTail(judge: Judge, sys: System, w: nat)
    requires sys.versions != [] && w < |sys.procs| && sys.procs[w].phase.Checked? && !sys.procs[w].activeTransaction
    requires Apply(sys.procs[w].request.ops, sys.procs[w].base).Some? && sys.procs[w].attempt == 0
    ensures var p := sys.procs[w];
      var result := Apply(p.request.ops, p.base).value;
      var end := Run(judge, sys, [ReloadFirst(w), Begin(w), Commit(w)]);
      && end.versions == sys.versions + [result]
      && |end.procs| == |sys.procs| && end.procs[w].phase == Idle(Some(Committed(|sys.versions|, 0)))
      && end.procs[w].copy == Copy(result, |sys.versions|) && !end.procs[w].activeTransaction
      && forall v :: 0 <= v < |sys.procs| && v != w ==> end.procs[v] == sys.procs[v]
  {
    hide Apply, Check, AlreadyApplied, Run;
    RunOne(judge, sys, ReloadFirst(w), [Begin(w), Commit(w)]);
    var s1 := Step(judge, sys, ReloadFirst(w));
    RunOne(judge, s1, Begin(w), [Commit(w)]);
    var s2 := Step(judge, s1, Begin(w));
    RunOne(judge, s2, Commit(w), []);
    assert [ReloadFirst(w)] + [Begin(w), Commit(w)] == [ReloadFirst(w), Begin(w), Commit(w)];
    assert [Begin(w)] + [Commit(w)] == [Begin(w), Commit(w)];
    assert [Commit(w)] + [] == [Commit(w)];
    var s3 := Step(judge, s2, Commit(w));
    assert Run(judge, s3, []) == s3 by { RunNone(judge, s3); }
  }

  predicate Fit(sys: System, w: nat) {
    w < |sys.procs| && sys.versions != [] && sys.procs[w].phase.Idle? && !sys.procs[w].activeTransaction
  }

  /** Start checks the request against whatever the own copy holds. */
  lemma StartChecks(judge: Judge, sys: System, w: nat, request: Request)
    requires Fit(sys, w) && request.ops != [] && Check(judge, request, sys.procs[w].copy.structure).None?
    ensures var next := Step(judge, sys, Start(w, request));
      && next.versions == sys.versions && |next.procs| == |sys.procs|
      && (forall v :: 0 <= v < |sys.procs| && v != w ==> next.procs[v] == sys.procs[v])
      && var q := next.procs[w];
         q.phase.Checked? && !q.activeTransaction && q.attempt == 0
         && q.base == sys.procs[w].copy.structure && q.request == request && Apply(request.ops, q.base).Some?
  {
    CheckMeans(judge, request, sys.procs[w].copy.structure);
    hide Check, Apply;
  }

  /** A write committed in between is dropped by an attempt 0 that succeeds
      and reports no conflict: both calls answer that they committed, even if
      both add the same id. */
  lemma LostUpdate(judge: Judge, sys: System, a: nat, b: nat, mine: Request, theirs: Request)
    requires Fit(sys, a) && Fit(sys, b) && a != b && mine.ops != [] && theirs.ops != []
    requires sys.procs[a].copy == Head(sys.versions) == sys.procs[b].copy
    requires Check(judge, mine, Head(sys.versions).structure).None?
    requires Check(judge, theirs, Head(sys.versions).structure).None?
    ensures var s := Head(sys.versions).structure;
      var end := Run(judge, sys, Overtaken(a, b, mine, theirs));
      && Apply(mine.ops, s).Some? && Apply(theirs.ops, s).Some?
      && end.versions == sys.versions + [Apply(theirs.ops, s).value, Apply(mine.ops, s).value]
      && |end.procs| == |sys.procs| && end.procs[a].phase == Idle(Some(Committed(|sys.versions| + 1, 0)))
      && end.procs[b].phase == Idle(Some(Committed(|sys.versions|, 0)))
      && forall x :: Spares(mine.ops, s, x) ==> Lookup(Apply(mine.ops, s).value, x) == Lookup(s, x)
  {
    hide Apply, Check, Run, Step, Lookup, Spares;
    var s := Head(sys.versions).structure;
    StartChecks(judge, sys, a, mine);
    var s1 := Step(judge, sys, Start(a, mine));
    StartChecks(judge, s1, b, theirs);
    var s2 := Step(judge, s1, Start(b, theirs));
    UndisturbedTail(judge, s2, b);
    var theirRun := [ReloadFirst(b), Begin(b), Commit(b)];
    var myRun := [ReloadFirst(a), Begin(a), Commit(a)];
    var s3 := Run(judge, s2, theirRun);
    UndisturbedTail(judge, s3, a);
    RunOne(judge, sys, Start(a, mine), [Start(b, theirs)] + (theirRun + myRun));
    RunOne(judge, s1, Start(b, theirs), theirRun + myRun);
    RunAppend(judge, s2, theirRun, myRun);
    assert Overtaken(a, b, mine, theirs) == [Start(a, mine)] + ([Start(b, theirs)] + (theirRun + myRun));
    forall x | Spares(mine.ops, s, x)
      ensures Lookup(Apply(mine.ops, s).value, x) == Lookup(s, x)
    {
      ApplyFrame(mine.ops, s, x);
    }
  }

  /** A call that gave up leaves its refused change in the process's copy, and
      the next call there, unless refreshed, stores that change after all: the
      new version is both changes on the version of the refused one. */
  lemma RefusedChangeSurfaces(judge: Judge, first: System, actions: seq<Action>, w: nat, next: Request)
    requires Init(first) && w < |first.procs| && next.ops != []
    requires var sys := Run(judge, first, actions);
      && |sys.procs| == |first.procs| && sys.procs[w].phase.Idle? && sys.procs[w].refused.Some?
      && Check(judge, next, sys.procs[w].copy.structure).None?
    ensures var sys := Run(judge, first, actions);
      var p := sys.procs[w];
      var end := Run(judge, sys, [Start(w, next), ReloadFirst(w), Begin(w), Commit(w)]);
      && p.copy.version < |sys.versions|
      && Apply(p.refused.value.ops, sys.versions[p.copy.version]) == Some(p.copy.structure)
      && Apply(next.ops, p.copy.structure).Some?
      && end.versions == sys.versions + [Apply(next.ops, p.copy.structure).value]
  {
    InitOk(judge, first);
    RunKeeps(judge, first, actions);
    var sys := Run(judge, first, actions);
    assert ProcessOk(judge, sys.versions, sys.procs[w]);
    hide Apply, Check, Run, Step;
    StartChecks(judge, sys, w, next);
    var tail := [ReloadFirst(w), Begin(w), Commit(w)];
    UndisturbedTail(judge, Step(judge, sys, Start(w, next)), w);
    RunOne(judge, sys, Start(w, next), tail);
    assert [Start(w, next)] + tail == [Start(w, next), ReloadFirst(w), Begin(w), Commit(w)];
  }

  /** One rename by b, start to commit. */
  function OtherCall(b: nat, theirs: Request): seq<Action> {
    [Start(b, theirs)] + [ReloadFirst(b), Begin(b), Commit(b)]
  }

  /** From attempt k on, b commits before a does, every time. */
  function Beatings(a: nat, b: nat, theirs: Request, k: nat): seq<Action>
    decreases MAX_COMMIT_RETRIES - k
  {
    OtherCall(b, theirs)
    + if k < MAX_COMMIT_RETRIES then [Commit(a), Retry(a), Begin(a)] + Beatings(a, b, theirs, k + 1) else [Commit(a)]
  }

  predicate Renames(request: Request, o: string) {
    |request.ops| == 1 && request.ops[0].RenameObject? && request.ops[0].id == o
  }

  /** A rename of an object that is there goes through, keeps the object
      there, and is never recognised as applied. */
  lemma RenameWorks(judge: Judge, s: Structure, request: Request, o: string)
    requires Renames(request, o) && o in s && forall t: Structure, e :: judge(t, e).Accepted?
    ensures Check(judge, request, s).None? && Apply(request.ops, s).Some? && o in Apply(request.ops, s).value
    ensures !AlreadyApplied(s, request.ops)
  {
    assert request.ops[1..] == [] && request.ops[0] in request.ops;
    assert ApplyOne(request.ops[0], s).Some?;
    assert Apply(request.ops, s) == ApplyOne(request.ops[0], s);
    CheckMeans(judge, request, s);
    assert judge(Apply(request.ops, s).value, request.extensions).Accepted?;
    assert !Reflected(request.ops[0], s);
  }

  /** a's transaction, opened on the head at attempt k. */
  predicate Trying(sys: System, a: nat, mine: Request, k: nat) {
    && a < |sys.procs| && sys.versions != []
    && var p := sys.procs[a];
       p.phase.InTransaction? && p.request == mine && p.attempt == k && p.copy.version == |sys.versions| - 1
  }

  lemma CommitLost(judge: Judge, sys: System, a: nat, mine: Request, k: nat, o: string)
    requires a < |sys.procs| && sys.versions != [] && k <= MAX_COMMIT_RETRIES
    requires var p := sys.procs[a];
      p.phase.InTransaction? && p.request == mine && p.attempt == k && p.copy.version < |sys.versions| - 1
    requires Renames(mine, o) && o in Head(sys.versions).structure && forall t: Structure, e :: judge(t, e).Accepted?
    ensures var lost := Step(judge, sys, Commit(a));
      k == MAX_COMMIT_RETRIES ==>
        && |lost.procs| == |sys.procs| && lost.procs[a].phase == Idle(Some(ConcurrentModification))
        && lost.procs[a].refused == Some(mine)
    ensures var next := Step(judge, Step(judge, Step(judge, sys, Commit(a)), Retry(a)), Begin(a));
      k < MAX_COMMIT_RETRIES ==>
        Trying(next, a, mine, k + 1) && next.versions == sys.versions && |next.procs| == |sys.procs|
        && forall v :: 0 <= v < |sys.procs| && v != a ==> next.procs[v] == sys.procs[v]
  {
    RenameWorks(judge, Head(sys.versions).structure, mine, o);
    hide Apply, Check, AlreadyApplied, Renames;
  }

  /** Six beatings make a call give up with its result in its copy. */
  lemma {:induction false} GivesUp(judge: Judge, sys: System, a: nat, b: nat, mine: Request, theirs: Request, k: nat,
                                   o: string)
    requires Trying(sys, a, mine, k) && k <= MAX_COMMIT_RETRIES && Fit(sys, b) && a != b
    requires sys.procs[b].copy == Head(sys.versions) && o in Head(sys.versions).structure
    requires Renames(mine, o) && Renames(theirs, o) && forall t: Structure, e :: judge(t, e).Accepted?
    ensures var end := Run(judge, sys, Beatings(a, b, theirs, k));
      a < |end.procs| && end.procs[a].phase == Idle(Some(ConcurrentModification)) && end.procs[a].refused == Some(mine)
    decreases MAX_COMMIT_RETRIES - k
  {
    hide Apply, Check, Step, Run, AlreadyApplied;
    RenameWorks(judge, Head(sys.versions).structure, theirs, o);
    StartChecks(judge, sys, b, theirs);
    var s1 := Step(judge, sys, Start(b, theirs));
    var tail := [ReloadFirst(b), Begin(b), Commit(b)];
    UndisturbedTail(judge, s1, b);
    RunOne(judge, sys, Start(b, theirs), tail);
    var s2 := Run(judge, sys, OtherCall(b, theirs));
    assert s2 == Run(judge, s1, tail);
    CommitLost(judge, s2, a, mine, k, o);
    if k < MAX_COMMIT_RETRIES {
      var rest := Beatings(a, b, theirs, k + 1);
      var s3 := Step(judge, s2, Commit(a));
      var s4 := Step(judge, s3, Retry(a));
      var s5 := Step(judge, s4, Begin(a));
      GivesUp(judge, s5, a, b, mine, theirs, k + 1, o);
      RunOne(judge, s4, Begin(a), rest);
      RunOne(judge, s3, Retry(a), [Begin(a)] + rest);
      RunOne(judge, s2, Commit(a), [Retry(a)] + ([Begin(a)] + rest));
      assert [Commit(a), Retry(a), Begin(a)] + rest == [Commit(a)] + ([Retry(a)] + ([Begin(a)] + rest));
      RunAppend(judge, sys, OtherCall(b, theirs), [Commit(a), Retry(a), Begin(a)] + rest);
    } else {
      RunOne(judge, s2, Commit(a), []);
      assert [Commit(a)] + [] == [Commit(a)];
      RunNone(judge, Step(judge, s2, Commit(a)));
      RunAppend(judge, sys, OtherCall(b, theirs), [Commit(a)]);
    }
  }

  /** So copies that hold a refused change do occur: from any start over an
      object o, with two processes that rename it. */
  lemma RefusedChangesOccur(judge: Judge, first: System, a: nat, b: nat, mine: Request, theirs: Request, o: string)
    requires Init(first) && a < |first.procs| && b < |first.procs| && a != b && o in first.versions[0]
    requires Renames(mine, o) && Renames(theirs, o) && forall t: Structure, e :: judge(t, e).Accepted?
    ensures var end := Run(judge, first,
                           [Start(a, mine)] + ([ReloadFirst(a)] + ([Begin(a)] + Beatings(a, b, theirs, 0))));
      a < |end.procs| && end.procs[a].phase.Idle? && end.procs[a].refused == Some(mine)
  {
    hide Apply, Check, Step, Run, AlreadyApplied, Beatings;
    RenameWorks(judge, first.versions[0], mine, o);
    StartChecks(judge, first, a, mine);
    var s1 := Step(judge, first, Start(a, mine));
    ReloadsReady(judge, s1, a);
    var s2 := Step(judge, s1, ReloadFirst(a));
    BeginsTrying(judge, s2, a);
    var s3 := Step(judge, s2, Begin(a));
    GivesUp(judge, s3, a, b, mine, theirs, 0, o);
    RunOne(judge, s2, Begin(a), Beatings(a, b, theirs, 0));
    RunOne(judge, s1, ReloadFirst(a), [Begin(a)] + Beatings(a, b, theirs, 0));
    RunOne(judge, first, Start(a, mine), [ReloadFirst(a)] + ([Begin(a)] + Beatings(a, b, theirs, 0)));
  }

  lemma BeginsTrying(judge: Judge, sys: System, a: nat)
    requires a < |sys.procs| && sys.versions != [] && sys.procs[a].phase.Ready? && !sys.procs[a].activeTransaction
    requires Apply(sys.procs[a].request.ops, sys.procs[a].base).Some?
    requires sys.procs[a].copy.version == |sys.versions| - 1
    ensures var next := Step(judge, sys, Begin(a));
      && next.versions == sys.versions && |next.procs| == |sys.procs|
      && Trying(next, a, sys.procs[a].request, sys.procs[a].attempt)
      && forall v :: 0 <= v < |sys.procs| && v != a ==> next.procs[v] == sys.procs[v]
  {
  }

  // ---------------------------------------------------------------------
  // What a no-op answer says about content
  // ---------------------------------------------------------------------

  /** Process b's whole call falls between a's reload and a's commit; a is
      refused, reloads, and finds all its ids there already. */
  function BeatenToIt(a: nat, b: nat, mine: Request, theirs: Request): seq<Action> {
    [Start(a, mine), ReloadFirst(a)] + ([Start(b, theirs)] + ([ReloadFirst(b), Begin(b), Commit(b)]
      + [Begin(a), Commit(a), Retry(a)]))
  }

  /** A call beaten at attempt 0 by a version that reflects its operations. */
  lemma BeatenTail(judge: Judge, sys: System, a: nat)
    requires a < |sys.procs| && sys.versions != [] && sys.procs[a].phase.Ready? && !sys.procs[a].activeTransaction
    requires Apply(sys.procs[a].request.ops, sys.procs[a].base).Some? && sys.procs[a].attempt == 0
    requires sys.procs[a].copy.version != |sys.versions| - 1
    requires AlreadyApplied(Head(sys.versions).structure, sys.procs[a].request.ops)
    ensures var end := Run(judge, sys, [Begin(a), Commit(a), Retry(a)]);
      && end.versions == sys.versions && |end.procs| == |sys.procs|
      && end.procs[a].phase == Idle(Some(AlreadyThere(|sys.versions| - 1)))
  {
    hide Apply, Check, AlreadyApplied, Run;
    RunOne(judge, sys, Begin(a), [Commit(a), Retry(a)]);
    var s1 := Step(judge, sys, Begin(a));
    RunOne(judge, s1, Commit(a), [Retry(a)]);
    var s2 := Step(judge, s1, Commit(a));
    RunOne(judge, s2, Retry(a), []);
    assert [Begin(a)] + [Commit(a), Retry(a)] == [Begin(a), Commit(a), Retry(a)];
    assert [Commit(a)] + [Retry(a)] == [Commit(a), Retry(a)];
    assert [Retry(a)] + [] == [Retry(a)];
    RunNone(judge, Step(judge, s2, Retry(a)));
  }

  /** The other's call reflects all of a's ids: a answers that its change is
      there, and nothing of its own content is stored. */
  lemma NoOpDropsContent(judge: Judge, sys: System, a: nat, b: nat, mine: Request, theirs: Request)
    requires Fit(sys, a) && Fit(sys, b) && a != b && mine.ops != [] && theirs.ops != []
    requires sys.procs[a].copy == Head(sys.versions) == sys.procs[b].copy
    requires Check(judge, mine, Head(sys.versions).structure).None?
    requires Check(judge, theirs, Head(sys.versions).structure).None?
    requires Apply(theirs.ops, Head(sys.versions).structure).Some? ==>
      AlreadyApplied(Apply(theirs.ops, Head(sys.versions).structure).value, mine.ops)
    ensures var s := Head(sys.versions).structure;
      var end := Run(judge, sys, BeatenToIt(a, b, mine, theirs));
      && Apply(theirs.ops, s).Some? && end.versions == sys.versions + [Apply(theirs.ops, s).value]
      && |end.procs| == |sys.procs| && end.procs[a].phase == Idle(Some(AlreadyThere(|sys.versions|)))
  {
    hide Apply, Check, AlreadyApplied, Run, Step, Lookup;
    StartChecks(judge, sys, a, mine);
    var s1 := Step(judge, sys, Start(a, mine));
    ReloadsReady(judge, s1, a);
    var s2 := Step(judge, s1, ReloadFirst(a));
    StartChecks(judge, s2, b, theirs);
    var s3 := Step(judge, s2, Start(b, theirs));
    var theirRun, myRun := [ReloadFirst(b), Begin(b), Commit(b)], [Begin(a), Commit(a), Retry(a)];
    UndisturbedTail(judge, s3, b);
    var s4 := Run(judge, s3, theirRun);
    BeatenTail(judge, s4, a);
    RunAppend(judge, s3, theirRun, myRun);
    RunOne(judge, s2, Start(b, theirs), theirRun + myRun);
    RunOne(judge, s1, ReloadFirst(a), [Start(b, theirs)] + (theirRun + myRun));
    RunOne(judge, sys, Start(a, mine), [ReloadFirst(a)] + ([Start(b, theirs)] + (theirRun + myRun)));
    assert BeatenToIt(a, b, mine, theirs)
        == [Start(a, mine)] + ([ReloadFirst(a)] + ([Start(b, theirs)] + (theirRun + myRun)));
  }

  lemma ReloadsReady(judge: Judge, sys: System, w: nat)
    requires w < |sys.procs| && sys.versions != [] && sys.procs[w].phase.Checked?
    ensures var next := Step(judge, sys, ReloadFirst(w));
      && next.versions == sys.versions && |next.procs| == |sys.procs|
      && next.procs[w] == Reloaded(sys.versions, sys.procs[w])
      && forall v :: 0 <= v < |sys.procs| && v != w ==> next.procs[v] == sys.procs[v]
  {
  }

  /** For instance: two processes add one id with different contents. */
  lemma TwoContentsOneId(judge: Judge, sys: System, a: nat, b: nat, x: string, mine: Item, theirs: Item)
    requires Fit(sys, a) && Fit(sys, b) && a != b && mine.Object? && theirs.Object? && mine != theirs
    requires sys.procs[a].copy == Head(sys.versions) == sys.procs[b].copy && x !in Head(sys.versions).structure
    requires forall s: Structure, e :: judge(s, e).Accepted?
    ensures var mineReq := Request([AddObject(x, mine.name, mine.fields)], {});
      var theirReq := Request([AddObject(x, theirs.name, theirs.fields)], {});
      var end := Run(judge, sys, BeatenToIt(a, b, mineReq, theirReq));
      && |end.procs| == |sys.procs| && end.procs[a].phase == Idle(Some(AlreadyThere(|sys.versions|)))
      && |end.versions| == |sys.versions| + 1 && Lookup(end.versions[|sys.versions|], x) == Some(theirs) != Some(mine)
  {
    var mineOps, theirOps := [AddObject(x, mine.name, mine.fields)], [AddObject(x, theirs.name, theirs.fields)];
    var s := Head(sys.versions).structure;
    assert mineOps[1..] == [] && theirOps[1..] == [];
    assert Apply(mineOps, s) == Some(s[x := mine]);
    assert Apply(theirOps, s) == Some(s[x := theirs]);
    NoOpDropsContent(judge, sys, a, b, Request(mineOps, {}), Request(theirOps, {}));
    hide Run, Step, BeatenToIt;
  }

  /** Every request of the run gives x one content, and nothing updates it. */
  predicate AllFaithful(actions: seq<Action>, x: string, item: Item) {
    forall a :: a in actions && a.Start? ==> Faithful(a.request.ops, x, item)
  }

  predicate ProcessHolds(p: Process, x: string, item: Item) {
    Holds(p.copy.structure, x, item) && Holds(p.base, x, item) && Faithful(p.request.ops, x, item)
  }

  ghost predicate AllHold(sys: System, x: string, item: Item) {
    && (forall v :: 0 <= v < |sys.versions| ==> Holds(sys.versions[v], x, item))
    && forall w :: 0 <= w < |sys.procs| ==> ProcessHolds(sys.procs[w], x, item)
  }

  lemma HoldStep(judge: Judge, sys: System, a: Action, x: string, item: Item)
    requires AllHold(sys, x, item) && (a.Start? ==> Faithful(a.request.ops, x, item))
    ensures AllHold(Step(judge, sys, a), x, item)
  {
    if Enabled(sys, a) {
      var p := sys.procs[a.who];
      if Apply(p.request.ops, p.base).Some? {
        FaithfulKeeps(p.request.ops, p.base, x, item);
      }
      assert ProcessHolds(p, x, item);
    }
    hide Check, Apply, AlreadyApplied, Faithful, Holds;
  }

  lemma {:induction false} HoldRun(judge: Judge, sys: System, actions: seq<Action>, x: string, item: Item)
    requires AllHold(sys, x, item) && AllFaithful(actions, x, item)
    ensures AllHold(Run(judge, sys, actions), x, item)
    decreases |actions|
  {
    if actions != [] {
      assert actions[0] in actions && forall a :: a in actions[1..] ==> a in actions;
      HoldStep(judge, sys, actions[0], x, item);
      HoldRun(judge, Step(judge, sys, actions[0]), actions[1..], x, item);
    }
    hide Step, AllHold, Faithful;
  }

  /** Then a no-op answer to a request that adds x is true of its content. */
  lemma NoOpKeepsContent(judge: Judge, first: System, actions: seq<Action>, w: nat, x: string, item: Item)
    requires Init(first) && w < |first.procs| && AllHold(first, x, item) && AllFaithful(actions, x, item)
    ensures var end := Run(judge, first, actions);
      |end.procs| == |first.procs| &&
      match end.procs[w].phase
      case Idle(Some(AlreadyThere(version))) =>
        version < |end.versions|
        && forall op :: op in end.procs[w].request.ops && op.AddObject? && op.id == x ==>
             Lookup(end.versions[version], x) == Some(item) && item == Object(op.name, op.fields)
      case _ => true
  {
    InitOk(judge, first);
    RunKeeps(judge, first, actions);
    NoOpIsThere(judge, first, actions, w);
    HoldRun(judge, first, actions, x, item);
    var end := Run(judge, first, actions);
    assert ProcessHolds(end.procs[w], x, item);
    forall op | op in end.procs[w].request.ops && op.AddObject? && op.id == x
      ensures item == Object(op.name, op.fields)
    {
    }
    hide Run, Apply, Check, ProcessOk;
  }
}
