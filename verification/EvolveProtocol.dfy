/** Any number of processes evolving one session, each through its own copy. */
module EvolveProtocol {
  import opened Wrappers
  import opened Evolution
  import opened EvolveHandler

  // ---------------------------------------------------------------------
  // The machine
  // ---------------------------------------------------------------------

  datatype Phase =
    | Idle(last: Option<Outcome>)
    | Checked        // the read copy passed the dry run and both checks
    | Ready          // reloaded; about to open a transaction
    | InTransaction  // executed on the own copy; about to commit
    | BackingOff     // refused and aborted; asleep

  /** base is the structure the operation was built on, read the version the
      copy had when the call began. refused is the request of a call that gave
      up, as long as the copy still holds its result; begun is what refused
      was when the present call began; since is how many versions there were when the call first reloaded. */
  datatype Process = Process(
    phase: Phase, copy: Copy, activeTransaction: bool, request: Request,
    base: Structure, read: nat, refused: Option<Request>, begun: Option<Request>, since: nat, attempt: nat, tries: nat)

  /** How version i + 1 came about is recorded in entry i. */
  datatype Entry = Entry(request: Request, base: Structure, read: nat, begun: Option<Request>, attempt: nat)

  datatype System = System(versions: seq<Structure>, log: seq<Entry>, procs: seq<Process>)

  datatype Action =
    | Start(who: nat, request: Request)
    | ReloadFirst(who: nat)
    | Begin(who: nat)
    | Commit(who: nat)
    | Retry(who: nat)
    | Refresh(who: nat)
    | Restart(who: nat)

  function Started(judge: Judge, versions: seq<Structure>, p: Process, request: Request): Process
    requires versions != []
  {
    var q := p.(request := request, base := p.copy.structure, read := p.copy.version, begun := p.refused,
                attempt := 0, tries := 0);
    if request.ops == [] then q.(phase := Idle(Some(NoOperations)))
    else
      var refusal := Check(judge, request, p.copy.structure);
      q.(phase := if refusal.Some? then Idle(refusal) else Checked)
  }

  function Reloaded(versions: seq<Structure>, p: Process): Process
    requires versions != []
  {
    p.(copy := Head(versions), refused := None, since := |versions|, phase := Ready)
  }

  /** begin_transaction raises if one is active already. */
  function Begun(p: Process): Process {
    if p.activeTransaction then p.(phase := Idle(Some(TransactionClash)))
    else match Apply(p.request.ops, p.base)
      case None => p.(phase := Idle(Some(EvolutionFailed)))
      case Some(result) =>
        p.(activeTransaction := true, copy := p.copy.(structure := result), phase := InTransaction)
  }

  predicate Wins(versions: seq<Structure>, p: Process) {
    p.copy.version == |versions| - 1
  }

  function CommitDone(versions: seq<Structure>, p: Process): Process {
    var q := p.(activeTransaction := false, tries := p.tries + 1);
    if Wins(versions, p) then
      q.(copy := p.copy.(version := |versions|), phase := Idle(Some(Committed(|versions|, p.attempt))))
    else if p.attempt >= MAX_COMMIT_RETRIES then
      q.(refused := Some(p.request), phase := Idle(Some(ConcurrentModification)))
    else q.(phase := BackingOff)
  }

  function Retried(judge: Judge, versions: seq<Structure>, p: Process): Process
    requires versions != []
  {
    var q := p.(copy := Head(versions), refused := None);
    if AlreadyApplied(q.copy.structure, p.request.ops) then q.(phase := Idle(Some(AlreadyThere(q.copy.version))))
    else
      var refusal := Check(judge, p.request, q.copy.structure);
      q.(phase := if refusal.Some? then Idle(refusal) else Ready, base := q.copy.structure, attempt := p.attempt + 1)
  }

  function EntryOf(p: Process): Entry {
    Entry(p.request, p.base, p.read, p.begun, p.attempt)
  }

  predicate Enabled(sys: System, a: Action) {
    && a.who < |sys.procs| && sys.versions != []
    && match a
       case Start(_, _) | Refresh(_) => sys.procs[a.who].phase.Idle?
       case ReloadFirst(_) => sys.procs[a.who].phase.Checked?
       case Begin(_) => sys.procs[a.who].phase.Ready?
       case Commit(_) => sys.procs[a.who].phase.InTransaction?
       case Retry(_) => sys.procs[a.who].phase.BackingOff?
       case Restart(_) => true
  }

  function Moved(judge: Judge, versions: seq<Structure>, p: Process, a: Action): Process
    requires versions != []
  {
    match a
    case Start(_, request) => Started(judge, versions, p, request)
    case ReloadFirst(_) => Reloaded(versions, p)
    case Begin(_) => Begun(p)
    case Commit(_) => CommitDone(versions, p)
    case Retry(_) => Retried(judge, versions, p)
    case Refresh(_) => p.(copy := Head(versions), refused := None)
    case Restart(_) => p.(copy := Head(versions), refused := None, activeTransaction := false, phase := Idle(None))
  }

  /** One step of one process; a step that is not due changes nothing. */
  function Step(judge: Judge, sys: System, a: Action): System {
    if !Enabled(sys, a) then sys
    else
      var p := sys.procs[a.who];
      var lands := a.Commit? && Wins(sys.versions, p);
      System(if lands then sys.versions + [p.copy.structure] else sys.versions,
             if lands then sys.log + [EntryOf(p)] else sys.log,
             sys.procs[a.who := Moved(judge, sys.versions, p, a)])
  }

  function Run(judge: Judge, sys: System, actions: seq<Action>): System
    decreases |actions|
  {
    if actions == [] then sys else Run(judge, Step(judge, sys, actions[0]), actions[1..])
  }

  lemma RunNone(judge: Judge, sys: System)
    ensures Run(judge, sys, []) == sys
  {
  }

  lemma RunOne(judge: Judge, sys: System, a: Action, rest: seq<Action>)
    ensures Run(judge, sys, [a] + rest) == Run(judge, Step(judge, sys, a), rest)
  {
    assert ([a] + rest)[1..] == rest;
  }

  lemma {:induction false} RunAppend(judge: Judge, sys: System, xs: seq<Action>, ys: seq<Action>)
    ensures Run(judge, sys, xs + ys) == Run(judge, Run(judge, sys, xs), ys)
    decreases |xs|
  {
    if xs == [] {
      assert xs + ys == ys;
    } else {
      assert (xs + ys)[1..] == xs[1..] + ys;
      RunAppend(judge, Step(judge, sys, xs[0]), xs[1..], ys);
    }
  }

  // ---------------------------------------------------------------------
  // What every step keeps
  // ---------------------------------------------------------------------

  /** What a copy of version v holds: that version, or the result of a call
      that gave up on it. */
  predicate Held(versions: seq<Structure>, held: Structure, v: nat, refused: Option<Request>) {
    v < |versions| &&
    match refused
    case None => held == versions[v]
    case Some(request) => Apply(request.ops, versions[v]) == Some(held)
  }

  /** What entry i of the log says about version i + 1. */
  ghost predicate Explains(judge: Judge, versions: seq<Structure>, log: seq<Entry>, i: nat)
    requires i < |log| && |versions| == |log| + 1
  {
    var e := log[i];
    && Apply(e.request.ops, e.base) == Some(versions[i + 1])
    && judge(versions[i + 1], e.request.extensions).Accepted?
    && e.attempt <= MAX_COMMIT_RETRIES
    && (if e.attempt > 0 then e.base == versions[i] else e.read <= i && Held(versions, e.base, e.read, e.begun))
  }

  ghost predicate StoreOk(judge: Judge, versions: seq<Structure>, log: seq<Entry>) {
    && |versions| == |log| + 1
    && forall i :: 0 <= i < |log| ==> Explains(judge, versions, log, i)
  }

  predicate InStep(versions: seq<Structure>, copy: Copy) {
    copy.version < |versions| && copy.structure == versions[copy.version]
  }

  /** A call gives up only after six tries, each beaten by a new version. */
  ghost predicate IdleOk(versions: seq<Structure>, p: Process, last: Option<Outcome>) {
    && (last == Some(ConcurrentModification) ==>
          p.tries == MAX_COMMIT_RETRIES + 1 && |versions| >= p.since + MAX_COMMIT_RETRIES + 1)
    && last != Some(TransactionClash)
    && (last.Some? && last.value.AlreadyThere? ==>
          last.value.version < |versions| && AlreadyApplied(versions[last.value.version], p.request.ops))
  }

  /** A call between its checks and its outcome. */
  ghost predicate CallOk(judge: Judge, versions: seq<Structure>, p: Process) {
    && Check(judge, p.request, p.base).None?
    && (p.attempt == 0 ==> p.read <= p.copy.version && Held(versions, p.base, p.read, p.begun))
  }

  /** Each earlier attempt was beaten by at least one new version. */
  ghost predicate AttemptOk(versions: seq<Structure>, p: Process)
    requires p.copy.version < |versions|
  {
    && p.tries == p.attempt <= MAX_COMMIT_RETRIES && p.refused.None?
    && p.since + p.attempt <= p.copy.version + 1
    && (p.attempt > 0 ==> p.base == versions[p.copy.version])
  }

  ghost predicate ProcessOk(judge: Judge, versions: seq<Structure>, p: Process) {
    && p.copy.version < |versions| && p.tries <= MAX_COMMIT_RETRIES + 1
    && (p.activeTransaction <==> p.phase.InTransaction?)
    && match p.phase
       case Idle(last) => IdleOk(versions, p, last) && Held(versions, p.copy.structure, p.copy.version, p.refused)
       case Checked => p.tries == p.attempt == 0 && CallOk(judge, versions, p)
       case Ready => InStep(versions, p.copy) && CallOk(judge, versions, p) && AttemptOk(versions, p)
       case InTransaction =>
         CallOk(judge, versions, p) && AttemptOk(versions, p) && Apply(p.request.ops, p.base) == Some(p.copy.structure)
       case BackingOff =>
         p.tries == p.attempt + 1 <= MAX_COMMIT_RETRIES && p.since + p.tries <= |versions|
  }

  ghost predicate Inv(judge: Judge, sys: System) {
    && StoreOk(judge, sys.versions, sys.log)
    && forall w :: 0 <= w < |sys.procs| ==> ProcessOk(judge, sys.versions, sys.procs[w])
  }

  /** One stored version; every process idle with a current copy. */
  ghost predicate Init(sys: System) {
    && |sys.versions| == 1 && sys.log == []
    && forall w :: 0 <= w < |sys.procs| ==>
         var p := sys.procs[w];
         && p.phase == Idle(None) && !p.activeTransaction && p.copy == Head(sys.versions)
         && p.refused.None? && p.tries == 0
  }

  lemma InitOk(judge: Judge, sys: System)
    requires Init(sys)
    ensures Inv(judge, sys)
  {
  }

  /** A new version disturbs no process. */
  lemma ProcessGrows(judge: Judge, versions: seq<Structure>, next: Structure, p: Process)
    requires ProcessOk(judge, versions, p)
    ensures ProcessOk(judge, versions + [next], p)
  {
    hide Check, Apply, AlreadyApplied;
  }

  lemma MoveKeeps(judge: Judge, versions: seq<Structure>, p: Process, a: Action)
    requires versions != [] && ProcessOk(judge, versions, p)
    requires match a
      case Start(_, _) | Refresh(_) => p.phase.Idle?
      case ReloadFirst(_) => p.phase.Checked?
      case Begin(_) => p.phase.Ready?
      case Commit(_) => p.phase.InTransaction? && !Wins(versions, p)
      case Retry(_) => p.phase.BackingOff?
      case Restart(_) => true
    ensures ProcessOk(judge, versions, Moved(judge, versions, p, a))
  {
    hide Apply, AlreadyApplied;
    CheckMeans(judge, p.request, p.base);
    CheckMeans(judge, p.request, Head(versions).structure);
    if a.Start? {
      CheckMeans(judge, a.request, p.copy.structure);
    }
    hide Check;
  }

  /** A commit that wins is explained, and its process is in step again. */
  lemma WinKeeps(judge: Judge, versions: seq<Structure>, log: seq<Entry>, p: Process)
    requires StoreOk(judge, versions, log) && ProcessOk(judge, versions, p)
    requires p.phase.InTransaction? && Wins(versions, p)
    ensures StoreOk(judge, versions + [p.copy.structure], log + [EntryOf(p)])
    ensures ProcessOk(judge, versions + [p.copy.structure], CommitDone(versions, p))
  {
    CheckMeans(judge, p.request, p.base);
    hide Apply, AlreadyApplied, Check;
    var versions', log' := versions + [p.copy.structure], log + [EntryOf(p)];
    forall i | 0 <= i < |log'|
      ensures Explains(judge, versions', log', i)
    {
      if i < |log| {
        assert Explains(judge, versions, log, i);
      }
    }
  }

  /** The invariant is inductive; versions and log only ever grow. */
  lemma StepKeeps(judge: Judge, sys: System, a: Action)
    requires Inv(judge, sys)
    ensures var next := Step(judge, sys, a);
      Inv(judge, next) && sys.versions <= next.versions && sys.log <= next.log && |next.procs| == |sys.procs|
  {
    if Enabled(sys, a) {
      var p := sys.procs[a.who];
      if a.Commit? && Wins(sys.versions, p) {
        WinKeeps(judge, sys.versions, sys.log, p);
        forall w | 0 <= w < |sys.procs|
          ensures ProcessOk(judge, sys.versions + [p.copy.structure], sys.procs[w])
        {
          ProcessGrows(judge, sys.versions, p.copy.structure, sys.procs[w]);
        }
      } else {
        MoveKeeps(judge, sys.versions, p, a);
      }
      hide ProcessOk, StoreOk, CommitDone;
    }
  }

  lemma {:induction false} RunKeeps(judge: Judge, sys: System, actions: seq<Action>)
    requires Inv(judge, sys)
    ensures var end := Run(judge, sys, actions);
      Inv(judge, end) && sys.versions <= end.versions && sys.log <= end.log && |end.procs| == |sys.procs|
    decreases |actions|
  {
    hide Inv, Step;
    if actions != [] {
      StepKeeps(judge, sys, actions[0]);
      RunKeeps(judge, Step(judge, sys, actions[0]), actions[1..]);
    }
  }

  // ---------------------------------------------------------------------
  // Safety of every run
  // ---------------------------------------------------------------------

  /** Whatever the interleaving, every committed version is its operations
      applied to the recorded base and passed both checks; a retry's base is
      the version it directly follows, and attempt 0's is the version read. */
  lemma EveryCommitExplained(judge: Judge, first: System, actions: seq<Action>, i: nat)
    requires Init(first)
    requires i < |Run(judge, first, actions).log|
    ensures var end := Run(judge, first, actions);
      |end.versions| == |end.log| + 1 && Explains(judge, end.versions, end.log, i)
  {
    InitOk(judge, first);
    RunKeeps(judge, first, actions);
  }

  /** The commit's base is the version it follows: true of every retry, and
      of attempt 0 when the head did not move between read and reload. */
  predicate OnHead(e: Entry, i: nat) {
    e.attempt > 0 || (e.begun.None? && e.read == i)
  }

  /** All logged operations, in order, from the first version. */
  function Replayed(log: seq<Entry>, first: Structure): Option<Structure> {
    if log == [] then Some(first)
    else match Replayed(log[..|log| - 1], first)
      case None => None
      case Some(s) => Apply(log[|log| - 1].request.ops, s)
  }

  lemma {:induction false} SerialUpTo(judge: Judge, versions: seq<Structure>, log: seq<Entry>, n: nat)
    requires StoreOk(judge, versions, log) && n <= |log|
    requires forall i :: 0 <= i < n ==> OnHead(log[i], i)
    ensures Replayed(log[..n], versions[0]) == Some(versions[n])
  {
    if n > 0 {
      SerialUpTo(judge, versions, log, n - 1);
      assert log[..n][..n - 1] == log[..n - 1];
      assert Explains(judge, versions, log, n - 1);
      hide Apply;
    }
  }

  /** No committed write is lost: while every commit is on its head, the store
      is the serial application of all of them in commit order. */
  lemma NoWriteLost(judge: Judge, first: System, actions: seq<Action>, n: nat)
    requires Init(first)
    requires var end := Run(judge, first, actions);
      n <= |end.log| && forall i :: 0 <= i < n ==> OnHead(end.log[i], i)
    ensures var end := Run(judge, first, actions);
      |end.versions| == |end.log| + 1 && Replayed(end.log[..n], first.versions[0]) == Some(end.versions[n])
  {
    InitOk(judge, first);
    RunKeeps(judge, first, actions);
    var end := Run(judge, first, actions);
    SerialUpTo(judge, end.versions, end.log, n);
  }

  /** What a commit does to an id its operations spare: it puts back what its
      base has. A commit on its head keeps it; a stale attempt 0, built on the
      version read or on a refused result, keeps it exactly when base and head
      agree on it. */
  lemma KeepsOthersExactly(judge: Judge, first: System, actions: seq<Action>, i: nat, x: string)
    requires Init(first)
    requires var end := Run(judge, first, actions); i < |end.log| && Spares(end.log[i].request.ops, end.log[i].base, x)
    ensures var end := Run(judge, first, actions);
      var e := end.log[i];
      && |end.versions| == |end.log| + 1
      && (Lookup(end.versions[i + 1], x) == Lookup(end.versions[i], x)
          <==> Lookup(e.base, x) == Lookup(end.versions[i], x))
      && (OnHead(e, i) ==> e.base == end.versions[i])
      && (!OnHead(e, i) ==> e.read <= i && Held(end.versions, e.base, e.read, e.begun))
  {
    EveryCommitExplained(judge, first, actions, i);
    var e := Run(judge, first, actions).log[i];
    ApplyFrame(e.request.ops, e.base, x);
    hide Apply, Lookup, Spares, Run;
  }

  /** A duplicate id is caught against the base: a commit adds only what its
      base lacks, or what its own cascade has vacated. For a commit on its
      head that is the version it follows; a stale attempt 0 looks at what it
      read instead. */
  lemma DuplicatesCaughtOnHead(judge: Judge, first: System, actions: seq<Action>, i: nat, k: nat)
    requires Init(first)
    requires var end := Run(judge, first, actions);
      i < |end.log| && k < |end.log[i].request.ops|
      && Adds(end.log[i].request.ops[k]) && DistinctIds(end.log[i].request.ops)
    ensures var end := Run(judge, first, actions);
      var e := end.log[i];
      && |end.versions| == |end.log| + 1
      && (e.request.ops[k].id in e.base ==> Vacated(e.request.ops, e.base, k))
      && (OnHead(e, i) ==> e.base == end.versions[i])
      && (!OnHead(e, i) ==> e.read <= i && Held(end.versions, e.base, e.read, e.begun))
  {
    EveryCommitExplained(judge, first, actions, i);
    var e := Run(judge, first, actions).log[i];
    AddNeedsAbsence(e.request.ops, e.base, k);
    hide Apply, Run, Vacated;
  }

  // ---------------------------------------------------------------------
  // When every base is a stored version
  // ---------------------------------------------------------------------

  /** Every call of the run begins on a copy that equals its version: a process
      whose last call gave up has been refreshed or restarted before. */
  predicate StartsInStep(judge: Judge, sys: System, actions: seq<Action>)
    decreases |actions|
  {
    actions == [] || (
      && (actions[0].Start? && Enabled(sys, actions[0]) ==> InStep(sys.versions, sys.procs[actions[0].who].copy))
      && StartsInStep(judge, Step(judge, sys, actions[0]), actions[1..]))
  }

  /** Calls under way, and commits made, at attempt 0 rest on a version. */
  ghost predicate BasesStored(sys: System) {
    && |sys.versions| == |sys.log| + 1
    && (forall i :: 0 <= i < |sys.log| && sys.log[i].attempt == 0 ==>
          sys.log[i].read <= i && sys.log[i].base == sys.versions[sys.log[i].read])
    && forall w :: 0 <= w < |sys.procs| ==> ProcessRests(sys.versions, sys.procs[w])
  }

  predicate ProcessRests(versions: seq<Structure>, p: Process) {
    (p.phase.Checked? || p.phase.Ready? || p.phase.InTransaction?) && p.attempt == 0 ==>
      p.read < |versions| && p.base == versions[p.read]
  }

  lemma RestsStep(judge: Judge, sys: System, a: Action)
    requires Inv(judge, sys) && BasesStored(sys)
    requires a.Start? && Enabled(sys, a) ==> InStep(sys.versions, sys.procs[a.who].copy)
    ensures BasesStored(Step(judge, sys, a))
  {
    StepKeeps(judge, sys, a);
    if Enabled(sys, a) {
      assert ProcessOk(judge, sys.versions, sys.procs[a.who]);
      assert ProcessRests(sys.versions, sys.procs[a.who]);
    }
    hide Check, Apply, AlreadyApplied, StoreOk;
  }

  lemma {:induction false} RestsRun(judge: Judge, sys: System, actions: seq<Action>)
    requires Inv(judge, sys) && BasesStored(sys) && StartsInStep(judge, sys, actions)
    ensures BasesStored(Run(judge, sys, actions))
    decreases |actions|
  {
    if actions != [] {
      RestsStep(judge, sys, actions[0]);
      StepKeeps(judge, sys, actions[0]);
      RestsRun(judge, Step(judge, sys, actions[0]), actions[1..]);
    }
    hide Step, Inv, BasesStored;
  }

  /** Then every commit is its operations applied to a version of the store. */
  lemma EveryBaseStored(judge: Judge, first: System, actions: seq<Action>, i: nat)
    requires Init(first) && StartsInStep(judge, first, actions) && i < |Run(judge, first, actions).log|
    ensures var end := Run(judge, first, actions);
      var e := end.log[i];
      var v := if e.attempt > 0 then i else e.read;
      && |end.versions| == |end.log| + 1 && v <= i
      && e.base == end.versions[v] && Apply(e.request.ops, end.versions[v]) == Some(end.versions[i + 1])
  {
    EveryCommitExplained(judge, first, actions, i);
    InitOk(judge, first);
    RestsRun(judge, first, actions);
    hide Run, Apply, StartsInStep;
  }

  /** A refresh between calls, and a restart at any time, leave a process with
      the head, no transaction, and nothing of a refused call. */
  lemma RefreshSyncs(judge: Judge, first: System, actions: seq<Action>, a: Action)
    requires Init(first) && a.who < |first.procs|
    requires a.who < |Run(judge, first, actions).procs|
    requires a.Restart? || (a.Refresh? && Run(judge, first, actions).procs[a.who].phase.Idle?)
    ensures var end := Step(judge, Run(judge, first, actions), a);
      && a.who < |end.procs| && end.versions != [] && end.versions == Run(judge, first, actions).versions
      && end.procs[a.who].copy == Head(end.versions) && end.procs[a.who].refused.None?
      && !end.procs[a.who].activeTransaction && end.procs[a.who].phase.Idle?
  {
    InitOk(judge, first);
    RunKeeps(judge, first, actions);
    var sys := Run(judge, first, actions);
    assert ProcessOk(judge, sys.versions, sys.procs[a.who]);
    hide Run, Check, Apply, AlreadyApplied;
  }

  /** At most six commits are tried in a call; none ever opens a transaction
      over another; a call that gives up was beaten by six new versions. */
  lemma CallsAreBounded(judge: Judge, first: System, actions: seq<Action>, w: nat)
    requires Init(first) && w < |first.procs|
    ensures var end := Run(judge, first, actions);
      && |end.procs| == |first.procs|
      && end.procs[w].tries <= 6
      && end.procs[w].phase != Idle(Some(TransactionClash))
      && (end.procs[w].activeTransaction <==> end.procs[w].phase.InTransaction?)
      && (end.procs[w].phase == Idle(Some(ConcurrentModification)) ==>
            end.procs[w].tries == 6 && |end.versions| >= end.procs[w].since + 6)
  {
    InitOk(judge, first);
    RunKeeps(judge, first, actions);
    assert ProcessOk(judge, Run(judge, first, actions).versions, Run(judge, first, actions).procs[w]);
    hide Run, Check, Apply;
  }

  /** A no-op answer is true of a version that was stored. */
  lemma NoOpIsThere(judge: Judge, first: System, actions: seq<Action>, w: nat)
    requires Init(first) && w < |first.procs|
    ensures var end := Run(judge, first, actions);
      |end.procs| == |first.procs| &&
      match end.procs[w].phase
      case Idle(Some(AlreadyThere(version))) =>
        version < |end.versions| && AlreadyApplied(end.versions[version], end.procs[w].request.ops)
      case _ => true
  {
    InitOk(judge, first);
    RunKeeps(judge, first, actions);
    assert ProcessOk(judge, Run(judge, first, actions).versions, Run(judge, first, actions).procs[w]);
    hide Run, Check, Apply;
  }
}
