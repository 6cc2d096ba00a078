/** In every run of the machine, each call of each process ends as the retry
    loop computes from what was stored in between. */
module EvolveCall {
  import opened Wrappers
  import opened Evolution
  import opened EvolveHandler
  import opened EvolveProtocol

  // ---------------------------------------------------------------------
  // One call within a run
  // ---------------------------------------------------------------------

  predicate Working(sys: System, w: nat) {
    w < |sys.procs| && sys.versions != [] && !sys.procs[w].phase.Idle?
  }

  /** The actions, whosever they are, up to the end of w's call, which does not
      crash. */
  predicate OneCall(judge: Judge, sys: System, w: nat, actions: seq<Action>)
    decreases |actions|
  {
    if Working(sys, w) then
      && actions != [] && !(actions[0].who == w && actions[0].Restart?)
      && OneCall(judge, Step(judge, sys, actions[0]), w, actions[1..])
    else actions == []
  }

  /** The action is the point at which w sees the store again, or for the last
      time: a reload, or a commit that ends the call. */
  predicate Closes(judge: Judge, sys: System, w: nat, a: Action) {
    && a.who == w && Enabled(sys, a)
    && (a.ReloadFirst? || a.Retry? || (a.Commit? && Step(judge, sys, a).procs[w].phase.Idle?))
  }

  /** What was stored in each of the call's waits, seen being how many versions
      there were when the present wait began. */
  function Windows(judge: Judge, sys: System, w: nat, actions: seq<Action>, seen: nat): seq<seq<Structure>>
    decreases |actions|
  {
    if actions == [] then []
    else
      var next := Step(judge, sys, actions[0]);
      if Closes(judge, sys, w, actions[0]) && seen <= |sys.versions|
      then [sys.versions[seen..]] + Windows(judge, next, w, actions[1..], |sys.versions|)
      else Windows(judge, next, w, actions[1..], seen)
  }

  /** The waits of a call as a function of their number. */
  function Waits(windows: seq<seq<Structure>>): nat -> seq<Structure> {
    (k: nat) => if k < |windows| then windows[k] else []
  }

  predicate Ended(end: System, w: nat, e: Ending) {
    && w < |end.procs| && end.procs[w].phase == Idle(Some(e.outcome))
    && end.versions == e.versions && end.procs[w].copy == e.copy
  }

  // ---------------------------------------------------------------------
  // The call under way
  // ---------------------------------------------------------------------

  /** past holds the waits that are over. */
  predicate UnderWay(judge: Judge, sys: System, w: nat, seen: nat, past: seq<seq<Structure>>) {
    && Working(sys, w) && 0 < seen <= |sys.versions|
    && var p := sys.procs[w];
       var head := Head(sys.versions[..seen]);
       && Check(judge, p.request, p.base).None?
       && p.attempt <= MAX_COMMIT_RETRIES && (p.activeTransaction <==> p.phase.InTransaction?)
       && match p.phase
          case Checked => p.attempt == 0 && past == []
          case Ready => |past| == p.attempt + 1 && p.copy == head
          case InTransaction =>
            && |past| == p.attempt + 1 && p.copy.version == head.version
            && Apply(p.request.ops, p.base) == Some(p.copy.structure)
          case BackingOff => |past| == p.attempt + 1 && p.attempt < MAX_COMMIT_RETRIES && |sys.versions| > seen
          case Idle(_) => false
  }

  /** What the loop makes of the call from here, given all of its waits. */
  function Expected(judge: Judge, sys: System, w: nat, seen: nat, windows: seq<seq<Structure>>): Ending
    requires Working(sys, w) && 0 < seen <= |sys.versions| && sys.procs[w].attempt <= MAX_COMMIT_RETRIES
  {
    var p, now := sys.procs[w], sys.versions[..seen];
    if p.phase.Checked? then
      var later := now + Waits(windows)(0);
      Attempts(judge, p.request, Waits(windows), later, Head(later), p.base, 0)
    else Attempts(judge, p.request, Waits(windows), now, Head(now), p.base, p.attempt)
  }

  /** A step that is not one of w's leaves the call where it is. */
  lemma OthersStep(judge: Judge, sys: System, w: nat, a: Action)
    requires Working(sys, w) && (a.who != w || !Enabled(sys, a))
    ensures var next := Step(judge, sys, a);
      sys.versions <= next.versions && |next.procs| == |sys.procs| && next.procs[w] == sys.procs[w]
    ensures !Closes(judge, sys, w, a)
  {
    hide Moved;
  }

  lemma ReloadStep(judge: Judge, sys: System, w: nat, seen: nat, past: seq<seq<Structure>>)
    requires UnderWay(judge, sys, w, seen, past) && sys.procs[w].phase.Checked?
    ensures var next := Step(judge, sys, ReloadFirst(w));
      && next.versions == sys.versions && Closes(judge, sys, w, ReloadFirst(w))
      && UnderWay(judge, next, w, |sys.versions|, [sys.versions[seen..]])
      && next.procs[w].phase.Ready? && next.procs[w].base == sys.procs[w].base
      && next.procs[w].request == sys.procs[w].request && next.procs[w].attempt == 0
  {
    assert sys.versions[..|sys.versions|] == sys.versions;
    hide Apply, Check, AlreadyApplied;
  }

  lemma BeginStep(judge: Judge, sys: System, w: nat, seen: nat, past: seq<seq<Structure>>)
    requires UnderWay(judge, sys, w, seen, past) && sys.procs[w].phase.Ready?
    ensures var next := Step(judge, sys, Begin(w));
      && next.versions == sys.versions && !Closes(judge, sys, w, Begin(w))
      && UnderWay(judge, next, w, seen, past)
      && next.procs[w].phase.InTransaction? && next.procs[w].base == sys.procs[w].base
      && next.procs[w].request == sys.procs[w].request && next.procs[w].attempt == sys.procs[w].attempt
  {
    CheckMeans(judge, sys.procs[w].request, sys.procs[w].base);
    hide Apply, Check, AlreadyApplied;
  }

  /** A commit ends the call when nothing was stored since, or after the last
      attempt; otherwise the call backs off. */
  lemma CommitStep(judge: Judge, sys: System, w: nat, seen: nat, past: seq<seq<Structure>>)
    requires UnderWay(judge, sys, w, seen, past) && sys.procs[w].phase.InTransaction?
    ensures var next, p := Step(judge, sys, Commit(w)), sys.procs[w];
      var windows := past + [sys.versions[seen..]];
      if |sys.versions| == seen || p.attempt == MAX_COMMIT_RETRIES
      then Closes(judge, sys, w, Commit(w)) && !Working(next, w)
           && Ended(next, w, Expected(judge, sys, w, seen, windows))
           && Expected(judge, sys, w, seen, windows).waits == |windows|
      else !Closes(judge, sys, w, Commit(w)) && next.versions == sys.versions && Working(next, w)
           && UnderWay(judge, next, w, seen, past) && next.procs[w].phase.BackingOff?
           && next.procs[w].base == p.base && next.procs[w].request == p.request && next.procs[w].attempt == p.attempt
  {
    var p, windows := sys.procs[w], past + [sys.versions[seen..]];
    assert Waits(windows)(p.attempt + 1) == sys.versions[seen..];
    assert sys.versions == sys.versions[..seen] + sys.versions[seen..];
    hide Apply, Check, AlreadyApplied;
  }

  /** What the loop makes of a beaten attempt. */
  lemma BeatenExpected(judge: Judge, sys: System, w: nat, seen: nat, windows: seq<seq<Structure>>)
    requires Working(sys, w) && 0 < seen < |sys.versions|
    requires var p := sys.procs[w];
      && p.phase.BackingOff? && p.attempt < MAX_COMMIT_RETRIES && Apply(p.request.ops, p.base).Some?
      && Waits(windows)(p.attempt + 1) == sys.versions[seen..]
    ensures var p, head := sys.procs[w], Head(sys.versions);
      var refusal := Check(judge, p.request, head.structure);
      Expected(judge, sys, w, seen, windows)
        == if AlreadyApplied(head.structure, p.request.ops)
           then Ending(AlreadyThere(head.version), sys.versions, head, p.attempt + 2)
           else if refusal.Some? then Ending(refusal.value, sys.versions, head, p.attempt + 2)
           else Attempts(judge, p.request, Waits(windows), sys.versions, head, head.structure, p.attempt + 1)
  {
    assert sys.versions == sys.versions[..seen] + sys.versions[seen..];
    hide Apply, Check, AlreadyApplied, Waits;
  }

  lemma RetryMoves(judge: Judge, sys: System, w: nat, seen: nat, past: seq<seq<Structure>>)
    requires UnderWay(judge, sys, w, seen, past) && sys.procs[w].phase.BackingOff?
    ensures var next, p, head := Step(judge, sys, Retry(w)), sys.procs[w], Head(sys.versions);
      var refusal := Check(judge, p.request, head.structure);
      && Closes(judge, sys, w, Retry(w)) && next.versions == sys.versions && |next.procs| == |sys.procs|
      && next.procs[w].copy == head
      && next.procs[w].phase == (
           if AlreadyApplied(head.structure, p.request.ops) then Idle(Some(AlreadyThere(head.version)))
           else if refusal.Some? then Idle(refusal) else Ready)
      && (next.procs[w].phase.Ready? ==>
            UnderWay(judge, next, w, |sys.versions|, past + [sys.versions[seen..]])
            && next.procs[w].base == head.structure && next.procs[w].request == p.request
            && next.procs[w].attempt == p.attempt + 1)
  {
    assert sys.versions[..|sys.versions|] == sys.versions;
    hide Apply, Check, AlreadyApplied;
  }

  /** After the backoff: the call stops on the head, or goes on from it. */
  lemma RetryStep(judge: Judge, sys: System, w: nat, seen: nat, past: seq<seq<Structure>>, more: seq<seq<Structure>>)
    requires UnderWay(judge, sys, w, seen, past) && sys.procs[w].phase.BackingOff?
    ensures var next := Step(judge, sys, Retry(w));
      var windows := past + [sys.versions[seen..]];
      && Closes(judge, sys, w, Retry(w)) && next.versions == sys.versions && |next.procs| == |sys.procs|
      && if next.procs[w].phase.Ready?
         then UnderWay(judge, next, w, |sys.versions|, windows)
              && Expected(judge, sys, w, seen, windows + more)
                   == Expected(judge, next, w, |sys.versions|, windows + more)
         else !Working(next, w) && Ended(next, w, Expected(judge, sys, w, seen, windows))
              && Expected(judge, sys, w, seen, windows).waits == |windows|
  {
    var p, windows := sys.procs[w], past + [sys.versions[seen..]];
    CheckMeans(judge, p.request, p.base);
    RetryMoves(judge, sys, w, seen, past);
    assert Waits(windows)(p.attempt + 1) == Waits(windows + more)(p.attempt + 1) == sys.versions[seen..];
    BeatenExpected(judge, sys, w, seen, windows);
    BeatenExpected(judge, sys, w, seen, windows + more);
    assert sys.versions[..|sys.versions|] == sys.versions;
    hide Apply, Check, AlreadyApplied, Attempts, Step, Waits;
  }

  lemma WindowsCons(judge: Judge, sys: System, w: nat, actions: seq<Action>, seen: nat)
    requires actions != [] && seen <= |sys.versions|
    ensures var next := Step(judge, sys, actions[0]);
      Windows(judge, sys, w, actions, seen)
        == if Closes(judge, sys, w, actions[0])
           then [sys.versions[seen..]] + Windows(judge, next, w, actions[1..], |sys.versions|)
           else Windows(judge, next, w, actions[1..], seen)
  {
  }

  lemma FirstOf(judge: Judge, sys: System, w: nat, seen: nat, past: seq<seq<Structure>>, actions: seq<Action>)
    requires UnderWay(judge, sys, w, seen, past) && OneCall(judge, sys, w, actions)
    ensures Working(sys, w) && 0 < seen <= |sys.versions| && sys.procs[w].attempt <= MAX_COMMIT_RETRIES
    ensures sys.procs[w].phase.Checked? ==> past == []
    ensures actions != [] && !(actions[0].who == w && actions[0].Restart?)
    ensures OneCall(judge, Step(judge, sys, actions[0]), w, actions[1..])
  {
  }

  /** From anywhere in a call, whatever follows. */
  lemma {:induction false} RestFollows(judge: Judge, sys: System, w: nat, seen: nat, past: seq<seq<Structure>>,
                                       actions: seq<Action>)
    requires UnderWay(judge, sys, w, seen, past) && OneCall(judge, sys, w, actions)
    ensures var windows := past + Windows(judge, sys, w, actions, seen);
      var e := Expected(judge, sys, w, seen, windows);
      Ended(Run(judge, sys, actions), w, e) && e.waits == |windows|
    decreases |actions|
  {
    hide Step, Run, UnderWay, Attempts, OneCall, Windows, Closes;
    FirstOf(judge, sys, w, seen, past, actions);
    var a, rest := actions[0], actions[1..];
    var next := Step(judge, sys, a);
    WindowsCons(judge, sys, w, actions, seen);
    RunOne(judge, sys, a, rest);
    assert [a] + rest == actions;
    if a.who != w || !Enabled(sys, a) {
      OthersStep(judge, sys, w, a);
      OthersUnderWay(judge, sys, next, w, seen, past);
      RestFollows(judge, next, w, seen, past, rest);
    } else {
      var window := sys.versions[seen..];
      match a {
        case ReloadFirst(_) =>
          ReloadStep(judge, sys, w, seen, past);
          RestFollows(judge, next, w, |sys.versions|, [window], rest);
          var more := Windows(judge, next, w, rest, |sys.versions|);
          assert past + ([window] + more) == [window] + more;
          assert sys.versions[..seen] + window == sys.versions == next.versions[..|sys.versions|];
        case Begin(_) =>
          BeginStep(judge, sys, w, seen, past);
          RestFollows(judge, next, w, seen, past, rest);
        case Commit(_) =>
          CommitStep(judge, sys, w, seen, past);
          if Working(next, w) {
            RestFollows(judge, next, w, seen, past, rest);
          } else {
            Over(judge, next, w, rest);
            assert Windows(judge, sys, w, actions, seen) == [window];
          }
        case Retry(_) =>
          var more := Windows(judge, next, w, rest, |sys.versions|);
          RetryStep(judge, sys, w, seen, past, more);
          assert past + ([window] + more) == (past + [window]) + more;
          if next.procs[w].phase.Ready? {
            RestFollows(judge, next, w, |sys.versions|, past + [window], rest);
          } else {
            Over(judge, next, w, rest);
            assert Windows(judge, sys, w, actions, seen) == [window];
          }
        case _ =>
      }
    }
  }

  lemma Over(judge: Judge, sys: System, w: nat, rest: seq<Action>)
    requires !Working(sys, w) && OneCall(judge, sys, w, rest)
    ensures rest == [] && Run(judge, sys, rest) == sys && forall seen :: Windows(judge, sys, w, rest, seen) == []
  {
  }

  lemma OthersUnderWay(judge: Judge, sys: System, next: System, w: nat, seen: nat, past: seq<seq<Structure>>)
    requires UnderWay(judge, sys, w, seen, past)
    requires sys.versions <= next.versions && |next.procs| == |sys.procs| && next.procs[w] == sys.procs[w]
    ensures UnderWay(judge, next, w, seen, past)
    ensures next.versions[..seen] == sys.versions[..seen]
  {
    assert next.versions[..seen] == sys.versions[..seen];
    hide Check, Apply;
  }

  /** Start: the call is over at once, or its waits begin. */
  lemma StartStep(judge: Judge, sys: System, w: nat, request: Request)
    requires w < |sys.procs| && sys.versions != [] && sys.procs[w].phase.Idle? && !sys.procs[w].activeTransaction
    ensures var next, copy := Step(judge, sys, Start(w, request)), sys.procs[w].copy;
      && next.versions == sys.versions && |next.procs| == |sys.procs|
      && if Working(next, w)
         then UnderWay(judge, next, w, |sys.versions|, []) && next.procs[w].phase.Checked?
              && next.procs[w].base == copy.structure && next.procs[w].request == request
              && request.ops != [] && Check(judge, request, copy.structure).None?
         else forall others :: Ended(next, w, Called(judge, request, others, sys.versions, copy))
                               && Called(judge, request, others, sys.versions, copy).waits == 0
  {
    hide Check, Apply, Attempts;
  }

  /** Every run: whenever an idle process starts a call that does not crash, and
      whatever everybody does until it ends, the call ends with the outcome,
      the store and the copy that the retry loop computes from its request, the
      version it started from, and what was stored in each of its waits. */
  lemma CallIsPath(judge: Judge, sys: System, w: nat, request: Request, actions: seq<Action>)
    requires w < |sys.procs| && sys.versions != [] && sys.procs[w].phase.Idle? && !sys.procs[w].activeTransaction
    requires OneCall(judge, Step(judge, sys, Start(w, request)), w, actions)
    ensures var started := Step(judge, sys, Start(w, request));
      var windows := Windows(judge, started, w, actions, |sys.versions|);
      var e := Called(judge, request, Waits(windows), sys.versions, sys.procs[w].copy);
      && Run(judge, sys, [Start(w, request)] + actions) == Run(judge, started, actions)
      && Ended(Run(judge, started, actions), w, e) && e.waits == |windows|
  {
    hide Step, UnderWay, OneCall, Attempts, Windows;
    var started := Step(judge, sys, Start(w, request));
    RunOne(judge, sys, Start(w, request), actions);
    StartStep(judge, sys, w, request);
    if Working(started, w) {
      RestFollows(judge, started, w, |sys.versions|, [], actions);
      var windows := Windows(judge, started, w, actions, |sys.versions|);
      assert [] + windows == windows && sys.versions[..|sys.versions|] == sys.versions;
    } else {
      Over(judge, started, w, actions);
      var none: seq<seq<Structure>> := [];
      assert Ended(started, w, Called(judge, request, Waits(none), sys.versions, sys.procs[w].copy));
    }
  }

  // ---------------------------------------------------------------------
  // There is such a run whatever the others do in the waits
  // ---------------------------------------------------------------------

  predicate NotBy(w: nat, actions: seq<Action>) {
    forall a :: a in actions ==> a.who != w
  }

  /** Attempts from k on, with theirs(k + 1) before each commit. */
  function LoopShape(judge: Judge, sys: System, w: nat, theirs: nat -> seq<Action>, k: nat): seq<Action>
    decreases MAX_COMMIT_RETRIES + 1 - k
  {
    if k > MAX_COMMIT_RETRIES then []
    else
      var mine := theirs(k + 1) + [Commit(w)];
      var beaten := Run(judge, Step(judge, sys, Begin(w)), mine);
      var rebased := Step(judge, beaten, Retry(w));
      [Begin(w)] + (mine
        + if !Working(beaten, w) then []
          else [Retry(w)] + if Working(rebased, w) then LoopShape(judge, rebased, w, theirs, k + 1) else [])
  }

  /** A whole call after its start: theirs(0), the reload, and the loop. */
  function CallShape(judge: Judge, started: System, w: nat, theirs: nat -> seq<Action>): seq<Action> {
    if !Working(started, w) then []
    else
      var waited := theirs(0) + [ReloadFirst(w)];
      waited + LoopShape(judge, Run(judge, started, waited), w, theirs, 0)
  }

  /** Others do their stretch, then w makes the step that is due. */
  lemma {:induction false} OneCallThrough(judge: Judge, sys: System, w: nat, seen: nat, past: seq<seq<Structure>>,
                                          others: seq<Action>, a: Action, rest: seq<Action>)
    requires UnderWay(judge, sys, w, seen, past) && NotBy(w, others) && a.who == w && !a.Restart?
    ensures var mid := Run(judge, sys, others);
      && UnderWay(judge, mid, w, seen, past) && mid.procs[w] == sys.procs[w]
      && Run(judge, sys, others + [a]) == Step(judge, mid, a)
      && (OneCall(judge, Step(judge, mid, a), w, rest) ==> OneCall(judge, sys, w, (others + [a]) + rest))
    decreases |others|
  {
    hide Step, UnderWay;
    assert Working(sys, w) by {
      WorkingUnderWay(judge, sys, w, seen, past);
    }
    if others == [] {
      assert others + [a] == [a] + [] && ([a] + []) + rest == [a] + rest && ([a] + rest)[1..] == rest;
      RunOne(judge, sys, a, []);
      RunNone(judge, sys);
      RunNone(judge, Step(judge, sys, a));
    } else {
      var b, more := others[0], others[1..];
      assert b in others && forall c :: c in more ==> c in others;
      var next := Step(judge, sys, b);
      OthersStep(judge, sys, w, b);
      OthersUnderWay(judge, sys, next, w, seen, past);
      OneCallThrough(judge, next, w, seen, past, more, a, rest);
      assert others == [b] + more && others + [a] == [b] + (more + [a]);
      RunOne(judge, sys, b, more);
      RunOne(judge, sys, b, more + [a]);
      assert ((others + [a]) + rest)[1..] == (more + [a]) + rest;
    }
  }

  lemma WorkingUnderWay(judge: Judge, sys: System, w: nat, seen: nat, past: seq<seq<Structure>>)
    requires UnderWay(judge, sys, w, seen, past)
    ensures Working(sys, w) && 0 < seen <= |sys.versions|
  {
  }

  lemma {:induction false} LoopShapeIsOneCall(judge: Judge, sys: System, w: nat, theirs: nat -> seq<Action>, k: nat,
                                              seen: nat, past: seq<seq<Structure>>)
    requires UnderWay(judge, sys, w, seen, past) && sys.procs[w].phase.Ready? && sys.procs[w].attempt == k
    requires k <= MAX_COMMIT_RETRIES && forall j: nat :: NotBy(w, theirs(j))
    ensures OneCall(judge, sys, w, LoopShape(judge, sys, w, theirs, k))
    decreases MAX_COMMIT_RETRIES + 1 - k
  {
    hide Step, Run, UnderWay, Closes, OneCall, LoopShape, Working, Expected;
    WorkingUnderWay(judge, sys, w, seen, past);
    BeginStep(judge, sys, w, seen, past);
    var begun := Step(judge, sys, Begin(w));
    var mid := Run(judge, begun, theirs(k + 1));
    var beaten := Step(judge, mid, Commit(w));
    var rebased := Step(judge, beaten, Retry(w));
    var mine := theirs(k + 1) + [Commit(w)];
    var again := if Working(rebased, w) then LoopShape(judge, rebased, w, theirs, k + 1) else [];
    var rest := if !Working(beaten, w) then [] else [Retry(w)] + again;
    OneCallThrough(judge, begun, w, seen, past, theirs(k + 1), Commit(w), rest);
    LoopShapeOf(judge, sys, w, theirs, k);
    CommitStep(judge, mid, w, seen, past);
    if Working(beaten, w) {
      RetryMoves(judge, beaten, w, seen, past);
      WorkingUnderWay(judge, beaten, w, seen, past);
      if Working(rebased, w) {
        ReadyAgain(judge, beaten, rebased, w, seen, past);
        LoopShapeIsOneCall(judge, rebased, w, theirs, k + 1, |beaten.versions|, past + [beaten.versions[seen..]]);
      } else {
        NoneLeft(judge, rebased, w);
      }
      OneCallCons(judge, beaten, w, Retry(w), again);
    } else {
      NoneLeft(judge, beaten, w);
    }
    OneCallCons(judge, sys, w, Begin(w), mine + rest);
  }

  lemma OneCallCons(judge: Judge, sys: System, w: nat, a: Action, rest: seq<Action>)
    requires Working(sys, w) && !(a.who == w && a.Restart?) && OneCall(judge, Step(judge, sys, a), w, rest)
    ensures OneCall(judge, sys, w, [a] + rest)
  {
    assert ([a] + rest)[1..] == rest;
    hide Step;
  }

  lemma NoneLeft(judge: Judge, sys: System, w: nat)
    requires !Working(sys, w)
    ensures OneCall(judge, sys, w, [])
  {
  }

  lemma LoopShapeOf(judge: Judge, sys: System, w: nat, theirs: nat -> seq<Action>, k: nat)
    requires k <= MAX_COMMIT_RETRIES
    ensures var mine := theirs(k + 1) + [Commit(w)];
      var beaten := Run(judge, Step(judge, sys, Begin(w)), mine);
      var rebased := Step(judge, beaten, Retry(w));
      LoopShape(judge, sys, w, theirs, k)
        == [Begin(w)] + (mine
             + if !Working(beaten, w) then []
               else [Retry(w)] + if Working(rebased, w) then LoopShape(judge, rebased, w, theirs, k + 1) else [])
  {
  }

  /** A retry after which the call goes on is ready for its next attempt. */
  lemma ReadyAgain(judge: Judge, sys: System, next: System, w: nat, seen: nat, past: seq<seq<Structure>>)
    requires UnderWay(judge, sys, w, seen, past) && sys.procs[w].phase.BackingOff?
    requires next == Step(judge, sys, Retry(w)) && Working(next, w)
    ensures next.procs[w].phase.Ready? && next.procs[w].attempt == sys.procs[w].attempt + 1 <= MAX_COMMIT_RETRIES
    ensures seen <= |sys.versions| && UnderWay(judge, next, w, |sys.versions|, past + [sys.versions[seen..]])
  {
    RetryMoves(judge, sys, w, seen, past);
    hide Step, Check, Apply, AlreadyApplied;
  }

  /** Whatever the others are given to do in each wait, the call that does
      exactly that in its waits is one of those runs. */
  lemma EveryShapeIsACall(judge: Judge, sys: System, w: nat, request: Request, theirs: nat -> seq<Action>)
    requires w < |sys.procs| && sys.versions != [] && sys.procs[w].phase.Idle? && !sys.procs[w].activeTransaction
    requires forall j: nat :: NotBy(w, theirs(j))
    ensures var started := Step(judge, sys, Start(w, request));
      OneCall(judge, started, w, CallShape(judge, started, w, theirs))
  {
    hide Step, Run, UnderWay, Closes, LoopShape;
    StartStep(judge, sys, w, request);
    var started := Step(judge, sys, Start(w, request));
    if Working(started, w) {
      var mid := Run(judge, started, theirs(0));
      var ready := Step(judge, mid, ReloadFirst(w));
      OneCallThrough(judge, started, w, |sys.versions|, [], theirs(0), ReloadFirst(w),
                     LoopShape(judge, ready, w, theirs, 0));
      ReloadStep(judge, mid, w, |sys.versions|, []);
      WorkingUnderWay(judge, mid, w, |sys.versions|, []);
      LoopShapeIsOneCall(judge, ready, w, theirs, 0, |mid.versions|, [mid.versions[|sys.versions|..]]);
    }
  }
}
