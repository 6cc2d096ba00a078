/** evolve_knowledge: dry run, checks, and the commit retry loop of one call. */
module EvolveHandler {
  import opened Wrappers
  import opened Evolution

  /** Extra attempts beyond the first. */
  const MAX_COMMIT_RETRIES: nat := 5

  datatype Request = Request(ops: seq<Operation>, extensions: set<string>)

  /** What provenance and validation say about a prospective structure. */
  datatype Verdict = Accepted | ProvenanceBlocked | ValidationRaised | Invalid

  type Judge = (Structure, set<string>) -> Verdict

  datatype Outcome =
    | Committed(version: nat, attempt: nat)
    | AlreadyThere(version: nat)
    | ConcurrentModification
    | EvolutionFailed
    | Rejected(verdict: Verdict)
    | NoOperations
    | TransactionClash

  /** The dry run and both checks; None clears the request for a commit. */
  function Check(judge: Judge, request: Request, structure: Structure): Option<Outcome> {
    match Apply(request.ops, structure)
    case None => Some(EvolutionFailed)
    case Some(prospective) =>
      var verdict := judge(prospective, request.extensions);
      if verdict.Accepted? then None else Some(Rejected(verdict))
  }

  /** The shared store of one session: its versions, oldest first. */
  class Storage {
    var versions: seq<Structure>

    ghost predicate Valid()
      reads this
    {
      versions != []
    }

    constructor (first: Structure)
      ensures Valid() && versions == [first]
    {
      versions := [first];
    }

    /** What other processes commit while this one awaits. */
    method Interfere(theirs: seq<Structure>)
      modifies this
      ensures versions == old(versions) + theirs
    {
      versions := versions + theirs;
    }

    /** Commit with a version check: appended, or refused untouched. */
    method CompareAndSwap(expected: nat, next: Structure) returns (ok: bool)
      requires Valid()
      modifies this
      ensures ok <==> expected == |old(versions)| - 1
      ensures versions == if ok then old(versions) + [next] else old(versions)
    {
      ok := expected == |versions| - 1;
      if ok {
        versions := versions + [next];
      }
    }
  }

  /** A process's own copy of the session. */
  class RuntimeSession {
    var structure: Structure
    var version: nat
    var activeTransaction: bool

    constructor (storage: Storage)
      requires storage.Valid()
      ensures !activeTransaction && version == |storage.versions| - 1 && structure == storage.versions[version]
    {
      structure := storage.versions[|storage.versions| - 1];
      version := |storage.versions| - 1;
      activeTransaction := false;
    }

    /** Opens a transaction and executes it on this copy, in place. The
        runtime raises when one is already active: callers must not get there. */
    method Begin(result: Structure)
      requires !activeTransaction
      modifies this`structure, this`activeTransaction
      ensures activeTransaction && structure == result
    {
      activeTransaction := true;
      structure := result;
    }

    method Reload(storage: Storage)
      requires storage.Valid()
      modifies this`structure, this`version
      ensures version == |storage.versions| - 1 && structure == storage.versions[version]
    {
      structure := storage.versions[|storage.versions| - 1];
      version := |storage.versions| - 1;
    }
  }

  /** One attempt: transaction, then a commit with a version check that others
      may beat; a refused transaction is aborted without touching storage. */
  method CommitOnce(storage: Storage, session: RuntimeSession, result: Structure, theirs: seq<Structure>)
      returns (committed: bool)
    requires storage.Valid() && !session.activeTransaction && session.version == |storage.versions| - 1
    modifies storage, session
    ensures !session.activeTransaction && session.structure == result && storage.Valid()
    ensures committed <==> theirs == []
    ensures storage.versions == old(storage.versions) + if committed then [result] else theirs
    ensures session.version == if committed then |storage.versions| - 1 else old(session.version)
  {
    session.Begin(result);
    storage.Interfere(theirs);
    committed := storage.CompareAndSwap(session.version, session.structure);
    session.activeTransaction := false;
    if committed {
      session.version := |storage.versions| - 1;
    }
  }

  /** After a conflict: reload, and stop if the change is there already or no
      longer passes the checks. */
  method Rebase(storage: Storage, session: RuntimeSession, request: Request, judge: Judge)
      returns (stop: Option<Outcome>)
    requires storage.Valid()
    modifies session`structure, session`version
    ensures session.version == |storage.versions| - 1 && session.structure == storage.versions[session.version]
    ensures stop == if AlreadyApplied(session.structure, request.ops) then Some(AlreadyThere(session.version))
                    else Check(judge, request, session.structure)
  {
    session.Reload(storage);
    var applied := OperationsAlreadyApplied(session.structure, request.ops);
    stop := if applied then Some(AlreadyThere(session.version)) else Check(judge, request, session.structure);
  }

  /** Everything the other processes commit in the first n waits. */
  function Interference(others: nat -> seq<Structure>, n: nat): seq<Structure> {
    if n == 0 then [] else Interference(others, n - 1) + others(n - 1)
  }

  /** A session copy as a value. */
  datatype Copy = Copy(structure: Structure, version: nat)

  ghost predicate Synced(copy: Copy, versions: seq<Structure>) {
    copy.version == |versions| - 1 && copy.structure == versions[copy.version]
  }

  /** Wait 0 lies between the read and the reload before the loop; wait k + 1
      lies between the reload that attempt k relies on and its commit.
      Somebody else committed in each of the waits first, ..., last - 1. */
  ghost predicate Contended(others: nat -> seq<Structure>, last: nat) {
    forall k :: 1 <= k < last ==> others(k) != []
  }

  /** A commit at attempt k means that every earlier attempt was beaten and
      this one was not. A retry commits exactly its operations applied to the
      version it follows; attempt 0 applies them to the copy read at the start. */
  ghost predicate CommitExplained(judge: Judge, request: Request, others: nat -> seq<Structure>,
                                  before: seq<Structure>, read: Copy, after: seq<Structure>, copy: Copy,
                                  outcome: Outcome)
    requires outcome.Committed?
  {
    && outcome.attempt <= MAX_COMMIT_RETRIES
    && Contended(others, outcome.attempt + 1) && others(outcome.attempt + 1) == []
    && outcome.version == |before + Interference(others, outcome.attempt + 2)|
    && after == before + Interference(others, outcome.attempt + 2) + [copy.structure]
    && Synced(copy, after)
    && (outcome.attempt > 0 ==> outcome.version > 0 && !AlreadyApplied(after[outcome.version - 1], request.ops))
    && Apply(request.ops, if outcome.attempt > 0 then after[outcome.version - 1] else read.structure)
         == Some(copy.structure)
    && judge(copy.structure, request.extensions).Accepted?
  }

  /** How the outcome of a call follows from what others did meanwhile. A call
      that gives up leaves its own copy holding a structure nobody stored. */
  ghost predicate Explained(judge: Judge, request: Request, others: nat -> seq<Structure>,
                            before: seq<Structure>, read: Copy, after: seq<Structure>, copy: Copy,
                            outcome: Outcome, waits: nat) {
    match outcome
    case NoOperations => request.ops == [] && after == before && copy == read
    case Committed(_, attempt) =>
      waits == attempt + 2 && CommitExplained(judge, request, others, before, read, after, copy, outcome)
    case AlreadyThere(version) =>
      && 2 <= waits <= MAX_COMMIT_RETRIES + 1 && Contended(others, waits)
      && after == before + Interference(others, waits)
      && Synced(copy, after) && copy.version == version && AlreadyApplied(copy.structure, request.ops)
    case ConcurrentModification =>
      && waits == MAX_COMMIT_RETRIES + 2 && Contended(others, waits)
      && after == before + Interference(others, waits)
      && copy.version < |after| && Apply(request.ops, after[copy.version]) == Some(copy.structure)
    case EvolutionFailed | Rejected(_) =>
      && waits <= MAX_COMMIT_RETRIES + 1 && waits != 1 && Contended(others, waits)
      && after == before + Interference(others, waits)
      && (if waits == 0 then copy == read else Synced(copy, after) && !AlreadyApplied(copy.structure, request.ops))
      && request.ops != [] && Check(judge, request, copy.structure) == Some(outcome)
    case TransactionClash => false
  }

  /** What holds before each attempt. */
  ghost predicate Retrying(judge: Judge, request: Request, others: nat -> seq<Structure>,
                           before: seq<Structure>, read: Copy, now: seq<Structure>, copy: Copy,
                           base: Structure, attempt: nat) {
    && attempt <= MAX_COMMIT_RETRIES && request.ops != []
    && Contended(others, attempt + 1)
    && before != [] && now == before + Interference(others, attempt + 1)
    && Synced(copy, now)
    && base == (if attempt > 0 then copy.structure else read.structure)
    && (attempt > 0 ==> !AlreadyApplied(base, request.ops))
    && Check(judge, request, base).None?
  }

  lemma CheckMeans(judge: Judge, request: Request, structure: Structure)
    ensures Check(judge, request, structure).None? <==>
      Apply(request.ops, structure).Some? && judge(Apply(request.ops, structure).value, request.extensions).Accepted?
    ensures Check(judge, request, structure).Some? ==>
      Check(judge, request, structure).value.EvolutionFailed? || Check(judge, request, structure).value.Rejected?
  {
  }

  lemma NothingYet(others: nat -> seq<Structure>)
    ensures Contended(others, 0) && Contended(others, 1)
    ensures Interference(others, 0) == [] && Interference(others, 1) == others(0)
  {
    assert Interference(others, 1) == [] + others(0);
  }

  lemma AttemptZero(judge: Judge, request: Request, others: nat -> seq<Structure>, before: seq<Structure>, read: Copy,
                    now: seq<Structure>, copy: Copy)
    requires request.ops != [] && Check(judge, request, read.structure).None?
    requires before != [] && now == before + others(0) && Synced(copy, now)
    ensures Retrying(judge, request, others, before, read, now, copy, read.structure, 0)
  {
    NothingYet(others);
  }

  lemma AttemptRuns(judge: Judge, request: Request, others: nat -> seq<Structure>, before: seq<Structure>, read: Copy,
                    now: seq<Structure>, copy: Copy, base: Structure, attempt: nat)
    requires Retrying(judge, request, others, before, read, now, copy, base, attempt)
    ensures Apply(request.ops, base).Some? && request.ops != []
    ensures attempt > 0 ==> copy.version < |now| && base == now[copy.version]
  {
    CheckMeans(judge, request, base);
  }

  lemma AttemptCommits(judge: Judge, request: Request, others: nat -> seq<Structure>, before: seq<Structure>,
                       read: Copy, now: seq<Structure>, copy: Copy, base: Structure, attempt: nat)
    requires Retrying(judge, request, others, before, read, now, copy, base, attempt) && others(attempt + 1) == []
    ensures Apply(request.ops, base).Some?
    ensures var next := Apply(request.ops, base).value;
      CommitExplained(judge, request, others, before, read, now + [next], Copy(next, |now|), Committed(|now|, attempt))
  {
    CheckMeans(judge, request, base);
    hide AlreadyApplied, Apply, Check;
    assert Interference(others, attempt + 2) == Interference(others, attempt + 1);
  }

  lemma AttemptBeaten(judge: Judge, request: Request, others: nat -> seq<Structure>, before: seq<Structure>, read: Copy,
                      now: seq<Structure>, copy: Copy, base: Structure, attempt: nat, rebased: Copy)
    requires Retrying(judge, request, others, before, read, now, copy, base, attempt) && others(attempt + 1) != []
    ensures now + others(attempt + 1) == before + Interference(others, attempt + 2) && Contended(others, attempt + 2)
    ensures Synced(rebased, now + others(attempt + 1)) && attempt < MAX_COMMIT_RETRIES
      && !AlreadyApplied(rebased.structure, request.ops) && Check(judge, request, rebased.structure).None?
      ==> Retrying(judge, request, others, before, read, now + others(attempt + 1), rebased, rebased.structure,
                   attempt + 1)
  {
    hide Check, Synced, Interference, AlreadyApplied;
    BeatenLog(others, before, now, attempt + 1);
  }

  lemma BeatenLog(others: nat -> seq<Structure>, before: seq<Structure>, now: seq<Structure>, waits: nat)
    requires now == before + Interference(others, waits)
    ensures now + others(waits) == before + Interference(others, waits + 1)
  {
  }

  // ---------------------------------------------------------------------
  // The call as a function of what others commit
  // ---------------------------------------------------------------------

  /** How a call ends: outcome, stored versions, own copy, and waits made. */
  datatype Ending = Ending(outcome: Outcome, versions: seq<Structure>, copy: Copy, waits: nat)

  function Head(versions: seq<Structure>): Copy
    requires versions != []
  {
    Copy(versions[|versions| - 1], |versions| - 1)
  }

  /** The loop, from a given attempt on. */
  function Attempts(judge: Judge, request: Request, others: nat -> seq<Structure>,
                    now: seq<Structure>, copy: Copy, base: Structure, attempt: nat): Ending
    requires now != [] && attempt <= MAX_COMMIT_RETRIES
    decreases MAX_COMMIT_RETRIES - attempt
  {
    match Apply(request.ops, base)
    case None => Ending(EvolutionFailed, now, copy, attempt + 1)
    case Some(result) =>
      var later := now + others(attempt + 1);
      if others(attempt + 1) == [] then
        Ending(Committed(|now|, attempt), now + [result], Copy(result, |now|), attempt + 2)
      else if attempt == MAX_COMMIT_RETRIES then
        Ending(ConcurrentModification, later, copy.(structure := result), attempt + 2)
      else
        var head := Head(later);
        if AlreadyApplied(head.structure, request.ops) then Ending(AlreadyThere(head.version), later, head, attempt + 2)
        else
          var refusal := Check(judge, request, head.structure);
          if refusal.Some? then Ending(refusal.value, later, head, attempt + 2)
          else Attempts(judge, request, others, later, head, head.structure, attempt + 1)
  }

  function Called(judge: Judge, request: Request, others: nat -> seq<Structure>,
                  before: seq<Structure>, read: Copy): Ending
    requires before != []
  {
    if request.ops == [] then Ending(NoOperations, before, read, 0)
    else
      var refusal := Check(judge, request, read.structure);
      if refusal.Some? then Ending(refusal.value, before, read, 0)
      else
        var now := before + others(0);
        Attempts(judge, request, others, now, Head(now), read.structure, 0)
  }

  lemma {:induction false} AttemptsExplained(judge: Judge, request: Request, others: nat -> seq<Structure>,
                                             before: seq<Structure>, read: Copy, now: seq<Structure>, copy: Copy,
                                             base: Structure, attempt: nat)
    requires Retrying(judge, request, others, before, read, now, copy, base, attempt)
    ensures now != []
    ensures var e := Attempts(judge, request, others, now, copy, base, attempt);
      Explained(judge, request, others, before, read, e.versions, e.copy, e.outcome, e.waits)
    decreases MAX_COMMIT_RETRIES - attempt
  {
    hide Apply, AlreadyApplied, Check, CommitExplained, Contended, Interference;
    AttemptRuns(judge, request, others, before, read, now, copy, base, attempt);
    if others(attempt + 1) == [] {
      AttemptCommits(judge, request, others, before, read, now, copy, base, attempt);
    } else {
      var later := now + others(attempt + 1);
      var head := Head(later);
      AttemptBeaten(judge, request, others, before, read, now, copy, base, attempt, head);
      CheckMeans(judge, request, head.structure);
      if attempt < MAX_COMMIT_RETRIES && !AlreadyApplied(head.structure, request.ops)
         && Check(judge, request, head.structure).None? {
        AttemptsExplained(judge, request, others, before, read, later, head, head.structure, attempt + 1);
      }
    }
  }

  /** Every call ends as explained. */
  lemma CalledExplained(judge: Judge, request: Request, others: nat -> seq<Structure>,
                        before: seq<Structure>, read: Copy)
    requires before != []
    ensures var e := Called(judge, request, others, before, read);
      Explained(judge, request, others, before, read, e.versions, e.copy, e.outcome, e.waits)
  {
    NothingYet(others);
    CheckMeans(judge, request, read.structure);
    if request.ops != [] && Check(judge, request, read.structure).None? {
      var now := before + others(0);
      AttemptZero(judge, request, others, before, read, now, Head(now));
      AttemptsExplained(judge, request, others, before, read, now, Head(now), read.structure, 0);
    }
    hide Apply, AlreadyApplied, Attempts, CommitExplained, Contended, Retrying;
  }

  method EvolveKnowledge(storage: Storage, session: RuntimeSession, request: Request, judge: Judge,
                         others: nat -> seq<Structure>)
      returns (outcome: Outcome, ghost waits: nat)
    requires storage.Valid() && !session.activeTransaction
    modifies storage, session
    ensures !session.activeTransaction
    ensures Ending(outcome, storage.versions, Copy(session.structure, session.version), waits)
         == Called(judge, request, others, old(storage.versions), old(Copy(session.structure, session.version)))
    ensures Explained(judge, request, others, old(storage.versions), old(Copy(session.structure, session.version)),
                      storage.versions, Copy(session.structure, session.version), outcome, waits)
  {
    hide Apply, AlreadyApplied, Check, Explained;
    ghost var before, read := storage.versions, Copy(session.structure, session.version);
    CalledExplained(judge, request, others, before, read);
    if request.ops == [] {
      return NoOperations, 0;
    }
    var base := session.structure;
    var refusal := Check(judge, request, base);
    if refusal.Some? {
      return refusal.value, 0;
    }
    CheckMeans(judge, request, base);
    storage.Interfere(others(0));
    session.Reload(storage);
    for attempt := 0 to MAX_COMMIT_RETRIES + 1
      invariant !session.activeTransaction && storage.Valid() && attempt <= MAX_COMMIT_RETRIES
      invariant session.version == |storage.versions| - 1 && Apply(request.ops, base).Some?
      invariant Called(judge, request, others, before, read)
             == Attempts(judge, request, others, storage.versions, Copy(session.structure, session.version), base,
                         attempt)
    {
      var committed := CommitOnce(storage, session, Apply(request.ops, base).value, others(attempt + 1));
      if committed {
        return Committed(session.version, attempt), attempt + 2;
      }
      if attempt >= MAX_COMMIT_RETRIES {
        return ConcurrentModification, attempt + 2;
      }
      refusal := Rebase(storage, session, request, judge);
      base := session.structure;
      CheckMeans(judge, request, base);
      if refusal.Some? {
        return refusal.value, attempt + 2;
      }
    }
    assert false;
  }

  /** What a committed call stores, item by item: at each id its request names,
      what that operation is for; everywhere else the item of the base, unless
      the request removes an object which that item connects. The base is the
      copy read at the start for attempt 0, and the version followed after. */
  lemma CommittedStores(judge: Judge, request: Request, others: nat -> seq<Structure>, before: seq<Structure>,
                        read: Copy, x: string)
    requires before != [] && DistinctIds(request.ops)
    requires Called(judge, request, others, before, read).outcome.Committed?
    ensures var call := Called(judge, request, others, before, read);
      && |call.versions| >= 2
      && (var base := if call.outcome.attempt == 0 then read.structure else call.versions[|call.versions| - 2];
          var stored := call.versions[|call.versions| - 1];
          && (forall i :: 0 <= i < |request.ops| ==> NamedFate(request.ops, base, stored, i))
          && ((forall op :: op in request.ops ==> op.id != x) ==>
                if x !in base || Swept(request.ops, 0, base[x]) then x !in stored
                else x in stored && stored[x] == base[x]))
  {
    hide Attempts, Called, Check, AlreadyApplied, Apply, Interference, Contended, NamedFate, Swept;
    CalledExplained(judge, request, others, before, read);
    var call := Called(judge, request, others, before, read);
    var base := if call.outcome.attempt == 0 then read.structure else call.versions[|call.versions| - 2];
    EveryNameIsDone(request.ops, base);
    if forall op :: op in request.ops ==> op.id != x {
      UnnamedFate(request.ops, base, x);
      if x in base {
        UnnamedItem(request.ops, base, x);
      }
    }
  }

  /** A call that starts from the head commits its operations applied to the
      version it follows, except when attempt 0 goes through after somebody
      committed between its read and its reload: then it applied them to the
      older version, and what came in between is not in its result. */
  lemma CommitFollowsWhat(judge: Judge, request: Request, others: nat -> seq<Structure>,
                          before: seq<Structure>, read: Copy, after: seq<Structure>, copy: Copy, outcome: Outcome,
                          x: string)
    requires before != [] && Synced(read, before)
    requires outcome.Committed? && CommitExplained(judge, request, others, before, read, after, copy, outcome)
    ensures 0 < outcome.version < |after|
    ensures var stale := outcome.attempt == 0 && others(0) != [];
      var follows := if stale then |before| - 1 else outcome.version - 1;
      && follows < |after| && (stale ==> follows < outcome.version - 1)
      && Apply(request.ops, after[follows]) == Some(after[outcome.version])
      && (Spares(request.ops, after[follows], x) ==> Lookup(after[outcome.version], x) == Lookup(after[follows], x))
  {
    assert Interference(others, outcome.attempt + 2) == Interference(others, outcome.attempt + 1);
    if outcome.attempt == 0 {
      NothingYet(others);
      assert after[|before| - 1] == before[|before| - 1];
      if Spares(request.ops, read.structure, x) {
        ApplyFrame(request.ops, read.structure, x);
      }
    } else if Spares(request.ops, after[outcome.version - 1], x) {
      ApplyFrame(request.ops, after[outcome.version - 1], x);
    }
    hide Apply, AlreadyApplied, Spares, Lookup, Interference, Contended;
  }

  // ---------------------------------------------------------------------
  // One lock per session id
  // ---------------------------------------------------------------------

  class Lock {
    constructor () {
    }
  }

  class SessionLocks {
    var locks: map<string, Lock>

    /** Two sessions never share a lock. */
    ghost predicate Valid()
      reads this
    {
      forall a, b :: a in locks && b in locks && locks[a] == locks[b] ==> a == b
    }

    constructor ()
      ensures Valid() && locks == map[]
    {
      locks := map[];
    }

    method LockFor(sessionId: string) returns (lock: Lock)
      requires Valid()
      modifies this
      ensures Valid() && sessionId in locks && lock == locks[sessionId]
      ensures forall id :: id in old(locks) ==> id in locks && locks[id] == old(locks[id])
      ensures locks.Keys == old(locks.Keys) + {sessionId}
    {
      if sessionId in locks {
        return locks[sessionId];
      }
      lock := new Lock();
      locks := locks[sessionId := lock];
    }
  }
}
