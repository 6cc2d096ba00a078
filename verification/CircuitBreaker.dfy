/** The LLM circuit breaker and the batch arbitration it guards. */
module CircuitBreaker {
  import opened Wrappers

  /** The breaker's fields. openUntil = 0 means closed. */
  datatype Breaker = Breaker(threshold: int, cooldown: real, failures: int, openUntil: real)

  predicate Blocks(b: Breaker, now: real) {
    b.openUntil != 0.0 && now < b.openUntil
  }

  /** is_open() also forgets an elapsed cooldown (half-open). */
  function Checked(b: Breaker, now: real): Breaker {
    if Blocks(b, now) then b else b.(openUntil := 0.0)
  }

  function Succeeded(b: Breaker): Breaker {
    b.(failures := 0, openUntil := 0.0)
  }

  function Failed(b: Breaker, now: real): Breaker {
    if b.failures + 1 >= b.threshold
    then b.(failures := b.failures + 1, openUntil := now + b.cooldown)
    else b.(failures := b.failures + 1)
  }

  /** What arbitrate_inference_conflict answered. */
  datatype Answer =
    | StructuralError
    | LeftUnresolved(llmAttributable: bool)
    | NothingToCommit
    | CommitFailed
    | Committed

  predicate IsLlmFailure(a: Answer) {
    a.LeftUnresolved? && a.llmAttributable
  }

  function AfterAnswer(b: Breaker, a: Answer, now: real): Breaker {
    if IsLlmFailure(a) then Failed(b, now)
    else if a.Committed? then Succeeded(b)
    else b
  }

  class LLMCircuitBreaker {
    var threshold: int
    var cooldown: real
    var consecutiveFailures: int
    var openUntil: real
    var trips: nat

    ghost function State(): Breaker
      reads this
    {
      Breaker(threshold, cooldown, consecutiveFailures, openUntil)
    }

    constructor (threshold: int, cooldown: real)
      ensures State() == Breaker(threshold, cooldown, 0, 0.0) && trips == 0
    {
      this.threshold, this.cooldown := threshold, cooldown;
      consecutiveFailures, openUntil, trips := 0, 0.0, 0;
    }

    method IsOpen(now: real) returns (open: bool)
      modifies this
      ensures open == Blocks(old(State()), now)
      ensures State() == Checked(old(State()), now) && trips == old(trips)
    {
      if openUntil != 0.0 && now < openUntil {
        return true;
      }
      if openUntil != 0.0 {
        openUntil := 0.0;
      }
      return false;
    }

    method RecordSuccess()
      modifies this
      ensures State() == Succeeded(old(State())) && trips == old(trips)
    {
      consecutiveFailures := 0;
      openUntil := 0.0;
    }

    method RecordFailure(now: real)
      modifies this
      ensures State() == Failed(old(State()), now)
      ensures trips == old(trips) + if old(consecutiveFailures) + 1 >= threshold then 1 else 0
    {
      consecutiveFailures := consecutiveFailures + 1;
      if consecutiveFailures >= threshold {
        openUntil := now + cooldown;
        trips := trips + 1;
      }
    }

    /** Change the settings, keep the failure history. */
    method Configure(threshold: int, cooldown: real)
      modifies this
      ensures State() == old(State()).(threshold := threshold, cooldown := cooldown) && trips == old(trips)
    {
      this.threshold, this.cooldown := threshold, cooldown;
    }

    /** One guarded arbitration: begun at start, answered at end. */
    method ResolveConfidenceConflicts(start: real, answer: Answer, end: real) returns (attempted: bool, resolved: bool)
      modifies this
      ensures attempted == !Blocks(old(State()), start)
      ensures resolved == (attempted && (answer.NothingToCommit? || answer.Committed?))
      ensures State() == Next(old(State()), Call(start, answer, end))
    {
      var open := IsOpen(start);
      if open {
        return false, false;
      }
      match answer
      case StructuralError => return true, false;
      case LeftUnresolved(llmAttributable) =>
        if llmAttributable {
          RecordFailure(end);
        }
        return true, false;
      case NothingToCommit => return true, true;
      case CommitFailed => return true, false;
      case Committed =>
        RecordSuccess();
        return true, true;
    }
  }

  // ---------------------------------------------------------------------
  // Whole runs
  // ---------------------------------------------------------------------

  datatype Call = Call(start: real, answer: Answer, end: real)

  function Next(b: Breaker, c: Call): Breaker {
    if Blocks(b, c.start) then b
    else AfterAnswer(Checked(b, c.start), c.answer, c.end)
  }

  /** Sequential calls on a monotone, nonnegative clock. */
  predicate Sequential(calls: seq<Call>, since: real) {
    calls == [] || (since <= calls[0].start <= calls[0].end && Sequential(calls[1..], calls[0].end))
  }

  /** When the attempted calls of a run failed on the LLM's account. */
  function FailureTimes(b: Breaker, calls: seq<Call>): seq<real>
    decreases |calls|
  {
    if calls == [] then []
    else
      var rest := FailureTimes(Next(b, calls[0]), calls[1..]);
      if !Blocks(b, calls[0].start) && IsLlmFailure(calls[0].answer) then [calls[0].end] + rest else rest
  }

  /** No attempted call of the run succeeded. */
  predicate NoSuccess(b: Breaker, calls: seq<Call>)
    decreases |calls|
  {
    calls == []
    || ((!Blocks(b, calls[0].start) ==> !calls[0].answer.Committed?) && NoSuccess(Next(b, calls[0]), calls[1..]))
  }

  /** Consecutive times, of which those at or past the threshold keep the
      next one a cooldown away. */
  ghost predicate Spaced(ts: seq<real>, b: Breaker, failures: int) {
    forall i :: 0 <= i < |ts| - 1 ==>
      ts[i] <= ts[i + 1] && (failures + i + 1 >= b.threshold ==> ts[i] + b.cooldown <= ts[i + 1])
  }

  lemma SpacedCons(t: real, rest: seq<real>, b: Breaker, failures: int)
    requires Spaced(rest, b, failures + 1)
    requires rest != [] ==> t <= rest[0] && (failures + 1 >= b.threshold ==> t + b.cooldown <= rest[0])
    ensures Spaced([t] + rest, b, failures)
  {
    var ts := [t] + rest;
    forall i | 0 <= i < |ts| - 1
      ensures ts[i] <= ts[i + 1] && (failures + i + 1 >= b.threshold ==> ts[i] + b.cooldown <= ts[i + 1])
    {
      assert ts[i + 1] == rest[i];
      if i > 0 {
        assert ts[i] == rest[i - 1];
      }
    }
  }

  /** The first failure of a run waits for the open period, and the failures
      are spaced. */
  lemma {:induction false} FailuresSpaced(b: Breaker, calls: seq<Call>, since: real)
    requires 0.0 <= since && Sequential(calls, since) && NoSuccess(b, calls)
    ensures var ts := FailureTimes(b, calls);
      Spaced(ts, b, b.failures) && (ts != [] ==> ts[0] >= since && ts[0] >= b.openUntil)
    decreases |calls|
  {
    if calls != [] {
      var c := calls[0];
      var next := Next(b, c);
      var rest := FailureTimes(next, calls[1..]);
      FailuresSpaced(next, calls[1..], c.end);
      if !Blocks(b, c.start) && IsLlmFailure(c.answer) {
        assert Spaced(rest, b, b.failures + 1);
        SpacedCons(c.end, rest, b, b.failures);
      } else {
        assert Spaced(rest, b, b.failures);
      }
    }
  }

  /** The length of n cooldowns. */
  function Cooldowns(cooldown: real, n: int): real {
    n as real * cooldown
  }

  /** The bound over whole runs: from any state, n failures with no success
      between them take at least (n - threshold) cooldowns. */
  lemma FailuresTakeTime(b: Breaker, calls: seq<Call>)
    requires b.failures >= 0 && Sequential(calls, 0.0) && NoSuccess(b, calls)
    requires |FailureTimes(b, calls)| >= Max(1, b.threshold)
    ensures var ts := FailureTimes(b, calls);
      ts[|ts| - 1] - ts[0] >= Cooldowns(b.cooldown, |ts| - Max(1, b.threshold))
  {
    hide Cooldowns;
    FailuresSpaced(b, calls, 0.0);
    SpacedTakesTime(FailureTimes(b, calls), b, b.failures);
  }

  lemma SpacedTakesTime(ts: seq<real>, b: Breaker, failures: nat)
    requires Spaced(ts, b, failures) && |ts| >= Max(1, b.threshold)
    ensures ts[|ts| - 1] - ts[0] >= Cooldowns(b.cooldown, |ts| - Max(1, b.threshold))
  {
    hide Cooldowns;
    var k := Max(1, b.threshold) - 1;
    Climb(ts, 0, k);
    SpacedSpan(ts, k, |ts| - 1, b);
  }

  lemma {:induction false} Climb(ts: seq<real>, i: nat, j: nat)
    requires i <= j < |ts| && forall k :: 0 <= k < |ts| - 1 ==> ts[k] <= ts[k + 1]
    ensures ts[i] <= ts[j]
    decreases j
  {
    if i < j {
      Climb(ts, i, j - 1);
    }
  }

  lemma {:induction false} SpacedSpan(ts: seq<real>, i: nat, j: nat, b: Breaker)
    requires i <= j < |ts| && forall k :: i <= k < |ts| - 1 ==> ts[k] + b.cooldown <= ts[k + 1]
    ensures ts[j] - ts[i] >= Cooldowns(b.cooldown, j - i)
    decreases j
  {
    if i < j {
      SpacedSpan(ts, i, j - 1, b);
      OneMore(b.cooldown, j - i);
    }
  }

  lemma OneMore(cooldown: real, n: int)
    ensures Cooldowns(cooldown, n) == Cooldowns(cooldown, n - 1) + cooldown
    ensures Cooldowns(cooldown, 0) == 0.0
  {
    assert n as real == (n - 1) as real + 1.0;
  }

  // ---------------------------------------------------------------------
  // The bound is attained
  // ---------------------------------------------------------------------

  /** The provider stays down: the i-th failure of a breaker with f recorded
      failures happens as soon as the breaker lets a trial through. */
  function Outage(threshold: int, cooldown: real, f: nat, now: real, n: nat): seq<Call>
    decreases n
  {
    if n == 0 then []
    else
      var next := if f + 1 >= threshold then now + cooldown else now;
      [Call(now, LeftUnresolved(true), now)] + Outage(threshold, cooldown, f + 1, next, n - 1)
  }

  lemma {:induction false} OutageFailsAlways(b: Breaker, now: real, n: nat)
    requires b.cooldown >= 0.0 && b.failures >= 0 && 0.0 <= b.openUntil <= now
    ensures var calls := Outage(b.threshold, b.cooldown, b.failures, now, n);
      && Sequential(calls, now) && NoSuccess(b, calls) && |FailureTimes(b, calls)| == n
      && (n > 0 ==> FailureTimes(b, calls)[0] == now)
      && (n > 0 ==>
          FailureTimes(b, calls)[n - 1] == now + Cooldowns(b.cooldown, Max(0, n - Max(1, b.threshold - b.failures))))
    decreases n
  {
    if n > 0 {
      hide Cooldowns;
      var calls := Outage(b.threshold, b.cooldown, b.failures, now, n);
      var next := Next(b, calls[0]);
      var later := if b.failures + 1 >= b.threshold then now + b.cooldown else now;
      assert next == Failed(b.(openUntil := 0.0), now);
      OneMore(b.cooldown, n - Max(1, b.threshold - b.failures));
      OutageFailsAlways(next, later, n - 1);
      assert calls[1..] == Outage(b.threshold, b.cooldown, b.failures + 1, later, n - 1);
      SequentialFrom(calls[1..], later, now);
      assert FailureTimes(b, calls) == [now] + FailureTimes(next, calls[1..]);
    }
  }

  lemma SequentialFrom(calls: seq<Call>, late: real, early: real)
    requires Sequential(calls, late) && early <= late
    ensures Sequential(calls, early)
  {
  }

  /** No better bound holds: a fresh breaker can fail n times within exactly
      (n - threshold) cooldowns. */
  lemma BoundIsTight(threshold: int, cooldown: real, n: nat)
    requires cooldown >= 0.0 && n >= Max(1, threshold)
    ensures var b := Breaker(threshold, cooldown, 0, 0.0);
      var calls := Outage(threshold, cooldown, 0, 0.0, n);
      var ts := FailureTimes(b, calls);
      && Sequential(calls, 0.0) && NoSuccess(b, calls) && |ts| == n
      && ts[n - 1] - ts[0] == Cooldowns(b.cooldown, n - Max(1, threshold))
  {
    OutageFailsAlways(Breaker(threshold, cooldown, 0, 0.0), 0.0, n);
  }

  // ---------------------------------------------------------------------
  // When the breaker is open
  // ---------------------------------------------------------------------

  function After(b: Breaker, calls: seq<Call>): Breaker {
    if calls == [] then b else Next(After(b, calls[..|calls| - 1]), calls[|calls| - 1])
  }

  /** The calls that were attempted, in order. */
  function Tried(b: Breaker, calls: seq<Call>): seq<Call> {
    if calls == [] then []
    else
      var init, last := calls[..|calls| - 1], calls[|calls| - 1];
      Tried(b, init) + if Blocks(After(b, init), last.start) then [] else [last]
  }

  /** Failures on the LLM's account since the last commit. */
  function Streak(tried: seq<Call>): nat {
    if tried == [] then 0
    else
      var init, last := tried[..|tried| - 1], tried[|tried| - 1];
      if last.answer == Committed then 0
      else if last.answer == LeftUnresolved(true) then Streak(init) + 1
      else Streak(init)
  }

  /** When the last of them ended. */
  function LastFailure(tried: seq<Call>): real {
    if tried == [] then 0.0
    else
      var init, last := tried[..|tried| - 1], tried[|tried| - 1];
      if last.answer == LeftUnresolved(true) then last.end else LastFailure(init)
  }

  /** The calls so far, on one clock, the last ended by now. */
  predicate Clocked(calls: seq<Call>, now: real) {
    if calls == [] then 0.0 <= now
    else
      var init, last := calls[..|calls| - 1], calls[|calls| - 1];
      Clocked(init, last.start) && last.start <= last.end <= now
  }

  /** The cooldown that the streak, if long enough, has earned. */
  predicate Cooling(threshold: int, cooldown: real, tried: seq<Call>, now: real) {
    Streak(tried) >= Max(1, threshold) && now < LastFailure(tried) + cooldown
  }

  /** The breaker stands as the attempted calls say, from now on. */
  ghost predicate Tracked(threshold: int, cooldown: real, b: Breaker, tried: seq<Call>, now: real) {
    && b.threshold == threshold && b.cooldown == cooldown
    && b.failures == Streak(tried) && 0.0 <= LastFailure(tried) <= now
    && forall t :: t >= now ==> (Blocks(b, t) <==> Cooling(threshold, cooldown, tried, t))
  }

  lemma TrackedLater(threshold: int, cooldown: real, b: Breaker, tried: seq<Call>, now: real, later: real)
    requires Tracked(threshold, cooldown, b, tried, now) && now <= later
    ensures Tracked(threshold, cooldown, b, tried, later)
  {
    hide Streak, LastFailure, Cooling, Blocks;
  }

  lemma TracksBlocked(threshold: int, cooldown: real, b: Breaker, tried: seq<Call>, c: Call)
    requires Tracked(threshold, cooldown, b, tried, c.start) && c.start <= c.end
    ensures Blocks(b, c.start) ==> Tracked(threshold, cooldown, Next(b, c), tried, c.end)
  {
    hide Streak, LastFailure, Cooling;
  }

  lemma TracksTried(threshold: int, cooldown: real, b: Breaker, tried: seq<Call>, c: Call)
    requires Tracked(threshold, cooldown, b, tried, c.start) && c.start <= c.end && cooldown >= 0.0
    ensures !Blocks(b, c.start) ==> Tracked(threshold, cooldown, Next(b, c), tried + [c], c.end)
  {
    assert (tried + [c])[..|tried|] == tried;
    assert !Blocks(b, c.start) ==> !Cooling(threshold, cooldown, tried, c.start);
    hide Tracked;
    var next := Next(b, c);
    if !Blocks(b, c.start) {
      forall t | t >= c.end
        ensures Blocks(next, t) <==> Cooling(threshold, cooldown, tried + [c], t)
      {
      }
    }
  }

  /** Over every run of a fresh breaker: a call is blocked exactly when at least
      threshold attempted calls have failed since the last commit and the last
      of them ended less than a cooldown ago. */
  lemma {:induction false} OpenExactly(threshold: int, cooldown: real, calls: seq<Call>, now: real)
    requires cooldown >= 0.0 && Clocked(calls, now)
    ensures var b := Breaker(threshold, cooldown, 0, 0.0);
      Blocks(After(b, calls), now) <==> Cooling(threshold, cooldown, Tried(b, calls), now)
  {
    Tracks(threshold, cooldown, calls, now);
  }

  lemma {:induction false} Tracks(threshold: int, cooldown: real, calls: seq<Call>, now: real)
    requires cooldown >= 0.0 && Clocked(calls, now)
    ensures var b := Breaker(threshold, cooldown, 0, 0.0);
      Tracked(threshold, cooldown, After(b, calls), Tried(b, calls), now)
    decreases |calls|
  {
    if calls != [] {
      hide Next, Streak, LastFailure, Cooling, Blocks, Tracked;
      var b := Breaker(threshold, cooldown, 0, 0.0);
      var init, last := calls[..|calls| - 1], calls[|calls| - 1];
      Tracks(threshold, cooldown, init, last.start);
      TracksBlocked(threshold, cooldown, After(b, init), Tried(b, init), last);
      TracksTried(threshold, cooldown, After(b, init), Tried(b, init), last);
      assert Tried(b, init) + [] == Tried(b, init);
      TrackedLater(threshold, cooldown, After(b, calls), Tried(b, calls), last.end, now);
    }
  }
}
