/** The lease on one outbox task, in time. */
module TaskLease {

  /** A claim older than window may be taken over. A worker renews no more
      than gap after its claim or last renewal, until its resolver ends, and
      reports no more than delay after that. */
  datatype Timing = Timing(gap: real, delay: real, window: real) {
    predicate Sensible() {
      gap >= 0.0 && delay >= 0.0 && window > 0.0
    }
  }

  /** held: the time of the worker's claim or last renewal. */
  datatype Worker =
    | Away
    | Running(held: real)
    | Ending(held: real, since: real)

  datatype Task = Free | Leased(stamp: real) | Closed

  datatype Lease = Lease(now: real, task: Task, workers: seq<Worker>)

  /** Time passes only as far as every worker keeps its promises; a crashed
      worker makes none. Report(_, true) puts the task back for a retry. */
  datatype Action =
    | Pass(span: real)
    | Claim(who: nat)
    | Renew(who: nat)
    | End(who: nat)
    | Report(who: nat, retry: bool)
    | Crash(who: nat)

  predicate Punctual(t: Timing, w: Worker, now: real) {
    match w
    case Away => true
    case Running(held) => now <= held + t.gap
    case Ending(_, since) => now <= since + t.delay
  }

  predicate Claimable(t: Timing, lease: Lease) {
    match lease.task
    case Free => true
    case Leased(stamp) => lease.now - stamp >= t.window
    case Closed => false
  }

  predicate Due(t: Timing, lease: Lease, a: Action) {
    match a
    case Pass(span) =>
      span >= 0.0 && forall w :: 0 <= w < |lease.workers| ==> Punctual(t, lease.workers[w], lease.now + span)
    case Claim(w) => w < |lease.workers| && lease.workers[w].Away? && Claimable(t, lease)
    case Renew(w) => w < |lease.workers| && lease.workers[w].Running? && lease.task.Leased?
    case End(w) => w < |lease.workers| && lease.workers[w].Running?
    case Report(w, _) => w < |lease.workers| && lease.workers[w].Ending?
    case Crash(w) => w < |lease.workers|
  }

  function Step(t: Timing, lease: Lease, a: Action): Lease {
    if !Due(t, lease, a) then lease
    else
      var now, workers := lease.now, lease.workers;
      match a
      case Pass(span) => lease.(now := now + span)
      case Claim(w) => lease.(task := Leased(now), workers := workers[w := Running(now)])
      case Renew(w) => lease.(task := Leased(now), workers := workers[w := Running(now)])
      case End(w) => lease.(workers := workers[w := Ending(workers[w].held, now)])
      case Report(w, retry) => lease.(task := if retry then Free else Closed, workers := workers[w := Away])
      case Crash(w) => lease.(workers := workers[w := Away])
  }

  function Run(t: Timing, lease: Lease, actions: seq<Action>): Lease
    decreases |actions|
  {
    if actions == [] then lease else Run(t, Step(t, lease, actions[0]), actions[1..])
  }

  ghost predicate Fresh(lease: Lease) {
    lease.task.Free? && forall w :: 0 <= w < |lease.workers| ==> lease.workers[w].Away?
  }

  /** At most one worker between its claim and its report. */
  ghost predicate Exclusive(lease: Lease) {
    forall v, w :: 0 <= v < w < |lease.workers| ==> lease.workers[v].Away? || lease.workers[w].Away?
  }

  /** An active worker's stamp is the task's, and too young to be taken over. */
  ghost predicate Guarded(t: Timing, lease: Lease, w: Worker) {
    match w
    case Away => true
    case Running(held) => lease.task == Leased(held) && lease.now <= held + t.gap
    case Ending(held, since) => lease.task == Leased(held) && since <= held + t.gap && lease.now <= since + t.delay
  }

  ghost predicate Ok(t: Timing, lease: Lease) {
    Exclusive(lease) && forall w :: 0 <= w < |lease.workers| ==> Guarded(t, lease, lease.workers[w])
  }

  lemma StepKeeps(t: Timing, lease: Lease, a: Action)
    requires t.Sensible() && t.gap + t.delay < t.window && Ok(t, lease)
    ensures Ok(t, Step(t, lease, a))
  {
  }

  lemma {:induction false} RunKeeps(t: Timing, lease: Lease, actions: seq<Action>)
    requires t.Sensible() && t.gap + t.delay < t.window && Ok(t, lease)
    ensures Ok(t, Run(t, lease, actions))
    decreases |actions|
  {
    hide Ok, Step;
    if actions != [] {
      StepKeeps(t, lease, actions[0]);
      RunKeeps(t, Step(t, lease, actions[0]), actions[1..]);
    }
  }

  /** The resolver ends just before a renewal was due, and its report takes
      long enough for the window to close. */
  function Overrun(t: Timing): seq<Action> {
    var rest := t.window - t.gap;
    [Claim(0), Pass(if rest >= 0.0 then t.gap else t.window), End(0), Pass(if rest >= 0.0 then rest else 0.0), Claim(1)]
  }

  lemma OverrunShares(t: Timing, lease: Lease)
    requires t.Sensible() && t.gap + t.delay >= t.window
    requires Fresh(lease) && |lease.workers| >= 2
    ensures !Exclusive(Run(t, lease, Overrun(t)))
  {
    var actions := Overrun(t);
    var s1 := Step(t, lease, actions[0]);
    var s2 := Step(t, s1, actions[1]);
    var s3 := Step(t, s2, actions[2]);
    var s4 := Step(t, s3, actions[3]);
    var s5 := Step(t, s4, actions[4]);
    assert s5.workers[0].Ending? && s5.workers[1].Running?;
    assert !Exclusive(s5);
    hide Step;
    assert actions[1..][1..][1..][1..][1..] == [];
    assert Run(t, s4, actions[1..][1..][1..][1..]) == s5;
    assert Run(t, s3, actions[1..][1..][1..]) == s5;
    assert Run(t, s2, actions[1..][1..]) == s5;
  }

  /** A worker that renews as late as it may, n times over. */
  function Renewals(t: Timing, n: nat): seq<Action> {
    if n == 0 then [] else [Pass(t.gap), Renew(0)] + Renewals(t, n - 1)
  }

  /** Renewing in time keeps a lease for as long as the worker runs, with a
      stamp as young as its last renewal. */
  lemma {:induction false} RenewingKeepsTheLease(t: Timing, lease: Lease, n: nat)
    requires t.Sensible() && lease.workers == [Running(lease.now)] && lease.task == Leased(lease.now)
    ensures var later := lease.now + n as real * t.gap;
      Run(t, lease, Renewals(t, n)) == Lease(later, Leased(later), [Running(later)])
    decreases n
  {
    if n > 0 {
      var actions := Renewals(t, n);
      var s1 := Step(t, lease, Pass(t.gap));
      var s2 := Step(t, s1, Renew(0));
      assert actions[0] == Pass(t.gap) && actions[1..][0] == Renew(0) && actions[1..][1..] == Renewals(t, n - 1);
      assert Run(t, lease, actions) == Run(t, s1, actions[1..]) == Run(t, s2, actions[1..][1..]);
      assert s2 == Lease(lease.now + t.gap, Leased(lease.now + t.gap), [Running(lease.now + t.gap)]);
      RenewingKeepsTheLease(t, s2, n - 1);
      assert n as real * t.gap == t.gap + (n - 1) as real * t.gap;
    }
  }

  /** Two workers never hold one task, whatever happens, exactly when gap and
      delay together stay below the window. */
  lemma ExclusiveExactly(t: Timing, lease: Lease)
    requires t.Sensible() && Fresh(lease) && |lease.workers| >= 2
    ensures (forall actions :: Exclusive(Run(t, lease, actions))) <==> t.gap + t.delay < t.window
  {
    if t.gap + t.delay < t.window {
      forall actions
        ensures Exclusive(Run(t, lease, actions))
      {
        RunKeeps(t, lease, actions);
      }
    } else {
      OverrunShares(t, lease);
    }
  }
}
