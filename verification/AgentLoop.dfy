/** run_resolver_with_heartbeat, and how a drain loop treats what it returns. */
module AgentLoop {
  import opened Wrappers

  datatype Resolution = Resolution(resolved: bool, detail: string)

  /** The answer of one touch_outbox_task call made while the resolver runs. */
  datatype Beat = Renewed | NotRenewed | BeatRaised

  /** How the resolver ended. */
  datatype Ending = Returned(resolution: Resolution) | ResolverRaised

  /** (resolution, lease_lost), or an exception to the caller. */
  datatype Run = Finished(resolution: Resolution, leaseLost: bool) | Raised

  /** The heartbeat stops at its first beat that is not a renewal. */
  function FirstStop(beats: seq<Beat>): (stop: Option<Beat>)
    ensures stop.Some? ==> !stop.value.Renewed?
  {
    if beats == [] then None
    else if beats[0].Renewed? then FirstStop(beats[1..])
    else Some(beats[0])
  }

  function Outcome(beats: seq<Beat>, ending: Ending): Run {
    if ending.ResolverRaised? || FirstStop(beats) == Some(BeatRaised) then Raised
    else Finished(ending.resolution, FirstStop(beats) == Some(NotRenewed))
  }

  /** beats: what the storage answers to each renewal due before the end. */
  method RunResolverWithHeartbeat(beats: seq<Beat>, ending: Ending) returns (r: Run)
    ensures r == Outcome(beats, ending)
  {
    var leaseLost, heartbeatRaised := false, false;
    var i := 0;
    while i < |beats|
      invariant i <= |beats|
      invariant FirstStop(beats) == FirstStop(beats[i..])
      invariant !leaseLost && !heartbeatRaised
    {
      if beats[i].BeatRaised? {
        heartbeatRaised := true;
        break;
      }
      if beats[i].NotRenewed? {
        leaseLost := true;
        break;
      }
      i := i + 1;
    }
    if ending.ResolverRaised? || heartbeatRaised {
      return Raised;
    }
    return Finished(ending.resolution, leaseLost);
  }

  // ---------------------------------------------------------------------
  // The drain loops' treatment (orchestrator and fork agent alike)
  // ---------------------------------------------------------------------

  /** What the worker tells the outbox about its task. */
  datatype Report = Nothing | Complete | Fail

  method Reported(beats: seq<Beat>, ending: Ending) returns (report: Report)
    ensures report == ReportOf(Outcome(beats, ending))
  {
    var run := RunResolverWithHeartbeat(beats, ending);
    var resolution, leaseLost;
    match run {
      case Finished(r, lost) => resolution, leaseLost := r, lost;
      case Raised => resolution, leaseLost := Resolution(false, "unexpected exception"), false;
    }
    if leaseLost {
      return Nothing;
    }
    return if resolution.resolved then Complete else Fail;
  }

  function ReportOf(run: Run): Report {
    match run
    case Raised => Fail
    case Finished(resolution, leaseLost) =>
      if leaseLost then Nothing else if resolution.resolved then Complete else Fail
  }

  /** The heartbeat's first beat that was not a renewal is this one. */
  ghost predicate StoppedBy(beats: seq<Beat>, stop: Beat) {
    exists k :: 0 <= k < |beats| && beats[k] == stop && forall j :: 0 <= j < k ==> beats[j] == Renewed
  }

  ghost predicate SawRenewalFail(beats: seq<Beat>) {
    StoppedBy(beats, NotRenewed)
  }

  ghost predicate AllRenewed(beats: seq<Beat>) {
    forall k :: 0 <= k < |beats| ==> beats[k] == Renewed
  }

  lemma {:induction false} FirstStopMeans(beats: seq<Beat>, stop: Beat)
    requires !stop.Renewed?
    ensures StoppedBy(beats, stop) <==> FirstStop(beats) == Some(stop)
    ensures FirstStop(beats).None? <==> AllRenewed(beats)
  {
    if beats != [] {
      var rest := beats[1..];
      FirstStopMeans(rest, stop);
      if beats[0].Renewed? {
        if k :| 0 <= k < |beats| && beats[k] == stop && forall j :: 0 <= j < k ==> beats[j] == Renewed {
          assert rest[k - 1] == stop;
          assert forall j :: 0 <= j < k - 1 ==> rest[j] == Renewed;
        }
        if k :| 0 <= k < |rest| && rest[k] == stop && forall j :: 0 <= j < k ==> rest[j] == Renewed {
          assert beats[k + 1] == stop && forall j :: 0 <= j < k + 1 ==> beats[j] == Renewed;
        }
        assert forall k :: 0 <= k < |rest| ==> rest[k] == beats[k + 1];
        assert AllRenewed(rest) ==> forall k :: 1 <= k < |beats| ==> beats[k] == rest[k - 1];
      } else if beats[0] == stop {
        assert beats[0] == stop;
      }
    }
  }

  /** A worker whose renewal failed keeps silent exactly when its resolver
      returned: a resolver that raises resets lease_lost, and the worker
      reports a failure on a task it no longer holds. */
  lemma SilentAfterLostLeaseExactly(beats: seq<Beat>, ending: Ending)
    requires SawRenewalFail(beats)
    ensures ReportOf(Outcome(beats, ending)) == Nothing <==> ending.Returned?
    ensures ending.ResolverRaised? ==> ReportOf(Outcome(beats, ending)) == Fail
  {
    FirstStopMeans(beats, NotRenewed);
  }

  /** Every report by its cause: completion needs a resolved task and nothing
      but renewals; silence a lost lease and a resolver that returned; and a
      failure is reported for a raise of resolver or renewal, resolved or not,
      besides the resolver's own verdict. */
  lemma ReportedExactly(beats: seq<Beat>, ending: Ending)
    ensures var report := ReportOf(Outcome(beats, ending));
      && (report == Complete <==> ending.Returned? && ending.resolution.resolved && AllRenewed(beats))
      && (report == Nothing <==> ending.Returned? && StoppedBy(beats, NotRenewed))
      && (report == Fail <==>
          ending.ResolverRaised? || StoppedBy(beats, BeatRaised) || (AllRenewed(beats) && !ending.resolution.resolved))
  {
    hide FirstStop, AllRenewed, StoppedBy;
    FirstStopMeans(beats, NotRenewed);
    FirstStopMeans(beats, BeatRaised);
  }
}
