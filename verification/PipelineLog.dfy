/** The transition log a pipeline object carries, and its derived status. */
module PipelineLog {
  import opened Wrappers

  datatype Status =
    | AwaitingResearch | AwaitingReview | AwaitingSynthesis | AwaitingArbitration | NeedsResearch | Resolved

  datatype Agent = ResearcherAgent | ReviewerAgent | OtherAgent(name: string)

  /** Deterministic id of the node an agent writes about an object's content. */
  datatype NodeId = NodeId(agent: Agent, objectId: string, hash: string)

  datatype Entry = Entry(
    at: nat, agent: Agent, to: Status, node: Option<NodeId>, hash: Option<string>, runId: Option<string>)

  /** An object: its content, and the two bookkeeping fields that no content
      hash covers. */
  datatype Object = Object(id: string, content: string, status: Option<Status>, log: seq<Entry>)

  /** update_object in merge mode: the log is replaced by the one in the patch. */
  datatype Patch = Patch(status: Status, log: seq<Entry>)

  function Patched(obj: Object, patch: Patch): Object {
    obj.(status := Some(patch.status), log := patch.log)
  }

  function AppendTransition(currentLog: seq<Entry>, entry: Entry): Patch {
    Patch(entry.to, currentLog + [entry])
  }

  predicate Matches(entry: Entry, agent: Agent, hash: Option<string>) {
    entry.agent == agent && (hash.Some? ==> entry.hash == hash)
  }

  /** The most recent matching entry. */
  function FindTransition(log: seq<Entry>, agent: Agent, hash: Option<string>): Option<Entry> {
    if log == [] then None
    else
      var last := log[|log| - 1];
      if Matches(last, agent, hash) then Some(last) else FindTransition(log[..|log| - 1], agent, hash)
  }

  /** First-match search from the front. */
  function HasAgentTransitioned(log: seq<Entry>, agent: Agent, hash: Option<string>): bool {
    log != [] && (Matches(log[0], agent, hash) || HasAgentTransitioned(log[1..], agent, hash))
  }

  /** The last match and nothing after it; no answer exactly when none matches. */
  lemma {:induction false} FindIsLast(log: seq<Entry>, agent: Agent, hash: Option<string>) returns (k: nat)
    ensures match FindTransition(log, agent, hash)
      case Some(entry) =>
        k < |log| && log[k] == entry && Matches(entry, agent, hash)
        && forall j :: k < j < |log| ==> !Matches(log[j], agent, hash)
      case None => forall j :: 0 <= j < |log| ==> !Matches(log[j], agent, hash)
  {
    k := 0;
    if log != [] {
      k := FindIsLast(log[..|log| - 1], agent, hash);
      if Matches(log[|log| - 1], agent, hash) {
        k := |log| - 1;
      }
    }
  }

  lemma {:induction false} HasMeans(log: seq<Entry>, agent: Agent, hash: Option<string>)
    ensures HasAgentTransitioned(log, agent, hash) <==> exists k :: 0 <= k < |log| && Matches(log[k], agent, hash)
  {
    if log != [] {
      HasMeans(log[1..], agent, hash);
      if k :| 0 <= k < |log| && Matches(log[k], agent, hash) {
        assert k > 0 ==> log[1..][k - 1] == log[k];
      }
      if k :| 0 <= k < |log| - 1 && Matches(log[1..][k], agent, hash) {
        assert log[k + 1] == log[1..][k];
      }
    }
  }

  /** Both look for an entry of that agent about that very content: without a
      hash, about any. */
  lemma GuardExactly(log: seq<Entry>, agent: Agent, hash: Option<string>)
    ensures HasAgentTransitioned(log, agent, hash) <==>
      exists k :: 0 <= k < |log| && log[k].agent == agent && (hash.None? || log[k].hash == hash)
    ensures FindTransition(log, agent, hash).Some? <==>
      exists k :: 0 <= k < |log| && log[k].agent == agent && (hash.None? || log[k].hash == hash)
  {
    HasMeans(log, agent, hash);
    GuardAgreesWithLookup(log, agent, hash);
    if k :| 0 <= k < |log| && log[k].agent == agent && (hash.None? || log[k].hash == hash) {
      assert Matches(log[k], agent, hash);
    }
  }

  /** The guard and the lookup never disagree. */
  lemma GuardAgreesWithLookup(log: seq<Entry>, agent: Agent, hash: Option<string>)
    ensures HasAgentTransitioned(log, agent, hash) <==> FindTransition(log, agent, hash).Some?
  {
    HasMeans(log, agent, hash);
    var k := FindIsLast(log, agent, hash);
  }

  /** Appending to the log just read keeps every entry, and the new one is
      what the next lookup for its agent and hash finds. */
  lemma AppendFound(obj: Object, entry: Entry, agent: Agent, hash: Option<string>)
    ensures var next := Patched(obj, AppendTransition(obj.log, entry));
      && obj.log < next.log && next.content == obj.content && next.status == Some(next.log[|next.log| - 1].to)
      && FindTransition(next.log, agent, hash)
           == if Matches(entry, agent, hash) then Some(entry) else FindTransition(obj.log, agent, hash)
  {
    assert (obj.log + [entry])[..|obj.log|] == obj.log;
  }

  /** At most one entry per agent and content hash. */
  ghost predicate OncePer(log: seq<Entry>, agent: Agent, hash: string) {
    forall i, j :: 0 <= i < j < |log| && Matches(log[i], agent, Some(hash)) ==> !Matches(log[j], agent, Some(hash))
  }

  /** Guarded appends keep the log free of repeats. */
  lemma GuardedAppendOnce(log: seq<Entry>, entry: Entry, agent: Agent, hash: string)
    requires OncePer(log, agent, hash)
    requires Matches(entry, agent, Some(hash)) ==> !HasAgentTransitioned(log, agent, Some(hash))
    ensures OncePer(log + [entry], agent, hash)
  {
    HasMeans(log, agent, Some(hash));
  }
}
