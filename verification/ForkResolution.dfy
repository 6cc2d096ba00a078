/** Fork arbitration: winner selection among conflicting objects, and
    resolve_fork over the pointer store. */
module ForkResolution {
  import opened Wrappers
  import opened StringOrder

  type Id = string
  type Replica = string

  // ---------------------------------------------------------------------
  // Version vectors
  // ---------------------------------------------------------------------

  /** A replica without an entry stands at 0. */
  type VersionVector = map<Replica, nat>

  function At(v: VersionVector, r: Replica): nat {
    if r in v then v[r] else 0
  }

  predicate Covers(a: VersionVector, b: VersionVector) {
    forall r :: r in b ==> b[r] <= At(a, r)
  }

  datatype Causality = Dominates | Equal | Dominated | Concurrent

  function CausalityCheck(a: VersionVector, b: VersionVector): Causality {
    if Covers(a, b) then (if Covers(b, a) then Equal else Dominates)
    else if Covers(b, a) then Dominated
    else Concurrent
  }

  lemma CoversPointwise(a: VersionVector, b: VersionVector)
    ensures Covers(a, b) <==> forall r :: At(b, r) <= At(a, r)
  {
    if Covers(a, b) {
      forall r ensures At(b, r) <= At(a, r) {
      }
    } else {
      var r :| r in b && b[r] > At(a, r);
      assert At(b, r) > At(a, r);
    }
  }

  /** Every answer by the counters: at least as high everywhere, and somewhere
      higher, in either direction. */
  lemma CausalityExactly(a: VersionVector, b: VersionVector)
    ensures var c := CausalityCheck(a, b);
      && (c == Equal <==> forall r :: At(a, r) == At(b, r))
      && (c == Dominates <==> (forall r :: At(b, r) <= At(a, r)) && exists r :: At(b, r) < At(a, r))
      && (c == Dominated <==> (forall r :: At(a, r) <= At(b, r)) && exists r :: At(a, r) < At(b, r))
      && (c == Concurrent <==> (exists r :: At(b, r) < At(a, r)) && exists r :: At(a, r) < At(b, r))
  {
    CoversPointwise(a, b);
    CoversPointwise(b, a);
    hide Covers;
  }

  // ---------------------------------------------------------------------
  // Winner selection
  // ---------------------------------------------------------------------

  /** createdAt is None or Some("") when the pointer row has no timestamp. */
  datatype Candidate = Candidate(objectId: Id, vv: VersionVector, createdAt: Option<string>)

  predicate Stamped(c: Candidate) {
    c.createdAt.Some? && c.createdAt.value != ""
  }

  /** Entry i dominates or equals all other entries, one of them strictly. */
  predicate NewestAt(cs: seq<Candidate>, i: nat)
    requires i < |cs|
  {
    && (forall j :: 0 <= j < |cs| && j != i ==> Covers(cs[i].vv, cs[j].vv))
    && (exists j :: 0 <= j < |cs| && j != i && CausalityCheck(cs[i].vv, cs[j].vv) == Dominates)
  }

  function FirstNewest(cs: seq<Candidate>, i: nat): Option<Id>
    requires i <= |cs|
    decreases |cs| - i
  {
    if i == |cs| then None
    else if NewestAt(cs, i) then Some(cs[i].objectId)
    else FirstNewest(cs, i + 1)
  }

  function FindCausallyNewest(cs: seq<Candidate>): Option<Id> {
    if |cs| == 0 then None
    else if |cs| == 1 then Some(cs[0].objectId)
    else FirstNewest(cs, 0)
  }

  /** The dictionary object id -> timestamp; a later entry overwrites. */
  function Timestamps(cs: seq<Candidate>): map<Id, string> {
    if cs == [] then map[]
    else
      var last := cs[|cs| - 1];
      var before := Timestamps(cs[..|cs| - 1]);
      if Stamped(last) then before[last.objectId := last.createdAt.value] else before
  }

  predicate KeyLe(stamps: map<Id, string>, a: Id, b: Id)
    requires a in stamps && b in stamps
  {
    if stamps[a] == stamps[b] then Le(a, b) else Le(stamps[a], stamps[b])
  }

  /** The id of cs with the greatest (timestamp, id), among those with a stamp. */
  function Latest(stamps: map<Id, string>, cs: seq<Candidate>): (r: Option<Id>)
    ensures r.Some? ==> r.value in stamps
  {
    if cs == [] then None
    else
      var best := Latest(stamps, cs[1..]);
      var id := cs[0].objectId;
      if id in stamps && (best.None? || KeyLe(stamps, best.value, id)) then Some(id) else best
  }

  function FirstId(cs: seq<Candidate>): Option<Id> {
    if cs == [] then None
    else
      var best := FirstId(cs[1..]);
      if best.None? || Le(cs[0].objectId, best.value) then Some(cs[0].objectId) else best
  }

  predicate StampsDiffer(stamps: map<Id, string>) {
    exists a, b :: a in stamps && b in stamps && stamps[a] != stamps[b]
  }

  /** None stands for the exception min() raises on an empty list. */
  function SelectWinner(cs: seq<Candidate>): Option<Id> {
    var newest := FindCausallyNewest(cs);
    if newest.Some? then newest
    else
      var stamps := Timestamps(cs);
      if StampsDiffer(stamps) then Latest(stamps, cs) else FirstId(cs)
  }

  // ---------------------------------------------------------------------
  // What each stage answers, without reference to list order
  // ---------------------------------------------------------------------

  ghost predicate DistinctIds(cs: seq<Candidate>) {
    forall i, j :: 0 <= i < j < |cs| ==> cs[i].objectId != cs[j].objectId
  }

  ghost predicate Rearranged(cs: seq<Candidate>, ds: seq<Candidate>) {
    multiset(cs) == multiset(ds)
  }

  /** c covers every other candidate and strictly dominates one. */
  ghost predicate Newest(cs: seq<Candidate>, c: Candidate) {
    && c in cs
    && (forall d :: d in cs ==> Covers(c.vv, d.vv))
    && (exists d :: d in cs && !Covers(d.vv, c.vv))
  }

  lemma NewestAtIsNewest(cs: seq<Candidate>, i: nat)
    requires i < |cs|
    ensures NewestAt(cs, i) <==> Newest(cs, cs[i])
  {
    CoversSelf(cs[i].vv);
    if NewestAt(cs, i) {
      forall d | d in cs ensures Covers(cs[i].vv, d.vv) {
        var j :| 0 <= j < |cs| && cs[j] == d;
        assert j == i || Covers(cs[i].vv, cs[j].vv);
      }
      var j :| 0 <= j < |cs| && j != i && CausalityCheck(cs[i].vv, cs[j].vv) == Dominates;
      assert cs[j] in cs;
    }
    if Newest(cs, cs[i]) {
      var d :| d in cs && CausalityCheck(cs[i].vv, d.vv) == Dominates;
      var j :| 0 <= j < |cs| && cs[j] == d;
    }
  }

  lemma CoversSelf(v: VersionVector)
    ensures Covers(v, v)
  {
  }

  lemma {:induction false} FirstNewestMeaning(cs: seq<Candidate>, i: nat) returns (k: nat)
    requires i <= |cs|
    ensures var r := FirstNewest(cs, i);
      if r.Some? then i <= k < |cs| && r.value == cs[k].objectId && Newest(cs, cs[k])
      else forall j :: i <= j < |cs| ==> !Newest(cs, cs[j])
    decreases |cs| - i
  {
    k := i;
    if i < |cs| {
      NewestAtIsNewest(cs, i);
      if !NewestAt(cs, i) {
        k := FirstNewestMeaning(cs, i + 1);
      }
    }
  }

  lemma {:induction false} TimestampsMeaning(cs: seq<Candidate>, id: Id)
    requires DistinctIds(cs)
    ensures id in Timestamps(cs) <==> exists c :: c in cs && c.objectId == id && Stamped(c)
    ensures forall c :: c in cs && c.objectId == id && Stamped(c) ==> Timestamps(cs)[id] == c.createdAt.value
    decreases |cs|
  {
    if cs != [] {
      var init, last := cs[..|cs| - 1], cs[|cs| - 1];
      assert cs == init + [last];
      TimestampsMeaning(init, id);
      forall c | c in init ensures c.objectId != last.objectId {
        var j :| 0 <= j < |init| && init[j] == c;
        assert cs[j] == c;
      }
      if id in Timestamps(cs) && id in Timestamps(init) {
        var c :| c in init && c.objectId == id && Stamped(c);
        assert c in cs;
      }
    }
  }

  /** Rearranging the list does not change the dictionary. */
  lemma TimestampsRearranged(cs: seq<Candidate>, ds: seq<Candidate>)
    requires DistinctIds(cs) && DistinctIds(ds) && Rearranged(cs, ds)
    ensures Timestamps(cs) == Timestamps(ds)
  {
    SameMembers(cs, ds);
    forall id ensures id in Timestamps(cs) <==> id in Timestamps(ds) {
      TimestampsMeaning(cs, id);
      TimestampsMeaning(ds, id);
    }
    forall id | id in Timestamps(cs) ensures Timestamps(cs)[id] == Timestamps(ds)[id] {
      TimestampsMeaning(cs, id);
      TimestampsMeaning(ds, id);
      var c :| c in cs && c.objectId == id && Stamped(c);
      assert c in ds;
    }
  }

  lemma SameMembers(cs: seq<Candidate>, ds: seq<Candidate>)
    requires Rearranged(cs, ds)
    ensures forall c :: c in cs <==> c in ds
    ensures |cs| == |ds|
  {
    forall c ensures c in cs <==> c in ds {
      assert c in cs <==> c in multiset(cs);
      assert c in ds <==> c in multiset(ds);
    }
    assert |multiset(cs)| == |cs| && |multiset(ds)| == |ds|;
  }

  lemma {:induction false} LatestMeaning(stamps: map<Id, string>, cs: seq<Candidate>)
    ensures var r := Latest(stamps, cs);
      && (r.None? <==> forall c :: c in cs ==> c.objectId !in stamps)
      && (r.Some? ==> exists c :: c in cs && c.objectId == r.value)
      && (r.Some? ==> forall c :: c in cs && c.objectId in stamps ==> KeyLe(stamps, c.objectId, r.value))
  {
    if cs != [] {
      LatestMeaning(stamps, cs[1..]);
      var id, best := cs[0].objectId, Latest(stamps, cs[1..]);
      assert cs == [cs[0]] + cs[1..];
      forall c | c in cs && id in stamps && c.objectId in stamps
        ensures KeyLe(stamps, c.objectId, Latest(stamps, cs).value)
      {
        LeReflexive(id);
        if best.Some? {
          LeTotal(stamps[id], stamps[best.value]);
          LeTotal(id, best.value);
          if KeyLe(stamps, best.value, id) && c in cs[1..] {
            KeyLeTransitive(stamps, c.objectId, best.value, id);
          }
        }
      }
    }
  }

  lemma KeyLeTransitive(stamps: map<Id, string>, a: Id, b: Id, c: Id)
    requires a in stamps && b in stamps && c in stamps
    requires KeyLe(stamps, a, b) && KeyLe(stamps, b, c)
    ensures KeyLe(stamps, a, c)
  {
    if stamps[a] == stamps[b] == stamps[c] {
      LeTransitive(a, b, c);
    } else {
      LeReflexive(stamps[a]);
      LeReflexive(stamps[c]);
      LeTransitive(stamps[a], stamps[b], stamps[c]);
      if stamps[a] == stamps[c] {
        LeAntisymmetric(stamps[a], stamps[b]);
      }
    }
  }

  lemma {:induction false} FirstIdMeaning(cs: seq<Candidate>)
    ensures var r := FirstId(cs);
      && (r.None? <==> cs == [])
      && (r.Some? ==> exists c :: c in cs && c.objectId == r.value)
      && (r.Some? ==> forall c :: c in cs ==> Le(r.value, c.objectId))
  {
    if cs != [] {
      FirstIdMeaning(cs[1..]);
      var id, best := cs[0].objectId, FirstId(cs[1..]);
      assert cs == [cs[0]] + cs[1..];
      LeReflexive(id);
      if best.Some? {
        LeTotal(id, best.value);
        forall c | c in cs ensures Le(FirstId(cs).value, c.objectId) {
          if Le(id, best.value) && c in cs[1..] {
            LeTransitive(id, best.value, c.objectId);
          }
        }
      }
    }
  }

  /** The candidate with an empty timestamp taken for none. */
  function Erased(c: Candidate): Candidate {
    if c.createdAt == Some("") then c.(createdAt := None) else c
  }

  function AllErased(cs: seq<Candidate>): seq<Candidate> {
    seq(|cs|, i requires 0 <= i < |cs| => Erased(cs[i]))
  }

  /** An empty timestamp counts as none. */
  lemma EmptyTimeIsNone(cs: seq<Candidate>)
    ensures SelectWinner(AllErased(cs)) == SelectWinner(cs)
  {
    SameTimestamps(cs);
    SameFirstNewest(cs, 0);
    SameLatest(Timestamps(cs), cs);
  }

  lemma {:induction false} SameTimestamps(cs: seq<Candidate>)
    ensures Timestamps(AllErased(cs)) == Timestamps(cs)
  {
    if cs != [] {
      assert AllErased(cs)[..|cs| - 1] == AllErased(cs[..|cs| - 1]);
      SameTimestamps(cs[..|cs| - 1]);
    }
  }

  lemma {:induction false} SameFirstNewest(cs: seq<Candidate>, i: nat)
    requires i <= |cs|
    ensures FirstNewest(AllErased(cs), i) == FirstNewest(cs, i)
    decreases |cs| - i
  {
    if i < |cs| {
      SameFirstNewest(cs, i + 1);
      forall j | 0 <= j < |cs|
        ensures AllErased(cs)[j].vv == cs[j].vv
      {
      }
      assert NewestAt(AllErased(cs), i) <==> NewestAt(cs, i);
    }
  }

  lemma {:induction false} SameLatest(stamps: map<Id, string>, cs: seq<Candidate>)
    ensures Latest(stamps, AllErased(cs)) == Latest(stamps, cs) && FirstId(AllErased(cs)) == FirstId(cs)
  {
    if cs != [] {
      assert AllErased(cs)[1..] == AllErased(cs[1..]);
      SameLatest(stamps, cs[1..]);
    }
  }

  /** A nonempty list always has a winner, and it is one of its ids. */
  lemma WinnerIsACandidate(cs: seq<Candidate>)
    ensures SelectWinner(cs).None? <==> cs == []
    ensures SelectWinner(cs).Some? ==> exists c :: c in cs && c.objectId == SelectWinner(cs).value
  {
    FirstIdMeaning(cs);
    var k := FirstNewestMeaning(cs, 0);
    LatestMeaning(Timestamps(cs), cs);
    if cs != [] {
      assert cs[0] in cs;
      StampsAreCandidates(cs);
    }
  }

  lemma {:induction false} StampsAreCandidates(cs: seq<Candidate>)
    ensures forall id :: id in Timestamps(cs) ==> exists c :: c in cs && c.objectId == id
  {
    if cs != [] {
      var init := cs[..|cs| - 1];
      StampsAreCandidates(init);
      assert cs == init + [cs[|cs| - 1]];
      forall id | id in Timestamps(cs) ensures exists c :: c in cs && c.objectId == id {
        if id in Timestamps(init) {
          var c :| c in init && c.objectId == id;
          assert c in cs;
        } else {
          assert cs[|cs| - 1] in cs;
        }
      }
    }
  }

  // ---------------------------------------------------------------------
  // Replica convergence
  // ---------------------------------------------------------------------

  /** The order-free fallback: no newest candidate, so stamps and ids decide. */
  lemma FallbackConverges(cs: seq<Candidate>, ds: seq<Candidate>)
    requires |cs| >= 2 && DistinctIds(cs) && DistinctIds(ds) && Rearranged(cs, ds)
    requires FindCausallyNewest(cs).None? && FindCausallyNewest(ds).None?
    ensures SelectWinner(cs) == SelectWinner(ds)
  {
    SameMembers(cs, ds);
    TimestampsRearranged(cs, ds);
    var stamps := Timestamps(cs);
    WinnerIsACandidate(cs);
    WinnerIsACandidate(ds);
    assert cs[0] in cs;
    var a, b := SelectWinner(cs).value, SelectWinner(ds).value;
    var ca :| ca in cs && ca.objectId == a;
    var cb :| cb in ds && cb.objectId == b;
    if StampsDiffer(stamps) {
      LatestMeaning(stamps, cs);
      LatestMeaning(stamps, ds);
      assert KeyLe(stamps, a, b) && KeyLe(stamps, b, a);
      if stamps[a] == stamps[b] {
        LeAntisymmetric(a, b);
      } else {
        LeAntisymmetric(stamps[a], stamps[b]);
      }
    } else {
      FirstIdMeaning(cs);
      FirstIdMeaning(ds);
      LeAntisymmetric(a, b);
    }
  }

  /** Two replicas that see the same candidates in any two orders choose the
      same id, or two candidates whose vectors are Equal and newest. */
  lemma WinnersAgreeUpToEqual(cs: seq<Candidate>, ds: seq<Candidate>) returns (c: Candidate, d: Candidate)
    requires cs != [] && DistinctIds(cs) && DistinctIds(ds) && Rearranged(cs, ds)
    ensures c in cs && d in cs
    ensures SelectWinner(cs) == Some(c.objectId) && SelectWinner(ds) == Some(d.objectId)
    ensures c == d || (Newest(cs, c) && Newest(cs, d) && CausalityCheck(c.vv, d.vv) == Equal)
  {
    SameMembers(cs, ds);
    WinnerIsACandidate(cs);
    c :| c in cs && c.objectId == SelectWinner(cs).value;
    d := c;
    if |cs| == 1 {
      assert cs[0] in cs && ds[0] in ds && ds[0] in cs;
      assert cs == [cs[0]];
    } else {
      var i := FirstNewestMeaning(cs, 0);
      var j := FirstNewestMeaning(ds, 0);
      if FindCausallyNewest(cs).Some? || FindCausallyNewest(ds).Some? {
        var n := if FindCausallyNewest(cs).Some? then cs[i] else ds[j];
        NewestInBoth(cs, ds, n);
        var a :| 0 <= a < |cs| && cs[a] == n;
        var b :| 0 <= b < |ds| && ds[b] == n;
        c, d := cs[i], ds[j];
        NewestInBoth(cs, ds, d);
      } else {
        FallbackConverges(cs, ds);
      }
    }
  }

  lemma NewestInBoth(cs: seq<Candidate>, ds: seq<Candidate>, n: Candidate)
    requires Rearranged(cs, ds)
    ensures Newest(cs, n) <==> Newest(ds, n)
  {
    SameMembers(cs, ds);
  }

  /** Two newest candidates: the one situation in which list order decides. */
  ghost predicate Ambiguous(cs: seq<Candidate>) {
    exists c, d :: c != d && Newest(cs, c) && Newest(cs, d)
  }

  /** Every replica converges on one winner exactly when at most one candidate
      covers all others with a strict domination among them. */
  lemma ConvergesExactlyWhenUnambiguous(cs: seq<Candidate>)
    requires cs != [] && DistinctIds(cs)
    ensures (forall ds :: Rearranged(cs, ds) ==> SelectWinner(ds) == SelectWinner(cs)) <==> !Ambiguous(cs)
  {
    if Ambiguous(cs) {
      var c, d :| c != d && Newest(cs, c) && Newest(cs, d);
      var xs := MoveToFront(cs, c);
      var ys := MoveToFront(cs, d);
      FrontNewestWins(cs, c, xs);
      FrontNewestWins(cs, d, ys);
      var i :| 0 <= i < |cs| && cs[i] == c;
      var j :| 0 <= j < |cs| && cs[j] == d;
      assert c.objectId != d.objectId;
      assert Rearranged(cs, xs) && Rearranged(cs, ys);
    } else {
      forall ds | Rearranged(cs, ds) ensures SelectWinner(ds) == SelectWinner(cs) {
        RearrangedDistinct(cs, ds);
        var c, d := WinnersAgreeUpToEqual(cs, ds);
      }
    }
  }

  lemma {:induction false} MoveToFront(cs: seq<Candidate>, c: Candidate) returns (ds: seq<Candidate>)
    requires c in cs
    ensures Rearranged(cs, ds) && |ds| == |cs| && ds[0] == c
  {
    var i :| 0 <= i < |cs| && cs[i] == c;
    ds := [c] + cs[..i] + cs[i + 1..];
    assert cs == cs[..i] + [c] + cs[i + 1..];
  }

  lemma FrontNewestWins(cs: seq<Candidate>, c: Candidate, ds: seq<Candidate>)
    requires Newest(cs, c) && Rearranged(cs, ds) && |ds| == |cs| && ds[0] == c
    ensures SelectWinner(ds) == Some(c.objectId)
  {
    NewestInBoth(cs, ds, c);
    NewestAtIsNewest(ds, 0);
    var j :| 0 <= j < |ds| && j != 0 && CausalityCheck(ds[0].vv, ds[j].vv) == Dominates;
  }

  lemma RearrangedDistinct(cs: seq<Candidate>, ds: seq<Candidate>)
    requires DistinctIds(cs) && Rearranged(cs, ds)
    ensures DistinctIds(ds)
  {
    SameMembers(cs, ds);
    forall i, j | 0 <= i < j < |ds| ensures ds[i].objectId != ds[j].objectId {
      assert ds[i] in cs && ds[j] in cs;
      var a :| 0 <= a < |cs| && cs[a] == ds[i];
      var b :| 0 <= b < |cs| && cs[b] == ds[j];
      if a == b {
        TwiceIn(ds, i, j);
        OnceIn(cs, a);
        assert false;
      }
    }
  }

  lemma TwiceIn(ds: seq<Candidate>, i: nat, j: nat)
    requires i < j < |ds| && ds[i] == ds[j]
    ensures multiset(ds)[ds[i]] >= 2
  {
    assert ds == ds[..i] + [ds[i]] + ds[i + 1..j] + [ds[j]] + ds[j + 1..];
  }

  lemma OnceIn(cs: seq<Candidate>, a: nat)
    requires DistinctIds(cs) && a < |cs|
    ensures multiset(cs)[cs[a]] == 1
  {
    assert cs == cs[..a] + [cs[a]] + cs[a + 1..];
    assert cs[a] !in cs[..a] && cs[a] !in cs[a + 1..];
  }

  /** An ambiguity is a pair of newest candidates and one they dominate. */
  lemma AmbiguityWitnesses(cs: seq<Candidate>) returns (c: Candidate, d: Candidate, e: Candidate)
    requires Ambiguous(cs)
    ensures Newest(cs, c) && Newest(cs, d) && c != d
    ensures e in cs && CausalityCheck(c.vv, e.vv) == Dominates
  {
    c, d :| c != d && Newest(cs, c) && Newest(cs, d);
    e :| e in cs && CausalityCheck(c.vv, e.vv) == Dominates;
  }

  lemma NewestAreEqual(cs: seq<Candidate>, c: Candidate, d: Candidate)
    requires Newest(cs, c) && Newest(cs, d)
    ensures CausalityCheck(c.vv, d.vv) == Equal && CausalityCheck(d.vv, c.vv) == Equal
  {
  }

  lemma DominatedIsNotNewest(cs: seq<Candidate>, c: Candidate, d: Candidate, e: Candidate)
    requires Newest(cs, c) && Newest(cs, d) && e in cs && CausalityCheck(c.vv, e.vv) == Dominates
    ensures e != c && e != d
  {
    CoversSelf(c.vv);
  }

  ghost predicate NoEqualPair(cs: seq<Candidate>) {
    forall i, j :: 0 <= i < j < |cs| ==> CausalityCheck(cs[i].vv, cs[j].vv) != Equal
  }

  /** No Equal pair, or only two candidates: never ambiguous. */
  lemma UnambiguousCases(cs: seq<Candidate>)
    requires |cs| <= 2 || NoEqualPair(cs)
    ensures !Ambiguous(cs)
  {
    if Ambiguous(cs) {
      var c, d, e := AmbiguityWitnesses(cs);
      NewestAreEqual(cs, c, d);
      DominatedIsNotNewest(cs, c, d, e);
      ThreePositions(cs, c, d, e);
    }
  }

  lemma ThreePositions(cs: seq<Candidate>, c: Candidate, d: Candidate, e: Candidate)
    requires c in cs && d in cs && e in cs && c != d && d != e && c != e
    requires CausalityCheck(c.vv, d.vv) == Equal && CausalityCheck(d.vv, c.vv) == Equal
    ensures |cs| > 2 && !NoEqualPair(cs)
  {
    var i :| 0 <= i < |cs| && cs[i] == c;
    var j :| 0 <= j < |cs| && cs[j] == d;
    var k :| 0 <= k < |cs| && cs[k] == e;
    if i < j {
      assert CausalityCheck(cs[i].vv, cs[j].vv) == Equal;
    } else {
      assert CausalityCheck(cs[j].vv, cs[i].vv) == Equal;
    }
  }

  /** Three candidates, two of them Equal, on which the list order decides
      although the ids are the same on every replica. */
  lemma OrderCanDecide()
    ensures var a := Candidate("a", map["r" := 1], None);
      var b := Candidate("b", map["r" := 1], None);
      var c := Candidate("c", map[], None);
      && SelectWinner([a, b, c]) == Some("a")
      && SelectWinner([b, a, c]) == Some("b")
  {
    var a := Candidate("a", map["r" := 1], None);
    var b := Candidate("b", map["r" := 1], None);
    var c := Candidate("c", map[], None);
    var cs, ds := [a, b, c], [b, a, c];
    assert Covers(a.vv, b.vv) && Covers(b.vv, a.vv) && Covers(a.vv, c.vv);
    assert "r" in a.vv && !Covers(c.vv, a.vv);
    assert CausalityCheck(cs[0].vv, cs[2].vv) == Dominates && CausalityCheck(ds[0].vv, ds[2].vv) == Dominates;
    assert NewestAt(cs, 0) && NewestAt(ds, 0);
  }

  /** A candidate that strictly dominates all others wins, in any position. */
  lemma StrictMaximumWins(cs: seq<Candidate>, k: nat)
    requires k < |cs| && DistinctIds(cs)
    requires forall j :: 0 <= j < |cs| && j != k ==> CausalityCheck(cs[k].vv, cs[j].vv) == Dominates
    ensures SelectWinner(cs) == Some(cs[k].objectId)
  {
    if |cs| > 1 {
      var other := if k == 0 then 1 else 0;
      assert CausalityCheck(cs[k].vv, cs[other].vv) == Dominates;
      assert NewestAt(cs, k);
      NewestAtIsNewest(cs, k);
      var i := FirstNewestMeaning(cs, 0);
      assert Covers(cs[i].vv, cs[k].vv);
    }
  }

  /** With two candidates the winner is never the causally older one... */
  lemma NeverTheOlderOfTwo(cs: seq<Candidate>, k: nat)
    requires |cs| == 2 && k < 2 && DistinctIds(cs)
    requires CausalityCheck(cs[1 - k].vv, cs[k].vv) == Dominates
    ensures SelectWinner(cs) == Some(cs[1 - k].objectId)
  {
    StrictMaximumWins(cs, 1 - k);
  }

  /** ...but with three it can be: b wins on its timestamp although a strictly
      dominates it, because c is concurrent with both. */
  lemma OlderOfThreeCanWin(a: Candidate, b: Candidate, c: Candidate)
    requires a == Candidate("a", map["r" := 2], Some("2"))
    requires b == Candidate("b", map["r" := 1], Some("3"))
    requires c == Candidate("c", map["s" := 1], Some("1"))
    ensures CausalityCheck(a.vv, b.vv) == Dominates && SelectWinner([a, b, c]) == Some("b")
  {
    hide CausalityCheck, Covers, Timestamps, KeyLe;
    var cs := [a, b, c];
    OneOverOther(a.vv, b.vv);
    NoNewestOfThree(a, b, c);
    var k := FirstNewestMeaning(cs, 0);
    assert cs[0] == a && cs[1] == b && cs[2] == c;
    StampsOfThree(a, b, c);
    assert StampsDiffer(Timestamps(cs));
    LatestMeaning(Timestamps(cs), cs);
  }

  lemma OneOverOther(v: VersionVector, w: VersionVector)
    requires v == map["r" := 2] && w == map["r" := 1]
    ensures CausalityCheck(v, w) == Dominates
  {
    assert "r" in v;
  }

  lemma NoNewestOfThree(a: Candidate, b: Candidate, c: Candidate)
    requires a.vv == map["r" := 2] && b.vv == map["r" := 1] && c.vv == map["s" := 1]
    ensures !Newest([a, b, c], a) && !Newest([a, b, c], b) && !Newest([a, b, c], c)
  {
    assert "r" in a.vv && "s" in c.vv;
    assert !Covers(a.vv, c.vv) && !Covers(b.vv, c.vv) && !Covers(c.vv, a.vv);
    assert a in [a, b, c] && c in [a, b, c];
  }

  lemma StampsOfThree(a: Candidate, b: Candidate, c: Candidate)
    requires a.objectId == "a" && b.objectId == "b" && c.objectId == "c"
    requires a.createdAt == Some("2") && b.createdAt == Some("3") && c.createdAt == Some("1")
    ensures var stamps := Timestamps([a, b, c]);
      && "a" in stamps && "b" in stamps && "c" in stamps
      && stamps["a"] != stamps["b"] && !KeyLe(stamps, "b", "a") && !KeyLe(stamps, "b", "c")
  {
    var cs := [a, b, c];
    assert a in cs && b in cs && c in cs;
    TimestampsMeaning(cs, "a");
    TimestampsMeaning(cs, "b");
    TimestampsMeaning(cs, "c");
    assert !Le("3", "2") && !Le("3", "1");
  }

  // ---------------------------------------------------------------------
  // When an older candidate wins
  // ---------------------------------------------------------------------

  /** d is causally newer than c. */
  predicate Outdates(d: Candidate, c: Candidate) {
    CausalityCheck(d.vv, c.vv) == Dominates
  }

  ghost predicate TimesDiffer(cs: seq<Candidate>) {
    exists c, d :: c in cs && d in cs && Stamped(c) && Stamped(d) && c.createdAt != d.createdAt
  }

  /** (time, id) of c is at most that of d. */
  predicate NoLater(c: Candidate, d: Candidate)
    requires Stamped(c) && Stamped(d)
  {
    if c.createdAt == d.createdAt then Le(c.objectId, d.objectId) else Le(c.createdAt.value, d.createdAt.value)
  }

  /** The policy without causality: the greatest (time, id) when times differ,
      else the least id. */
  ghost predicate Preferred(cs: seq<Candidate>, c: Candidate) {
    && c in cs
    && if TimesDiffer(cs) then Stamped(c) && forall d :: d in cs && Stamped(d) ==> NoLater(d, c)
       else forall d :: d in cs ==> Le(c.objectId, d.objectId)
  }

  lemma TimesDifferMeans(cs: seq<Candidate>)
    requires DistinctIds(cs)
    ensures StampsDiffer(Timestamps(cs)) <==> TimesDiffer(cs)
  {
    var stamps := Timestamps(cs);
    if a, b :| a in stamps && b in stamps && stamps[a] != stamps[b] {
      TimestampsMeaning(cs, a);
      TimestampsMeaning(cs, b);
      var c :| c in cs && c.objectId == a && Stamped(c);
      var d :| d in cs && d.objectId == b && Stamped(d);
      assert c.createdAt != d.createdAt;
    }
    if c, d :| c in cs && d in cs && Stamped(c) && Stamped(d) && c.createdAt != d.createdAt {
      TimestampsMeaning(cs, c.objectId);
      TimestampsMeaning(cs, d.objectId);
    }
  }

  lemma FallsBack(cs: seq<Candidate>)
    requires |cs| >= 2 && forall d :: d in cs ==> !Newest(cs, d)
    ensures var stamps := Timestamps(cs);
      SelectWinner(cs) == if StampsDiffer(stamps) then Latest(stamps, cs) else FirstId(cs)
  {
    hide Newest, Timestamps, Latest, FirstId;
    var k := FirstNewestMeaning(cs, 0);
  }

  /** With no newest candidate the winner is the preferred one. */
  lemma FallbackIsPreferred(cs: seq<Candidate>) returns (c: Candidate)
    requires |cs| >= 2 && DistinctIds(cs) && forall d :: d in cs ==> !Newest(cs, d)
    ensures c in cs && Preferred(cs, c) && SelectWinner(cs) == Some(c.objectId)
  {
    hide SelectWinner, Timestamps, Latest, FirstId, Newest, StampsDiffer, TimesDiffer;
    FallsBack(cs);
    TimesDifferMeans(cs);
    if TimesDiffer(cs) {
      c := LatestIsPreferred(cs);
    } else {
      FirstIdMeaning(cs);
      c :| c in cs && c.objectId == FirstId(cs).value;
    }
  }

  lemma LatestIsPreferred(cs: seq<Candidate>) returns (c: Candidate)
    requires DistinctIds(cs) && TimesDiffer(cs)
    ensures Latest(Timestamps(cs), cs).Some? && Latest(Timestamps(cs), cs).value == c.objectId
    ensures c in cs && Stamped(c) && forall d :: d in cs && Stamped(d) ==> NoLater(d, c)
  {
    var stamps := Timestamps(cs);
    LatestMeaning(stamps, cs);
    var any :| any in cs && Stamped(any);
    TimestampsMeaning(cs, any.objectId);
    var id := Latest(stamps, cs).value;
    TimestampsMeaning(cs, id);
    c :| c in cs && c.objectId == id && Stamped(c);
    forall d | d in cs && Stamped(d)
      ensures NoLater(d, c)
    {
      TimestampsMeaning(cs, d.objectId);
      assert KeyLe(stamps, d.objectId, id);
    }
    hide Timestamps, Latest, TimesDiffer;
  }

  lemma SameId(cs: seq<Candidate>, c: Candidate, d: Candidate)
    requires DistinctIds(cs) && c in cs && d in cs && c.objectId == d.objectId
    ensures c == d
  {
    var i :| 0 <= i < |cs| && cs[i] == c;
    var j :| 0 <= j < |cs| && cs[j] == d;
  }

  lemma PreferredUnique(cs: seq<Candidate>, c: Candidate, d: Candidate)
    requires DistinctIds(cs) && Preferred(cs, c) && Preferred(cs, d)
    ensures c == d
  {
    if TimesDiffer(cs) {
      assert NoLater(c, d) && NoLater(d, c);
      if c.createdAt != d.createdAt {
        LeAntisymmetric(c.createdAt.value, d.createdAt.value);
      } else {
        LeAntisymmetric(c.objectId, d.objectId);
        SameId(cs, c, d);
      }
    } else {
      LeAntisymmetric(c.objectId, d.objectId);
      SameId(cs, c, d);
    }
  }

  /** With a newest candidate around, the winner is not outdated. */
  lemma NewestNotOutdated(cs: seq<Candidate>, n: Candidate, c: Candidate, d: Candidate)
    requires |cs| >= 2 && DistinctIds(cs) && n in cs && Newest(cs, n)
    requires c in cs && d in cs && SelectWinner(cs) == Some(c.objectId)
    ensures !Outdates(d, c)
  {
    var i :| 0 <= i < |cs| && cs[i] == n;
    var k := FirstNewestMeaning(cs, 0);
    SameId(cs, c, cs[k]);
    assert Covers(cs[k].vv, d.vv);
    hide Newest, Timestamps, Latest, FirstId;
  }

  /** A causally older candidate wins if and only if no candidate is newest
      and the one that times and ids prefer is outdated. */
  lemma OlderWinsExactly(cs: seq<Candidate>)
    requires |cs| >= 2 && DistinctIds(cs)
    ensures (exists c, d :: c in cs && d in cs && SelectWinner(cs) == Some(c.objectId) && Outdates(d, c))
       <==> (forall c :: c in cs ==> !Newest(cs, c))
            && exists c, d :: Preferred(cs, c) && d in cs && Outdates(d, c)
  {
    hide SelectWinner, Preferred, CausalityCheck, Newest;
    if n :| n in cs && Newest(cs, n) {
      forall c, d | c in cs && d in cs && SelectWinner(cs) == Some(c.objectId)
        ensures !Outdates(d, c)
      {
        NewestNotOutdated(cs, n, c, d);
      }
    } else {
      var w := FallbackIsPreferred(cs);
      forall c | c in cs && SelectWinner(cs) == Some(c.objectId)
        ensures c == w
      {
        SameId(cs, c, w);
      }
      forall c | Preferred(cs, c)
        ensures c == w
      {
        PreferredUnique(cs, c, w);
      }
    }
  }

  /** What a caller can check: every candidate has a timestamp, and whatever is
      causally newer is also strictly later. */
  ghost predicate TimesFollowCausality(cs: seq<Candidate>) {
    && (forall c :: c in cs ==> Stamped(c))
    && forall c, d :: c in cs && d in cs && Outdates(d, c) ==>
         c.createdAt != d.createdAt && Le(c.createdAt.value, d.createdAt.value)
  }

  /** Then the winner is never the causally older one, for any number of
      candidates in any order. */
  lemma NeverTheOlder(cs: seq<Candidate>, c: Candidate, d: Candidate)
    requires DistinctIds(cs) && TimesFollowCausality(cs)
    requires c in cs && d in cs && SelectWinner(cs) == Some(c.objectId)
    ensures !Outdates(d, c)
  {
    if |cs| > 1 && Outdates(d, c) {
      assert exists x, y :: x in cs && y in cs && SelectWinner(cs) == Some(x.objectId) && Outdates(y, x);
      OlderWinsExactly(cs);
      var w := FallbackIsPreferred(cs);
      SameId(cs, c, w);
      LeAntisymmetric(c.createdAt.value, d.createdAt.value);
    }
  }
}
