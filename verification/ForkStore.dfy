/** resolve_fork over the shared pointer store, and its redelivery. */
module ForkStore {
  import opened Wrappers
  import opened StringOrder
  import opened ForkResolution

  type Key = string

  /** One live row of a multi-value register. */
  datatype Row = Row(vv: VersionVector, createdAt: Option<string>)

  /** "" in pointerKey or sessionId and None in ids stand for absent fields. */
  datatype ForkEvent = ForkEvent(sessionId: Key, pointerKey: Key, ids: Option<seq<Id>>, eventId: Option<Id>)

  datatype Outcome =
    | NoPointerKey
    | TooFewIds
    | NothingLeft
    | OnlyCandidate(id: Id)
    | Chosen(id: Id)
    | PointerGone(id: Id)
  {
    predicate Resolved() {
      NothingLeft? || OnlyCandidate? || Chosen?
    }
  }

  function PointerKey(e: ForkEvent): Key {
    if e.pointerKey != "" then e.pointerKey else e.sessionId
  }

  function Existing(objects: set<Id>, ids: seq<Id>): seq<Id> {
    if ids == [] then []
    else (if ids[0] in objects then [ids[0]] else []) + Existing(objects, ids[1..])
  }

  /** A candidate without a live row gets the empty vector and no timestamp. */
  function CandidateFor(rows: map<Id, Row>, id: Id): Candidate {
    if id in rows then Candidate(id, rows[id].vv, rows[id].createdAt) else Candidate(id, map[], None)
  }

  function Candidates(rows: map<Id, Row>, ids: seq<Id>): seq<Candidate> {
    seq(|ids|, i requires 0 <= i < |ids| => CandidateFor(rows, ids[i]))
  }

  /** The id the pointer is to be collapsed onto. */
  function Choice(objects: set<Id>, rows: map<Id, Row>, ids: seq<Id>): (r: Option<Id>) {
    var existing := Existing(objects, ids);
    if |existing| == 0 then None
    else if |existing| == 1 then Some(existing[0])
    else SelectWinner(Candidates(rows, existing))
  }

  function Outcomes(objects: set<Id>, rows: map<Id, Row>, e: ForkEvent): Outcome {
    if PointerKey(e) == "" then NoPointerKey
    else if e.ids.None? || |e.ids.value| < 2 then TooFewIds
    else match Choice(objects, rows, e.ids.value)
      case None => NothingLeft
      case Some(id) =>
        if id !in rows then PointerGone(id)
        else if |Existing(objects, e.ids.value)| == 1 then OnlyCandidate(id)
        else Chosen(id)
  }

  class CrdtStore {
    var objects: set<Id>
    var pointers: map<Key, map<Id, Row>>
    var resolvedEvents: set<Id>

    constructor (objects: set<Id>, pointers: map<Key, map<Id, Row>>)
      ensures this.objects == objects && this.pointers == pointers && resolvedEvents == {}
    {
      this.objects, this.pointers, resolvedEvents := objects, pointers, {};
    }

    function RowsOf(key: Key): map<Id, Row>
      reads this`pointers
    {
      if key in pointers then pointers[key] else map[]
    }

    /** The storage contract: collapse the register onto one live row, whose
        vector may grow (it may absorb the rows it replaces) but never shrinks. */
    method ResolvePointer(key: Key, winner: Id) returns (ok: bool)
      modifies this`pointers
      ensures ok <==> winner in old(RowsOf(key))
      ensures !ok ==> pointers == old(pointers)
      ensures ok ==> pointers.Keys == old(pointers.Keys) && RowsOf(key).Keys == {winner}
      ensures ok ==> Covers(RowsOf(key)[winner].vv, old(RowsOf(key))[winner].vv)
      ensures forall k :: k in old(pointers) && k != key ==> k in pointers && pointers[k] == old(pointers[k])
    {
      ok := winner in RowsOf(key);
      if ok {
        CoversSelf(pointers[key][winner].vv);
        pointers := pointers[key := map[winner := pointers[key][winner]]];
      }
    }

    method ResolveFork(e: ForkEvent) returns (r: Outcome)
      modifies this`pointers, this`resolvedEvents
      ensures r == old(Outcomes(objects, RowsOf(PointerKey(e)), e))
      ensures r.Chosen? || r.OnlyCandidate? ==>
        && RowsOf(PointerKey(e)).Keys == {r.id}
        && Covers(RowsOf(PointerKey(e))[r.id].vv, old(RowsOf(PointerKey(e)))[r.id].vv)
      ensures !r.Chosen? && !r.OnlyCandidate? ==> pointers == old(pointers)
      ensures forall k :: k in old(pointers) && k != PointerKey(e) ==> k in pointers && pointers[k] == old(pointers[k])
      ensures resolvedEvents == old(resolvedEvents) + if r.Resolved() && e.eventId.Some? then {e.eventId.value} else {}
    {
      var key := PointerKey(e);
      if key == "" {
        return NoPointerKey;
      }
      if e.ids.None? || |e.ids.value| < 2 {
        return TooFewIds;
      }
      var ids := e.ids.value;
      var existing := LoadExisting(ids);
      if |existing| == 0 {
        MarkResolved(e.eventId);
        return NothingLeft;
      }
      if |existing| == 1 {
        var ok := ResolvePointer(key, existing[0]);
        if !ok {
          return PointerGone(existing[0]);
        }
        MarkResolved(e.eventId);
        return OnlyCandidate(existing[0]);
      }
      var candidates := Candidates(RowsOf(key), existing);
      WinnerIsACandidate(candidates);
      var winner := SelectWinner(candidates).value;
      assert Choice(objects, RowsOf(key), ids) == Some(winner);
      var ok := ResolvePointer(key, winner);
      if !ok {
        return PointerGone(winner);
      }
      MarkResolved(e.eventId);
      return Chosen(winner);
    }

    /** The ids that still have an object, in payload order. */
    method LoadExisting(ids: seq<Id>) returns (existing: seq<Id>)
      ensures existing == Existing(objects, ids)
    {
      existing := [];
      for i := 0 to |ids|
        invariant existing + Existing(objects, ids[i..]) == Existing(objects, ids)
      {
        assert ids[i..][1..] == ids[i + 1..];
        if ids[i] in objects {
          existing := existing + [ids[i]];
        }
      }
      assert ids[|ids|..] == [];
    }

    method MarkResolved(eventId: Option<Id>)
      modifies this`resolvedEvents
      ensures resolvedEvents == old(resolvedEvents) + if eventId.Some? then {eventId.value} else {}
    {
      if eventId.Some? {
        resolvedEvents := resolvedEvents + {eventId.value};
      }
    }
  }

  // ---------------------------------------------------------------------
  // The outcome, told by the rows and the ids
  // ---------------------------------------------------------------------

  /** The candidate has the vector and timestamp of its live row, or none. */
  predicate Stands(c: Candidate, rows: map<Id, Row>) {
    if c.objectId in rows then c.vv == rows[c.objectId].vv && c.createdAt == rows[c.objectId].createdAt
    else c.vv == map[] && c.createdAt.None?
  }

  /** cs lists, in any order, the ids that still have an object, each as it
      stands in the register. */
  ghost predicate Survivors(cs: seq<Candidate>, objects: set<Id>, rows: map<Id, Row>, ids: seq<Id>) {
    && DistinctIds(cs)
    && (forall c :: c in cs ==> c.objectId in ids && c.objectId in objects && Stands(c, rows))
    && (forall x :: x in ids && x in objects ==> exists c :: c in cs && c.objectId == x)
  }

  ghost predicate NoRepeats(ids: seq<Id>) {
    forall i, j :: 0 <= i < j < |ids| ==> ids[i] != ids[j]
  }

  lemma {:induction false} ExistingDistinct(objects: set<Id>, ids: seq<Id>)
    requires NoRepeats(ids)
    ensures NoRepeats(Existing(objects, ids))
  {
    if ids != [] {
      assert forall i, j :: 0 <= i < j < |ids[1..]| ==> ids[1..][i] != ids[1..][j] by {
        assert forall i :: 0 <= i < |ids[1..]| ==> ids[1..][i] == ids[i + 1];
      }
      ExistingDistinct(objects, ids[1..]);
      ExistingMembers(objects, ids[1..]);
      assert forall i :: 0 < i < |ids| ==> ids[i] != ids[0];
    }
  }

  /** The listing that the policy is given is one of the survivors. */
  lemma CandidatesSurvive(objects: set<Id>, rows: map<Id, Row>, ids: seq<Id>)
    requires NoRepeats(ids)
    ensures Survivors(Candidates(rows, Existing(objects, ids)), objects, rows, ids)
  {
    var existing := Existing(objects, ids);
    var ds := Candidates(rows, existing);
    ExistingDistinct(objects, ids);
    ExistingMembers(objects, ids);
    forall i, j | 0 <= i < j < |ds| ensures ds[i].objectId != ds[j].objectId {
      assert existing[i] != existing[j];
    }
    forall c | c in ds ensures c.objectId in existing && Stands(c, rows) {
      var i :| 0 <= i < |ds| && ds[i] == c;
      assert existing[i] in existing;
    }
    forall x | x in ids && x in objects ensures exists c :: c in ds && c.objectId == x {
      var i :| 0 <= i < |existing| && existing[i] == x;
      assert ds[i] in ds;
    }
  }

  lemma SameSurvivors(cs: seq<Candidate>, ds: seq<Candidate>, objects: set<Id>, rows: map<Id, Row>, ids: seq<Id>)
    requires Survivors(cs, objects, rows, ids) && Survivors(ds, objects, rows, ids)
    ensures forall c :: c in cs ==> c in ds
  {
    forall c | c in cs ensures c in ds {
      var d :| d in ds && d.objectId == c.objectId;
      assert Stands(c, rows) && Stands(d, rows);
      assert c == d;
    }
  }

  lemma SameFavourites(cs: seq<Candidate>, ds: seq<Candidate>, c: Candidate)
    requires forall x :: x in cs <==> x in ds
    ensures Newest(cs, c) <==> Newest(ds, c)
    ensures Preferred(cs, c) <==> Preferred(ds, c)
  {
  }

  lemma TwoMembers(cs: seq<Candidate>, ds: seq<Candidate>)
    requires DistinctIds(cs) && |cs| >= 2 && forall x :: x in cs ==> x in ds
    ensures |ds| >= 2
  {
    assert cs[0] in ds && cs[1] in ds && cs[0].objectId != cs[1].objectId;
  }

  /** What the policy makes of the candidates: a causally newest one if there is
      any, else the one that times and ids prefer. */
  lemma PolicyPicks(cs: seq<Candidate>) returns (c: Candidate)
    requires |cs| >= 2 && DistinctIds(cs)
    ensures c in cs && SelectWinner(cs) == Some(c.objectId)
    ensures if exists n :: Newest(cs, n) then Newest(cs, c) else Preferred(cs, c)
  {
    hide Newest, Preferred;
    var k := FirstNewestMeaning(cs, 0);
    if FirstNewest(cs, 0).Some? {
      c := cs[k];
    } else {
      forall n ensures !Newest(cs, n) {
        NewestIsThere(cs, n);
      }
      c := FallbackIsPreferred(cs);
    }
  }

  lemma NewestIsThere(cs: seq<Candidate>, n: Candidate)
    ensures Newest(cs, n) ==> exists k :: 0 <= k < |cs| && cs[k] == n
  {
  }

  /** A fork with at least two surviving ids is decided for a causally newest of
      them if there is one, else for the one that times and ids prefer, each
      standing as its live row says; the pointer follows if that row is live. */
  lemma ForkDecided(objects: set<Id>, rows: map<Id, Row>, e: ForkEvent, cs: seq<Candidate>)
    requires (e.pointerKey != "" || e.sessionId != "") && e.ids.Some? && NoRepeats(e.ids.value)
    requires Survivors(cs, objects, rows, e.ids.value) && |cs| >= 2
    ensures var r := Outcomes(objects, rows, e);
      && (r.Chosen? || r.PointerGone?) && (r.Chosen? <==> r.id in rows)
      && exists c :: c in cs && r.id == c.objectId
           && if exists n :: Newest(cs, n) then Newest(cs, c) else Preferred(cs, c)
  {
    hide Newest, Preferred, SelectWinner, Existing;
    var ids := e.ids.value;
    var ds := Candidates(rows, Existing(objects, ids));
    CandidatesSurvive(objects, rows, ids);
    SameSurvivors(cs, ds, objects, rows, ids);
    SameSurvivors(ds, cs, objects, rows, ids);
    TwoMembers(cs, ds);
    AtLeastAsMany(objects, ids);
    var c := PolicyPicks(ds);
    forall x
      ensures Newest(cs, x) <==> Newest(ds, x)
      ensures Preferred(cs, x) <==> Preferred(ds, x)
    {
      SameFavourites(cs, ds, x);
    }
    assert Choice(objects, rows, ids) == Some(c.objectId);
  }

  lemma {:induction false} AtLeastAsMany(objects: set<Id>, ids: seq<Id>)
    ensures |Existing(objects, ids)| <= |ids|
  {
    if ids != [] {
      AtLeastAsMany(objects, ids[1..]);
    }
  }

  /** The only id of the event that still has an object. */
  ghost predicate Sole(w: Id, ids: seq<Id>, objects: set<Id>) {
    w in ids && w in objects && forall x :: x in ids && x in objects ==> x == w
  }

  lemma SoleExisting(objects: set<Id>, ids: seq<Id>, w: Id)
    requires NoRepeats(ids) && Sole(w, ids, objects)
    ensures Existing(objects, ids) == [w]
  {
    var existing := Existing(objects, ids);
    ExistingMembers(objects, ids);
    ExistingDistinct(objects, ids);
    assert w in existing;
    assert |existing| > 1 ==> existing[0] != existing[1];
    forall i | 0 <= i < |existing| ensures existing[i] == w {
      assert existing[i] in existing;
    }
  }

  /** The other outcomes, each by its cause. */
  lemma OutcomeExactly(objects: set<Id>, rows: map<Id, Row>, e: ForkEvent, w: Id)
    requires e.ids.Some? ==> NoRepeats(e.ids.value)
    ensures PointerKey(e) == e.pointerKey || (e.pointerKey == "" && PointerKey(e) == e.sessionId)
    ensures var r := Outcomes(objects, rows, e);
      && (r.NoPointerKey? <==> e.pointerKey == "" && e.sessionId == "")
      && (r.TooFewIds? <==> (e.pointerKey != "" || e.sessionId != "") && (e.ids.None? || |e.ids.value| < 2))
      && (!r.NoPointerKey? && !r.TooFewIds? ==>
            && (r.NothingLeft? <==> forall x :: x in e.ids.value ==> x !in objects)
            && (Sole(w, e.ids.value, objects) ==> r == if w in rows then OnlyCandidate(w) else PointerGone(w)))
  {
    hide SelectWinner, Existing, NoRepeats;
    if !Outcomes(objects, rows, e).NoPointerKey? && !Outcomes(objects, rows, e).TooFewIds? {
      var ids := e.ids.value;
      ExistingMembers(objects, ids);
      ChoiceExists(objects, rows, ids);
      if Sole(w, ids, objects) {
        SoleExisting(objects, ids, w);
      }
      if Existing(objects, ids) != [] {
        assert Existing(objects, ids)[0] in Existing(objects, ids);
      }
    }
  }

  // ---------------------------------------------------------------------
  // Redelivery
  // ---------------------------------------------------------------------

  ghost predicate Nonzero(v: VersionVector) {
    exists r :: r in v && v[r] > 0
  }

  lemma {:induction false} ExistingMembers(objects: set<Id>, ids: seq<Id>)
    ensures forall x :: x in Existing(objects, ids) <==> x in ids && x in objects
  {
    if ids != [] {
      ExistingMembers(objects, ids[1..]);
      assert ids == [ids[0]] + ids[1..];
    }
  }

  /** A register that holds only w: what the policy sees of its other ids. */
  lemma CollapsedCandidates(w: Id, row: Row, ids: seq<Id>, i: nat)
    requires i < |ids| && ids[i] == w
    ensures var cs := Candidates(map[w := row], ids);
      && |cs| == |ids| && cs[i] == Candidate(w, row.vv, row.createdAt)
      && (forall c :: c in cs ==> c.objectId in ids)
      && (forall c :: c in cs && c.objectId == w ==> c == cs[i])
      && (forall c :: c in cs && c.objectId != w ==> c.vv == map[] && c.createdAt.None?)
  {
  }

  lemma EmptyIsDominated(v: VersionVector)
    ensures CausalityCheck(v, map[]) == if Nonzero(v) then Dominates else Equal
  {
    if Nonzero(v) {
      var r :| r in v && v[r] > 0;
      assert v[r] > At(map[], r);
    } else {
      assert Covers(map[], v);
    }
  }

  /** With a nonzero vector, the collapsed winner is picked again, in any
      order and with any repetition of the payload's ids. */
  lemma CollapsedWinnerWins(w: Id, row: Row, ids: seq<Id>)
    requires |ids| >= 2 && w in ids && Nonzero(row.vv)
    ensures SelectWinner(Candidates(map[w := row], ids)) == Some(w)
  {
    var cs := Candidates(map[w := row], ids);
    var i :| 0 <= i < |ids| && ids[i] == w;
    CollapsedCandidates(w, row, ids, i);
    EmptyIsDominated(row.vv);
    var k := FirstNewestMeaning(cs, 0);
    if forall x :: x in ids ==> x == w {
      WinnerIsACandidate(cs);
      assert cs[0] in cs;
    } else {
      var x :| x in ids && x != w;
      var j :| 0 <= j < |ids| && ids[j] == x;
      assert cs[j] in cs && cs[j].vv == map[];
      assert forall c :: c in cs ==> Covers(cs[i].vv, c.vv);
      assert Newest(cs, cs[i]);
      assert cs[k].objectId == w by {
        assert Covers(cs[k].vv, cs[i].vv) && cs[k] in cs;
      }
    }
  }

  /** With a zero vector, causality and the single timestamp say nothing, so
      the least id is picked whatever the register holds. */
  lemma ZeroVectorFallsBack(w: Id, row: Row, ids: seq<Id>)
    requires |ids| >= 2 && w in ids && !Nonzero(row.vv)
    ensures SelectWinner(Candidates(map[w := row], ids)) == FirstId(Candidates(map[w := row], ids))
  {
    var cs := Candidates(map[w := row], ids);
    var i :| 0 <= i < |ids| && ids[i] == w;
    CollapsedCandidates(w, row, ids, i);
    EmptyIsDominated(row.vv);
    EmptyIsDominated(map[]);
    forall c, d | c in cs && d in cs ensures CausalityCheck(c.vv, d.vv) != Dominates {
      assert Covers(map[], c.vv);
    }
    var k := FirstNewestMeaning(cs, 0);
    OnlyOneStamp(cs, w);
  }

  lemma {:induction false} OnlyOneStamp(cs: seq<Candidate>, w: Id)
    requires forall c :: c in cs && Stamped(c) ==> c.objectId == w
    ensures forall id :: id in Timestamps(cs) ==> id == w
  {
    if cs != [] {
      OnlyOneStamp(cs[..|cs| - 1], w);
      assert cs[|cs| - 1] in cs;
    }
  }

  lemma FirstIdOf(rows: map<Id, Row>, ids: seq<Id>)
    requires ids != []
    ensures var r := FirstId(Candidates(rows, ids));
      r.Some? && r.value in ids && forall x :: x in ids ==> Le(r.value, x)
  {
    var cs := Candidates(rows, ids);
    FirstIdMeaning(cs);
    forall x | x in ids ensures Le(FirstId(cs).value, x) {
      var i :| 0 <= i < |ids| && ids[i] == x;
      assert cs[i] in cs;
    }
  }

  ghost predicate Least(w: Id, ids: seq<Id>, objects: set<Id>) {
    forall x :: x in ids && x in objects ==> Le(w, x)
  }

  /** Redelivering a resolved fork. The register was collapsed onto w, with a
      vector at least its old one. The second run picks w again, for every
      order of the payload's ids, exactly when w's vector is nonzero or w is
      the least of the surviving ids. */
  lemma RedeliveryExactly(objects: set<Id>, w: Id, row: Row, ids: seq<Id>)
    requires w in ids && w in objects
    ensures Choice(objects, map[w := row], ids) == Some(w)
       <==> Nonzero(row.vv) || Least(w, ids, objects)
  {
    var existing := Existing(objects, ids);
    ExistingMembers(objects, ids);
    assert w in existing;
    if |existing| == 1 {
      assert existing[0] == w;
      LeReflexive(w);
    } else if Nonzero(row.vv) {
      CollapsedWinnerWins(w, row, existing);
    } else {
      ZeroVectorFallsBack(w, row, existing);
      FirstIdOf(map[w := row], existing);
      var first := FirstId(Candidates(map[w := row], existing)).value;
      if Le(w, first) {
        LeAntisymmetric(w, first);
      }
    }
  }

  lemma NonzeroGrows(a: VersionVector, b: VersionVector)
    requires Covers(a, b) && Nonzero(b)
    ensures Nonzero(a)
  {
    var r :| r in b && b[r] > 0;
    assert a[r] > 0;
  }

  /** The outcome of a second run, over what the first left of the register. */
  lemma SecondAnswer(objects: set<Id>, before: map<Id, Row>, after: map<Id, Row>, e: ForkEvent, again: ForkEvent)
    requires PointerKey(again) == PointerKey(e) && e.ids.Some? && again.ids.Some?
    requires multiset(e.ids.value) == multiset(again.ids.value)
    requires var first := Outcomes(objects, before, e);
      if first.Chosen? || first.OnlyCandidate? then after.Keys == {first.id} else after == before
    ensures var first, second := Outcomes(objects, before, e), Outcomes(objects, after, again);
      && (first.Chosen? ==>
            (second == first <==> Nonzero(after[first.id].vv) || Least(first.id, e.ids.value, objects))
            && (second != first ==> second.PointerGone? && second.id != first.id))
      && (first.OnlyCandidate? || first.NothingLeft? ==> second == first)
      && (e.ids == again.ids && !first.Chosen? ==> second == first)
  {
    var first, ids, ids' := Outcomes(objects, before, e), e.ids.value, again.ids.value;
    SameIds(objects, ids, ids');
    assert |ids| == |multiset(ids)| == |multiset(ids')| == |ids'|;
    ChoiceExists(objects, before, ids);
    ChoiceExists(objects, after, ids');
    if first.Chosen? || first.OnlyCandidate? {
      var w := first.id;
      var row := after[w];
      assert after == map[w := row];
      ExistingMembers(objects, ids);
      ExistingMembers(objects, ids');
      RedeliveryExactly(objects, w, row, ids');
      if first.OnlyCandidate? {
        var existing' := Existing(objects, ids');
        assert existing'[0] in existing' && existing'[0] in Existing(objects, ids);
        assert existing' == [w];
      }
    }
    hide SelectWinner;
  }

  /** Two deliveries of one fork event to the agent, the ids in any order. The
      register stays collapsed onto the first winner. The second answer is the
      same exactly when that winner's row ends with a nonzero vector or the
      winner is the least surviving id, and whenever there was but one
      candidate; otherwise it is that the pointer is gone. */
  method DeliverTwice(store: CrdtStore, e: ForkEvent, again: ForkEvent) returns (first: Outcome, second: Outcome)
    requires PointerKey(again) == PointerKey(e) && e.ids.Some? && again.ids.Some?
    requires multiset(e.ids.value) == multiset(again.ids.value)
    modifies store
    ensures first == old(Outcomes(store.objects, store.RowsOf(PointerKey(e)), e))
    ensures first.Chosen? || first.OnlyCandidate? ==>
      && store.RowsOf(PointerKey(e)).Keys == {first.id}
      && Covers(store.RowsOf(PointerKey(e))[first.id].vv, old(store.RowsOf(PointerKey(e)))[first.id].vv)
    ensures first.Chosen? ==> (second == first <==>
      Nonzero(store.RowsOf(PointerKey(e))[first.id].vv) || Least(first.id, e.ids.value, store.objects))
    ensures first.Chosen? && Nonzero(old(store.RowsOf(PointerKey(e)))[first.id].vv) ==> second == first
    ensures first.Chosen? && second != first ==> second.PointerGone? && second.id != first.id
    ensures first.OnlyCandidate? || first.NothingLeft? ==> second == first
    ensures e.ids == again.ids && !first.Chosen? ==> second == first
  {
    ghost var key := PointerKey(e);
    ghost var before := store.RowsOf(key);
    first := store.ResolveFork(e);
    ghost var after := store.RowsOf(key);
    SecondAnswer(store.objects, before, after, e, again);
    second := store.ResolveFork(again);
    if first.Chosen? {
      if Nonzero(before[first.id].vv) {
        NonzeroGrows(after[first.id].vv, before[first.id].vv);
      }
      if second == first && Nonzero(after[first.id].vv) {
        NonzeroGrows(store.RowsOf(key)[first.id].vv, after[first.id].vv);
      }
    }
    hide Choice, Least, Nonzero;
  }

  lemma SameIds(objects: set<Id>, ids: seq<Id>, ids': seq<Id>)
    requires multiset(ids) == multiset(ids')
    ensures forall x :: x in ids <==> x in ids'
    ensures |Existing(objects, ids)| == |Existing(objects, ids')|
  {
    forall x ensures x in ids <==> x in ids' {
      assert x in ids <==> x in multiset(ids);
      assert x in ids' <==> x in multiset(ids');
    }
    ExistingMultiset(objects, ids);
    ExistingMultiset(objects, ids');
    forall x ensures multiset(Existing(objects, ids))[x] == multiset(Existing(objects, ids'))[x] {
    }
    assert multiset(Existing(objects, ids)) == multiset(Existing(objects, ids'));
    assert |multiset(Existing(objects, ids))| == |Existing(objects, ids)|;
    assert |multiset(Existing(objects, ids'))| == |Existing(objects, ids')|;
  }

  lemma {:induction false} ExistingMultiset(objects: set<Id>, ids: seq<Id>)
    ensures forall x :: multiset(Existing(objects, ids))[x] == if x in objects then multiset(ids)[x] else 0
  {
    if ids != [] {
      ExistingMultiset(objects, ids[1..]);
      assert ids == [ids[0]] + ids[1..];
    }
  }

  lemma ChoiceExists(objects: set<Id>, rows: map<Id, Row>, ids: seq<Id>)
    ensures Choice(objects, rows, ids).Some? <==> Existing(objects, ids) != []
    ensures Choice(objects, rows, ids).Some? ==> Choice(objects, rows, ids).value in Existing(objects, ids)
  {
    WinnerIsACandidate(Candidates(rows, Existing(objects, ids)));
  }
}
