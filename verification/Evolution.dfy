/** Knowledge structures, the evolution operators, and the check that a batch
    of operators is already reflected in a structure. */
module Evolution {
  import opened Wrappers

  type Fields = map<string, string>

  /** One entry of the id index; relations share it with objects. */
  datatype Item =
    | Object(name: string, fields: Fields)
    | Relation(name: string, fields: Fields, participants: seq<string>)

  type Structure = map<string, Item>

  datatype Operation =
    | AddObject(id: string, name: string, fields: Fields)
    | AddRelation(id: string, name: string, fields: Fields, participants: seq<string>)
    | RemoveObject(id: string)
    | RemoveRelation(id: string)
    | UpdateObject(id: string, patch: map<string, Option<string>>, replace: bool)
    | RenameObject(id: string, name: string)

  /** A merge patch: a null value deletes its key. */
  function Merged(fields: Fields, patch: map<string, Option<string>>): Fields {
    map k | k in fields.Keys + patch.Keys && (k in patch ==> patch[k].Some?) ::
      if k in patch then patch[k].value else fields[k]
  }

  /** A replacing patch drops every other key. */
  function Patched(fields: Fields, op: Operation): Fields
    requires op.UpdateObject?
  {
    Merged(if op.replace then map[] else fields, op.patch)
  }

  predicate References(item: Item, id: string) {
    item.Relation? && id in item.participants
  }

  /** Removal of an object also removes every relation that references it. */
  function Without(s: Structure, id: string): Structure {
    map k | k in s && k != id && !References(s[k], id) :: s[k]
  }

  function ApplyOne(op: Operation, s: Structure): Option<Structure> {
    match op
    case AddObject(id, name, fields) =>
      if id in s then None else Some(s[id := Object(name, fields)])
    case AddRelation(id, name, fields, participants) =>
      if id in s || exists p :: p in participants && p !in s then None
      else Some(s[id := Relation(name, fields, participants)])
    case RemoveObject(id) =>
      if id in s then Some(Without(s, id)) else None
    case RemoveRelation(id) =>
      if id in s && s[id].Relation? then Some(s - {id}) else None
    case UpdateObject(id, _, _) =>
      if id in s then Some(s[id := s[id].(fields := Patched(s[id].fields, op))]) else None
    case RenameObject(id, name) =>
      if id in s then Some(s[id := s[id].(name := name)]) else None
  }

  /** A batch applies in order, and as a whole or not at all. */
  function Apply(ops: seq<Operation>, s: Structure): Option<Structure> {
    if ops == [] then Some(s)
    else match ApplyOne(ops[0], s)
      case None => None
      case Some(next) => Apply(ops[1..], next)
  }

  function Lookup(s: Structure, id: string): Option<Item> {
    if id in s then Some(s[id]) else None
  }

  // ---------------------------------------------------------------------
  // What a batch leaves alone
  // ---------------------------------------------------------------------

  /** The batch neither names x nor removes an object x references. */
  ghost predicate Spares(ops: seq<Operation>, s: Structure, x: string) {
    forall op :: op in ops ==> op.id != x && (op.RemoveObject? && x in s ==> !References(s[x], op.id))
  }

  lemma SparesOne(ops: seq<Operation>, s: Structure, x: string)
    requires ops != [] && Spares(ops, s, x) && ApplyOne(ops[0], s).Some?
    ensures Lookup(ApplyOne(ops[0], s).value, x) == Lookup(s, x)
    ensures Spares(ops[1..], ApplyOne(ops[0], s).value, x)
  {
    hide Patched;
    assert ops[0] in ops;
    assert Lookup(ApplyOne(ops[0], s).value, x) == Lookup(s, x);
  }

  /** Frame: what a batch spares, it leaves exactly as it was. */
  lemma {:induction false} ApplyFrame(ops: seq<Operation>, s: Structure, x: string)
    requires Spares(ops, s, x) && Apply(ops, s).Some?
    ensures Lookup(Apply(ops, s).value, x) == Lookup(s, x)
    decreases |ops|
  {
    hide Spares, Lookup;
    if ops != [] {
      SparesOne(ops, s, x);
      ApplyFrame(ops[1..], ApplyOne(ops[0], s).value, x);
    }
  }

  /** An id the batch does not name survives exactly when no object it
      references is removed; it never appears. */
  lemma {:induction false} UnnamedFate(ops: seq<Operation>, s: Structure, x: string)
    requires (forall op :: op in ops ==> op.id != x) && Apply(ops, s).Some?
    ensures x in Apply(ops, s).value <==> x in s && Spares(ops, s, x)
    decreases |ops|
  {
    if ops != [] {
      var next := ApplyOne(ops[0], s).value;
      assert ops[0] in ops;
      UnnamedFate(ops[1..], next, x);
      assert x in next ==> x in s && next[x] == s[x];
      assert x in s && x !in next ==> ops[0].RemoveObject? && References(s[x], ops[0].id);
      assert forall op :: op in ops <==> op == ops[0] || op in ops[1..];
    }
  }

  /** Before its i-th operation the batch removes an object that i's own id,
      as a relation of s, references. */
  ghost predicate Vacated(ops: seq<Operation>, s: Structure, i: nat)
    requires i < |ops|
  {
    ops[i].id in s && exists j :: 0 <= j < i && ops[j].RemoveObject? && References(s[ops[i].id], ops[j].id)
  }

  lemma OtherIdMoves(op: Operation, s: Structure, x: string)
    requires ApplyOne(op, s).Some? && op.id != x && x in s
    ensures var next := ApplyOne(op, s).value;
      if op.RemoveObject? && References(s[x], op.id) then x !in next else x in next && next[x] == s[x]
  {
    hide Patched;
  }

  /** A batch adds only ids the structure lacks, or that it has vacated by a
      cascade of its own. */
  lemma {:induction false} AddNeedsAbsence(ops: seq<Operation>, s: Structure, i: nat)
    requires DistinctIds(ops) && Apply(ops, s).Some? && i < |ops| && Adds(ops[i])
    ensures ops[i].id in s ==> Vacated(ops, s, i)
    decreases |ops|
  {
    hide Patched, Without;
    var next, rest := ApplyOne(ops[0], s).value, ops[1..];
    if i > 0 && ops[i].id in s {
      assert rest[i - 1] == ops[i] && forall j :: 0 <= j < |rest| ==> rest[j] == ops[j + 1];
      AddNeedsAbsence(rest, next, i - 1);
      OtherIdMoves(ops[0], s, ops[i].id);
      if ops[i].id in next {
        var j :| 0 <= j < i - 1 && rest[j].RemoveObject? && References(next[ops[i].id], rest[j].id);
        assert ops[j + 1] == rest[j];
      }
    }
  }

  // ---------------------------------------------------------------------
  // What a batch does to the ids it names
  // ---------------------------------------------------------------------

  /** From its i-th operation on, the batch removes an object this item connects. */
  ghost predicate Swept(ops: seq<Operation>, i: nat, item: Item) {
    item.Relation? && exists j :: i <= j < |ops| && ops[j].RemoveObject? && ops[j].id in item.participants
  }

  /** The same kind of item, connecting the same participants. */
  predicate SameKind(was: Item, now: Item) {
    && (was.Object? <==> now.Object?)
    && (was.Relation? && now.Relation? ==> now.participants == was.participants)
  }

  /** What a patch makes of the value at one key. */
  ghost predicate KeyPatched(patch: map<string, Option<string>>, replace: bool, was: Fields, now: Fields, k: string) {
    if k in patch then
      if patch[k].Some? then k in now && now[k] == patch[k].value else k !in now
    else if replace then k !in now
    else (k in now <==> k in was) && (k in was && k in now ==> now[k] == was[k])
  }

  /** What an operation is for: the item it leaves at its id, given the one
      that was there. */
  ghost predicate Intended(op: Operation, was: Option<Item>, now: Item) {
    match op
    case AddObject(_, name, fields) => now == Object(name, fields)
    case AddRelation(_, name, fields, participants) => now == Relation(name, fields, participants)
    case UpdateObject(_, patch, replace) =>
      was.Some? && SameKind(was.value, now) && now.name == was.value.name
      && forall k :: KeyPatched(patch, replace, was.value.fields, now.fields, k)
    case RenameObject(_, name) =>
      was.Some? && SameKind(was.value, now) && now.name == name && now.fields == was.value.fields
    case _ => false
  }

  /** What stands at the i-th operation's id afterwards: nothing after a
      removal, else the intended item, unless the batch goes on to remove an
      object which that item connects. */
  ghost predicate NamedFate(ops: seq<Operation>, s: Structure, t: Structure, i: nat)
    requires i < |ops|
  {
    var x := ops[i].id;
    if Removes(ops[i]) then x in s && (ops[i].RemoveRelation? ==> s[x].Relation?) && x !in t
    else exists item :: Intended(ops[i], Lookup(s, x), item)
           && if Swept(ops, i + 1, item) then x !in t else x in t && t[x] == item
  }

  /** One operation by itself. */
  lemma OneIntended(op: Operation, s: Structure)
    requires ApplyOne(op, s).Some?
    ensures Removes(op) ==> op.id in s && op.id !in ApplyOne(op, s).value && (op.RemoveRelation? ==> s[op.id].Relation?)
    ensures !Removes(op) ==>
      op.id in ApplyOne(op, s).value && Intended(op, Lookup(s, op.id), ApplyOne(op, s).value[op.id])
  {
  }

  /** What a batch does at an id it does not name, read off the item there. */
  lemma {:induction false} UnnamedItem(ops: seq<Operation>, s: Structure, x: string)
    requires (forall op :: op in ops ==> op.id != x) && Apply(ops, s).Some? && x in s
    ensures var t := Apply(ops, s).value;
      if Swept(ops, 0, s[x]) then x !in t else x in t && t[x] == s[x]
  {
    UnnamedFate(ops, s, x);
    if Spares(ops, s, x) {
      ApplyFrame(ops, s, x);
      assert forall j :: 0 <= j < |ops| ==> ops[j] in ops;
    } else {
      var op :| op in ops && op.RemoveObject? && References(s[x], op.id);
      var j :| 0 <= j < |ops| && ops[j] == op;
    }
    hide Apply;
  }

  lemma SweptRest(ops: seq<Operation>, i: nat, item: Item)
    requires i < |ops|
    ensures Swept(ops[1..], i, item) <==> Swept(ops, i + 1, item)
  {
    var rest := ops[1..];
    assert forall j :: 0 <= j < |rest| ==> rest[j] == ops[j + 1];
    if Swept(ops, i + 1, item) {
      var j :| i < j < |ops| && ops[j].RemoveObject? && ops[j].id in item.participants;
      assert rest[j - 1] == ops[j];
    }
  }

  lemma FirstNamed(ops: seq<Operation>, s: Structure)
    requires DistinctIds(ops) && Apply(ops, s).Some? && ops != []
    ensures NamedFate(ops, s, Apply(ops, s).value, 0)
  {
    hide ApplyOne, Intended, Swept;
    var x, next, rest := ops[0].id, ApplyOne(ops[0], s).value, ops[1..];
    assert forall j :: 0 <= j < |rest| ==> rest[j] == ops[j + 1];
    OneIntended(ops[0], s);
    if Removes(ops[0]) {
      UnnamedFate(rest, next, x);
    } else {
      UnnamedItem(rest, next, x);
      SweptRest(ops, 0, next[x]);
      assert Intended(ops[0], Lookup(s, x), next[x]);
    }
  }

  /** Every batch on distinct ids that goes through does at each id it names
      what that operation is for. */
  lemma {:induction false} BatchDoesWhatItNames(ops: seq<Operation>, s: Structure, i: nat)
    requires DistinctIds(ops) && Apply(ops, s).Some? && i < |ops|
    ensures NamedFate(ops, s, Apply(ops, s).value, i)
    decreases |ops|
  {
    hide ApplyOne, Swept;
    if i == 0 {
      FirstNamed(ops, s);
    } else {
      var x, next, rest := ops[i].id, ApplyOne(ops[0], s).value, ops[1..];
      var t := Apply(ops, s).value;
      assert forall j :: 0 <= j < |rest| ==> rest[j] == ops[j + 1];
      BatchDoesWhatItNames(rest, next, i - 1);
      OneUnnamed(ops[0], s, x);
      if !Removes(ops[i]) {
        var item :| Intended(ops[i], Lookup(next, x), item)
          && if Swept(rest, i, item) then x !in t else x in t && t[x] == item;
        SweptRest(ops, i, item);
        assert Intended(ops[i], Lookup(s, x), item);
      }
    }
  }

  lemma EveryNameIsDone(ops: seq<Operation>, s: Structure)
    requires DistinctIds(ops) && Apply(ops, s).Some?
    ensures forall i :: 0 <= i < |ops| ==> NamedFate(ops, s, Apply(ops, s).value, i)
  {
    forall i | 0 <= i < |ops|
      ensures NamedFate(ops, s, Apply(ops, s).value, i)
    {
      BatchDoesWhatItNames(ops, s, i);
    }
  }

  /** One operation leaves another id's item, or cascades it away. */
  lemma OneUnnamed(op: Operation, s: Structure, x: string)
    requires ApplyOne(op, s).Some? && op.id != x
    ensures x in ApplyOne(op, s).value ==> x in s && ApplyOne(op, s).value[x] == s[x]
  {
    hide Patched;
  }

  // ---------------------------------------------------------------------
  // When a batch goes through
  // ---------------------------------------------------------------------

  /** An addition needs a free id, a relation its participants, and anything
      else the item it is about. */
  predicate Allowed(op: Operation, s: Structure) {
    match op
    case AddObject(id, _, _) => id !in s
    case AddRelation(id, _, _, participants) => id !in s && forall p :: p in participants ==> p in s
    case RemoveRelation(id) => id in s && s[id].Relation?
    case _ => op.id in s
  }

  /** A batch fails exactly when some operation is not allowed where the ones
      before it have led. */
  lemma {:induction false} BatchFailsExactly(ops: seq<Operation>, s: Structure)
    ensures Apply(ops, s).None? <==>
      exists i :: 0 <= i < |ops| && Apply(ops[..i], s).Some? && !Allowed(ops[i], Apply(ops[..i], s).value)
    decreases |ops|
  {
    if ops != [] {
      var rest := ops[1..];
      assert ops[..0] == [];
      if ApplyOne(ops[0], s).Some? {
        var next := ApplyOne(ops[0], s).value;
        BatchFailsExactly(rest, next);
        forall i | 0 < i < |ops|
          ensures Apply(ops[..i], s) == Apply(rest[..i - 1], next) && ops[i] == rest[i - 1]
        {
          assert ops[..i][1..] == rest[..i - 1];
        }
        if i :| 0 <= i < |rest| && Apply(rest[..i], next).Some? && !Allowed(rest[i], Apply(rest[..i], next).value) {
          assert Apply(ops[..i + 1], s).Some? && !Allowed(ops[i + 1], Apply(ops[..i + 1], s).value);
        }
      } else {
        assert !Allowed(ops[0], Apply(ops[..0], s).value);
      }
    }
  }

  // ---------------------------------------------------------------------
  // _operations_already_applied
  // ---------------------------------------------------------------------

  predicate Adds(op: Operation) {
    op.AddObject? || op.AddRelation?
  }

  predicate Removes(op: Operation) {
    op.RemoveObject? || op.RemoveRelation?
  }

  predicate Reflected(op: Operation, s: Structure) {
    if Adds(op) then op.id in s else if Removes(op) then op.id !in s else false
  }

  predicate AlreadyApplied(s: Structure, ops: seq<Operation>) {
    forall op :: op in ops ==> Reflected(op, s)
  }

  method OperationsAlreadyApplied(s: Structure, ops: seq<Operation>) returns (applied: bool)
    ensures applied <==> AlreadyApplied(s, ops)
  {
    for i := 0 to |ops|
      invariant forall j :: 0 <= j < i ==> Reflected(ops[j], s)
    {
      var op := ops[i];
      assert op in ops;
      if !Adds(op) && !Removes(op) {
        return false;
      }
      if Adds(op) {
        if op.id !in s {
          return false;
        }
      } else if op.id in s {
        return false;
      }
    }
    return true;
  }

  ghost predicate Checkable(ops: seq<Operation>) {
    forall op :: op in ops ==> Adds(op) || Removes(op)
  }

  ghost predicate DistinctIds(ops: seq<Operation>) {
    forall i, j :: 0 <= i < j < |ops| ==> ops[i].id != ops[j].id
  }

  /** The batch later removes an object referenced by its i-th addition. */
  ghost predicate CascadesOnto(ops: seq<Operation>, i: nat)
    requires i < |ops|
  {
    ops[i].AddRelation? && exists j :: i < j < |ops| && ops[j].RemoveObject? && ops[j].id in ops[i].participants
  }

  lemma RemovedGone(s: Structure, id: string)
    ensures id !in Without(s, id)
  {
  }

  /** Where the i-th operation of a successful batch leaves its own id. */
  lemma {:induction false} OwnFate(ops: seq<Operation>, s: Structure, i: nat)
    requires Checkable(ops) && DistinctIds(ops) && Apply(ops, s).Some? && i < |ops|
    ensures ops[i].id in Apply(ops, s).value <==> Adds(ops[i]) && !CascadesOnto(ops, i)
    decreases |ops|
  {
    var next := ApplyOne(ops[0], s).value;
    var rest := ops[1..];
    assert forall j :: 0 <= j < |rest| ==> rest[j] == ops[j + 1];
    if i > 0 {
      hide ApplyOne;
      OwnFate(rest, next, i - 1);
      assert forall j :: i < j < |ops| ==> ops[j] == rest[j - 1];
    } else {
      hide Without, Patched;
      var x := ops[0].id;
      assert ops[0] in ops;
      assert ApplyOne(ops[0], s) == Some(next);
      if ops[0].RemoveObject? {
        RemovedGone(s, x);
      }
      UnnamedFate(rest, next, x);
      if Adds(ops[0]) && !Spares(rest, next, x) {
        var op :| op in rest && op.RemoveObject? && References(next[x], op.id);
        var k :| 0 <= k < |rest| && rest[k] == op;
        assert ops[k + 1] == op;
      }
      if j :| 0 < j < |ops| && ops[j].RemoveObject? && ops[0].AddRelation? && ops[j].id in ops[0].participants {
        assert rest[j - 1] in rest;
      }
    }
  }

  /** Right after an add/remove batch on distinct ids succeeded, the check
      recognises it exactly when the batch did not cascade onto an id it added. */
  lemma AppliedAfterSuccessExactly(ops: seq<Operation>, s: Structure)
    requires Checkable(ops) && DistinctIds(ops) && Apply(ops, s).Some?
    ensures AlreadyApplied(Apply(ops, s).value, ops) <==> forall i :: 0 <= i < |ops| ==> !CascadesOnto(ops, i)
  {
    forall i | 0 <= i < |ops|
      ensures ops[i].id in Apply(ops, s).value <==> Adds(ops[i]) && !CascadesOnto(ops, i)
    {
      OwnFate(ops, s, i);
    }
    forall i | 0 <= i < |ops|
      ensures ops[i] in ops && (Adds(ops[i]) || Removes(ops[i]))
    {
    }
    hide Apply;
  }

  /** The answer stays true under any later evolution sparing those ids. */
  lemma AppliedIsStable(s: Structure, ops: seq<Operation>, later: seq<Operation>)
    requires AlreadyApplied(s, ops) && Apply(later, s).Some?
    requires forall op :: op in ops ==> Spares(later, s, op.id)
    ensures AlreadyApplied(Apply(later, s).value, ops)
  {
    forall op | op in ops
      ensures Reflected(op, Apply(later, s).value)
    {
      ApplyFrame(later, s, op.id);
      assert op.id in s <==> op.id in Apply(later, s).value;
      assert Reflected(op, s);
    }
  }

  /** A batch run as plain insertions and deletions on the set of ids. */
  function InsertDelete(ops: seq<Operation>, ids: set<string>): set<string>
    decreases |ops|
  {
    if ops == [] then ids
    else InsertDelete(ops[1..], if Adds(ops[0]) then ids + {ops[0].id} else ids - {ops[0].id})
  }

  lemma {:induction false} InsertDeleteMembers(ops: seq<Operation>, ids: set<string>, x: string)
    requires DistinctIds(ops)
    ensures (forall op :: op in ops ==> op.id != x) ==> (x in InsertDelete(ops, ids) <==> x in ids)
    ensures forall op :: op in ops && op.id == x ==> (x in InsertDelete(ops, ids) <==> Adds(op))
    decreases |ops|
  {
    if ops != [] {
      var rest := ops[1..];
      assert forall j :: 0 <= j < |rest| ==> rest[j] == ops[j + 1];
      assert forall op :: op in rest ==> op.id != ops[0].id;
      InsertDeleteMembers(rest, if Adds(ops[0]) then ids + {ops[0].id} else ids - {ops[0].id}, x);
    }
  }

  /** The check holds exactly when running the batch again as insertions and
      deletions would leave the set of ids as it is. */
  lemma AppliedExactlyWhenIdle(s: Structure, ops: seq<Operation>)
    requires Checkable(ops) && DistinctIds(ops)
    ensures AlreadyApplied(s, ops) <==> InsertDelete(ops, s.Keys) == s.Keys
  {
    forall x
      ensures (forall op :: op in ops ==> op.id != x) ==> (x in InsertDelete(ops, s.Keys) <==> x in s.Keys)
      ensures forall op :: op in ops && op.id == x ==> (x in InsertDelete(ops, s.Keys) <==> Adds(op))
    {
      InsertDeleteMembers(ops, s.Keys, x);
    }
    if AlreadyApplied(s, ops) {
      forall x
        ensures x in InsertDelete(ops, s.Keys) <==> x in s.Keys
      {
        if op :| op in ops && op.id == x {
          assert Reflected(op, s);
        }
      }
    } else {
      var op :| op in ops && !Reflected(op, s);
      assert op.id in InsertDelete(ops, s.Keys) <==> Adds(op);
    }
  }

  /** It sees ids only: two structures over the same ids get one answer, so
      an id that holds another writer's content counts as applied. */
  lemma AppliedSeesIdsOnly(s: Structure, t: Structure, ops: seq<Operation>)
    requires s.Keys == t.Keys
    ensures AlreadyApplied(s, ops) <==> AlreadyApplied(t, ops)
  {
    forall op | op in ops
      ensures Reflected(op, s) <==> Reflected(op, t)
    {
      assert op.id in s <==> op.id in t.Keys;
    }
  }

  // ---------------------------------------------------------------------
  // When ids are as good as contents
  // ---------------------------------------------------------------------

  /** The batch never gives x any content but this. */
  predicate Faithful(ops: seq<Operation>, x: string, item: Item) {
    forall op :: op in ops && op.id == x ==>
      (op.AddObject? && Object(op.name, op.fields) == item) || Removes(op)
  }

  /** If x is there, it is this. */
  predicate Holds(s: Structure, x: string, item: Item) {
    x in s ==> s[x] == item
  }

  lemma {:induction false} FaithfulKeeps(ops: seq<Operation>, s: Structure, x: string, item: Item)
    requires Faithful(ops, x, item) && Holds(s, x, item) && Apply(ops, s).Some?
    ensures Holds(Apply(ops, s).value, x, item)
    decreases |ops|
  {
    if ops != [] {
      var next := ApplyOne(ops[0], s).value;
      assert ops[0] in ops && forall op :: op in ops[1..] ==> op in ops;
      assert Holds(next, x, item) by {
        hide Patched;
      }
      FaithfulKeeps(ops[1..], next, x, item);
    }
  }
}
