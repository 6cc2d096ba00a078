/** The supersession-chain walk (_find_live_successor) and the repair of stale
    premise citations built on it (_resolve_stale_premises). */
module Supersession {
  import opened Wrappers

  type Id = string

  /** An object of the session. supersededBy = "" stands for a missing, null
      or empty field, which the walk treats alike. */
  datatype Node = Node(isStep: bool, supersededBy: Id, premises: seq<Id>)

  type Graph = map<Id, Node>

  /** The pointer the walk follows from x; None where it stops. */
  function Next(g: Graph, x: Id): Option<Id> {
    if x !in g || !g[x].isStep || g[x].supersededBy == "" || g[x].supersededBy == x then None
    else Some(g[x].supersededBy)
  }

  // ---------------------------------------------------------------------
  // The walk
  // ---------------------------------------------------------------------

  /** Where the walk stops, having already visited seen. */
  function Walk(g: Graph, seen: set<Id>, x: Id): Id
    decreases g.Keys - seen
  {
    if x in seen || Next(g, x).None? then x
    else Walk(g, seen + {x}, Next(g, x).value)
  }

  function Successor(g: Graph, x: Id): Id {
    Walk(g, {}, x)
  }

  method FindLiveSuccessor(g: Graph, stepId: Id) returns (current: Id)
    ensures current == Successor(g, stepId)
  {
    var seen: set<Id> := {};
    current := stepId;
    while current !in seen
      invariant Walk(g, seen, current) == Successor(g, stepId)
      decreases g.Keys - seen
    {
      seen := seen + {current};
      if current !in g || !g[current].isStep {
        return;
      }
      var nextId := g[current].supersededBy;
      if nextId == "" || nextId == current {
        return;
      }
      current := nextId;
    }
  }

  // ---------------------------------------------------------------------
  // What the answer means
  // ---------------------------------------------------------------------

  /** The node n pointers after x, if the chain is that long. */
  function Hop(g: Graph, x: Id, n: nat): Option<Id>
    decreases n
  {
    if n == 0 then Some(x)
    else match Next(g, x)
      case None => None
      case Some(y) => Hop(g, y, n - 1)
  }

  /** A step that nothing else supersedes: what the walk is looking for. */
  predicate Live(g: Graph, x: Id) {
    x in g && g[x].isStep && (g[x].supersededBy == "" || g[x].supersededBy == x)
  }

  /** The pointers followed between x and y form a path with distinct nodes p,
      starting at x and about to enter y. */
  ghost predicate Trail(g: Graph, p: seq<Id>, y: Id) {
    (forall i :: 0 <= i < |p| - 1 ==> Next(g, p[i]) == Some(p[i + 1]))
    && (p != [] ==> Next(g, p[|p| - 1]) == Some(y))
    && (forall i, j :: 0 <= i < j < |p| ==> p[i] != p[j])
  }

  ghost function Elements(p: seq<Id>): set<Id> {
    set x | x in p
  }

  /** Following a trail does not change where the walk ends. */
  lemma {:induction false} WalkTrail(g: Graph, seen: set<Id>, p: seq<Id>, y: Id)
    requires Trail(g, p, y) && Elements(p) !! seen
    ensures Walk(g, seen, if p == [] then y else p[0]) == Walk(g, seen + Elements(p), y)
    decreases |p|
  {
    if p == [] {
      assert seen + Elements(p) == seen;
    } else {
      var rest := p[1..];
      assert p == [p[0]] + rest;
      assert Elements(p) == {p[0]} + Elements(rest);
      assert p[0] in Elements(p);
      forall i, j | 0 <= i < j < |rest| ensures rest[i] != rest[j] {
        assert p[i + 1] != p[j + 1];
      }
      assert p[0] !in rest;
      WalkTrail(g, seen + {p[0]}, rest, y);
      assert seen + {p[0]} + Elements(rest) == seen + Elements(p);
      assert Next(g, p[0]) == Some(if rest == [] then y else rest[0]);
    }
  }

  /** The walk stops at the end of the chain or back on its own trail. */
  lemma {:induction false} WalkEnds(g: Graph, p: seq<Id>, y: Id) returns (q: seq<Id>, r: Id)
    requires Trail(g, p, y)
    ensures p <= q && Trail(g, q, r) && r == Walk(g, Elements(p), y)
    ensures q == [] ==> r == y
    ensures q != [] && p == [] ==> q[0] == y
    ensures r in q || Next(g, r).None?
    decreases g.Keys - Elements(p)
  {
    if y in Elements(p) || Next(g, y).None? {
      q, r := p, y;
    } else {
      var longer := p + [y];
      assert Elements(longer) == Elements(p) + {y};
      assert y in g.Keys - Elements(p);
      q, r := WalkEnds(g, longer, Next(g, y).value);
    }
  }

  /** The walk is idempotent on every graph: cycles, self-loops and dangling
      ids included. */
  lemma SuccessorIdempotent(g: Graph, x: Id)
    ensures Successor(g, Successor(g, x)) == Successor(g, x)
  {
    assert Elements([]) == {};
    var q, r := WalkEnds(g, [], x);
    if r in q {
      var m :| 0 <= m < |q| && q[m] == r;
      var loop := q[m..];
      forall i, j | 0 <= i < j < |loop| ensures loop[i] != loop[j] {
        assert q[m + i] != q[m + j];
      }
      forall i | 0 <= i < |loop| - 1 ensures Next(g, loop[i]) == Some(loop[i + 1]) {
        assert loop[i] == q[m + i] && loop[i + 1] == q[m + i + 1];
      }
      WalkTrail(g, {}, loop, r);
      assert loop[0] == r && r in Elements(loop);
    }
  }

  lemma {:induction false} HopOfTrail(g: Graph, p: seq<Id>, y: Id, i: nat)
    requires Trail(g, p, y) && i <= |p|
    ensures Hop(g, if p == [] then y else p[0], i) == Some(if i == |p| then y else p[i])
    decreases |p|
  {
    if i > 0 {
      var rest := p[1..];
      forall a, b | 0 <= a < b < |rest| ensures rest[a] != rest[b] {
        assert p[a + 1] != p[b + 1];
      }
      HopOfTrail(g, rest, y, i - 1);
    }
  }

  /** The answer is on the chain of x. */
  lemma SuccessorReached(g: Graph, x: Id) returns (n: nat)
    ensures Hop(g, x, n) == Some(Successor(g, x))
  {
    assert Elements([]) == {};
    var q, r := WalkEnds(g, [], x);
    HopOfTrail(g, q, r, |q|);
    n := |q|;
  }

  lemma {:induction false} HopSplit(g: Graph, x: Id, m: nat, n: nat)
    requires Hop(g, x, m).Some?
    ensures Hop(g, x, m + n) == Hop(g, Hop(g, x, m).value, n)
    decreases m
  {
    if m > 0 {
      HopSplit(g, Next(g, x).value, m - 1, n);
    }
  }

  /** A chain that comes back to r never ends. */
  lemma {:induction false} LoopNeverEnds(g: Graph, r: Id, period: nat, n: nat)
    requires period >= 1 && Hop(g, r, period) == Some(r)
    ensures Hop(g, r, n).Some? && Next(g, Hop(g, r, n).value).Some?
    decreases n
  {
    if n >= period {
      HopSplit(g, r, period, n - period);
      LoopNeverEnds(g, r, period, n - period);
    } else {
      HopPrefix(g, r, n, period);
    }
  }

  lemma {:induction false} HopPrefix(g: Graph, r: Id, n: nat, m: nat)
    requires n < m && Hop(g, r, m).Some?
    ensures Hop(g, r, n).Some? && Next(g, Hop(g, r, n).value).Some?
    decreases n
  {
    if n > 0 {
      HopPrefix(g, Next(g, r).value, n - 1, m - 1);
    }
  }

  /** The walk promises a live successor. It delivers one exactly when the
      chain of x has one; on a chain that loops or dangles it does not. */
  lemma LiveExactlyWhenReachable(g: Graph, x: Id)
    ensures Live(g, Successor(g, x)) <==> exists n: nat :: Hop(g, x, n).Some? && Live(g, Hop(g, x, n).value)
  {
    assert Elements([]) == {};
    var q, r := WalkEnds(g, [], x);
    HopOfTrail(g, q, r, |q|);
    if n: nat :| Hop(g, x, n).Some? && Live(g, Hop(g, x, n).value) {
      var live := Hop(g, x, n).value;
      if r in q {
        var m :| 0 <= m < |q| && q[m] == r;
        HopOfTrail(g, q, r, m);
        HopSplit(g, x, m, |q| - m);
        if n <= m {
          if n < m {
            HopPrefix(g, x, n, m);
          } else {
            HopPrefix(g, x, m, |q|);
          }
        } else {
          HopSplit(g, x, m, n - m);
          LoopNeverEnds(g, r, |q| - m, n - m);
        }
        assert false;
      } else if n < |q| {
        HopPrefix(g, x, n, |q|);
        assert false;
      } else {
        HopSplit(g, x, |q|, n - |q|);
      }
    }
  }

  /** A two-step cycle: each step's "live successor" is itself, superseded. */
  lemma CycleHasNoLiveSuccessor()
    ensures var g := map["a" := Node(true, "b", []), "b" := Node(true, "a", [])];
      Successor(g, "a") == "a" && !Live(g, "a")
  {
    var g := map["a" := Node(true, "b", []), "b" := Node(true, "a", [])];
    assert Walk(g, {"a", "b"}, "a") == "a";
    assert {} + {"a"} == {"a"} && {"a"} + {"b"} == {"a", "b"};
    assert Next(g, "b") == Some("a") && Next(g, "a") == Some("b");
    assert Walk(g, {"a"}, "b") == "a";
    assert Walk(g, {}, "a") == "a";
  }

  /** x is a step, and another id, y, is recorded as superseding it. */
  predicate Superseded(g: Graph, x: Id, y: Id) {
    x in g && g[x].isStep && g[x].supersededBy == y && y != "" && y != x
  }

  ghost predicate Chain(g: Graph, p: seq<Id>) {
    forall i, j :: 0 <= i < |p| && j == i + 1 < |p| ==> Superseded(g, p[i], p[j])
  }

  ghost predicate Ends(g: Graph, y: Id) {
    y !in g || !g[y].isStep || g[y].supersededBy == "" || g[y].supersededBy == y
  }

  ghost predicate NoRepeats(p: seq<Id>) {
    forall i, j :: 0 <= i < j < |p| ==> p[i] != p[j]
  }

  /** The answer is where the chain of x ends, or else the first id that it comes
      back to. */
  lemma SuccessorExactly(g: Graph, x: Id) returns (p: seq<Id>)
    ensures p != [] && p[0] == x && p[|p| - 1] == Successor(g, x) && Chain(g, p) && NoRepeats(p[..|p| - 1])
    ensures Ends(g, p[|p| - 1]) || p[|p| - 1] in p[..|p| - 1]
  {
    assert Elements([]) == {};
    var q, r := WalkEnds(g, [], x);
    p := q + [r];
    assert p[..|p| - 1] == q;
    forall i, j | 0 <= i < |p| && j == i + 1 < |p|
      ensures Superseded(g, p[i], p[j])
    {
      assert p[i] == q[i] && Next(g, q[i]) == Some(p[j]);
    }
    hide Walk;
  }

  // ---------------------------------------------------------------------
  // Repairing stale premises
  // ---------------------------------------------------------------------

  datatype Item =
    | NotFound(stepId: Id)
    | NotAStep(stepId: Id)
    | NothingStale(stepId: Id)
    | Resolved(stepId: Id, fixes: map<Id, Id>)

  /** An update_object operation that patches the premises of one step. */
  datatype Patch = Patch(stepId: Id, premises: seq<Id>)

  /** The premises with every citation moved to its successor. */
  function Repointed(g: Graph, premises: seq<Id>): seq<Id> {
    seq(|premises|, i requires 0 <= i < |premises| => Successor(g, premises[i]))
  }

  function Fixes(g: Graph, premises: seq<Id>): map<Id, Id> {
    map p | p in premises && Successor(g, p) != p :: Successor(g, p)
  }

  function Report(g: Graph, stepId: Id): Item {
    if stepId !in g then NotFound(stepId)
    else if !g[stepId].isStep then NotAStep(stepId)
    else if Fixes(g, g[stepId].premises) == map[] then NothingStale(stepId)
    else Resolved(stepId, Fixes(g, g[stepId].premises))
  }

  method CollectFixes(g: Graph, premises: seq<Id>) returns (fixes: map<Id, Id>)
    ensures fixes == Fixes(g, premises)
  {
    fixes := map[];
    for i := 0 to |premises|
      invariant fixes == Fixes(g, premises[..i])
    {
      var successor := FindLiveSuccessor(g, premises[i]);
      assert premises[..i + 1] == premises[..i] + [premises[i]];
      if successor != premises[i] {
        fixes := fixes[premises[i] := successor];
      }
    }
    assert premises[..|premises|] == premises;
  }

  /** The step cites an id that its chain leads away from. */
  ghost predicate Stale(g: Graph, x: Id) {
    x in g && g[x].isStep && exists p :: p in g[x].premises && Successor(g, p) != p
  }

  /** What is to be answered for one requested id. */
  ghost predicate Answers(g: Graph, x: Id, item: Item) {
    && item.stepId == x
    && (item.NotFound? <==> x !in g)
    && (item.NotAStep? <==> x in g && !g[x].isStep)
    && (item.Resolved? <==> Stale(g, x))
    && (item.Resolved? && x in g ==>
          && (forall p :: p in item.fixes <==> p in g[x].premises && Successor(g, p) != p)
          && (forall p :: p in item.fixes ==> item.fixes[p] == Successor(g, p)))
  }

  /** h is g with every premise of the requested steps, and nothing else, moved
      to its successor. */
  ghost predicate Repaired(g: Graph, h: Graph, ids: seq<Id>) {
    && h.Keys == g.Keys
    && forall x :: x in g ==>
         if x in ids && g[x].isStep then
           && h[x].isStep && h[x].supersededBy == g[x].supersededBy && |h[x].premises| == |g[x].premises|
           && forall k :: 0 <= k < |g[x].premises| ==> h[x].premises[k] == Successor(g, g[x].premises[k])
         else h[x] == g[x]
  }

  lemma ReportAnswers(g: Graph, x: Id)
    ensures Answers(g, x, Report(g, x))
  {
    if x in g && g[x].isStep {
      var fixes := Fixes(g, g[x].premises);
      if p :| p in g[x].premises && Successor(g, p) != p {
        assert p in fixes;
      }
      if p :| p in fixes {
        assert p in g[x].premises && Successor(g, p) != p;
      }
    }
    hide Walk, Successor;
  }

  /** Committing the operations of a run repairs the graph. */
  lemma RunRepairs(g: Graph, ids: seq<Id>)
    ensures Repaired(g, Commit(g, Patches(g, ids)), ids)
  {
    hide Walk, Successor;
    var h := Commit(g, Patches(g, ids));
    forall x | x in g
      ensures if x in ids && g[x].isStep then
                && h[x].isStep && h[x].supersededBy == g[x].supersededBy && |h[x].premises| == |g[x].premises|
                && forall k :: 0 <= k < |g[x].premises| ==> h[x].premises[k] == Successor(g, g[x].premises[k])
              else h[x] == g[x]
    {
      CommitPremises(g, g, ids, x);
      assert h[x].(premises := []) == g[x].(premises := []);
      ReportAnswers(g, x);
    }
  }

  /** Committing is applying the operations; and then every requested step cites
      the successors of what it cited. */
  method ResolveStalePremises(g: Graph, stalePremiseIds: seq<Id>)
      returns (items: seq<Item>, operations: seq<Patch>)
    ensures |items| == |stalePremiseIds|
    ensures forall i :: 0 <= i < |items| ==> Answers(g, stalePremiseIds[i], items[i])
    ensures Repaired(g, Commit(g, operations), stalePremiseIds)
    ensures forall p :: p in operations ==> p.stepId in stalePremiseIds && Stale(g, p.stepId)
    ensures operations == Patches(g, stalePremiseIds)
  {
    hide Answers, Repaired, Stale, Commit, Successor;
    RunRepairs(g, stalePremiseIds);
    PatchesStale(g, stalePremiseIds);
    items, operations := [], [];
    for i := 0 to |stalePremiseIds|
      invariant |items| == i
      invariant forall j :: 0 <= j < i ==> Answers(g, stalePremiseIds[j], items[j])
      invariant operations + Patches(g, stalePremiseIds[i..]) == Patches(g, stalePremiseIds)
    {
      var stepId := stalePremiseIds[i];
      assert stalePremiseIds[i..] == [stepId] + stalePremiseIds[i + 1..];
      ReportAnswers(g, stepId);
      if stepId !in g {
        items := items + [NotFound(stepId)];
        continue;
      }
      if !g[stepId].isStep {
        items := items + [NotAStep(stepId)];
        continue;
      }
      var premises := g[stepId].premises;
      var fixes := CollectFixes(g, premises);
      if fixes == map[] {
        items := items + [NothingStale(stepId)];
        continue;
      }
      var newPremises := seq(|premises|, k requires 0 <= k < |premises| =>
        if premises[k] in fixes then fixes[premises[k]] else premises[k]);
      assert newPremises == Repointed(g, premises);
      items := items + [Resolved(stepId, fixes)];
      operations := operations + [Patch(stepId, newPremises)];
    }
    assert operations == Patches(g, stalePremiseIds);
  }

  /** The operations of a run, in the order of the requested ids. */
  function Patches(g: Graph, ids: seq<Id>): seq<Patch> {
    if ids == [] then []
    else
      (if Report(g, ids[0]).Resolved? then [Patch(ids[0], Repointed(g, g[ids[0]].premises))] else [])
      + Patches(g, ids[1..])
  }

  lemma {:induction false} PatchesStale(g: Graph, ids: seq<Id>)
    ensures forall p :: p in Patches(g, ids) ==> p.stepId in ids && Stale(g, p.stepId)
  {
    if ids != [] {
      ReportAnswers(g, ids[0]);
      PatchesStale(g, ids[1..]);
    }
  }

  /** Committing the patches: premises change, nothing else does. */
  function Commit(g: Graph, patches: seq<Patch>): (h: Graph)
    ensures h.Keys == g.Keys
    ensures forall x :: x in g ==> h[x].(premises := []) == g[x].(premises := [])
  {
    if patches == [] then g
    else
      var p := patches[0];
      Commit(if p.stepId in g then g[p.stepId := g[p.stepId].(premises := p.premises)] else g, patches[1..])
  }

  lemma {:induction false} SamePointersSameWalk(g: Graph, h: Graph, seen: set<Id>, x: Id)
    requires g.Keys == h.Keys
    requires forall y :: y in g ==> h[y].(premises := []) == g[y].(premises := [])
    ensures Walk(h, seen, x) == Walk(g, seen, x)
    decreases g.Keys - seen
  {
    assert x in g ==> h[x].isStep == g[x].isStep && h[x].supersededBy == g[x].supersededBy by {
      if x in g {
        assert h[x].(premises := []) == g[x].(premises := []);
      }
    }
    if x !in seen && Next(g, x).Some? {
      SamePointersSameWalk(g, h, seen + {x}, Next(g, x).value);
    }
  }

  /** After committing, a step of the batch cites exactly the repointed ids. */
  lemma {:induction false} CommitPremises(g: Graph, base: Graph, ids: seq<Id>, x: Id)
    requires g.Keys == base.Keys && x in g
    requires g[x].premises == base[x].premises || g[x].premises == Repointed(base, base[x].premises)
    ensures var h := Commit(g, Patches(base, ids));
      h[x].premises == if x in ids && Report(base, x).Resolved? then Repointed(base, base[x].premises)
                       else g[x].premises
  {
    if ids != [] {
      var first := Report(base, ids[0]);
      var patches := Patches(base, ids);
      if first.Resolved? {
        var p := Patch(ids[0], Repointed(base, base[ids[0]].premises));
        assert patches == [p] + Patches(base, ids[1..]);
        CommitPremises(g[p.stepId := g[p.stepId].(premises := p.premises)], base, ids[1..], x);
      } else {
        assert patches == Patches(base, ids[1..]);
        CommitPremises(g, base, ids[1..], x);
      }
    }
  }

  lemma RepointedSettled(g: Graph, premises: seq<Id>)
    ensures Fixes(g, Repointed(g, premises)) == map[]
  {
    forall p | p in Repointed(g, premises) ensures Successor(g, p) == p {
      var i :| 0 <= i < |premises| && p == Successor(g, premises[i]);
      SuccessorIdempotent(g, premises[i]);
    }
  }

  /** After one committed run, a second run over the same ids finds nothing to
      fix, whatever the graph; the premises kept their number and order. */
  lemma SecondRunFindsNothing(g: Graph, ids: seq<Id>)
    ensures var h := Commit(g, Patches(g, ids));
      && Patches(h, ids) == []
      && (forall i :: 0 <= i < |ids| ==> !Report(h, ids[i]).Resolved?)
      && (forall x :: x in ids ==> !Stale(h, x))
      && (forall x :: x in g ==> |h[x].premises| == |g[x].premises|)
      && (forall x, i :: x in g && 0 <= i < |g[x].premises| ==>
            h[x].premises[i] == g[x].premises[i] || h[x].premises[i] == Successor(g, g[x].premises[i]))
  {
    var h := Commit(g, Patches(g, ids));
    forall x | x in g
      ensures h[x].premises == g[x].premises || h[x].premises == Repointed(g, g[x].premises)
    {
      CommitPremises(g, g, ids, x);
    }
    forall x ensures Successor(h, x) == Successor(g, x) {
      SamePointersSameWalk(g, h, {}, x);
    }
    forall x | x in ids ensures !Report(h, x).Resolved? && !Stale(h, x) {
      ReportAnswers(h, x);
      if x in g {
        CommitPremises(g, g, ids, x);
        if Report(g, x).Resolved? {
          RepointedSettled(g, g[x].premises);
        }
        assert Fixes(h, h[x].premises) == Fixes(g, h[x].premises);
        assert h[x].(premises := []) == g[x].(premises := []);
      }
    }
    NoPatches(h, ids);
  }

  lemma NoPatches(g: Graph, ids: seq<Id>)
    requires forall x :: x in ids ==> !Report(g, x).Resolved?
    ensures Patches(g, ids) == []
  {
  }
}
