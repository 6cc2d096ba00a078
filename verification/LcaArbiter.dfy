/** The topology-aware arbiter: find_lca, extract_delta, classify_conflict. */
module LcaArbiter {
  import opened StringOrder
  import opened Wrappers

  type Id = string

  /** A knowledge graph. Each relation is the set of ids it connects. */
  datatype Graph = Graph(nodes: set<Id>, relations: set<set<Id>>)

  predicate Adjacent(g: Graph, x: Id, y: Id) {
    exists e :: e in g.relations && x in e && y in e
  }

  // ---------------------------------------------------------------------
  // query_subgraph: the ball of a radius around the seeds (undirected
  // hyperedge traversal, nodes only)
  // ---------------------------------------------------------------------

  function Ball(g: Graph, seed: Id, radius: nat): (b: set<Id>)
    ensures b <= g.nodes
  {
    if radius == 0 then g.nodes * {seed}
    else Spread(g, Ball(g, seed, radius - 1))
  }

  /** One hop outwards from s. */
  function Spread(g: Graph, s: set<Id>): (t: set<Id>)
    requires s <= g.nodes
    ensures s <= t <= g.nodes
  {
    s + set y | y in g.nodes && Touched(g, s, y)
  }

  predicate Touched(g: Graph, s: set<Id>, y: Id) {
    exists x :: x in s && Adjacent(g, x, y)
  }

  /** The traversal from several seeds. */
  function Neighbourhood(g: Graph, seeds: set<Id>, radius: nat): set<Id> {
    set y | y in g.nodes && exists s :: s in seeds && y in Ball(g, s, radius)
  }

  // ---------------------------------------------------------------------
  // Distances
  // ---------------------------------------------------------------------

  /** p is a path of the graph from x to y. */
  ghost predicate Path(g: Graph, p: seq<Id>, x: Id, y: Id) {
    && p != [] && p[0] == x && p[|p| - 1] == y
    && (forall i :: 0 <= i < |p| ==> p[i] in g.nodes)
    && (forall i :: 0 <= i < |p| - 1 ==> Adjacent(g, p[i], p[i + 1]))
  }

  /** The shortest path from x to y has d hops. */
  ghost predicate Distance(g: Graph, x: Id, y: Id, d: nat) {
    y in Ball(g, x, d) && (d > 0 ==> y !in Ball(g, x, d - 1))
  }

  lemma BallZero(g: Graph, x: Id)
    ensures Ball(g, x, 0) == g.nodes * {x}
  {
  }

  lemma {:induction false} BallGrows(g: Graph, x: Id, i: nat, j: nat)
    requires i <= j
    ensures Ball(g, x, i) <= Ball(g, x, j)
    decreases j
  {
    if i < j {
      BallGrows(g, x, i, j - 1);
    }
  }

  /** The ball holds exactly the ids at the end of a short path. */
  lemma {:induction false} BallIsPaths(g: Graph, x: Id, y: Id, r: nat)
    ensures y in Ball(g, x, r) <==> exists p :: Path(g, p, x, y) && |p| <= r + 1
    decreases r
  {
    if y in Ball(g, x, r) {
      var p := PathInBall(g, x, y, r);
    }
    if p :| Path(g, p, x, y) && |p| <= r + 1 {
      PathStaysInBall(g, p, x, y);
      BallGrows(g, x, |p| - 1, r);
    }
  }

  /** One hop leads to every id that some relation, of any size, also connects. */
  lemma OneHop(g: Graph, x: Id, y: Id)
    ensures y in Ball(g, x, 1) <==>
      x in g.nodes && y in g.nodes && (x == y || exists e :: e in g.relations && x in e && y in e)
  {
    BallZero(g, x);
    assert x in g.nodes ==> x in Ball(g, x, 0);
  }

  lemma {:induction false} PathInBall(g: Graph, x: Id, y: Id, r: nat) returns (p: seq<Id>)
    requires y in Ball(g, x, r)
    ensures Path(g, p, x, y) && |p| <= r + 1
    decreases r
  {
    if r == 0 {
      p := [x];
    } else if y in Ball(g, x, r - 1) {
      p := PathInBall(g, x, y, r - 1);
    } else {
      var z :| z in Ball(g, x, r - 1) && Adjacent(g, z, y);
      var q := PathInBall(g, x, z, r - 1);
      p := q + [y];
    }
  }

  lemma {:induction false} PathStaysInBall(g: Graph, p: seq<Id>, x: Id, y: Id)
    requires Path(g, p, x, y)
    ensures y in Ball(g, x, |p| - 1)
    decreases |p|
  {
    if |p| > 1 {
      var q := p[..|p| - 1];
      PathStaysInBall(g, q, x, q[|q| - 1]);
      assert Adjacent(g, p[|p| - 2], p[|p| - 1]);
    }
  }

  lemma {:induction false} BallTriangle(g: Graph, x: Id, y: Id, z: Id, i: nat, j: nat)
    requires y in Ball(g, x, i) && z in Ball(g, y, j)
    ensures z in Ball(g, x, i + j)
    decreases j
  {
    if j > 0 {
      if z in Ball(g, y, j - 1) {
        BallTriangle(g, x, y, z, i, j - 1);
      } else {
        var w :| w in Ball(g, y, j - 1) && Adjacent(g, w, z);
        BallTriangle(g, x, y, w, i, j - 1);
      }
    }
  }

  lemma {:induction false} BallSymmetric(g: Graph, x: Id, y: Id, r: nat)
    requires y in Ball(g, x, r)
    ensures x in Ball(g, y, r)
    decreases r
  {
    if r > 0 {
      if y in Ball(g, x, r - 1) {
        BallSymmetric(g, x, y, r - 1);
      } else {
        var w :| w in Ball(g, x, r - 1) && Adjacent(g, w, y);
        BallSymmetric(g, x, w, r - 1);
        StepInBall(g, y, w);
        BallTriangle(g, y, w, x, 1, r - 1);
      }
    }
  }

  lemma StepInBall(g: Graph, y: Id, w: Id)
    requires y in g.nodes && w in g.nodes && Adjacent(g, w, y)
    ensures w in Ball(g, y, 1)
  {
    assert y in Ball(g, y, 0);
    var e :| e in g.relations && w in e && y in e;
    assert Adjacent(g, y, w);
  }

  /** A node within i + j hops has a node on the way, i hops out. */
  lemma {:induction false} BallSplits(g: Graph, x: Id, z: Id, i: nat, j: nat) returns (y: Id)
    requires z in Ball(g, x, i + j)
    ensures y in Ball(g, x, i) && z in Ball(g, y, j)
    decreases j
  {
    if j == 0 {
      y := z;
    } else if z in Ball(g, x, i + j - 1) {
      y := BallSplits(g, x, z, i, j - 1);
      BallGrows(g, y, j - 1, j);
    } else {
      var w :| w in Ball(g, x, i + j - 1) && Adjacent(g, w, z);
      y := BallSplits(g, x, w, i, j - 1);
    }
  }

  /** Once a ball stops growing it never grows again. */
  lemma {:induction false} BallSaturated(g: Graph, x: Id, r: nat, k: nat)
    requires Ball(g, x, r) == Ball(g, x, r + 1) && r <= k
    ensures Ball(g, x, k) == Ball(g, x, r)
    decreases k
  {
    hide Spread;
    if r < k {
      BallSaturated(g, x, r, k - 1);
    }
  }

  lemma SameSizeSaturated(g: Graph, x: Id, r: nat, k: nat)
    requires |Ball(g, x, r)| == |Ball(g, x, r + 1)| && r <= k
    ensures Ball(g, x, k) == Ball(g, x, r)
  {
    var a, b := Ball(g, x, r), Ball(g, x, r + 1);
    BallGrows(g, x, r, r + 1);
    assert b == a + (b - a) && |b| == |a| + |b - a|;
    BallSaturated(g, x, r, k);
  }

  lemma {:induction false} DistanceExists(g: Graph, x: Id, y: Id, r: nat) returns (d: nat)
    requires y in Ball(g, x, r)
    ensures d <= r && Distance(g, x, y, d)
    decreases r
  {
    hide Ball;
    if r == 0 {
      BallZero(g, x);
    }
    if r == 0 || y !in Ball(g, x, r - 1) {
      d := r;
    } else {
      d := DistanceExists(g, x, y, r - 1);
    }
  }

  lemma DistanceIsLeast(g: Graph, x: Id, y: Id, d: nat, r: nat)
    requires Distance(g, x, y, d) && y in Ball(g, x, r)
    ensures d <= r
  {
    hide Ball;
    if r < d {
      BallGrows(g, x, r, d - 1);
    }
  }

  // ---------------------------------------------------------------------
  // find_lca
  // ---------------------------------------------------------------------

  datatype LcaResult = Found(lca: Id, depthA: nat, depthB: nat) | NotFound

  /** The order the candidates are minimised by: total depth, then the greater
      depth, then the id. */
  predicate KeyLe(sum1: nat, max1: nat, id1: Id, sum2: nat, max2: nat, id2: Id) {
    sum1 < sum2 || (sum1 == sum2 && (max1 < max2 || (max1 == max2 && Le(id1, id2))))
  }

  /** r is the best meeting point of a and b in the whole graph. */
  ghost predicate IsLca(g: Graph, a: Id, b: Id, r: LcaResult)
    requires r.Found?
  {
    && Distance(g, a, r.lca, r.depthA)
    && Distance(g, b, r.lca, r.depthB)
    && forall n, i: nat, j: nat :: n in Ball(g, a, i) && n in Ball(g, b, j) ==>
         KeyLe(r.depthA + r.depthB, Max(r.depthA, r.depthB), r.lca, i + j, Max(i, j), n)
  }

  /** First depth at which each id of the ball was seen. */
  ghost predicate FirstSeen(g: Graph, x: Id, seen: map<Id, nat>, levels: nat) {
    && (levels == 0 ==> seen == map[])
    && (levels > 0 ==> seen.Keys == Ball(g, x, levels - 1))
    && forall y :: y in seen ==> Distance(g, x, y, seen[y])
  }

  function WithDefaults(seen: map<Id, nat>, newIds: set<Id>, depth: nat): map<Id, nat> {
    (map y | y in newIds :: depth) + seen
  }

  /** first_seen.setdefault(id, depth) for every new id. */
  method RecordNew(seen: map<Id, nat>, newIds: set<Id>, depth: nat) returns (updated: map<Id, nat>)
    ensures updated == WithDefaults(seen, newIds, depth)
  {
    updated := seen;
    var pending := newIds;
    while pending != {}
      invariant pending <= newIds
      invariant updated == WithDefaults(seen, newIds - pending, depth)
      decreases pending
    {
      var newId :| newId in pending;
      if newId !in updated {
        updated := updated[newId := depth];
      }
      pending := pending - {newId};
    }
  }

  lemma FirstSeenStep(g: Graph, x: Id, seen: map<Id, nat>, depth: nat, prev: set<Id>)
    requires FirstSeen(g, x, seen, depth)
    requires prev == if depth == 0 then {} else Ball(g, x, depth - 1)
    ensures FirstSeen(g, x, WithDefaults(seen, Ball(g, x, depth) - prev, depth), depth + 1)
  {
    hide Ball;
    if depth > 0 {
      BallGrows(g, x, depth - 1, depth);
    }
  }

  lemma NothingSeen(g: Graph, x: Id)
    ensures FirstSeen(g, x, map[], 0)
  {
  }

  lemma FirstSeenKeys(g: Graph, x: Id, seen: map<Id, nat>, depth: nat)
    requires FirstSeen(g, x, seen, depth + 1)
    ensures seen.Keys == Ball(g, x, depth)
  {
  }

  ghost predicate BestOf(common: set<Id>, seenA: map<Id, nat>, seenB: map<Id, nat>, best: Id)
    requires common <= seenA.Keys && common <= seenB.Keys && best in common
  {
    forall n :: n in common ==>
      KeyLe(seenA[best] + seenB[best], Max(seenA[best], seenB[best]), best,
            seenA[n] + seenB[n], Max(seenA[n], seenB[n]), n)
  }

  /** min() over the common ids by the key above. */
  method BestCommon(common: set<Id>, seenA: map<Id, nat>, seenB: map<Id, nat>) returns (best: Id)
    requires common != {} && common <= seenA.Keys && common <= seenB.Keys
    ensures best in common && BestOf(common, seenA, seenB, best)
  {
    best :| best in common;
    var rest := common - {best};
    LeReflexive(best);
    while rest != {}
      invariant rest <= common && best in common - rest
      invariant BestOf(common - rest, seenA, seenB, best)
      decreases rest
    {
      var cid :| cid in rest;
      LeReflexive(cid);
      LeTotal(cid, best);
      ghost var was := best;
      if KeyLe(seenA[cid] + seenB[cid], Max(seenA[cid], seenB[cid]), cid,
               seenA[best] + seenB[best], Max(seenA[best], seenB[best]), best) {
        best := cid;
      }
      forall n | n in common - rest
        ensures KeyLe(seenA[best] + seenB[best], Max(seenA[best], seenB[best]), best,
                      seenA[n] + seenB[n], Max(seenA[n], seenB[n]), n)
      {
        if Le(cid, was) && Le(was, n) {
          LeTransitive(cid, was, n);
        }
      }
      rest := rest - {cid};
    }
  }

  /** The level-synchronised double search. */
  method FindLca(g: Graph, a: Id, b: Id, maxDepth: int) returns (r: LcaResult)
    ensures a == b ==> r == Found(a, 0, 0)
    ensures a != b ==> (r.Found? <==> maxDepth >= 0 && b in Ball(g, a, 2 * maxDepth))
    ensures a != b && r.Found? ==> IsLca(g, a, b, r) && Max(r.depthA, r.depthB) <= maxDepth
  {
    hide Ball, Distance, KeyLe, IsLca, FirstSeen, WithDefaults, BestOf, Path, Adjacent, Spread, Touched;
    if a == b {
      return Found(a, 0, 0);
    }
    var seenA, seenB: map<Id, nat> := map[], map[];
    NothingSeen(g, a);
    NothingSeen(g, b);
    var prevA, prevB: set<Id> := {}, {};
    var depth := 0;
    while depth < maxDepth + 1
      invariant 0 <= depth && (maxDepth >= 0 ==> depth <= maxDepth + 1) && (maxDepth < 0 ==> depth == 0)
      invariant FirstSeen(g, a, seenA, depth) && FirstSeen(g, b, seenB, depth)
      invariant prevA == (if depth == 0 then {} else Ball(g, a, depth - 1))
      invariant prevB == (if depth == 0 then {} else Ball(g, b, depth - 1))
      invariant prevA !! prevB
      decreases maxDepth + 1 - depth
    {
      var idsA, idsB := Ball(g, a, depth), Ball(g, b, depth);
      FirstSeenStep(g, a, seenA, depth, prevA);
      FirstSeenStep(g, b, seenB, depth, prevB);
      seenA := RecordNew(seenA, idsA - prevA, depth);
      seenB := RecordNew(seenB, idsB - prevB, depth);
      FirstSeenKeys(g, a, seenA, depth);
      FirstSeenKeys(g, b, seenB, depth);
      if depth == 0 && (idsA == {} || idsB == {}) {
        MissingSeed(g, a, b, 2 * maxDepth);
        return NotFound;
      }
      var common := idsA * idsB;
      if common != {} {
        var best := BestCommon(common, seenA, seenB);
        r := Found(best, seenA[best], seenB[best]);
        MeetingPointIsLca(g, a, b, depth, seenA, seenB, best);
        MeetingMeansNear(g, a, b, depth, best, maxDepth);
        return;
      }
      NoneCommon(idsA, idsB);
      if depth > 0 && |idsA| == |prevA| && |idsB| == |prevB| {
        SaturatedApart(g, a, b, depth - 1, maxDepth);
        return NotFound;
      }
      prevA, prevB := idsA, idsB;
      depth := depth + 1;
    }
    if maxDepth >= 0 {
      ApartIsFar(g, a, b, maxDepth);
    }
    return NotFound;
  }

  lemma NoneCommon(s: set<Id>, t: set<Id>)
    requires s * t == {}
    ensures s !! t
  {
    assert forall x :: x in s && x in t ==> x in s * t;
  }

  lemma MeetingMeansNear(g: Graph, a: Id, b: Id, depth: nat, n: Id, maxDepth: nat)
    requires n in Ball(g, a, depth) && n in Ball(g, b, depth) && depth <= maxDepth
    ensures b in Ball(g, a, 2 * maxDepth)
  {
    hide Ball;
    BallSymmetric(g, b, n, depth);
    BallTriangle(g, a, n, b, depth, depth);
    BallGrows(g, a, 2 * depth, 2 * maxDepth);
  }

  /** Disjoint balls: no path of twice the radius. */
  lemma ApartIsFar(g: Graph, a: Id, b: Id, r: nat)
    requires Ball(g, a, r) !! Ball(g, b, r)
    ensures b !in Ball(g, a, 2 * r)
  {
    hide Ball;
    if b in Ball(g, a, 2 * r) {
      var m := BallSplits(g, a, b, r, r);
      BallSymmetric(g, m, b, r);
      assert false;
    }
  }

  /** The early exit: balls that stopped growing apart never meet. */
  lemma SaturatedApart(g: Graph, a: Id, b: Id, r: nat, maxDepth: nat)
    requires Ball(g, a, r + 1) !! Ball(g, b, r + 1) && r < maxDepth
    requires |Ball(g, a, r + 1)| == |Ball(g, a, r)| && |Ball(g, b, r + 1)| == |Ball(g, b, r)|
    ensures b !in Ball(g, a, 2 * maxDepth)
  {
    hide Ball;
    SameSizeSaturated(g, a, r, maxDepth);
    SameSizeSaturated(g, b, r, maxDepth);
    BallGrows(g, a, r, r + 1);
    BallGrows(g, b, r, r + 1);
    ApartIsFar(g, a, b, maxDepth);
  }

  lemma MissingSeed(g: Graph, a: Id, b: Id, r: nat)
    requires Ball(g, a, 0) == {} || Ball(g, b, 0) == {}
    ensures b !in Ball(g, a, r)
  {
    hide Ball;
    if b in Ball(g, a, r) {
      BallZero(g, a);
      BallZero(g, b);
      BallSymmetric(g, a, b, r);
      assert false;
    }
  }

  /** Only the first intersecting level is inspected, yet the best id of that
      level is the best of the whole graph. */
  lemma MeetingPointIsLca(g: Graph, a: Id, b: Id, depth: nat, seenA: map<Id, nat>, seenB: map<Id, nat>, best: Id)
    requires a != b && FirstMeeting(g, a, b, depth)
    requires FirstSeen(g, a, seenA, depth + 1) && FirstSeen(g, b, seenB, depth + 1)
    requires best in seenA && best in seenB
    requires BestOf(seenA.Keys * seenB.Keys, seenA, seenB, best)
    ensures IsLca(g, a, b, Found(best, seenA[best], seenB[best]))
    ensures seenA[best] <= depth && seenB[best] <= depth
  {
    hide Ball;
    DistanceIsLeast(g, a, best, seenA[best], depth);
    DistanceIsLeast(g, b, best, seenB[best], depth);
    forall n, i: nat, j: nat | n in Ball(g, a, i) && n in Ball(g, b, j)
      ensures KeyLe(seenA[best] + seenB[best], Max(seenA[best], seenB[best]), best, i + j, Max(i, j), n)
    {
      var m, p, q := NearMeeting(g, a, b, depth, n, i, j);
      BallGrows(g, a, p, depth);
      BallGrows(g, b, q, depth);
      DistanceIsLeast(g, a, m, seenA[m], p);
      DistanceIsLeast(g, b, m, seenB[m], q);
    }
  }

  /** The balls of radius depth are the first to intersect. */
  ghost predicate FirstMeeting(g: Graph, a: Id, b: Id, depth: nat) {
    && (exists x :: x in Ball(g, a, depth) && x in Ball(g, b, depth))
    && (depth > 0 ==> Ball(g, a, depth - 1) !! Ball(g, b, depth - 1))
  }

  /** Any meeting point can be traded for one inside the first intersecting
      level whose key is no worse: itself, or a midpoint of the path through it. */
  lemma NearMeeting(g: Graph, a: Id, b: Id, depth: nat, n: Id, i: nat, j: nat) returns (m: Id, p: nat, q: nat)
    requires a != b && n in Ball(g, a, i) && n in Ball(g, b, j) && FirstMeeting(g, a, b, depth)
    ensures p <= depth && q <= depth && m in Ball(g, a, p) && m in Ball(g, b, q)
    ensures p + q < i + j || (p + q == i + j && (Max(p, q) < Max(i, j) || (m == n && p == i && q == j)))
  {
    hide Ball;
    if i <= depth && j <= depth {
      m, p, q := n, i, j;
    } else if i + j >= 2 * depth {
      m :| m in Ball(g, a, depth) && m in Ball(g, b, depth);
      p, q := depth, depth;
    } else {
      m := Midpoint(g, a, b, depth, n, i, j);
      p, q := depth, depth - 1;
    }
  }

  /** A path of fewer than 2 * depth hops has exactly 2 * depth - 1, or the
      previous level would have met. */
  lemma Midpoint(g: Graph, a: Id, b: Id, depth: nat, n: Id, i: nat, j: nat) returns (m: Id)
    requires n in Ball(g, a, i) && n in Ball(g, b, j) && FirstMeeting(g, a, b, depth)
    requires i + j < 2 * depth
    ensures i + j == 2 * depth - 1
    ensures m in Ball(g, a, depth) && m in Ball(g, b, depth - 1)
  {
    hide Ball;
    BallSymmetric(g, b, n, j);
    BallTriangle(g, a, n, b, i, j);
    ApartIsFar(g, a, b, depth - 1);
    if i + j <= 2 * (depth - 1) {
      BallGrows(g, a, i + j, 2 * (depth - 1));
    }
    m := BallSplits(g, a, b, depth, depth - 1);
    BallSymmetric(g, m, b, depth - 1);
  }

  /** The depths add up to the distance of a and b: the meeting point lies on
      a shortest path between them. */
  lemma LcaOnShortestPath(g: Graph, a: Id, b: Id, r: LcaResult)
    requires r.Found? && IsLca(g, a, b, r)
    ensures Distance(g, a, b, r.depthA + r.depthB)
  {
    hide Ball;
    BallSymmetric(g, b, r.lca, r.depthB);
    BallTriangle(g, a, r.lca, b, r.depthA, r.depthB);
    var d := DistanceExists(g, a, b, r.depthA + r.depthB);
    BallSymmetric(g, a, b, d);
    BallZero(g, b);
    assert KeyLe(r.depthA + r.depthB, Max(r.depthA, r.depthB), r.lca, d + 0, Max(d, 0), b);
  }

  /** Every replica that arbitrates the fork finds the same node, whichever
      of the two ids it starts from. */
  lemma LcaUnique(g: Graph, a: Id, b: Id, r: LcaResult, s: LcaResult)
    requires r.Found? && s.Found? && IsLca(g, a, b, r) && IsLca(g, b, a, s)
    ensures s == Found(r.lca, r.depthB, r.depthA)
  {
    hide Ball;
    assert KeyLe(r.depthA + r.depthB, Max(r.depthA, r.depthB), r.lca,
                 s.depthB + s.depthA, Max(s.depthB, s.depthA), s.lca);
    assert KeyLe(s.depthA + s.depthB, Max(s.depthA, s.depthB), s.lca,
                 r.depthB + r.depthA, Max(r.depthB, r.depthA), r.lca);
    LeAntisymmetric(r.lca, s.lca);
    DistanceIsLeast(g, a, r.lca, r.depthA, s.depthB);
    DistanceIsLeast(g, a, r.lca, s.depthB, r.depthA);
    DistanceIsLeast(g, b, r.lca, r.depthB, s.depthA);
    DistanceIsLeast(g, b, r.lca, s.depthA, r.depthB);
  }

  // ---------------------------------------------------------------------
  // extract_delta and classify_conflict
  // ---------------------------------------------------------------------

  const DEFAULT_MAX_SEARCH_DEPTH: nat := 6

  /** The node ids of a branch's delta. */
  method ExtractDelta(g: Graph, lca: Id, tip: Id) returns (nodes: set<Id>)
    ensures nodes == Delta(g, lca, tip)
  {
    hide Ball;
    BallZero(g, tip);
    if lca == tip {
      return Ball(g, tip, 0);
    }
    var found := false;
    var distance := 0;
    var prevTotal := -1;
    var depth := 0;
    while depth < DEFAULT_MAX_SEARCH_DEPTH + 1
      invariant 0 <= depth <= DEFAULT_MAX_SEARCH_DEPTH + 1 && !found
      invariant depth > 0 ==> tip !in Ball(g, lca, depth - 1) && prevTotal == |Ball(g, lca, depth - 1)|
      invariant depth == 0 ==> prevTotal == -1
    {
      var ids := Ball(g, lca, depth);
      if tip in ids {
        distance, found := depth, true;
        DeltaDepth(g, lca, tip, depth);
        break;
      }
      if |ids| == prevTotal {
        SameSizeSaturated(g, lca, depth - 1, DEFAULT_MAX_SEARCH_DEPTH);
        SameSizeSaturated(g, lca, depth - 1, depth);
        break;
      }
      prevTotal := |ids|;
      depth := depth + 1;
    }
    if !found {
      return Ball(g, tip, 0);
    }
    return Neighbourhood(g, {lca, tip}, Max(distance, 1));
  }

  /** The probe's depth when it reaches the tip: its distance from the lca. */
  ghost function ProbeDepth(g: Graph, lca: Id, tip: Id): nat
    requires tip in Ball(g, lca, DEFAULT_MAX_SEARCH_DEPTH)
    ensures Distance(g, lca, tip, ProbeDepth(g, lca, tip))
  {
    var d := FirstReach(g, lca, tip, DEFAULT_MAX_SEARCH_DEPTH);
    d
  }

  ghost function FirstReach(g: Graph, lca: Id, tip: Id, r: nat): (d: nat)
    requires tip in Ball(g, lca, r)
    ensures d <= r && Distance(g, lca, tip, d)
  {
    if r == 0 || tip !in Ball(g, lca, r - 1) then r else FirstReach(g, lca, tip, r - 1)
  }

  ghost function Delta(g: Graph, lca: Id, tip: Id): set<Id> {
    if lca == tip || tip !in Ball(g, lca, DEFAULT_MAX_SEARCH_DEPTH) then g.nodes * {tip}
    else Neighbourhood(g, {lca, tip}, Max(ProbeDepth(g, lca, tip), 1))
  }

  lemma DeltaDepth(g: Graph, lca: Id, tip: Id, depth: nat)
    requires depth <= DEFAULT_MAX_SEARCH_DEPTH && Distance(g, lca, tip, depth)
    ensures tip in Ball(g, lca, DEFAULT_MAX_SEARCH_DEPTH) && ProbeDepth(g, lca, tip) == depth
  {
    hide Ball;
    BallGrows(g, lca, depth, DEFAULT_MAX_SEARCH_DEPTH);
    DistanceIsLeast(g, lca, tip, depth, ProbeDepth(g, lca, tip));
    DistanceIsLeast(g, lca, tip, ProbeDepth(g, lca, tip), depth);
  }

  /** Some path from x to y has at most this many hops. */
  ghost predicate Within(g: Graph, x: Id, y: Id, hops: nat) {
    exists p :: Path(g, p, x, y) && |p| <= hops + 1
  }

  /** The shortest path from x to y has exactly this many hops. */
  ghost predicate Apart(g: Graph, x: Id, y: Id, hops: nat) {
    Within(g, x, y, hops) && (hops > 0 ==> !Within(g, x, y, hops - 1))
  }

  /** The delta of a tip that is d <= 6 hops from another id, the lca, is all
      that lies within max(d, 1) hops of either; that of a farther or unreachable
      tip, or of the lca itself, is the tip alone, if it exists. */
  lemma DeltaExactly(g: Graph, lca: Id, tip: Id, d: nat, n: Id)
    ensures lca != tip && Apart(g, lca, tip, d) && d <= 6 ==>
      (n in Delta(g, lca, tip) <==> Within(g, lca, n, Max(d, 1)) || Within(g, tip, n, Max(d, 1)))
    ensures lca == tip || !Within(g, lca, tip, 6) ==>
      (n in Delta(g, lca, tip) <==> n == tip && tip in g.nodes)
  {
    hide Ball, Path;
    BallIsPaths(g, lca, tip, DEFAULT_MAX_SEARCH_DEPTH);
    BallIsPaths(g, lca, tip, d);
    BallIsPaths(g, lca, n, Max(d, 1));
    BallIsPaths(g, tip, n, Max(d, 1));
    if d > 0 {
      BallIsPaths(g, lca, tip, d - 1);
    }
    if Apart(g, lca, tip, d) && d <= DEFAULT_MAX_SEARCH_DEPTH {
      DeltaDepth(g, lca, tip, d);
    }
  }

  /** Within the default radius the probe rediscovers find_lca's depth, and the
      delta holds every node of every shortest path from the lca to the tip. */
  lemma DeltaCoversShortestPaths(g: Graph, lca: Id, tip: Id, d: nat, n: Id, i: nat)
    requires Distance(g, tip, lca, d) && d <= DEFAULT_MAX_SEARCH_DEPTH
    requires i <= d && n in Ball(g, lca, i) && tip in Ball(g, n, d - i)
    ensures Distance(g, lca, tip, d) && n in Delta(g, lca, tip)
  {
    hide Ball;
    DistanceSymmetric(g, tip, lca, d);
    DeltaDepth(g, lca, tip, d);
    BallZero(g, tip);
    if lca == tip {
      DistanceIsLeast(g, lca, lca, d, 0);
    } else {
      BallGrows(g, lca, i, Max(d, 1));
    }
  }

  lemma DistanceSymmetric(g: Graph, x: Id, y: Id, d: nat)
    requires Distance(g, x, y, d)
    ensures Distance(g, y, x, d)
  {
    hide Ball;
    BallSymmetric(g, x, y, d);
    if d > 0 && x in Ball(g, y, d - 1) {
      BallSymmetric(g, y, x, d - 1);
    }
  }

  datatype Strategy = NonOverlapping | CompetingClaims

  function ClassifyConflict(deltaA: set<Id>, deltaB: set<Id>): Strategy {
    if deltaA * deltaB != {} then CompetingClaims else NonOverlapping
  }

  /** The arbitration before its validity check: find, extract, classify. */
  method Arbitrate(g: Graph, a: Id, b: Id, maxDepth: int) returns (r: LcaResult, strategy: Strategy)
    requires a != b
    ensures r.Found? <==> maxDepth >= 0 && b in Ball(g, a, 2 * maxDepth)
    ensures r.Found? ==> IsLca(g, a, b, r)
    ensures r.Found? ==>
      (strategy.NonOverlapping? <==> Max(r.depthA, r.depthB) > DEFAULT_MAX_SEARCH_DEPTH)
    ensures r.Found? && maxDepth <= DEFAULT_MAX_SEARCH_DEPTH ==> strategy.CompetingClaims?
  {
    hide Ball;
    strategy := CompetingClaims;
    r := FindLca(g, a, b, maxDepth);
    if r.Found? {
      var deltaA := ExtractDelta(g, r.lca, a);
      var deltaB := ExtractDelta(g, r.lca, b);
      strategy := ClassifyConflict(deltaA, deltaB);
      NonOverlappingExactly(g, a, b, r);
    }
  }

  lemma DeltaHoldsLca(g: Graph, lca: Id, tip: Id, d: nat)
    requires Distance(g, tip, lca, d) && d <= DEFAULT_MAX_SEARCH_DEPTH
    ensures lca in Delta(g, lca, tip)
  {
    hide Ball;
    BallZero(g, lca);
    BallSymmetric(g, tip, lca, d);
    DeltaCoversShortestPaths(g, lca, tip, d, lca, 0);
  }

  lemma FarDeltaIsTip(g: Graph, lca: Id, tip: Id, d: nat)
    requires Distance(g, tip, lca, d) && d > DEFAULT_MAX_SEARCH_DEPTH
    ensures Delta(g, lca, tip) == {tip}
  {
    hide Ball;
    DistanceSymmetric(g, tip, lca, d);
    if tip in Ball(g, lca, DEFAULT_MAX_SEARCH_DEPTH) {
      DistanceIsLeast(g, lca, tip, d, DEFAULT_MAX_SEARCH_DEPTH);
    }
    assert tip in g.nodes;
  }

  /** A delta always keeps the ancestor itself, so two branches count as
      non-overlapping only when one lies beyond the probe's radius: never for
      a search bounded by the default depth. */
  lemma NonOverlappingExactly(g: Graph, a: Id, b: Id, r: LcaResult)
    requires a != b && r.Found? && IsLca(g, a, b, r)
    ensures ClassifyConflict(Delta(g, r.lca, a), Delta(g, r.lca, b)).NonOverlapping?
       <==> Max(r.depthA, r.depthB) > DEFAULT_MAX_SEARCH_DEPTH
  {
    hide Ball;
    var deltaA, deltaB := Delta(g, r.lca, a), Delta(g, r.lca, b);
    if Max(r.depthA, r.depthB) <= DEFAULT_MAX_SEARCH_DEPTH {
      DeltaHoldsLca(g, r.lca, a, r.depthA);
      DeltaHoldsLca(g, r.lca, b, r.depthB);
      assert r.lca in deltaA * deltaB;
    } else {
      LcaOnShortestPath(g, a, b, r);
      if r.depthA > DEFAULT_MAX_SEARCH_DEPTH {
        FarDeltaIsTip(g, r.lca, a, r.depthA);
        if r.depthB > DEFAULT_MAX_SEARCH_DEPTH {
          FarDeltaIsTip(g, r.lca, b, r.depthB);
        } else {
          NearDeltaMissesFarTip(g, a, b, r.lca, r.depthA, r.depthB);
        }
      } else {
        FarDeltaIsTip(g, r.lca, b, r.depthB);
        DistanceSymmetric(g, a, b, r.depthA + r.depthB);
        NearDeltaMissesFarTip(g, b, a, r.lca, r.depthB, r.depthA);
      }
    }
  }

  lemma NearDeltaMissesFarTip(g: Graph, far: Id, near: Id, lca: Id, df: nat, dn: nat)
    requires Distance(g, far, lca, df) && Distance(g, near, lca, dn) && Distance(g, far, near, df + dn)
    requires df > DEFAULT_MAX_SEARCH_DEPTH >= dn
    ensures far !in Delta(g, lca, near)
  {
    hide Ball;
    DistanceSymmetric(g, near, lca, dn);
    DeltaDepth(g, lca, near, dn);
    if far in Delta(g, lca, near) {
      if far in Ball(g, lca, Max(dn, 1)) {
        BallSymmetric(g, lca, far, Max(dn, 1));
        DistanceIsLeast(g, far, lca, df, Max(dn, 1));
      } else {
        var r := if lca == near then 0 else Max(dn, 1);
        assert far in Ball(g, near, r);
        BallSymmetric(g, near, far, r);
        DistanceIsLeast(g, far, near, df + dn, r);
      }
    }
  }
}
