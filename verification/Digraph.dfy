/** Finite directed graphs as edge sets: paths, reachability, acyclicity and edge contraction. */
module Digraph {

  type Edges = set<(int, int)>

  ghost predicate IsPath(E: Edges, p: seq<int>) {
    |p| > 0 && (|p| > 1 ==> (p[0], p[1]) in E && IsPath(E, p[1..]))
  }

  ghost predicate PathFromTo(E: Edges, x: int, y: int, p: seq<int>) {
    IsPath(E, p) && p[0] == x && p[|p| - 1] == y
  }

  /** Reachability by zero or more edges. */
  ghost predicate Reaches(E: Edges, x: int, y: int) {
    exists p :: PathFromTo(E, x, y, p)
  }

  /** No edge can be closed to a cycle. */
  ghost predicate Acyclic(E: Edges) {
    forall x, y :: (x, y) in E ==> !Reaches(E, y, x)
  }

  ghost predicate Closed(E: Edges, S: set<int>) {
    forall x, y :: (x, y) in E && x in S ==> y in S
  }

  /** `ranks` numbers every endpoint, and every edge goes up in rank. */
  ghost predicate Ascending(E: Edges, ranks: seq<int>) {
    forall x, y :: (x, y) in E ==> 0 <= x < |ranks| && 0 <= y < |ranks| && ranks[x] < ranks[y]
  }

  lemma SameEdges(E: Edges, F: Edges)
    requires forall x, y :: (x, y) in E <==> (x, y) in F
    ensures E == F
  {
    forall e ensures e in E <==> e in F {
      var x, y := e.0, e.1;
      assert e == (x, y);
    }
  }

  // ---------- reachability ----------

  lemma ReachesSelf(E: Edges, x: int)
    ensures Reaches(E, x, x)
  {
    assert PathFromTo(E, x, x, [x]);
  }

  lemma {:induction false} PathsJoin(E: Edges, p: seq<int>, q: seq<int>)
    requires IsPath(E, p) && IsPath(E, q) && p[|p| - 1] == q[0]
    ensures PathFromTo(E, p[0], q[|q| - 1], p + q[1..])
  {
    var r := p + q[1..];
    if |p| == 1 {
      assert r == q;
    } else {
      PathsJoin(E, p[1..], q);
      assert r[1..] == p[1..] + q[1..];
    }
  }

  lemma ReachesTransitive(E: Edges, x: int, y: int, z: int)
    requires Reaches(E, x, y) && Reaches(E, y, z)
    ensures Reaches(E, x, z)
  {
    var p :| PathFromTo(E, x, y, p);
    var q :| PathFromTo(E, y, z, q);
    PathsJoin(E, p, q);
  }

  lemma EdgeReaches(E: Edges, x: int, y: int)
    requires (x, y) in E
    ensures Reaches(E, x, y)
  {
    assert PathFromTo(E, x, y, [x, y]);
  }

  lemma StepReaches(E: Edges, x: int, y: int, z: int)
    requires (x, y) in E && Reaches(E, y, z)
    ensures Reaches(E, x, z)
  {
    EdgeReaches(E, x, y);
    ReachesTransitive(E, x, y, z);
  }

  lemma ReachesStep(E: Edges, x: int, y: int, z: int)
    requires Reaches(E, x, y) && (y, z) in E
    ensures Reaches(E, x, z)
  {
    EdgeReaches(E, y, z);
    ReachesTransitive(E, x, y, z);
  }

  /** Reachability by at least one edge has a first edge. */
  lemma FirstEdge(E: Edges, x: int, y: int) returns (w: int)
    requires Reaches(E, x, y) && x != y
    ensures (x, w) in E && Reaches(E, w, y)
  {
    var p :| PathFromTo(E, x, y, p);
    w := p[1];
    assert PathFromTo(E, w, y, p[1..]);
  }

  lemma {:induction false} PathLast(E: Edges, p: seq<int>) returns (w: int)
    requires IsPath(E, p) && |p| > 1
    ensures Reaches(E, p[0], w) && (w, p[|p| - 1]) in E
  {
    if |p| == 2 {
      w := p[0];
      ReachesSelf(E, w);
    } else {
      w := PathLast(E, p[1..]);
      StepReaches(E, p[0], p[1], w);
    }
  }

  /** ... and a last edge. */
  lemma LastEdge(E: Edges, x: int, y: int) returns (w: int)
    requires Reaches(E, x, y) && x != y
    ensures Reaches(E, x, w) && (w, y) in E
  {
    var p :| PathFromTo(E, x, y, p);
    w := PathLast(E, p);
  }

  lemma {:induction false} PathMonotone(E: Edges, F: Edges, p: seq<int>)
    requires IsPath(E, p) && E <= F
    ensures IsPath(F, p)
  {
    if |p| > 1 {
      PathMonotone(E, F, p[1..]);
    }
  }

  lemma ReachesMonotone(E: Edges, F: Edges, x: int, y: int)
    requires Reaches(E, x, y) && E <= F
    ensures Reaches(F, x, y)
  {
    var p :| PathFromTo(E, x, y, p);
    PathMonotone(E, F, p);
    assert PathFromTo(F, x, y, p);
  }

  lemma PathHead(E: Edges, p: seq<int>) returns (x: int, y: int)
    requires IsPath(E, p) && |p| > 1
    ensures x == p[0] && y == p[1] && (x, y) in E && IsPath(E, p[1..])
  {
    x, y := p[0], p[1];
  }

  lemma ClosedContainsReachable(E: Edges, S: set<int>, x: int, y: int)
    requires Closed(E, S) && x in S && Reaches(E, x, y)
    ensures y in S
  {
    var p :| PathFromTo(E, x, y, p);
    PathStaysInClosed(E, S, p);
  }

  lemma {:induction false} PathStaysInClosed(E: Edges, S: set<int>, p: seq<int>)
    requires Closed(E, S) && IsPath(E, p) && p[0] in S
    ensures p[|p| - 1] in S
  {
    if |p| > 1 {
      var x, y := PathHead(E, p);
      PathStaysInClosed(E, S, p[1..]);
    }
  }

  /** The nodes below n that x reaches. */
  ghost function ReachedFrom(E: Edges, x: int, n: nat): (R: set<int>)
    ensures forall v :: v in R <==> 0 <= v < n && Reaches(E, x, v)
  {
    set v | 0 <= v < n && Reaches(E, x, v)
  }

  /** The nodes below n that reach x. */
  ghost function Reaching(E: Edges, x: int, n: nat): (R: set<int>)
    ensures forall v :: v in R <==> 0 <= v < n && Reaches(E, v, x)
  {
    set v | 0 <= v < n && Reaches(E, v, x)
  }

  // ---------- rankings ----------

  lemma {:induction false} PathAscends(E: Edges, ranks: seq<int>, p: seq<int>)
    requires Ascending(E, ranks) && IsPath(E, p) && |p| >= 2
    ensures 0 <= p[0] < |ranks| && 0 <= p[|p| - 1] < |ranks| && ranks[p[0]] < ranks[p[|p| - 1]]
  {
    var x, y := PathHead(E, p);
    if |p| > 2 {
      PathAscends(E, ranks, p[1..]);
    }
  }

  /** Along a path the ranks climb by at least one a step, so no node repeats. */
  lemma {:induction false} PathClimbs(E: Edges, ranks: seq<int>, p: seq<int>, i: int, j: int)
    requires Ascending(E, ranks) && IsPath(E, p) && 0 <= i < j < |p|
    ensures 0 <= p[i] < |ranks| && 0 <= p[j] < |ranks| && ranks[p[i]] + (j - i) <= ranks[p[j]]
  {
    var x, y := PathHead(E, p);
    if i > 0 {
      PathClimbs(E, ranks, p[1..], i - 1, j - 1);
    } else if j > 1 {
      PathClimbs(E, ranks, p[1..], 0, j - 1);
    }
  }

  lemma PathExtend(E: Edges, p: seq<int>, w: int)
    requires IsPath(E, p) && (p[|p| - 1], w) in E
    ensures IsPath(E, p + [w])
  {
    var q := [p[|p| - 1], w];
    assert q[1..] == [w];
    PathsJoin(E, p, q);
  }

  lemma {:induction false} PathShorten(E: Edges, p: seq<int>)
    requires IsPath(E, p) && |p| > 1
    ensures IsPath(E, p[..|p| - 1])
  {
    if |p| > 2 {
      PathShorten(E, p[1..]);
      var q := p[..|p| - 1];
      assert q[1..] == p[1..][..|p| - 2];
      assert q[0] == p[0] && q[1] == p[1];
    }
  }

  lemma ReachesAscends(E: Edges, ranks: seq<int>, x: int, y: int)
    requires Ascending(E, ranks) && Reaches(E, x, y)
    ensures x == y || (0 <= x < |ranks| && 0 <= y < |ranks| && ranks[x] < ranks[y])
  {
    var p :| PathFromTo(E, x, y, p);
    if |p| >= 2 {
      PathAscends(E, ranks, p);
    }
  }

  lemma AscendingIsAcyclic(E: Edges, ranks: seq<int>)
    requires Ascending(E, ranks)
    ensures Acyclic(E)
  {
    forall x, y | (x, y) in E
      ensures !Reaches(E, y, x)
    {
      if Reaches(E, y, x) {
        ReachesAscends(E, ranks, y, x);
      }
    }
  }

  // ---------- contraction ----------

  function Rename(a: int, b: int, v: int): int {
    if v == b then a else v
  }

  /** The edges after merging `b` into `a`: the edge (a, b) disappears and `b` is renamed to `a`. */
  ghost function Contract(E: Edges, a: int, b: int): Edges {
    set e | e in E && e != (a, b) :: (Rename(a, b, e.0), Rename(a, b, e.1))
  }

  lemma ContractHas(E: Edges, a: int, b: int, x: int, y: int)
    requires (x, y) in E && (x, y) != (a, b)
    ensures (Rename(a, b, x), Rename(a, b, y)) in Contract(E, a, b)
  {
    var e := (x, y);
    assert e in E && e != (a, b);
  }

  /** x goes to y in the uncontracted graph, directly or by leaving one of a, b after entering one. */
  ghost predicate Lifts(E: Edges, a: int, b: int, x: int, y: int) {
    || Reaches(E, x, y)
    || ((Reaches(E, x, a) || Reaches(E, x, b)) && (Reaches(E, a, y) || Reaches(E, b, y)))
  }

  lemma {:induction false} ContractPathLifts(E: Edges, a: int, b: int, p: seq<int>)
    requires IsPath(Contract(E, a, b), p)
    ensures Lifts(E - {(a, b)}, a, b, p[0], p[|p| - 1])
  {
    var G := E - {(a, b)};
    var z := p[|p| - 1];
    if |p| == 1 {
      ReachesSelf(G, z);
    } else {
      var x, y := PathHead(Contract(E, a, b), p);
      ContractPathLifts(E, a, b, p[1..]);
      var e :| e in G && (Rename(a, b, e.0), Rename(a, b, e.1)) == (x, y);
      ContractStepLifts(G, a, b, e.0, e.1, z);
    }
  }

  lemma ContractStepLifts(G: Edges, a: int, b: int, x: int, w: int, y: int)
    requires (x, w) in G && Lifts(G, a, b, Rename(a, b, w), y)
    ensures Lifts(G, a, b, Rename(a, b, x), y)
  {
    ReachesSelf(G, a);
    ReachesSelf(G, b);
    EdgeReaches(G, x, w);
    forall t | Reaches(G, w, t) ensures Reaches(G, x, t) { StepReaches(G, x, w, t); }
  }

  /** Contracting an edge of an acyclic graph is safe exactly when no second path joins its ends. */
  lemma ContractAcyclic(E: Edges, a: int, b: int)
    requires Acyclic(E) && (a, b) in E && !Reaches(E - {(a, b)}, a, b)
    ensures Acyclic(Contract(E, a, b))
  {
    var G, Q := E - {(a, b)}, Contract(E, a, b);
    forall x, y | (x, y) in Q
      ensures !Reaches(Q, y, x)
    {
      if Reaches(Q, y, x) {
        var p :| PathFromTo(Q, y, x, p);
        ContractPathLifts(E, a, b, p);
        var e :| e in G && (Rename(a, b, e.0), Rename(a, b, e.1)) == (x, y);
        NoLiftedCycle(E, a, b, e.0, e.1);
      }
    }
  }

  lemma NoLiftedCycle(E: Edges, a: int, b: int, u: int, v: int)
    requires Acyclic(E) && (a, b) in E && !Reaches(E - {(a, b)}, a, b)
    requires (u, v) in E - {(a, b)}
    ensures !Lifts(E - {(a, b)}, a, b, Rename(a, b, v), Rename(a, b, u))
  {
    var G := E - {(a, b)};
    NoPathBack(E, a, b);
    NoReachBack(E, G, u, v);
    forall s, t | s in {a, b} && t in {a, b} && Reaches(G, s, u) && Reaches(G, v, t)
      ensures false
    {
      ReachesStep(G, s, u, v);
      ReachesTransitive(G, s, v, t);
      if s == t {
        ReachesTransitive(G, v, t, u);
        NoReachBack(E, G, u, v);
      }
    }
    ReachesSelf(G, a);
    ReachesSelf(G, b);
  }

  lemma NoReachBack(E: Edges, G: Edges, u: int, v: int)
    requires Acyclic(E) && G <= E && (u, v) in E
    ensures !Reaches(G, v, u)
  {
    if Reaches(G, v, u) {
      ReachesMonotone(G, E, v, u);
    }
  }

  lemma NoPathBack(E: Edges, a: int, b: int)
    requires Acyclic(E) && (a, b) in E
    ensures !Reaches(E - {(a, b)}, b, a)
  {
    NoReachBack(E, E - {(a, b)}, a, b);
  }

  /** The converse: with a second path from a to b, contraction does create a cycle. */
  lemma ContractCyclic(E: Edges, a: int, b: int)
    requires Acyclic(E) && (a, b) in E && Reaches(E - {(a, b)}, a, b)
    ensures !Acyclic(Contract(E, a, b))
  {
    var G, Q := E - {(a, b)}, Contract(E, a, b);
    ReachesSelf(E, a);
    assert a != b;
    var w := FirstEdge(G, a, b);
    ContractHas(E, a, b, a, w);
    assert w != b;
    var p :| PathFromTo(G, w, b, p);
    ContractMapsPath(E, a, b, p);
    assert (a, w) in Q && Reaches(Q, w, a);
  }

  lemma {:induction false} ContractMapsPath(E: Edges, a: int, b: int, p: seq<int>)
    requires IsPath(E - {(a, b)}, p)
    ensures Reaches(Contract(E, a, b), Rename(a, b, p[0]), Rename(a, b, p[|p| - 1]))
  {
    var Q := Contract(E, a, b);
    if |p| == 1 {
      ReachesSelf(Q, Rename(a, b, p[0]));
    } else {
      var x, y := PathHead(E - {(a, b)}, p);
      ContractHas(E, a, b, x, y);
      ContractMapsPath(E, a, b, p[1..]);
      StepReaches(Q, Rename(a, b, x), Rename(a, b, y), Rename(a, b, p[|p| - 1]));
    }
  }

  /** An edge of an acyclic supergraph never closes a cycle in a subgraph. */
  lemma SubgraphInsertSafe(E: Edges, F: Edges, x: int, y: int)
    requires Acyclic(F) && E <= F && (x, y) in F
    ensures x != y && !Reaches(E, y, x)
  {
    ReachesSelf(F, x);
    NoReachBack(F, E, x, y);
  }

  // ---------- removing a node ----------

  /** The edges that do not touch v. */
  ghost function Without(E: Edges, v: int): (F: Edges)
    ensures F <= E
    ensures forall x, y :: (x, y) in F <==> (x, y) in E && x != v && y != v
  {
    set e | e in E && e.0 != v && e.1 != v
  }

  /** Contraction leaves the other edges and hands b's edges over to a. */
  lemma ContractEdgesOf(E: Edges, a: int, b: int, x: int, y: int)
    requires Acyclic(E) && (a, b) in E
    ensures var G := E - {(a, b)};
            (x, y) in Contract(E, a, b) <==>
              || (x != b && y != b && (x, y) in G)
              || (x == a && y != b && (b, y) in G)
              || (y == a && x != b && (x, b) in G)
  {
    ReachesSelf(E, a);
    ReachesSelf(E, b);
    assert (a, a) !in E && (b, b) !in E;
    if (x, y) in Contract(E, a, b) {
      var e :| e in E && e != (a, b) && (Rename(a, b, e.0), Rename(a, b, e.1)) == (x, y);
      assert e == (e.0, e.1);
    }
    forall u, v | (u, v) in E && (u, v) != (a, b)
      ensures (Rename(a, b, u), Rename(a, b, v)) in Contract(E, a, b)
    {
      ContractHas(E, a, b, u, v);
    }
  }

  /** If every edge of D joins two different nodes by a path of an acyclic graph, D is acyclic, too. */
  lemma CoarserAcyclic(D: Edges, E: Edges)
    requires Acyclic(E) && forall x, y :: (x, y) in D ==> x != y && Reaches(E, x, y)
    ensures Acyclic(D)
  {
    forall x, y | (x, y) in D ensures !Reaches(D, y, x) {
      if Reaches(D, y, x) {
        var p :| PathFromTo(D, y, x, p);
        CoarsePathReaches(D, E, p);
        var w := FirstEdge(E, x, y);
        ReachesTransitive(E, w, y, x);
      }
    }
  }

  lemma {:induction false} CoarsePathReaches(D: Edges, E: Edges, p: seq<int>)
    requires IsPath(D, p) && forall x, y :: (x, y) in D ==> Reaches(E, x, y)
    ensures Reaches(E, p[0], p[|p| - 1])
  {
    if |p| == 1 {
      ReachesSelf(E, p[0]);
    } else {
      CoarsePathReaches(D, E, p[1..]);
      ReachesTransitive(E, p[0], p[1], p[|p| - 1]);
    }
  }

  // ---------- nodes on no cycle ----------

  /** The edges that touch no node of S. */
  ghost function Avoiding(E: Edges, S: set<int>): (F: Edges)
    ensures forall x, y :: (x, y) in F <==> (x, y) in E && x !in S && y !in S
  {
    set e | e in E && e.0 !in S && e.1 !in S
  }

  /** No edge leads to v, or none leads away from it. */
  ghost predicate AtEnd(E: Edges, v: int) {
    (forall x :: (x, v) !in E) || (forall y :: (v, y) !in E)
  }

  lemma Through(E: Edges, x: int, v: int, y: int)
    requires (x, v) in E && (v, y) in E
    ensures !AtEnd(E, v)
  {
  }

  /** Nodes to which no edge leads, or from which none leads away, are part of no cycle. */
  lemma EndsAreOnNoCycle(E: Edges, S: set<int>)
    requires Acyclic(Avoiding(E, S)) && forall v :: v in S ==> AtEnd(E, v)
    ensures Acyclic(E)
  {
    forall x, y | (x, y) in E ensures !Reaches(E, y, x) {
      if Reaches(E, y, x) {
        CycleAvoids(E, S, x, y);
      }
    }
  }

  lemma CycleAvoids(E: Edges, S: set<int>, x: int, y: int)
    requires (x, y) in E && Reaches(E, y, x) && forall v :: v in S ==> AtEnd(E, v)
    ensures (x, y) in Avoiding(E, S) && Reaches(Avoiding(E, S), y, x)
  {
    var w, u := y, x;
    if x != y {
      w := FirstEdge(E, y, x);
      u := LastEdge(E, y, x);
    }
    Through(E, x, y, w);
    Through(E, u, x, y);
    var p :| PathFromTo(E, y, x, p);
    PathAvoids(E, S, p);
    assert PathFromTo(Avoiding(E, S), y, x, p);
  }

  lemma {:induction false} PathAvoids(E: Edges, S: set<int>, p: seq<int>)
    requires IsPath(E, p) && p[0] !in S && p[|p| - 1] !in S && forall v :: v in S ==> AtEnd(E, v)
    ensures IsPath(Avoiding(E, S), p)
  {
    if |p| > 1 {
      var q := p[1..];
      assert q[0] == p[1] && q[|q| - 1] == p[|p| - 1];
      if |q| > 1 {
        assert IsPath(E, q);
        Through(E, p[0], q[0], q[1]);
      }
      PathAvoids(E, S, q);
    }
  }
}
