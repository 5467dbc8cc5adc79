/**
 Cluster assignment on values: the dataflow graph, the clusters as an index for every node, the
 merge of two clusters, and what every merge keeps.
 */
module Clustering {
  import opened Digraph
  import opened Quotient
  import opened Sets

  // ---------- the graph ----------

  /** Liveness predicates are opaque strings, two of which are special. */
  type Pred = string
  const TRUE_PRED: Pred := "#true"
  const CONTROL_FLOW_PRED: Pred := "#control_flow"

  datatype Edge = Edge(src: int, dst: int)

  /**
   A dataflow graph with nodes 0..n-1. An edge is named by its position. `statics` lists the edges
   that feed static inputs, in the order the pass meets them.
   */
  datatype OpGraph = OpGraph(
    n: nat,
    edges: seq<Edge>,
    ops: set<int>,
    nextIterations: set<int>,
    marked: set<int>,
    consts: set<int>,
    statics: seq<int>,
    pred: seq<Pred>)
  {
    predicate WellFormed() {
      && |pred| == n
      && (forall k :: 0 <= k < |edges| ==> 0 <= edges[k].src < n && 0 <= edges[k].dst < n)
      && (forall i :: 0 <= i < |statics| ==> 0 <= statics[i] < |edges|)
    }

    /** The edges the cycle check looks at. */
    predicate Checked(k: int)
      requires 0 <= k < |edges|
    {
      && edges[k].src in ops && edges[k].dst in ops
      && edges[k].src !in nextIterations && edges[k].dst !in nextIterations
    }

    /** The edges that feed a static input from a node that is no constant. */
    predicate StaticDep(k: int)
      requires 0 <= k < |edges|
    {
      k in statics && edges[k].src !in consts
    }

    /** The edges contraction may be tried on. */
    predicate Contractible(k: int)
      requires 0 <= k < |edges|
    {
      && edges[k].src in ops && edges[k].dst in ops
      && edges[k].src in marked && edges[k].dst in marked
    }
  }

  /** The node pairs joined by an edge between operations that are no NextIteration. */
  ghost function OpEdges(g: OpGraph): Edges {
    set k | 0 <= k < |g.edges| && g.edges[k].src in g.ops && g.edges[k].dst in g.ops
            && g.edges[k].src !in g.nextIterations && g.edges[k].dst !in g.nextIterations ::
      (g.edges[k].src, g.edges[k].dst)
  }

  /** The node pairs joined by a checked edge among the first `count` edges; in the end these are all of them. */
  ghost function CheckedPairs(g: OpGraph, count: nat): (E: Edges)
    requires count <= |g.edges|
    ensures count == |g.edges| ==> E == OpEdges(g)
  {
    set k | 0 <= k < count && g.Checked(k) :: (g.edges[k].src, g.edges[k].dst)
  }

  lemma CheckedPairsStep(g: OpGraph, k: nat)
    requires k < |g.edges|
    ensures CheckedPairs(g, k + 1) ==
            CheckedPairs(g, k) + if g.Checked(k) then {(g.edges[k].src, g.edges[k].dst)} else {}
  {
  }

  lemma CheckedPairsGrow(g: OpGraph, k: nat)
    requires k <= |g.edges|
    ensures CheckedPairs(g, k) <= OpEdges(g)
  {
  }

  /** What may not become circular: these edges, and those of static inputs from nodes that are no constants. */
  ghost function Deps(g: OpGraph): (E: Edges)
    ensures OpEdges(g) <= E
  {
    OpEdges(g) + set k | 0 <= k < |g.edges| && k in g.statics && g.edges[k].src !in g.consts ::
      (g.edges[k].src, g.edges[k].dst)
  }

  /** Every dependency is that of a checked edge or of a static input. */
  lemma DepEdge(g: OpGraph, x: int, y: int) returns (k: int)
    requires (x, y) in Deps(g)
    ensures 0 <= k < |g.edges| && (g.Checked(k) || g.StaticDep(k)) && (g.edges[k].src, g.edges[k].dst) == (x, y)
  {
    if (x, y) in OpEdges(g) {
      k :| 0 <= k < |g.edges| && g.edges[k].src in g.ops && g.edges[k].dst in g.ops
        && g.edges[k].src !in g.nextIterations && g.edges[k].dst !in g.nextIterations
        && (g.edges[k].src, g.edges[k].dst) == (x, y);
    } else {
      k :| 0 <= k < |g.edges| && k in g.statics && g.edges[k].src !in g.consts
        && (g.edges[k].src, g.edges[k].dst) == (x, y);
    }
  }

  lemma DepPair(g: OpGraph, k: int)
    requires 0 <= k < |g.edges| && (g.Checked(k) || g.StaticDep(k))
    ensures (g.edges[k].src, g.edges[k].dst) in Deps(g)
  {
  }

  lemma DepsWithin(g: OpGraph)
    requires g.WellFormed()
    ensures Within(Deps(g), g.n) && Within(OpEdges(g), g.n)
  {
  }

  function OutEdges(g: OpGraph, v: int): set<int> {
    set k | 0 <= k < |g.edges| && g.edges[k].src == v
  }

  // ---------- clusters ----------

  /** The cluster index of every node, and each cluster's predicate and outgoing edges. */
  datatype State = State(index: seq<int>, pred: map<int, Pred>, out: map<int, set<int>>)
  {
    ghost predicate WellFormed(g: OpGraph) {
      && |index| == g.n
      && (forall v :: 0 <= v < |index| ==> index[v] in pred && index[v] in out)
      && (forall i :: i in out ==> forall k :: k in out[i] ==> 0 <= k < |g.edges|)
    }

    predicate Same(u: int, v: int)
      requires 0 <= u < |index| && 0 <= v < |index|
    {
      index[u] == index[v]
    }

    function PredOf(v: int): Pred
      requires 0 <= v < |index| && index[v] in pred
    {
      pred[index[v]]
    }

    function OutOf(v: int): set<int>
      requires 0 <= v < |index| && index[v] in out
    {
      out[index[v]]
    }
  }

  /** Each of the first m nodes is a cluster of its own. */
  ghost function InitialUpTo(g: OpGraph, m: nat): State
    requires g.WellFormed() && m <= g.n
  {
    State(seq(m, v => v), map v | 0 <= v < m :: g.pred[v], map v | 0 <= v < m :: OutEdges(g, v))
  }

  ghost function Initial(g: OpGraph): State
    requires g.WellFormed()
  {
    InitialUpTo(g, g.n)
  }

  function MergedPred(src: Pred, dst: Pred): Pred {
    if src == TRUE_PRED then dst else src
  }

  /** Merges the cluster at the end of edge `k` into the cluster at its start. */
  function Merge(g: OpGraph, s: State, k: int): State
    requires g.WellFormed() && s.WellFormed(g) && 0 <= k < |g.edges|
  {
    var a, b := s.index[g.edges[k].src], s.index[g.edges[k].dst];
    State(
      seq(|s.index|, v requires 0 <= v < |s.index| => Rename(a, b, s.index[v])),
      s.pred[a := MergedPred(s.pred[a], s.pred[b])],
      s.out[a := s.out[a] + s.out[b] - {k}])
  }

  lemma MergeWellFormed(g: OpGraph, s: State, k: int)
    requires g.WellFormed() && s.WellFormed(g) && 0 <= k < |g.edges|
    ensures Merge(g, s, k).WellFormed(g)
  {
  }

  // ---------- the contraction graph ----------

  /** Every checked edge between two clusters is an edge of the contraction graph. */
  ghost predicate Covers(g: OpGraph, s: State, E: Edges)
    requires g.WellFormed() && s.WellFormed(g)
  {
    forall k :: 0 <= k < |g.edges| && g.Checked(k) ==>
      var u, v := g.edges[k].src, g.edges[k].dst;
      s.Same(u, v) || (s.index[u], s.index[v]) in E
  }

  /** The i-th edge of `shadowed` is doubled by a path through its own shadow node. */
  ghost predicate Shadowed(g: OpGraph, s: State, E: Edges, shadowed: seq<int>, shadows: seq<int>)
    requires g.WellFormed() && s.WellFormed(g)
  {
    && |shadowed| == |shadows|
    && (forall i :: 0 <= i < |shadowed| ==> 0 <= shadowed[i] < |g.edges| && g.StaticDep(shadowed[i]))
    && (forall i, j :: 0 <= i < j < |shadows| ==> shadows[i] != shadows[j])
    && (forall i :: 0 <= i < |shadowed| ==>
          && (s.index[g.edges[shadowed[i]].src], shadows[i]) in E
          && (shadows[i], s.index[g.edges[shadowed[i]].dst]) in E
          && shadows[i] !in s.index)
  }

  /** (x, y) is one half of the i-th shadow path. */
  ghost predicate Leg(g: OpGraph, s: State, shadowed: seq<int>, shadows: seq<int>, i: int, x: int, y: int)
    requires g.WellFormed() && s.WellFormed(g)
  {
    && 0 <= i < |shadowed| == |shadows| && 0 <= shadowed[i] < |g.edges|
    && ((x == s.index[g.edges[shadowed[i]].src] && y == shadows[i])
        || (x == shadows[i] && y == s.index[g.edges[shadowed[i]].dst]))
  }

  /** The contraction graph has no edges but those of the checked edges and of the shadow paths. */
  ghost predicate NothingElse(g: OpGraph, s: State, E: Edges, shadowed: seq<int>, shadows: seq<int>)
    requires g.WellFormed() && s.WellFormed(g) && Within(OpEdges(g), |s.index|)
  {
    forall x, y :: (x, y) in E ==>
      (x, y) in ClassEdges(OpEdges(g), s.index) || exists i :: Leg(g, s, shadowed, shadows, i, x, y)
  }

  /** Only marked operations share a cluster. */
  ghost predicate MarkedTogether(g: OpGraph, s: State)
    requires s.WellFormed(g)
  {
    forall u, v :: 0 <= u < g.n && 0 <= v < g.n && u != v && s.Same(u, v) ==>
      u in g.marked && v in g.marked && u in g.ops && v in g.ops
  }

  lemma CoversMerge(g: OpGraph, s: State, E: Edges, k: int)
    requires g.WellFormed() && s.WellFormed(g) && 0 <= k < |g.edges| && Covers(g, s, E)
    ensures Merge(g, s, k).WellFormed(g)
    ensures Covers(g, Merge(g, s, k), Contract(E, s.index[g.edges[k].src], s.index[g.edges[k].dst]))
  {
    var a, b := s.index[g.edges[k].src], s.index[g.edges[k].dst];
    var t := Merge(g, s, k);
    forall m | 0 <= m < |g.edges| && g.Checked(m)
      ensures var u, v := g.edges[m].src, g.edges[m].dst;
              t.Same(u, v) || (t.index[u], t.index[v]) in Contract(E, a, b)
    {
      var x, y := s.index[g.edges[m].src], s.index[g.edges[m].dst];
      if x != y && (x, y) != (a, b) {
        ContractHas(E, a, b, x, y);
      }
    }
  }

  lemma ShadowedMerge(g: OpGraph, s: State, E: Edges, k: int, shadowed: seq<int>, shadows: seq<int>)
    requires g.WellFormed() && s.WellFormed(g) && 0 <= k < |g.edges|
    requires Shadowed(g, s, E, shadowed, shadows)
    ensures Merge(g, s, k).WellFormed(g)
    ensures Shadowed(g, Merge(g, s, k), Contract(E, s.index[g.edges[k].src], s.index[g.edges[k].dst]), shadowed,
              shadows)
  {
    var a, b := s.index[g.edges[k].src], s.index[g.edges[k].dst];
    var t := Merge(g, s, k);
    forall i | 0 <= i < |shadowed|
      ensures (t.index[g.edges[shadowed[i]].src], shadows[i]) in Contract(E, a, b)
      ensures (shadows[i], t.index[g.edges[shadowed[i]].dst]) in Contract(E, a, b)
      ensures shadows[i] !in t.index
    {
      var u, v, w := s.index[g.edges[shadowed[i]].src], s.index[g.edges[shadowed[i]].dst], shadows[i];
      assert a in s.index && b in s.index;
      ContractHas(E, a, b, u, w);
      ContractHas(E, a, b, w, v);
      forall j | 0 <= j < |t.index| ensures t.index[j] != w {
        assert s.index[j] in s.index;
      }
    }
  }

  /** Merging the ends of an edge of an acyclic contraction graph explains the contracted edges. */
  lemma NothingElseMerge(g: OpGraph, s: State, E: Edges, k: int, shadowed: seq<int>, shadows: seq<int>)
    requires g.WellFormed() && s.WellFormed(g) && 0 <= k < |g.edges| && Within(OpEdges(g), |s.index|)
    requires Shadowed(g, s, E, shadowed, shadows) && NothingElse(g, s, E, shadowed, shadows)
    requires Acyclic(E) && (s.index[g.edges[k].src], s.index[g.edges[k].dst]) in E
    ensures Merge(g, s, k).WellFormed(g)
    ensures NothingElse(g, Merge(g, s, k), Contract(E, s.index[g.edges[k].src], s.index[g.edges[k].dst]), shadowed,
              shadows)
  {
    hide ClassEdges, Shadowed, Leg;
    var a, b := s.index[g.edges[k].src], s.index[g.edges[k].dst];
    var t := Merge(g, s, k);
    forall x, y | (x, y) in Contract(E, a, b)
      ensures (x, y) in ClassEdges(OpEdges(g), t.index) || exists i :: Leg(g, t, shadowed, shadows, i, x, y)
    {
      var e :| e in E && e != (a, b) && (Rename(a, b, e.0), Rename(a, b, e.1)) == (x, y);
      assert e == (e.0, e.1);
      if (e.0, e.1) in ClassEdges(OpEdges(g), s.index) {
        var u, v := QuotientEdge(OpEdges(g), s.index, e.0, e.1);
        NotBackwards(E, a, b, e.0, e.1);
        QuotientHas(OpEdges(g), t.index, u, v);
      } else {
        var i :| Leg(g, s, shadowed, shadows, i, e.0, e.1);
        LegMerge(g, s, E, k, shadowed, shadows, i, e.0, e.1);
      }
    }
  }

  /** In an acyclic graph with the edge (a, b), no other edge is swallowed by merging b into a. */
  lemma NotBackwards(E: Edges, a: int, b: int, x: int, y: int)
    requires Acyclic(E) && (a, b) in E && (x, y) in E && (x, y) != (a, b)
    ensures Rename(a, b, x) != Rename(a, b, y)
  {
    ReachesSelf(E, x);
    EdgeReaches(E, x, y);
  }

  lemma LegMerge(g: OpGraph, s: State, E: Edges, k: int, shadowed: seq<int>, shadows: seq<int>, i: int, x: int, y: int)
    requires g.WellFormed() && s.WellFormed(g) && 0 <= k < |g.edges| && Shadowed(g, s, E, shadowed, shadows)
    requires Leg(g, s, shadowed, shadows, i, x, y)
    ensures var a, b := s.index[g.edges[k].src], s.index[g.edges[k].dst];
            Merge(g, s, k).WellFormed(g)
                && Leg(g, Merge(g, s, k), shadowed, shadows, i, Rename(a, b, x), Rename(a, b, y))
  {
    assert s.index[g.edges[k].dst] in s.index;
  }

  lemma MarkedTogetherMerge(g: OpGraph, s: State, k: int)
    requires g.WellFormed() && s.WellFormed(g) && 0 <= k < |g.edges|
    requires MarkedTogether(g, s) && g.Contractible(k)
    ensures Merge(g, s, k).WellFormed(g) && MarkedTogether(g, Merge(g, s, k))
  {
    var t := Merge(g, s, k);
    MergeWellFormed(g, s, k);
    forall u, v | 0 <= u < g.n && 0 <= v < g.n && u != v && t.Same(u, v)
      ensures u in g.marked && v in g.marked && u in g.ops && v in g.ops
    {
      assert s.Same(u, v) || s.Same(u, g.edges[k].src) || s.Same(u, g.edges[k].dst);
      assert s.Same(u, v) || s.Same(v, g.edges[k].src) || s.Same(v, g.edges[k].dst);
    }
  }

  // ---------- a shadow path ----------

  /** A node without edges can be hung below x. */
  lemma HangBelow(E: Edges, x: int, w: int)
    requires x != w && forall u, v :: (u, v) in E ==> u != w && v != w
    ensures !Reaches(E, w, x)
  {
    if Reaches(E, w, x) {
      var y := FirstEdge(E, w, x);
    }
  }

  /** Nothing is reached by way of a node that leads nowhere, except itself. */
  lemma {:induction false} HangingUnused(E: Edges, x: int, w: int, p: seq<int>)
    requires x != w && forall u, v :: (u, v) in E ==> u != w && v != w
    requires IsPath(E + {(x, w)}, p) && p[|p| - 1] != w
    ensures IsPath(E, p)
  {
    if |p| > 1 {
      HangingUnused(E, x, w, p[1..]);
      if |p| > 2 {
        NoWayOn(E, x, w, p[2]);
      }
    }
  }

  lemma NoWayOn(E: Edges, x: int, w: int, y: int)
    requires x != w && forall u, v :: (u, v) in E ==> u != w && v != w
    ensures (w, y) !in E + {(x, w)}
  {
  }

  /** The path x -> w -> y through a new node w closes a cycle exactly if y reached x before. */
  lemma ShadowPathCloses(E: Edges, x: int, y: int, w: int)
    requires x != w && y != w && forall u, v :: (u, v) in E ==> u != w && v != w
    ensures Reaches(E + {(x, w)}, y, w) <==> Reaches(E, y, x)
  {
    var F := E + {(x, w)};
    if Reaches(F, y, w) {
      var z := LastEdge(F, y, w);
      assert z == x;
      var p :| PathFromTo(F, y, x, p);
      HangingUnused(E, x, w, p);
      assert PathFromTo(E, y, x, p);
    }
    if Reaches(E, y, x) {
      ReachesMonotone(E, F, y, x);
      ReachesStep(F, y, x, w);
    }
  }

  lemma ShadowedGrows(g: OpGraph, s: State, E: Edges, F: Edges, shadowed: seq<int>, shadows: seq<int>, k: int, w: int)
    requires g.WellFormed() && s.WellFormed(g) && Shadowed(g, s, E, shadowed, shadows)
    requires E <= F && 0 <= k < |g.edges| && g.StaticDep(k) && w !in s.index
    requires forall u, v :: (u, v) in E ==> u != w && v != w
    requires (s.index[g.edges[k].src], w) in F && (w, s.index[g.edges[k].dst]) in F
    ensures Shadowed(g, s, F, shadowed + [k], shadows + [w])
  {
    forall i | 0 <= i < |shadows| ensures shadows[i] != w {
      NotAnEnd(E, w, s.index[g.edges[shadowed[i]].src], shadows[i]);
    }
  }

  lemma NotAnEnd(E: Edges, w: int, x: int, y: int)
    requires (x, y) in E && forall u, v :: (u, v) in E ==> u != w && v != w
    ensures x != w && y != w
  {
  }

  lemma NothingElseGrows(g: OpGraph, s: State, E: Edges, shadowed: seq<int>, shadows: seq<int>, k: int, w: int)
    requires g.WellFormed() && s.WellFormed(g) && Within(OpEdges(g), |s.index|)
    requires NothingElse(g, s, E, shadowed, shadows)
    requires |shadowed| == |shadows| && 0 <= k < |g.edges|
    ensures NothingElse(g, s, E + {(s.index[g.edges[k].src], w), (w, s.index[g.edges[k].dst])}, shadowed + [k],
              shadows + [w])
  {
    var x, y := s.index[g.edges[k].src], s.index[g.edges[k].dst];
    forall u, v | (u, v) in E + {(x, w), (w, y)}
      ensures (u, v) in ClassEdges(OpEdges(g), s.index) || exists i :: Leg(g, s, shadowed + [k], shadows + [w], i, u, v)
    {
      if (u, v) in E && (u, v) !in ClassEdges(OpEdges(g), s.index) {
        var i :| Leg(g, s, shadowed, shadows, i, u, v);
        assert Leg(g, s, shadowed + [k], shadows + [w], i, u, v);
      } else if (u, v) !in E {
        assert Leg(g, s, shadowed + [k], shadows + [w], |shadowed|, u, v);
      }
    }
  }

  lemma CoversGrows(g: OpGraph, s: State, E: Edges, F: Edges)
    requires g.WellFormed() && s.WellFormed(g) && Covers(g, s, E) && E <= F
    ensures Covers(g, s, F)
  {
  }

  // ---------- what the contraction graph guarantees ----------

  lemma CheckedPair(g: OpGraph, k: int)
    requires 0 <= k < |g.edges| && g.Checked(k)
    ensures (g.edges[k].src, g.edges[k].dst) in OpEdges(g)
  {
  }

  lemma {:induction false} OpPathMaps(g: OpGraph, s: State, E: Edges, p: seq<int>)
    requires g.WellFormed() && s.WellFormed(g) && Covers(g, s, E)
    requires IsPath(OpEdges(g), p) && 0 <= p[0] < g.n
    ensures 0 <= p[|p| - 1] < g.n
    ensures Reaches(E, s.index[p[0]], s.index[p[|p| - 1]])
  {
    if |p| == 1 {
      ReachesSelf(E, s.index[p[0]]);
    } else {
      var x, y := PathHead(OpEdges(g), p);
      var k :| 0 <= k < |g.edges| && g.Checked(k) && (g.edges[k].src, g.edges[k].dst) == (x, y);
      OpPathMaps(g, s, E, p[1..]);
      if s.index[x] != s.index[y] {
        StepReaches(E, s.index[x], s.index[y], s.index[p[|p| - 1]]);
      }
    }
  }

  lemma OpReachMaps(g: OpGraph, s: State, E: Edges, u: int, v: int)
    requires g.WellFormed() && s.WellFormed(g) && Covers(g, s, E)
    requires 0 <= u < g.n && Reaches(OpEdges(g), u, v)
    ensures 0 <= v < g.n && Reaches(E, s.index[u], s.index[v])
  {
    var p :| PathFromTo(OpEdges(g), u, v, p);
    OpPathMaps(g, s, E, p);
  }

  /** No flow leaves a cluster and comes back: whatever lies between two members is a member. */
  lemma NoReentry(g: OpGraph, s: State, E: Edges, u: int, w: int, v: int)
    requires g.WellFormed() && s.WellFormed(g) && Covers(g, s, E) && Acyclic(E)
    requires 0 <= u < g.n && 0 <= v < g.n && s.Same(u, v)
    requires Reaches(OpEdges(g), u, w) && Reaches(OpEdges(g), w, v)
    ensures 0 <= w < g.n && s.Same(u, w)
  {
    OpReachMaps(g, s, E, u, w);
    OpReachMaps(g, s, E, w, v);
    MutualReachIsEqual(E, s.index[u], s.index[w]);
  }

  /** Source and consumer of a shadowed edge are never in the same cluster. */
  lemma ShadowSeparates(g: OpGraph, s: State, E: Edges, shadowed: seq<int>, shadows: seq<int>, i: int)
    requires g.WellFormed() && s.WellFormed(g) && Acyclic(E)
    requires Shadowed(g, s, E, shadowed, shadows) && 0 <= i < |shadowed|
    ensures !s.Same(g.edges[shadowed[i]].src, g.edges[shadowed[i]].dst)
  {
    var u, v, w := s.index[g.edges[shadowed[i]].src], s.index[g.edges[shadowed[i]].dst], shadows[i];
    if u == v {
      EdgeReaches(E, w, v);
    }
  }

  lemma ClassEnds(g: OpGraph, s: State, F: Edges, x: int, y: int)
    requires Within(F, |s.index|) && (x, y) in ClassEdges(F, s.index)
    ensures x in s.index && y in s.index
  {
    var u, v := QuotientEdge(F, s.index, x, y);
  }

  /** From a cluster an edge leads to a cluster or into a shadow path, ... */
  lemma LegStart(g: OpGraph, s: State, E: Edges, shadowed: seq<int>, shadows: seq<int>, x: int, w: int) returns (i: int)
    requires g.WellFormed() && s.WellFormed(g) && Within(OpEdges(g), |s.index|)
    requires Shadowed(g, s, E, shadowed, shadows) && NothingElse(g, s, E, shadowed, shadows)
    requires (x, w) in E && x in s.index && (x, w) !in ClassEdges(OpEdges(g), s.index)
    ensures 0 <= i < |shadowed| == |shadows| && 0 <= shadowed[i] < |g.edges|
    ensures x == s.index[g.edges[shadowed[i]].src] && w == shadows[i] && w !in s.index
  {
    hide ClassEdges;
    i :| Leg(g, s, shadowed, shadows, i, x, w);
  }

  /** ... and from a shadow node the only way on is the second half of its path. */
  lemma LegEnds(g: OpGraph, s: State, E: Edges, shadowed: seq<int>, shadows: seq<int>, i: int, w: int, y: int)
    requires g.WellFormed() && s.WellFormed(g) && Within(OpEdges(g), |s.index|)
    requires Shadowed(g, s, E, shadowed, shadows) && NothingElse(g, s, E, shadowed, shadows)
    requires 0 <= i < |shadowed| && w == shadows[i] && (w, y) in E
    ensures y == s.index[g.edges[shadowed[i]].dst] && y in s.index
  {
    hide ClassEdges;
    if (w, y) in ClassEdges(OpEdges(g), s.index) {
      ClassEnds(g, s, OpEdges(g), w, y);
    }
    var j :| Leg(g, s, shadowed, shadows, j, w, y);
    assert s.index[g.edges[shadowed[j]].src] in s.index;
  }

  /** A path of the contraction graph between clusters, with every shadow path replaced by the edge it doubles. */
  lemma {:induction false} LegPathMaps(g: OpGraph, s: State, E: Edges, F: Edges, G: Edges, shadowed: seq<int>,
                                       shadows: seq<int>, p: seq<int>)
    requires g.WellFormed() && s.WellFormed(g) && Within(OpEdges(g), |s.index|)
    requires Shadowed(g, s, E, shadowed, shadows) && NothingElse(g, s, E, shadowed, shadows)
    requires F <= E && forall x, y :: (x, y) in F && (x, y) in ClassEdges(OpEdges(g), s.index) ==> (x, y) in G
    requires |shadowed| == |shadows| && forall i :: 0 <= i < |shadowed| ==> 0 <= shadowed[i] < |g.edges|
    requires forall i :: 0 <= i < |shadowed| ==>
               (s.index[g.edges[shadowed[i]].src], s.index[g.edges[shadowed[i]].dst]) in G
    requires IsPath(F, p) && p[0] in s.index && p[|p| - 1] in s.index
    ensures Reaches(G, p[0], p[|p| - 1])
    decreases |p|
  {
    hide Shadowed, NothingElse, ClassEdges, Reaches, Within;
    if |p| == 1 {
      ReachesSelf(G, p[0]);
    } else if (p[0], p[1]) in ClassEdges(OpEdges(g), s.index) {
      ClassEnds(g, s, OpEdges(g), p[0], p[1]);
      LegPathMaps(g, s, E, F, G, shadowed, shadows, p[1..]);
      StepReaches(G, p[0], p[1], p[|p| - 1]);
    } else {
      var i := LegStart(g, s, E, shadowed, shadows, p[0], p[1]);
      assert IsPath(F, p[1..]) && |p| > 2;
      LegEnds(g, s, E, shadowed, shadows, i, p[1], p[2]);
      assert p[1..][1..] == p[2..];
      LegPathMaps(g, s, E, F, G, shadowed, shadows, p[2..]);
      StepReaches(G, p[0], p[2], p[|p| - 1]);
    }
  }

  /** A dependency between two clusters is a path of the contraction graph. */
  lemma DepReaches(g: OpGraph, s: State, E: Edges, shadowed: seq<int>, shadows: seq<int>, a: int, b: int)
    requires g.WellFormed() && s.WellFormed(g) && Covers(g, s, E) && Within(Deps(g), |s.index|)
    requires Shadowed(g, s, E, shadowed, shadows) && AllShadowed(g, shadowed)
    requires (a, b) in ClassEdges(Deps(g), s.index)
    ensures a != b && Reaches(E, a, b)
  {
    var u, v := QuotientEdge(Deps(g), s.index, a, b);
    var k := DepEdge(g, u, v);
    if g.Checked(k) {
      EdgeReaches(E, a, b);
    } else {
      var i :| 0 <= i < |shadowed| && shadowed[i] == k;
      EdgeReaches(E, shadows[i], b);
      StepReaches(E, a, shadows[i], b);
    }
  }

  /** So the graph of dependencies between clusters is acyclic. */
  lemma ClusterGraphAcyclic(g: OpGraph, s: State, E: Edges, shadowed: seq<int>, shadows: seq<int>)
    requires g.WellFormed() && s.WellFormed(g) && Covers(g, s, E) && Acyclic(E)
    requires Shadowed(g, s, E, shadowed, shadows) && AllShadowed(g, shadowed)
    ensures Within(Deps(g), |s.index|) && Acyclic(ClassEdges(Deps(g), s.index))
  {
    DepsWithin(g);
    var D := ClassEdges(Deps(g), s.index);
    forall a, b | (a, b) in D ensures a != b && Reaches(E, a, b) {
      DepReaches(g, s, E, shadowed, shadows, a, b);
    }
    CoarserAcyclic(D, E);
  }

  // ---------- nothing more to contract ----------

  /** Merging the ends of k closes a circle of dependencies, or puts a static input together with its source. */
  ghost predicate MergeFails(g: OpGraph, s: State, k: int)
    requires g.WellFormed() && s.WellFormed(g) && 0 <= k < |g.edges|
  {
    DepsWithin(g);
    var t := Merge(g, s, k);
    || !Acyclic(ClassEdges(Deps(g), t.index))
    || exists m ::
         0 <= m < |g.edges| && m in g.statics && g.edges[m].src !in g.consts && t.Same(g.edges[m].src, g.edges[m].dst)
  }

  // Why deadness may forbid to merge the clusters at the ends of an edge, in terms of the predicates of the nodes.

  /** Some node in the cluster of v has this predicate. */
  ghost predicate HasPred(g: OpGraph, s: State, v: int, p: Pred)
    requires g.WellFormed() && s.WellFormed(g) && 0 <= v < g.n
  {
    exists u :: 0 <= u < g.n && s.Same(u, v) && g.pred[u] == p
  }

  ghost predicate AllTrue(g: OpGraph, s: State, v: int)
    requires g.WellFormed() && s.WellFormed(g) && 0 <= v < g.n
  {
    forall u :: 0 <= u < g.n && s.Same(u, v) ==> g.pred[u] == TRUE_PRED
  }

  /** Both clusters have a node with a predicate other than True, and these differ. */
  ghost predicate PredsClash(g: OpGraph, s: State, k: int)
    requires g.WellFormed() && s.WellFormed(g) && 0 <= k < |g.edges|
  {
    exists u, v ::
      && 0 <= u < g.n && 0 <= v < g.n && s.Same(u, g.edges[k].src) && s.Same(v, g.edges[k].dst)
      && g.pred[u] != TRUE_PRED && g.pred[v] != TRUE_PRED && g.pred[u] != g.pred[v]
  }

  /**
   Together with node v of the second cluster, which is not True, a True node of the first one would be the start of
   edge m to a third cluster in which no node is as strict as v.
   */
  ghost predicate Astray(g: OpGraph, s: State, k: int, m: int, v: int)
    requires g.WellFormed() && s.WellFormed(g) && 0 <= k < |g.edges|
  {
    && 0 <= m < |g.edges| && 0 <= v < g.n && s.Same(v, g.edges[k].dst) && g.pred[v] != TRUE_PRED
    && s.Same(g.edges[m].src, g.edges[k].src) && g.pred[g.edges[m].src] == TRUE_PRED
    && !s.Same(g.edges[m].dst, g.edges[k].src) && !s.Same(g.edges[m].dst, g.edges[k].dst)
    && !HasPred(g, s, g.edges[m].dst, g.pred[v])
  }

  /**
   The first cluster has True nodes only, the second one does not, and edge m, inside the first cluster, is still on
   record because the cluster was put together by other edges.
   */
  ghost predicate StillRecorded(g: OpGraph, s: State, k: int, m: int, v: int)
    requires g.WellFormed() && s.WellFormed(g) && 0 <= k < |g.edges|
  {
    && 0 <= v < g.n && s.Same(v, g.edges[k].dst) && g.pred[v] != TRUE_PRED
    && AllTrue(g, s, g.edges[k].src)
    && m != k && m in s.OutOf(g.edges[k].src)
    && s.Same(g.edges[m].src, g.edges[k].src) && s.Same(g.edges[m].dst, g.edges[k].src)
  }

  ghost predicate DeadnessForbids(g: OpGraph, s: State, k: int)
    requires g.WellFormed() && s.WellFormed(g) && 0 <= k < |g.edges|
  {
    || PredsClash(g, s, k)
    || (exists m, v :: Astray(g, s, k, m, v))
    || (exists m, v :: StillRecorded(g, s, k, m, v))
  }

  /** No edge between marked operations other than NextIteration can be contracted any more, for a reason it has. */
  ghost predicate CannotGrow(g: OpGraph, s: State)
    requires g.WellFormed() && s.WellFormed(g)
  {
    forall k ::
      (0 <= k < |g.edges| && g.edges[k].src in g.ops && g.edges[k].dst in g.ops
       && g.edges[k].src in g.marked && g.edges[k].dst in g.marked
       && g.edges[k].src !in g.nextIterations && g.edges[k].dst !in g.nextIterations
       && !s.Same(g.edges[k].src, g.edges[k].dst))
      ==> DeadnessForbids(g, s, k) || MergeFails(g, s, k)
  }

  /** Where all predicates are True, every edge left between two clusters would make the dependencies fail. */
  lemma AllTrueGrown(g: OpGraph, s: State, k: int)
    requires g.WellFormed() && s.WellFormed(g) && CannotGrow(g, s) && 0 <= k < |g.edges|
    requires forall v :: 0 <= v < g.n ==> g.pred[v] == TRUE_PRED
    requires g.edges[k].src in g.ops && g.edges[k].dst in g.ops
    requires g.edges[k].src in g.marked && g.edges[k].dst in g.marked
    requires g.edges[k].src !in g.nextIterations && g.edges[k].dst !in g.nextIterations
    ensures Within(Deps(g), |Merge(g, s, k).index|)
    ensures || s.Same(g.edges[k].src, g.edges[k].dst)
            || !Acyclic(ClassEdges(Deps(g), Merge(g, s, k).index))
            || exists m ::
                 && 0 <= m < |g.edges| && m in g.statics && g.edges[m].src !in g.consts
                 && Merge(g, s, k).Same(g.edges[m].src, g.edges[m].dst)
  {
    hide Acyclic, ClassEdges, Deps, Merge;
    DepsWithin(g);
    MergeWellFormed(g, s, k);
  }

  lemma ContractedIsMerged(g: OpGraph, s: State, k: int)
    requires g.WellFormed() && s.WellFormed(g) && 0 <= k < |g.edges| && Within(Deps(g), |s.index|)
    requires var a, b := s.index[g.edges[k].src], s.index[g.edges[k].dst];
             (a, b) in ClassEdges(Deps(g), s.index) && Acyclic(ClassEdges(Deps(g), s.index))
    ensures Contract(ClassEdges(Deps(g), s.index), s.index[g.edges[k].src], s.index[g.edges[k].dst])
         <= ClassEdges(Deps(g), Merge(g, s, k).index)
  {
    var a, b := s.index[g.edges[k].src], s.index[g.edges[k].dst];
    var D, t := ClassEdges(Deps(g), s.index), Merge(g, s, k);
    forall q | q in Contract(D, a, b) ensures q in ClassEdges(Deps(g), t.index) {
      var e :| e in D && e != (a, b) && (Rename(a, b, e.0), Rename(a, b, e.1)) == q;
      assert e == (e.0, e.1);
      var u, v := QuotientEdge(Deps(g), s.index, e.0, e.1);
      NotBackwards(D, a, b, e.0, e.1);
      QuotientHas(Deps(g), t.index, u, v);
    }
  }

  /** A second path in the contraction graph is a reason that does not depend on it. */
  lemma SecondPathFails(g: OpGraph, s: State, E: Edges, shadowed: seq<int>, shadows: seq<int>, k: int)
    requires g.WellFormed() && s.WellFormed(g) && Covers(g, s, E) && Acyclic(E) && Within(OpEdges(g), |s.index|)
    requires Shadowed(g, s, E, shadowed, shadows) && AllShadowed(g, shadowed) && NothingElse(g, s, E, shadowed, shadows)
    requires 0 <= k < |g.edges| && g.Checked(k) && !s.Same(g.edges[k].src, g.edges[k].dst)
    requires var a, b := s.index[g.edges[k].src], s.index[g.edges[k].dst]; Reaches(E - {(a, b)}, a, b)
    ensures MergeFails(g, s, k)
  {
    var a, b := s.index[g.edges[k].src], s.index[g.edges[k].dst];
    hide ClassEdges, Deps, Covers, NothingElse, Acyclic, Within;
    var D, t := ClassEdges(Deps(g), s.index), Merge(g, s, k);
    ClusterGraphAcyclic(g, s, E, shadowed, shadows);
    if i :| 0 <= i < |shadowed| && (s.index[g.edges[shadowed[i]].src], s.index[g.edges[shadowed[i]].dst]) == (a, b) {
      assert g.StaticDep(shadowed[i]) && t.Same(g.edges[shadowed[i]].src, g.edges[shadowed[i]].dst);
    } else {
      DepPair(g, k);
      QuotientHas(Deps(g), s.index, g.edges[k].src, g.edges[k].dst);
      SecondPathInDeps(g, s, E, shadowed, shadows, k);
      ContractCyclic(D, a, b);
      ContractedIsMerged(g, s, k);
      if Acyclic(ClassEdges(Deps(g), t.index)) {
        SubgraphAcyclic(Contract(D, a, b), ClassEdges(Deps(g), t.index));
      }
    }
  }

  lemma SecondPathInDeps(g: OpGraph, s: State, E: Edges, shadowed: seq<int>, shadows: seq<int>, k: int)
    requires g.WellFormed() && s.WellFormed(g) && Acyclic(E) && Within(OpEdges(g), |s.index|)
    requires Within(Deps(g), |s.index|)
    requires Shadowed(g, s, E, shadowed, shadows) && NothingElse(g, s, E, shadowed, shadows) && 0 <= k < |g.edges|
    requires var a, b := s.index[g.edges[k].src], s.index[g.edges[k].dst];
             && Reaches(E - {(a, b)}, a, b)
             && forall i :: 0 <= i < |shadowed| ==>
                  (s.index[g.edges[shadowed[i]].src], s.index[g.edges[shadowed[i]].dst]) != (a, b)
    ensures var a, b := s.index[g.edges[k].src], s.index[g.edges[k].dst];
            Reaches(ClassEdges(Deps(g), s.index) - {(a, b)}, a, b)
  {
    hide IsPath, Deps, ClassEdges, Acyclic, NothingElse, OpEdges, Shadowed;
    var a, b := s.index[g.edges[k].src], s.index[g.edges[k].dst];
    var D := ClassEdges(Deps(g), s.index);
    var p :| PathFromTo(E - {(a, b)}, a, b, p);
    ShadowsAreDeps(g, s, E, shadowed, shadows);
    forall x, y | (x, y) in E - {(a, b)} && (x, y) in ClassEdges(OpEdges(g), s.index) ensures (x, y) in D - {(a, b)} {
      OpIsDep(g, s, x, y);
    }
    LegPathMaps(g, s, E, E - {(a, b)}, D - {(a, b)}, shadowed, shadows, p);
  }

  lemma ShadowsAreDeps(g: OpGraph, s: State, E: Edges, shadowed: seq<int>, shadows: seq<int>)
    requires g.WellFormed() && s.WellFormed(g) && Acyclic(E) && Within(Deps(g), |s.index|)
    requires Shadowed(g, s, E, shadowed, shadows)
    ensures |shadowed| == |shadows| && forall i :: 0 <= i < |shadowed| ==> 0 <= shadowed[i] < |g.edges|
    ensures forall i :: 0 <= i < |shadowed| ==>
              (s.index[g.edges[shadowed[i]].src], s.index[g.edges[shadowed[i]].dst]) in ClassEdges(Deps(g), s.index)
  {
    hide ClassEdges, Deps, Acyclic;
    forall i | 0 <= i < |shadowed|
      ensures (s.index[g.edges[shadowed[i]].src], s.index[g.edges[shadowed[i]].dst]) in ClassEdges(Deps(g), s.index)
    {
      ShadowIsDep(g, s, E, shadowed, shadows, i);
    }
  }

  lemma OpIsDep(g: OpGraph, s: State, x: int, y: int)
    requires Within(OpEdges(g), |s.index|) && Within(Deps(g), |s.index|) && (x, y) in ClassEdges(OpEdges(g), s.index)
    ensures (x, y) in ClassEdges(Deps(g), s.index)
  {
    var u, v := QuotientEdge(OpEdges(g), s.index, x, y);
    QuotientHas(Deps(g), s.index, u, v);
  }

  lemma ShadowIsDep(g: OpGraph, s: State, E: Edges, shadowed: seq<int>, shadows: seq<int>, i: int)
    requires g.WellFormed() && s.WellFormed(g) && Acyclic(E) && Within(Deps(g), |s.index|)
    requires Shadowed(g, s, E, shadowed, shadows) && 0 <= i < |shadowed|
    ensures (s.index[g.edges[shadowed[i]].src], s.index[g.edges[shadowed[i]].dst]) in ClassEdges(Deps(g), s.index)
  {
    ShadowSeparates(g, s, E, shadowed, shadows, i);
    DepPair(g, shadowed[i]);
    QuotientHas(Deps(g), s.index, g.edges[shadowed[i]].src, g.edges[shadowed[i]].dst);
  }

  // ---------- deadness ----------

  datatype Verdict = Fine | Mismatch | ControlFlowOps | ControlFlowNode

  /** An edge, other than `k`, out of the source cluster that leads to another predicate. */
  ghost predicate OtherOutPred(g: OpGraph, s: State, k: int, m: int)
    requires g.WellFormed() && s.WellFormed(g) && 0 <= k < |g.edges|
  {
    && m in s.OutOf(g.edges[k].src) && m != k && 0 <= m < |g.edges|
    && s.PredOf(g.edges[m].dst) != s.PredOf(g.edges[k].dst)
  }

  /** What deadness says about contracting edge `k`. */
  ghost function DeadnessVerdict(g: OpGraph, s: State, k: int): Verdict
    requires g.WellFormed() && s.WellFormed(g) && 0 <= k < |g.edges|
  {
    var p, q := s.PredOf(g.edges[k].src), s.PredOf(g.edges[k].dst);
    if p == CONTROL_FLOW_PRED || q == CONTROL_FLOW_PRED then ControlFlowOps
    else if p != TRUE_PRED && q != TRUE_PRED && p != q then Mismatch
    else if p != TRUE_PRED && q == TRUE_PRED then ControlFlowNode
    else if p == TRUE_PRED && q != TRUE_PRED && exists m :: OtherOutPred(g, s, k, m) then Mismatch
    else Fine
  }

  /** Edges out of a cluster are recorded. */
  ghost predicate OutComplete(g: OpGraph, s: State)
    requires g.WellFormed() && s.WellFormed(g)
  {
    forall m :: 0 <= m < |g.edges| && !s.Same(g.edges[m].src, g.edges[m].dst) ==> m in s.OutOf(g.edges[m].src)
  }

  /** A node with a predicate of its own sits in a cluster with that predicate. */
  ghost predicate OwnPredKept(g: OpGraph, s: State)
    requires g.WellFormed() && s.WellFormed(g)
  {
    forall v :: 0 <= v < g.n && g.pred[v] != TRUE_PRED ==> s.PredOf(v) == g.pred[v]
  }

  /** A True node in a stricter cluster only leads to clusters as strict. */
  ghost predicate TrueNodesFollow(g: OpGraph, s: State)
    requires g.WellFormed() && s.WellFormed(g)
  {
    forall m :: 0 <= m < |g.edges| ==>
      var u, v := g.edges[m].src, g.edges[m].dst;
      g.pred[u] == TRUE_PRED && s.PredOf(u) != TRUE_PRED && !s.Same(u, v) ==> s.PredOf(v) == s.PredOf(u)
  }

  /** A cluster's predicate is True or that of one of its nodes. */
  ghost predicate PredHasOrigin(g: OpGraph, s: State)
    requires g.WellFormed() && s.WellFormed(g)
  {
    forall v :: 0 <= v < g.n && s.PredOf(v) != TRUE_PRED ==>
      exists u :: 0 <= u < g.n && s.Same(u, v) && g.pred[u] == s.PredOf(v)
  }

  /** The edges on record leave a node of the cluster. */
  ghost predicate OutSound(g: OpGraph, s: State)
    requires g.WellFormed() && s.WellFormed(g)
  {
    forall v, m :: 0 <= v < g.n && m in s.OutOf(v) ==> 0 <= m < |g.edges| && s.Same(g.edges[m].src, v)
  }

  ghost predicate DeadnessInvariant(g: OpGraph, s: State)
    requires g.WellFormed() && s.WellFormed(g)
  {
    OutComplete(g, s) && OutSound(g, s) && OwnPredKept(g, s) && TrueNodesFollow(g, s) && PredHasOrigin(g, s)
  }

  /** Where a cluster's predicate is not True, some node says so. */
  lemma Origin(g: OpGraph, s: State, v: int) returns (u: int)
    requires g.WellFormed() && s.WellFormed(g) && PredHasOrigin(g, s) && 0 <= v < g.n && s.PredOf(v) != TRUE_PRED
    ensures 0 <= u < g.n && s.Same(u, v) && g.pred[u] == s.PredOf(v)
  {
    u :| 0 <= u < g.n && s.Same(u, v) && g.pred[u] == s.PredOf(v);
  }

  /** A node with a predicate of its own gives it to its cluster. */
  lemma PredFromNode(g: OpGraph, s: State, v: int, u: int)
    requires g.WellFormed() && s.WellFormed(g) && OwnPredKept(g, s) && 0 <= v < g.n && 0 <= u < g.n && s.Same(u, v)
    requires g.pred[u] != TRUE_PRED
    ensures s.PredOf(v) == g.pred[u]
  {
    assert s.PredOf(v) == s.PredOf(u);
  }

  /** The predicate of a cluster, by those of its nodes. */
  lemma PredByNodes(g: OpGraph, s: State, v: int, p: Pred)
    requires g.WellFormed() && s.WellFormed(g) && OwnPredKept(g, s) && PredHasOrigin(g, s) && 0 <= v < g.n
    ensures p != TRUE_PRED ==> (s.PredOf(v) == p <==> HasPred(g, s, v, p))
    ensures s.PredOf(v) == TRUE_PRED <==> AllTrue(g, s, v)
  {
    hide OwnPredKept, PredHasOrigin;
    if s.PredOf(v) != TRUE_PRED {
      var u := Origin(g, s, v);
    }
    forall u | 0 <= u < g.n && s.Same(u, v) && g.pred[u] != TRUE_PRED ensures s.PredOf(v) == g.pred[u] {
      PredFromNode(g, s, v, u);
    }
  }

  /** A recorded edge to another predicate is one of the two reasons that a True cluster can have. */
  lemma OtherOutMeans(g: OpGraph, s: State, k: int, m: int) returns (v: int)
    requires g.WellFormed() && s.WellFormed(g) && 0 <= k < |g.edges| && DeadnessInvariant(g, s)
    requires s.PredOf(g.edges[k].src) == TRUE_PRED && s.PredOf(g.edges[k].dst) != TRUE_PRED && OtherOutPred(g, s, k, m)
    ensures Astray(g, s, k, m, v) || StillRecorded(g, s, k, m, v)
  {
    hide PredHasOrigin, OwnPredKept, TrueNodesFollow, OutComplete, HasPred;
    v := Origin(g, s, g.edges[k].dst);
    PredByNodes(g, s, g.edges[k].src, TRUE_PRED);
    PredByNodes(g, s, g.edges[m].dst, g.pred[v]);
    assert s.Same(g.edges[m].src, g.edges[k].src);
  }

  lemma AstrayMeans(g: OpGraph, s: State, k: int, m: int, v: int)
    requires g.WellFormed() && s.WellFormed(g) && 0 <= k < |g.edges| && DeadnessInvariant(g, s)
    requires Astray(g, s, k, m, v)
    ensures s.PredOf(g.edges[k].dst) == g.pred[v] != TRUE_PRED && s.PredOf(g.edges[k].src) != s.PredOf(g.edges[k].dst)
    ensures OtherOutPred(g, s, k, m)
  {
    hide HasPred, PredHasOrigin;
    PredByNodes(g, s, g.edges[m].dst, g.pred[v]);
  }

  lemma RecordedMeans(g: OpGraph, s: State, k: int, m: int, v: int)
    requires g.WellFormed() && s.WellFormed(g) && 0 <= k < |g.edges| && DeadnessInvariant(g, s)
    requires StillRecorded(g, s, k, m, v)
    ensures s.PredOf(g.edges[k].src) == TRUE_PRED && s.PredOf(g.edges[k].dst) != TRUE_PRED && OtherOutPred(g, s, k, m)
  {
    PredByNodes(g, s, g.edges[k].src, TRUE_PRED);
  }

  lemma ClashMeans(g: OpGraph, s: State, k: int)
    requires g.WellFormed() && s.WellFormed(g) && 0 <= k < |g.edges| && DeadnessInvariant(g, s)
    ensures PredsClash(g, s, k) <==>
              var p, q := s.PredOf(g.edges[k].src), s.PredOf(g.edges[k].dst);
              p != TRUE_PRED && q != TRUE_PRED && p != q
  {
    hide OwnPredKept, PredHasOrigin, TrueNodesFollow, OutComplete, OutSound;
    if s.PredOf(g.edges[k].src) != TRUE_PRED && s.PredOf(g.edges[k].dst) != TRUE_PRED {
      var u := Origin(g, s, g.edges[k].src);
      var v := Origin(g, s, g.edges[k].dst);
    }
    if PredsClash(g, s, k) {
      var u, v :| 0 <= u < g.n && 0 <= v < g.n && s.Same(u, g.edges[k].src) && s.Same(v, g.edges[k].dst)
        && g.pred[u] != TRUE_PRED && g.pred[v] != TRUE_PRED && g.pred[u] != g.pred[v];
      PredFromNode(g, s, g.edges[k].src, u);
      PredFromNode(g, s, g.edges[k].dst, v);
    }
  }

  /**
   What deadness says about an edge, in terms of the graph: an error if a node of either cluster is a control flow
   operation, or if the first cluster has a node that is not True and the second has none; otherwise a mismatch exactly
   for one of the three reasons above.
   */
  lemma VerdictExact(g: OpGraph, s: State, k: int)
    requires g.WellFormed() && s.WellFormed(g) && 0 <= k < |g.edges| && DeadnessInvariant(g, s)
    ensures var src, dst, verdict := g.edges[k].src, g.edges[k].dst, DeadnessVerdict(g, s, k);
            && (verdict.ControlFlowOps? <==>
                 HasPred(g, s, src, CONTROL_FLOW_PRED) || HasPred(g, s, dst, CONTROL_FLOW_PRED))
            && (!verdict.ControlFlowOps? ==>
                 && (verdict.Mismatch? <==> DeadnessForbids(g, s, k))
                 && (verdict.ControlFlowNode? <==> !AllTrue(g, s, src) && AllTrue(g, s, dst)))
  {
    hide PredHasOrigin, OwnPredKept, TrueNodesFollow, OutComplete, OutSound, HasPred, AllTrue, DeadnessForbids,
         OtherOutPred;
    PredByNodes(g, s, g.edges[k].src, CONTROL_FLOW_PRED);
    PredByNodes(g, s, g.edges[k].dst, CONTROL_FLOW_PRED);
    ForbidsMeans(g, s, k);
  }

  lemma ForbidsMeans(g: OpGraph, s: State, k: int)
    requires g.WellFormed() && s.WellFormed(g) && 0 <= k < |g.edges| && DeadnessInvariant(g, s)
    ensures DeadnessForbids(g, s, k) <==>
              var p, q := s.PredOf(g.edges[k].src), s.PredOf(g.edges[k].dst);
              || (p != TRUE_PRED && q != TRUE_PRED && p != q)
              || (p == TRUE_PRED && q != TRUE_PRED && exists m :: OtherOutPred(g, s, k, m))
  {
    hide DeadnessInvariant, OtherOutPred, Astray, StillRecorded, PredsClash;
    ClashMeans(g, s, k);
    var p, q := s.PredOf(g.edges[k].src), s.PredOf(g.edges[k].dst);
    if m, v :| Astray(g, s, k, m, v) {
      AstrayMeans(g, s, k, m, v);
    }
    if m, v :| StillRecorded(g, s, k, m, v) {
      RecordedMeans(g, s, k, m, v);
    }
    if p == TRUE_PRED && q != TRUE_PRED {
      if m :| OtherOutPred(g, s, k, m) {
        var v := OtherOutMeans(g, s, k, m);
      }
    }
  }

  /** No contractible edge goes from a stricter cluster to a True one. */
  ghost predicate NoStrictToTrue(g: OpGraph, s: State)
    requires g.WellFormed() && s.WellFormed(g)
  {
    forall m :: 0 <= m < |g.edges| && g.Contractible(m) ==>
      !(s.PredOf(g.edges[m].src) != TRUE_PRED && s.PredOf(g.edges[m].dst) == TRUE_PRED)
  }

  /** What a merge of two clusters with a Fine verdict does to the predicates seen by nodes. */
  lemma MergePreds(g: OpGraph, s: State, k: int, v: int)
    requires g.WellFormed() && s.WellFormed(g) && 0 <= k < |g.edges| && 0 <= v < g.n
    requires DeadnessVerdict(g, s, k).Fine?
    ensures var t := Merge(g, s, k);
            && t.WellFormed(g)
            && t.PredOf(v) == (if s.Same(v, g.edges[k].src) then s.PredOf(g.edges[k].dst) else s.PredOf(v))
    ensures s.PredOf(g.edges[k].src) in {TRUE_PRED, s.PredOf(g.edges[k].dst)}
  {
  }

  lemma OutCompleteMerge(g: OpGraph, s: State, k: int)
    requires g.WellFormed() && s.WellFormed(g) && 0 <= k < |g.edges| && OutComplete(g, s)
    ensures Merge(g, s, k).WellFormed(g) && OutComplete(g, Merge(g, s, k))
  {
    var t := Merge(g, s, k);
    forall m | 0 <= m < |g.edges| && !t.Same(g.edges[m].src, g.edges[m].dst)
      ensures m in t.OutOf(g.edges[m].src)
    {
      assert !s.Same(g.edges[m].src, g.edges[m].dst);
      assert m != k;
    }
  }

  lemma OutSoundMerge(g: OpGraph, s: State, k: int)
    requires g.WellFormed() && s.WellFormed(g) && 0 <= k < |g.edges| && OutSound(g, s)
    ensures Merge(g, s, k).WellFormed(g) && OutSound(g, Merge(g, s, k))
  {
    var t := Merge(g, s, k);
    forall v, m | 0 <= v < g.n && m in t.OutOf(v) ensures 0 <= m < |g.edges| && t.Same(g.edges[m].src, v) {
      assert m in s.OutOf(v) || m in s.OutOf(g.edges[k].src) || m in s.OutOf(g.edges[k].dst);
    }
  }

  /** Under a Fine verdict that tightens a True cluster, every edge leaving it agrees. */
  lemma LeavingEdgesAgree(g: OpGraph, s: State, k: int, m: int)
    requires g.WellFormed() && s.WellFormed(g) && 0 <= k < |g.edges| && 0 <= m < |g.edges|
    requires OutComplete(g, s) && DeadnessVerdict(g, s, k).Fine?
    requires s.PredOf(g.edges[k].src) == TRUE_PRED && s.PredOf(g.edges[k].dst) != TRUE_PRED
    requires s.Same(g.edges[m].src, g.edges[k].src) && !s.Same(g.edges[m].src, g.edges[m].dst)
    ensures s.PredOf(g.edges[m].dst) == s.PredOf(g.edges[k].dst)
  {
    var other := OtherOutPred(g, s, k, m);
  }

  lemma OwnPredKeptMerge(g: OpGraph, s: State, k: int)
    requires g.WellFormed() && s.WellFormed(g) && 0 <= k < |g.edges|
    requires OwnPredKept(g, s) && DeadnessVerdict(g, s, k).Fine?
    ensures Merge(g, s, k).WellFormed(g) && OwnPredKept(g, Merge(g, s, k))
  {
    var t := Merge(g, s, k);
    MergeWellFormed(g, s, k);
    forall v | 0 <= v < g.n && g.pred[v] != TRUE_PRED
      ensures t.PredOf(v) == g.pred[v]
    {
      MergePreds(g, s, k, v);
    }
  }

  lemma TrueNodesFollowMerge(g: OpGraph, s: State, k: int)
    requires g.WellFormed() && s.WellFormed(g) && 0 <= k < |g.edges|
    requires OutComplete(g, s) && TrueNodesFollow(g, s) && DeadnessVerdict(g, s, k).Fine?
    ensures Merge(g, s, k).WellFormed(g) && TrueNodesFollow(g, Merge(g, s, k))
  {
    var t := Merge(g, s, k);
    MergeWellFormed(g, s, k);
    forall m | 0 <= m < |g.edges|
      ensures var u, v := g.edges[m].src, g.edges[m].dst;
              g.pred[u] == TRUE_PRED && t.PredOf(u) != TRUE_PRED && !t.Same(u, v) ==> t.PredOf(v) == t.PredOf(u)
    {
      var u, v := g.edges[m].src, g.edges[m].dst;
      MergePreds(g, s, k, u);
      MergePreds(g, s, k, v);
      if g.pred[u] == TRUE_PRED && t.PredOf(u) != TRUE_PRED && !t.Same(u, v) {
        if s.Same(u, g.edges[k].src) && s.PredOf(u) == TRUE_PRED {
          LeavingEdgesAgree(g, s, k, m);
        }
      }
    }
  }

  lemma PredHasOriginMerge(g: OpGraph, s: State, k: int)
    requires g.WellFormed() && s.WellFormed(g) && 0 <= k < |g.edges|
    requires PredHasOrigin(g, s) && DeadnessVerdict(g, s, k).Fine?
    ensures Merge(g, s, k).WellFormed(g) && PredHasOrigin(g, Merge(g, s, k))
  {
    var t := Merge(g, s, k);
    MergeWellFormed(g, s, k);
    forall v | 0 <= v < g.n && t.PredOf(v) != TRUE_PRED
      ensures exists u :: 0 <= u < g.n && t.Same(u, v) && g.pred[u] == t.PredOf(v)
    {
      MergePreds(g, s, k, v);
      var w := if s.Same(v, g.edges[k].src) then g.edges[k].dst else v;
      var u :| 0 <= u < g.n && s.Same(u, w) && g.pred[u] == s.PredOf(w);
      assert t.Same(u, v);
    }
  }

  lemma NoStrictToTrueMerge(g: OpGraph, s: State, k: int)
    requires g.WellFormed() && s.WellFormed(g) && 0 <= k < |g.edges|
    requires OutComplete(g, s) && NoStrictToTrue(g, s) && DeadnessVerdict(g, s, k).Fine?
    ensures Merge(g, s, k).WellFormed(g) && NoStrictToTrue(g, Merge(g, s, k))
  {
    var t := Merge(g, s, k);
    MergeWellFormed(g, s, k);
    forall m | 0 <= m < |g.edges| && g.Contractible(m)
      ensures !(t.PredOf(g.edges[m].src) != TRUE_PRED && t.PredOf(g.edges[m].dst) == TRUE_PRED)
    {
      var u, v := g.edges[m].src, g.edges[m].dst;
      MergePreds(g, s, k, u);
      MergePreds(g, s, k, v);
      if s.Same(u, g.edges[k].src) && s.PredOf(u) == TRUE_PRED && t.PredOf(u) != TRUE_PRED && !s.Same(u, v) {
        LeavingEdgesAgree(g, s, k, m);
      }
    }
  }

  lemma DeadnessMerge(g: OpGraph, s: State, k: int)
    requires g.WellFormed() && s.WellFormed(g) && 0 <= k < |g.edges|
    requires DeadnessInvariant(g, s) && DeadnessVerdict(g, s, k).Fine?
    ensures Merge(g, s, k).WellFormed(g) && DeadnessInvariant(g, Merge(g, s, k))
  {
    OutCompleteMerge(g, s, k);
    OutSoundMerge(g, s, k);
    OwnPredKeptMerge(g, s, k);
    TrueNodesFollowMerge(g, s, k);
    PredHasOriginMerge(g, s, k);
  }

  // ---------- how clusters are put together ----------

  /** The edges that are no longer on record. */
  ghost function Dropped(g: OpGraph, s: State): (r: set<int>)
    requires g.WellFormed() && s.WellFormed(g)
    ensures forall m :: m in r <==> 0 <= m < |g.edges| && m !in s.OutOf(g.edges[m].src)
  {
    set m | 0 <= m < |g.edges| && m !in s.OutOf(g.edges[m].src)
  }

  /** The ends of the given edges, both ways. */
  ghost function Links(g: OpGraph, edges: set<int>): Edges
    requires forall m :: m in edges ==> 0 <= m < |g.edges|
  {
    (set m | m in edges :: (g.edges[m].src, g.edges[m].dst)) + set m | m in edges :: (g.edges[m].dst, g.edges[m].src)
  }

  /**
   The edges no longer on record are a spanning forest of the clusters: two nodes share a cluster exactly if such edges
   connect them, in whichever direction, and there are as many of them as there are nodes more than clusters.
   */
  ghost predicate PutTogether(g: OpGraph, s: State)
    requires g.WellFormed() && s.WellFormed(g)
  {
    && (forall u, v :: 0 <= u < g.n && 0 <= v < g.n ==> (s.Same(u, v) <==> Reaches(Links(g, Dropped(g, s)), u, v)))
    && |Dropped(g, s)| + |Elems(s.index)| == g.n
  }

  lemma LinkEdge(g: OpGraph, edges: set<int>, x: int, y: int) returns (m: int)
    requires (forall m :: m in edges ==> 0 <= m < |g.edges|) && (x, y) in Links(g, edges)
    ensures m in edges
    ensures (x == g.edges[m].src && y == g.edges[m].dst) || (x == g.edges[m].dst && y == g.edges[m].src)
  {
    m :| m in edges && ((x, y) == (g.edges[m].src, g.edges[m].dst) || (x, y) == (g.edges[m].dst, g.edges[m].src));
  }

  lemma LinkBoth(g: OpGraph, edges: set<int>, m: int)
    requires (forall m :: m in edges ==> 0 <= m < |g.edges|) && m in edges
    ensures Reaches(Links(g, edges), g.edges[m].src, g.edges[m].dst)
    ensures Reaches(Links(g, edges), g.edges[m].dst, g.edges[m].src)
  {
    EdgeReaches(Links(g, edges), g.edges[m].src, g.edges[m].dst);
    EdgeReaches(Links(g, edges), g.edges[m].dst, g.edges[m].src);
  }

  /** Edges inside clusters connect nodes of one cluster only. */
  lemma {:induction false} LinkedSame(g: OpGraph, s: State, edges: set<int>, p: seq<int>)
    requires g.WellFormed() && s.WellFormed(g) && forall m :: m in edges ==> 0 <= m < |g.edges|
    requires forall m :: m in edges ==> s.Same(g.edges[m].src, g.edges[m].dst)
    requires IsPath(Links(g, edges), p) && 0 <= p[0] < g.n
    ensures 0 <= p[|p| - 1] < g.n && s.Same(p[0], p[|p| - 1])
  {
    hide Links;
    if |p| > 1 {
      var m := LinkEdge(g, edges, p[0], p[1]);
      LinkedSame(g, s, edges, p[1..]);
    }
  }

  lemma DroppedMerge(g: OpGraph, s: State, k: int)
    requires g.WellFormed() && s.WellFormed(g) && 0 <= k < |g.edges| && OutComplete(g, s) && OutSound(g, s)
    requires !s.Same(g.edges[k].src, g.edges[k].dst)
    ensures Merge(g, s, k).WellFormed(g) && k !in Dropped(g, s)
    ensures Dropped(g, Merge(g, s, k)) == Dropped(g, s) + {k}
  {
    var t := Merge(g, s, k);
    MergeWellFormed(g, s, k);
    forall m ensures m in Dropped(g, t) <==> m in Dropped(g, s) || m == k {
      if 0 <= m < |g.edges| {
        var u := g.edges[m].src;
        assert m in s.OutOf(g.edges[k].src) ==> s.Same(u, g.edges[k].src);
        assert m in s.OutOf(g.edges[k].dst) ==> s.Same(u, g.edges[k].dst);
      }
    }
  }

  /** A merge connects the two clusters by its edge. */
  lemma LinkedMerge(g: OpGraph, s: State, k: int, u: int, v: int)
    requires g.WellFormed() && s.WellFormed(g) && 0 <= k < |g.edges| && PutTogether(g, s)
    requires OutComplete(g, s) && OutSound(g, s) && !s.Same(g.edges[k].src, g.edges[k].dst)
    requires Merge(g, s, k).WellFormed(g) && 0 <= u < g.n && 0 <= v < g.n && Merge(g, s, k).Same(u, v)
    ensures Reaches(Links(g, Dropped(g, Merge(g, s, k))), u, v)
  {
    hide Links, Reaches, OutComplete, OutSound, Dropped;
    var src, dst := g.edges[k].src, g.edges[k].dst;
    DroppedMerge(g, s, k);
    var E, F := Links(g, Dropped(g, s)), Links(g, Dropped(g, s) + {k});
    LinksGrow(g, Dropped(g, s), k);
    LinkBoth(g, Dropped(g, s) + {k}, k);
    if s.Same(u, v) {
      ReachesMonotone(E, F, u, v);
    } else if s.Same(u, src) {
      ReachesMonotone(E, F, u, src);
      ReachesMonotone(E, F, dst, v);
      ReachesTransitive(F, u, src, dst);
      ReachesTransitive(F, u, dst, v);
    } else {
      ReachesMonotone(E, F, u, dst);
      ReachesMonotone(E, F, src, v);
      ReachesTransitive(F, u, dst, src);
      ReachesTransitive(F, u, src, v);
    }
  }

  lemma LinksGrow(g: OpGraph, edges: set<int>, k: int)
    requires (forall m :: m in edges ==> 0 <= m < |g.edges|) && 0 <= k < |g.edges|
    ensures Links(g, edges) <= Links(g, edges + {k})
  {
  }

  lemma OneClusterLess(g: OpGraph, s: State, k: int)
    requires g.WellFormed() && s.WellFormed(g) && 0 <= k < |g.edges| && !s.Same(g.edges[k].src, g.edges[k].dst)
    ensures |Elems(Merge(g, s, k).index)| == |Elems(s.index)| - 1
  {
    var t, a, b := Merge(g, s, k), s.index[g.edges[k].src], s.index[g.edges[k].dst];
    forall i ensures i in t.index <==> i in s.index && i != b {
      if i in t.index {
        var v :| 0 <= v < |t.index| && t.index[v] == i;
        assert s.index[v] in s.index && a in s.index;
      }
      if i in s.index && i != b {
        var v :| 0 <= v < |s.index| && s.index[v] == i;
        assert t.index[v] == i;
      }
    }
    assert Elems(t.index) == Elems(s.index) - {b};
  }

  lemma PutTogetherMerge(g: OpGraph, s: State, k: int)
    requires g.WellFormed() && s.WellFormed(g) && 0 <= k < |g.edges| && PutTogether(g, s)
    requires OutComplete(g, s) && OutSound(g, s) && !s.Same(g.edges[k].src, g.edges[k].dst)
    ensures Merge(g, s, k).WellFormed(g) && PutTogether(g, Merge(g, s, k))
  {
    var t := Merge(g, s, k);
    DroppedMerge(g, s, k);
    OutCompleteMerge(g, s, k);
    OneClusterLess(g, s, k);
    forall u, v | 0 <= u < g.n && 0 <= v < g.n
      ensures t.Same(u, v) <==> Reaches(Links(g, Dropped(g, t)), u, v)
    {
      hide Links, IsPath;
      if t.Same(u, v) {
        LinkedMerge(g, s, k, u, v);
      }
      if Reaches(Links(g, Dropped(g, t)), u, v) {
        var p :| PathFromTo(Links(g, Dropped(g, t)), u, v, p);
        LinkedSame(g, t, Dropped(g, t), p);
      }
    }
  }

  lemma PutTogetherAtStart(g: OpGraph)
    requires g.WellFormed() && Initial(g).WellFormed(g)
    ensures PutTogether(g, Initial(g))
  {
    var s := Initial(g);
    assert Dropped(g, s) == {};
    forall u, v | 0 <= u < g.n && 0 <= v < g.n ensures s.Same(u, v) <==> Reaches(Links(g, {}), u, v) {
      if s.Same(u, v) {
        ReachesSelf(Links(g, {}), u);
      }
      if Reaches(Links(g, {}), u, v) {
        var p :| PathFromTo(Links(g, {}), u, v, p);
        LinkedSame(g, s, {}, p);
      }
    }
    AllApart(g.n, s.index);
  }

  lemma {:induction false} AllApart(n: nat, index: seq<int>)
    requires |index| == n && forall v :: 0 <= v < n ==> index[v] == v
    ensures |Elems(index)| == n
  {
    if n > 0 {
      var rest := index[..n - 1];
      AllApart(n - 1, rest);
      assert index == rest + [n - 1];
      ElemsAppend(rest, n - 1);
      assert n - 1 !in rest;
    }
  }

  /** Everything a merge keeps, for the contraction graph E. */
  ghost predicate Invariants(g: OpGraph, s: State, E: Edges, shadowed: seq<int>, shadows: seq<int>)
    requires g.WellFormed() && s.WellFormed(g)
  {
    && Covers(g, s, E) && Shadowed(g, s, E, shadowed, shadows) && MarkedTogether(g, s) && DeadnessInvariant(g, s)
    && Within(OpEdges(g), |s.index|) && NothingElse(g, s, E, shadowed, shadows) && PutTogether(g, s)
  }

  lemma InvariantsMerge(g: OpGraph, s: State, E: Edges, shadowed: seq<int>, shadows: seq<int>, k: int)
    requires g.WellFormed() && s.WellFormed(g) && Invariants(g, s, E, shadowed, shadows)
    requires 0 <= k < |g.edges| && g.Contractible(k) && DeadnessVerdict(g, s, k).Fine?
    requires Acyclic(E) && (s.index[g.edges[k].src], s.index[g.edges[k].dst]) in E
    requires !s.Same(g.edges[k].src, g.edges[k].dst)
    ensures Merge(g, s, k).WellFormed(g)
    ensures Invariants(g, Merge(g, s, k), Contract(E, s.index[g.edges[k].src], s.index[g.edges[k].dst]), shadowed,
              shadows)
  {
    hide Covers, Shadowed, NothingElse, MarkedTogether, OutComplete, OutSound, OwnPredKept, TrueNodesFollow,
         PredHasOrigin, DeadnessVerdict, PutTogether;
    PutTogetherMerge(g, s, k);
    CoversMerge(g, s, E, k);
    ShadowedMerge(g, s, E, k, shadowed, shadows);
    NothingElseMerge(g, s, E, k, shadowed, shadows);
    MarkedTogetherMerge(g, s, k);
    DeadnessMerge(g, s, k);
  }

  /** Why edge `k` stays uncontracted in this state: its ends are merged already, deadness, or a second path. */
  ghost predicate Blocked(g: OpGraph, s: State, E: Edges, k: int)
    requires g.WellFormed() && s.WellFormed(g) && 0 <= k < |g.edges|
  {
    var a, b := s.index[g.edges[k].src], s.index[g.edges[k].dst];
    g.Contractible(k) && g.Checked(k) ==>
      a == b || DeadnessVerdict(g, s, k).Mismatch? || Reaches(E - {(a, b)}, a, b)
  }

  /** No edge can be contracted any more. */
  ghost predicate Maximal(g: OpGraph, s: State, E: Edges)
    requires g.WellFormed() && s.WellFormed(g)
  {
    forall k :: 0 <= k < |g.edges| ==> Blocked(g, s, E, k)
  }

  /** What a pass over the edges has established after its first `k` edges. */
  ghost predicate PassSoFar(g: OpGraph, start: State, s: State, E: Edges, k: int, changed: bool)
    requires g.WellFormed() && start.WellFormed(g) && s.WellFormed(g) && 0 <= k <= |g.edges|
  {
    && (NoStrictToTrue(g, start) ==> NoStrictToTrue(g, s))
    && (changed ==> Elems(s.index) < Elems(start.index))
    && (!changed ==> s == start)
    && (!changed ==> forall m :: 0 <= m < k ==> Blocked(g, s, E, m))
  }

  lemma PassMerges(g: OpGraph, start: State, s: State, E: Edges, E': Edges, k: int, changed: bool)
    requires g.WellFormed() && start.WellFormed(g) && s.WellFormed(g) && 0 <= k < |g.edges|
    requires PassSoFar(g, start, s, E, k, changed)
    requires OutComplete(g, s) && DeadnessVerdict(g, s, k).Fine?
    requires !s.Same(g.edges[k].src, g.edges[k].dst)
    ensures Merge(g, s, k).WellFormed(g) && PassSoFar(g, start, Merge(g, s, k), E', k + 1, true)
  {
    MergeShrinks(g, s, k);
    MergeWellFormed(g, s, k);
    if NoStrictToTrue(g, start) {
      NoStrictToTrueMerge(g, s, k);
    }
  }

  lemma PassSkips(g: OpGraph, start: State, s: State, E: Edges, k: int, changed: bool)
    requires g.WellFormed() && start.WellFormed(g) && s.WellFormed(g) && 0 <= k < |g.edges|
    requires PassSoFar(g, start, s, E, k, changed) && Blocked(g, s, E, k)
    ensures PassSoFar(g, start, s, E, k + 1, changed)
  {
  }

  /** So a state in which every edge is blocked cannot grow. */
  lemma MaximalCannotGrow(g: OpGraph, s: State, E: Edges, shadowed: seq<int>, shadows: seq<int>)
    requires g.WellFormed() && s.WellFormed(g) && Covers(g, s, E) && Acyclic(E) && Within(OpEdges(g), |s.index|)
    requires Shadowed(g, s, E, shadowed, shadows) && AllShadowed(g, shadowed) && NothingElse(g, s, E, shadowed, shadows)
    requires Maximal(g, s, E) && DeadnessInvariant(g, s)
    ensures CannotGrow(g, s)
  {
    hide DeadnessVerdict, DeadnessForbids, DeadnessInvariant, MergeFails, Shadowed, AllShadowed, NothingElse, Covers;
    forall k | 0 <= k < |g.edges| && g.edges[k].src in g.ops && g.edges[k].dst in g.ops
        && g.edges[k].src in g.marked && g.edges[k].dst in g.marked
        && g.edges[k].src !in g.nextIterations && g.edges[k].dst !in g.nextIterations
        && !s.Same(g.edges[k].src, g.edges[k].dst)
      ensures DeadnessForbids(g, s, k) || MergeFails(g, s, k)
    {
      assert Blocked(g, s, E, k) && g.Contractible(k) && g.Checked(k);
      VerdictExact(g, s, k);
      if !DeadnessForbids(g, s, k) {
        SecondPathFails(g, s, E, shadowed, shadows, k);
      }
    }
  }

  /** A merge removes the index of the second cluster. */
  lemma MergeShrinks(g: OpGraph, s: State, k: int)
    requires g.WellFormed() && s.WellFormed(g) && 0 <= k < |g.edges|
    requires !s.Same(g.edges[k].src, g.edges[k].dst)
    ensures Elems(Merge(g, s, k).index) < Elems(s.index)
    ensures s.index[g.edges[k].dst] !in Merge(g, s, k).index
  {
    var t := Merge(g, s, k);
    var b := s.index[g.edges[k].dst];
    forall i | i in t.index ensures i in s.index && i != b {
      var v :| 0 <= v < |t.index| && t.index[v] == i;
    }
    assert b in Elems(s.index) && b !in Elems(t.index);
  }

  /** The check made on every marked node after the contraction loop. */
  ghost predicate NodePassesCheck(g: OpGraph, s: State, v: int)
    requires g.WellFormed() && s.WellFormed(g) && 0 <= v < g.n
  {
    && g.pred[v] != CONTROL_FLOW_PRED
    && (g.pred[v] != TRUE_PRED ==> g.pred[v] == s.PredOf(v))
    && (g.pred[v] == TRUE_PRED && s.PredOf(v) != TRUE_PRED ==>
          forall m :: m in OutEdges(g, v) && !s.Same(g.edges[m].dst, v) ==> s.PredOf(g.edges[m].dst) == s.PredOf(v))
  }

  /** Under the invariant the check fails on control flow nodes only. */
  lemma CheckExact(g: OpGraph, s: State, v: int)
    requires g.WellFormed() && s.WellFormed(g) && DeadnessInvariant(g, s) && 0 <= v < g.n
    ensures NodePassesCheck(g, s, v) <==> g.pred[v] != CONTROL_FLOW_PRED
  {
  }

  /** Without marked control flow nodes, no contractible edge meets a control flow predicate. */
  lemma NoControlFlowMet(g: OpGraph, s: State, k: int)
    requires g.WellFormed() && s.WellFormed(g) && PredHasOrigin(g, s) && MarkedTogether(g, s)
    requires 0 <= k < |g.edges| && g.Contractible(k)
    requires forall v :: 0 <= v < g.n && v in g.marked ==> g.pred[v] != CONTROL_FLOW_PRED
    ensures !DeadnessVerdict(g, s, k).ControlFlowOps?
  {
    forall v | v in {g.edges[k].src, g.edges[k].dst}
      ensures s.PredOf(v) != CONTROL_FLOW_PRED
    {
      if s.PredOf(v) != TRUE_PRED {
        var u :| 0 <= u < g.n && s.Same(u, v) && g.pred[u] == s.PredOf(v);
      }
    }
  }

  // ---------- the start ----------

  /** A shadow path that closes a cycle at the start betrays a cycle of dependencies. */
  lemma ShadowRefused(g: OpGraph, E: Edges, shadowed: seq<int>, shadows: seq<int>, k: int)
    requires g.WellFormed() && Initial(g).WellFormed(g) && Within(OpEdges(g), |Initial(g).index|)
    requires Shadowed(g, Initial(g), E, shadowed, shadows) && NothingElse(g, Initial(g), E, shadowed, shadows)
    requires 0 <= k < |g.edges| && g.StaticDep(k) && Reaches(E, g.edges[k].dst, g.edges[k].src)
    ensures !Acyclic(Deps(g))
  {
    var s := Initial(g);
    var p :| PathFromTo(E, g.edges[k].dst, g.edges[k].src, p);
    assert s.index[g.edges[k].dst] in s.index && s.index[g.edges[k].src] in s.index;
    forall i | 0 <= i < |shadowed|
      ensures (s.index[g.edges[shadowed[i]].src], s.index[g.edges[shadowed[i]].dst]) in Deps(g)
    {
      DepPair(g, shadowed[i]);
    }
    DepPair(g, k);
    hide Shadowed, NothingElse, Deps, ClassEdges, Reaches;
    forall x, y | (x, y) in ClassEdges(OpEdges(g), s.index) ensures (x, y) in Deps(g) {
      var u, v := QuotientEdge(OpEdges(g), s.index, x, y);
    }
    LegPathMaps(g, s, E, E, Deps(g), shadowed, shadows, p);
  }

  /** If every shadow path went in, the dependencies have no cycle. */
  lemma DepsAcyclic(g: OpGraph, E: Edges, shadowed: seq<int>, shadows: seq<int>)
    requires g.WellFormed() && Initial(g).WellFormed(g) && Covers(g, Initial(g), E) && Acyclic(E) && OpEdges(g) <= E
    requires Shadowed(g, Initial(g), E, shadowed, shadows) && AllShadowed(g, shadowed)
    ensures Acyclic(Deps(g))
  {
    var s := Initial(g);
    ClusterGraphAcyclic(g, s, E, shadowed, shadows);
    forall e | e in Deps(g) ensures e in ClassEdges(Deps(g), s.index) {
      var k := DepEdge(g, e.0, e.1);
      if g.Checked(k) {
        CheckedPair(g, k);
        ReachesSelf(E, e.0);
      } else {
        var i :| 0 <= i < |shadowed| && shadowed[i] == k;
        ShadowSeparates(g, s, E, shadowed, shadows, i);
      }
      QuotientHas(Deps(g), s.index, e.0, e.1);
    }
    SubgraphAcyclic(Deps(g), ClassEdges(Deps(g), s.index));
  }

  lemma NothingElseAtStart(g: OpGraph)
    requires g.WellFormed() && Initial(g).WellFormed(g) && Acyclic(OpEdges(g)) && Within(OpEdges(g), |Initial(g).index|)
    ensures NothingElse(g, Initial(g), OpEdges(g), [], [])
  {
    forall x, y | (x, y) in OpEdges(g) ensures (x, y) in ClassEdges(OpEdges(g), Initial(g).index) {
      ReachesSelf(OpEdges(g), x);
      assert x != y;
      QuotientHas(OpEdges(g), Initial(g).index, x, y);
    }
  }

  lemma InitialInvariants(g: OpGraph)
    requires g.WellFormed()
    ensures Initial(g).WellFormed(g) && MarkedTogether(g, Initial(g))
    ensures Covers(g, Initial(g), OpEdges(g)) && Shadowed(g, Initial(g), OpEdges(g), [], [])
    ensures DeadnessInvariant(g, Initial(g)) && Within(OpEdges(g), |Initial(g).index|) && PutTogether(g, Initial(g))
    ensures Acyclic(OpEdges(g)) ==> NothingElse(g, Initial(g), OpEdges(g), [], [])
  {
    hide Acyclic, NothingElse, Within, DeadnessInvariant, Covers, Shadowed, MarkedTogether, Deps, OpEdges, PutTogether;
    DepsWithin(g);
    ApartAtStart(g);
    if Acyclic(OpEdges(g)) {
      NothingElseAtStart(g);
    }
    CoversAtStart(g);
    DeadnessAtStart(g);
    PutTogetherAtStart(g);
  }

  lemma ApartAtStart(g: OpGraph)
    requires g.WellFormed()
    ensures Initial(g).WellFormed(g) && |Initial(g).index| == g.n && MarkedTogether(g, Initial(g))
    ensures Shadowed(g, Initial(g), OpEdges(g), [], [])
  {
    hide OpEdges;
  }

  lemma CoversAtStart(g: OpGraph)
    requires g.WellFormed() && Initial(g).WellFormed(g)
    ensures Covers(g, Initial(g), OpEdges(g))
  {
    var s := Initial(g);
    forall k | 0 <= k < |g.edges| && g.Checked(k)
      ensures (s.index[g.edges[k].src], s.index[g.edges[k].dst]) in OpEdges(g)
    {
      CheckedPair(g, k);
    }
  }

  lemma DeadnessAtStart(g: OpGraph)
    requires g.WellFormed() && Initial(g).WellFormed(g)
    ensures DeadnessInvariant(g, Initial(g))
  {
    var s := Initial(g);
    forall v | 0 <= v < g.n && s.PredOf(v) != TRUE_PRED
      ensures exists u :: 0 <= u < g.n && s.Same(u, v) && g.pred[u] == s.PredOf(v)
    {
      assert s.Same(v, v);
    }
  }

  // ---------- tagging ----------

  ghost function Members(g: OpGraph, s: State, v: int): (r: set<int>)
    requires |s.index| == g.n && 0 <= v < g.n
    ensures forall u :: u in r <==> 0 <= u < g.n && s.Same(u, v)
  {
    set u | 0 <= u < g.n && s.index[u] == s.index[v]
  }

  /** The marked nodes of the clusters in `done` are tagged, cluster by cluster, from `first` up to `next`. */
  ghost predicate TagsSoFar(g: OpGraph, s: State, tags: map<int, int>, done: set<int>, first: int, next: int)
    requires |s.index| == g.n
  {
    && first <= next
    && (forall v :: v in tags <==> 0 <= v < g.n && v in g.marked && s.index[v] in done)
    && (forall v :: v in tags ==> first <= tags[v] < next)
    && (forall t :: first <= t < next ==> t in tags.Values)
    && (forall u, v :: u in tags && v in tags ==> (tags[u] == tags[v] <==> s.Same(u, v)))
  }

  /** A cluster without marked nodes adds no tag. */
  lemma TagsSkip(g: OpGraph, s: State, tags: map<int, int>, done: set<int>, first: int, next: int, v: int)
    requires |s.index| == g.n && 0 <= v < g.n && TagsSoFar(g, s, tags, done, first, next)
    requires forall u :: u in Members(g, s, v) ==> u !in g.marked
    ensures TagsSoFar(g, s, tags, done + {s.index[v]}, first, next)
  {
    forall u | 0 <= u < g.n && s.Same(u, v) ensures u !in g.marked {
      assert u in Members(g, s, v);
    }
  }

  /** A new cluster of marked nodes gets the next tag. */
  lemma TagsAdd(g: OpGraph, s: State, tags: map<int, int>, tags': map<int, int>, done: set<int>, first: int, next: int,
                v: int)
    requires |s.index| == g.n && 0 <= v < g.n && TagsSoFar(g, s, tags, done, first, next)
    requires s.index[v] !in done
    requires forall u :: u in Members(g, s, v) ==> u in g.marked
    requires forall u :: u in tags' <==> u in tags || u in Members(g, s, v)
    requires forall u :: u in tags' ==> tags'[u] == if u in Members(g, s, v) then next else tags[u]
    ensures TagsSoFar(g, s, tags', done + {s.index[v]}, first, next + 1)
  {
    forall t | first <= t < next + 1 ensures t in tags'.Values {
      if t == next {
        assert v in tags' && tags'[v] == t;
      } else {
        var u := KeyOf(tags, t);
        assert u !in Members(g, s, v);
        assert u in tags' && tags'[u] == t;
      }
    }
  }

  /** A cluster with a marked node has only marked nodes. */
  lemma ClusterIsPure(g: OpGraph, s: State, u: int, v: int)
    requires g.WellFormed() && s.WellFormed(g) && MarkedTogether(g, s)
    requires 0 <= u < g.n && 0 <= v < g.n && s.Same(u, v)
    ensures u in g.marked <==> v in g.marked
  {
  }

  // ---------- the outcome ----------

  /** Every marked node has exactly one cluster, no other node has any. */
  ghost predicate MarkedAreTagged(g: OpGraph, tags: map<int, int>) {
    forall v :: v in tags <==> 0 <= v < g.n && v in g.marked
  }

  /** Whatever lies between two nodes of a cluster belongs to it. */
  ghost predicate NothingReenters(g: OpGraph, tags: map<int, int>) {
    forall u, w, v ::
      (u in tags && v in tags && tags[u] == tags[v] && Reaches(OpEdges(g), u, w) && Reaches(OpEdges(g), w, v))
      ==> w in tags && tags[w] == tags[u]
  }

  /** A static input never comes from inside the cluster, unless it is a constant. */
  ghost predicate StaticsApart(g: OpGraph, tags: map<int, int>)
    requires g.WellFormed()
  {
    forall i :: 0 <= i < |g.statics| && g.edges[g.statics[i]].src !in g.consts ==>
      var u, v := g.edges[g.statics[i]].src, g.edges[g.statics[i]].dst;
      u in tags && v in tags ==> tags[u] != tags[v]
  }

  /** Nodes with different predicates of their own are kept apart. */
  ghost predicate PredsApart(g: OpGraph, tags: map<int, int>)
    requires g.WellFormed() && MarkedAreTagged(g, tags)
  {
    forall u, v ::
      (u in tags && v in tags && tags[u] == tags[v] && g.pred[u] != TRUE_PRED && g.pred[v] != TRUE_PRED)
      ==> g.pred[u] == g.pred[v]
  }

  /** Node x belongs to the cluster of w, or is w. */
  ghost predicate Joins(tags: map<int, int>, x: int, w: int) {
    x == w || (x in tags && w in tags && tags[x] == tags[w])
  }

  /** An edge that leaves a cluster from a True node leads to a cluster as strict as any node of its own. */
  ghost predicate TrueNodesLeadOn(g: OpGraph, tags: map<int, int>)
    requires g.WellFormed() && MarkedAreTagged(g, tags)
  {
    forall m, v ::
      (0 <= m < |g.edges| && v in tags && g.edges[m].src in tags && tags[v] == tags[g.edges[m].src]
       && g.pred[g.edges[m].src] == TRUE_PRED && g.pred[v] != TRUE_PRED && !Joins(tags, v, g.edges[m].dst))
      ==> exists x :: 0 <= x < g.n && Joins(tags, x, g.edges[m].dst) && g.pred[x] == g.pred[v]
  }

  /** A clustering that meets the constraints of the pass. */
  ghost predicate ValidClustering(g: OpGraph, tags: map<int, int>)
    requires g.WellFormed()
  {
    MarkedAreTagged(g, tags) && NothingReenters(g, tags) && StaticsApart(g, tags) && PredsApart(g, tags)
        && TrueNodesLeadOn(g, tags)
  }

  ghost predicate AllShadowed(g: OpGraph, shadowed: seq<int>)
    requires g.WellFormed()
  {
    forall i :: 0 <= i < |g.statics| && g.edges[g.statics[i]].src !in g.consts ==> g.statics[i] in shadowed
  }

  lemma AllMarkedTagged(g: OpGraph, s: State, tags: map<int, int>, first: int, next: int)
    requires g.WellFormed() && s.WellFormed(g) && TagsSoFar(g, s, tags, Elems(s.index), first, next)
    ensures MarkedAreTagged(g, tags)
  {
    forall v ensures v in tags <==> 0 <= v < g.n && v in g.marked {
      assert 0 <= v < g.n ==> s.index[v] in Elems(s.index);
    }
  }

  lemma TagsTogether(g: OpGraph, s: State, tags: map<int, int>, first: int, next: int)
    requires |s.index| == g.n && TagsSoFar(g, s, tags, Elems(s.index), first, next)
    ensures forall v :: v in tags ==> 0 <= v < g.n
    ensures forall u, v :: u in tags && v in tags ==> (tags[u] == tags[v] <==> s.Same(u, v))
  {
  }

  lemma TagsDoNotReenter(g: OpGraph, s: State, E: Edges, tags: map<int, int>, first: int, next: int)
    requires g.WellFormed() && s.WellFormed(g) && Acyclic(E) && Covers(g, s, E) && MarkedTogether(g, s)
    requires TagsSoFar(g, s, tags, Elems(s.index), first, next) && MarkedAreTagged(g, tags)
    ensures NothingReenters(g, tags)
  {
    hide Acyclic, Covers, Reaches, OpEdges, MarkedTogether, TagsSoFar;
    TagsTogether(g, s, tags, first, next);
    forall u, w, v | u in tags && v in tags && tags[u] == tags[v]
        && Reaches(OpEdges(g), u, w) && Reaches(OpEdges(g), w, v)
      ensures w in tags && tags[w] == tags[u]
    {
      NoReentry(g, s, E, u, w, v);
      ClusterIsPure(g, s, u, w);
    }
  }

  lemma TagsKeepStaticsApart(g: OpGraph, s: State, E: Edges, shadowed: seq<int>, shadows: seq<int>, tags: map<int, int>,
                             first: int, next: int)
    requires g.WellFormed() && s.WellFormed(g) && Acyclic(E)
    requires Shadowed(g, s, E, shadowed, shadows) && AllShadowed(g, shadowed)
    requires TagsSoFar(g, s, tags, Elems(s.index), first, next)
    ensures StaticsApart(g, tags)
  {
    forall i | 0 <= i < |g.statics| && g.edges[g.statics[i]].src !in g.consts
      ensures var u, v := g.edges[g.statics[i]].src, g.edges[g.statics[i]].dst;
              u in tags && v in tags ==> tags[u] != tags[v]
    {
      var j :| 0 <= j < |shadowed| && shadowed[j] == g.statics[i];
      ShadowSeparates(g, s, E, shadowed, shadows, j);
    }
  }

  lemma TagsKeepPredsApart(g: OpGraph, s: State, tags: map<int, int>, first: int, next: int)
    requires g.WellFormed() && s.WellFormed(g) && OwnPredKept(g, s)
    requires TagsSoFar(g, s, tags, Elems(s.index), first, next) && MarkedAreTagged(g, tags)
    ensures PredsApart(g, tags)
  {
    forall u, v | u in tags && v in tags && tags[u] == tags[v] && g.pred[u] != TRUE_PRED && g.pred[v] != TRUE_PRED
      ensures g.pred[u] == g.pred[v]
    {
      assert s.PredOf(u) == g.pred[u] && s.PredOf(v) == g.pred[v];
    }
  }

  lemma TagsMatch(g: OpGraph, s: State, tags: map<int, int>, first: int, next: int)
    requires |s.index| == g.n && TagsSoFar(g, s, tags, Elems(s.index), first, next)
    ensures forall u, v :: u in tags && v in tags ==>
              0 <= u < g.n && 0 <= v < g.n && (tags[u] == tags[v] <==> s.Same(u, v))
  {
  }

  lemma TagsLeadOn(g: OpGraph, s: State, tags: map<int, int>, first: int, next: int)
    requires g.WellFormed() && s.WellFormed(g) && DeadnessInvariant(g, s) && MarkedTogether(g, s)
    requires TagsSoFar(g, s, tags, Elems(s.index), first, next) && MarkedAreTagged(g, tags)
    ensures TrueNodesLeadOn(g, tags)
  {
    hide OutComplete, OwnPredKept, TrueNodesFollow, PredHasOrigin;
    forall m, v | 0 <= m < |g.edges| && v in tags && g.edges[m].src in tags && tags[v] == tags[g.edges[m].src]
        && g.pred[g.edges[m].src] == TRUE_PRED && g.pred[v] != TRUE_PRED && !Joins(tags, v, g.edges[m].dst)
      ensures exists x :: 0 <= x < g.n && Joins(tags, x, g.edges[m].dst) && g.pred[x] == g.pred[v]
    {
      var w := g.edges[m].dst;
      assert !s.Same(v, w);
      var x := StrictAhead(g, s, m, v);
      assert Joins(tags, x, w);
    }
  }

  lemma OwnPred(g: OpGraph, s: State, v: int)
    requires g.WellFormed() && s.WellFormed(g) && OwnPredKept(g, s) && 0 <= v < g.n && g.pred[v] != TRUE_PRED
    ensures s.PredOf(v) == g.pred[v]
  {
  }

  /** An edge from a True node to another cluster leads to the predicate of its own cluster, if that is strict. */
  lemma FollowsStrict(g: OpGraph, s: State, m: int)
    requires g.WellFormed() && s.WellFormed(g) && TrueNodesFollow(g, s) && 0 <= m < |g.edges|
    requires g.pred[g.edges[m].src] == TRUE_PRED && s.PredOf(g.edges[m].src) != TRUE_PRED
    requires !s.Same(g.edges[m].src, g.edges[m].dst)
    ensures s.PredOf(g.edges[m].dst) == s.PredOf(g.edges[m].src)
  {
  }

  /** Beyond an edge from a True node to another cluster there is a node as strict as any of its own cluster. */
  lemma StrictAhead(g: OpGraph, s: State, m: int, v: int) returns (x: int)
    requires g.WellFormed() && s.WellFormed(g) && OwnPredKept(g, s) && TrueNodesFollow(g, s) && PredHasOrigin(g, s)
    requires 0 <= m < |g.edges| && 0 <= v < g.n && s.Same(g.edges[m].src, v) && !s.Same(v, g.edges[m].dst)
    requires g.pred[g.edges[m].src] == TRUE_PRED && g.pred[v] != TRUE_PRED
    ensures 0 <= x < g.n && s.Same(x, g.edges[m].dst) && g.pred[x] == g.pred[v]
  {
    hide OwnPredKept, TrueNodesFollow;
    var w := g.edges[m].dst;
    OwnPred(g, s, v);
    FollowsStrict(g, s, m);
    x :| 0 <= x < g.n && s.Same(x, w) && g.pred[x] == s.PredOf(w);
  }

  /** The tags of a finished run form a valid clustering. */
  lemma TagsAreValid(g: OpGraph, s: State, E: Edges, shadowed: seq<int>, shadows: seq<int>, tags: map<int, int>,
                     first: int, next: int)
    requires g.WellFormed() && s.WellFormed(g) && Acyclic(E)
    requires Invariants(g, s, E, shadowed, shadows) && AllShadowed(g, shadowed)
    requires TagsSoFar(g, s, tags, Elems(s.index), first, next)
    ensures ValidClustering(g, tags)
  {
    AllMarkedTagged(g, s, tags, first, next);
    TagsDoNotReenter(g, s, E, tags, first, next);
    TagsKeepStaticsApart(g, s, E, shadowed, shadows, tags, first, next);
    TagsKeepPredsApart(g, s, tags, first, next);
    TagsLeadOn(g, s, tags, first, next);
  }

  /**
   What a successful run achieves: the tags meet every constraint and follow the final clusters, the
   graph of dependencies between the clusters is acyclic, and no further contraction is possible.
   */
  ghost predicate Outcome(g: OpGraph, tags: map<int, int>, s: State)
    requires g.WellFormed()
  {
    && s.WellFormed(g)
    && ValidClustering(g, tags)
    && MarkedTogether(g, s)
    && (forall u, v :: u in tags && v in tags ==> (tags[u] == tags[v] <==> s.Same(u, v)))
    && OutComplete(g, s) && OutSound(g, s) && PutTogether(g, s)
    && Within(Deps(g), |s.index|) && Acyclic(ClassEdges(Deps(g), s.index))
    && CannotGrow(g, s)
  }

  /** No marked node is a control flow operation. */
  ghost predicate NoControlFlow(g: OpGraph)
    requires g.WellFormed()
  {
    forall v :: 0 <= v < g.n && v in g.marked ==> g.pred[v] != CONTROL_FLOW_PRED
  }

  /**
   What the pass takes for granted: no marked node is a control flow operation, and no edge between
   marked operations leads from a stricter predicate to True.
   */
  ghost predicate Unsurprising(g: OpGraph)
    requires g.WellFormed()
  {
    && NoControlFlow(g)
    && (forall k ::
          0 <= k < |g.edges| && g.edges[k].src in g.ops && g.edges[k].dst in g.ops && g.edges[k].src in g.marked
          && g.edges[k].dst in g.marked && g.pred[g.edges[k].dst] == TRUE_PRED ==>
            g.pred[g.edges[k].src] == TRUE_PRED)
  }

  lemma UnsurprisingStart(g: OpGraph)
    requires g.WellFormed() && Initial(g).WellFormed(g) && Unsurprising(g)
    ensures NoStrictToTrue(g, Initial(g))
  {
  }
}
