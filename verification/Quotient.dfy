/** The graph between classes of nodes, and dissolving some classes back to single nodes. */
module Quotient {
  import opened Digraph

  ghost predicate Within(E: Edges, n: nat) {
    forall e :: e in E ==> 0 <= e.0 < n && 0 <= e.1 < n
  }

  /** The edges between classes; `c` gives every node its class. */
  ghost function ClassEdges(E: Edges, c: seq<int>): Edges
    requires Within(E, |c|)
  {
    set e | e in E && c[e.0] != c[e.1] :: (c[e.0], c[e.1])
  }

  lemma QuotientHas(E: Edges, c: seq<int>, x: int, y: int)
    requires Within(E, |c|) && (x, y) in E && c[x] != c[y]
    ensures (c[x], c[y]) in ClassEdges(E, c)
  {
    var e := (x, y);
    assert e in E && c[e.0] != c[e.1];
  }

  lemma QuotientEdge(E: Edges, c: seq<int>, a: int, b: int) returns (x: int, y: int)
    requires Within(E, |c|) && (a, b) in ClassEdges(E, c)
    ensures (x, y) in E && c[x] == a && c[y] == b && a != b
  {
    var e :| e in E && c[e.0] != c[e.1] && (c[e.0], c[e.1]) == (a, b);
    x, y := e.0, e.1;
    assert e == (x, y);
  }

  lemma SubgraphAcyclic(E: Edges, F: Edges)
    requires Acyclic(F) && E <= F
    ensures Acyclic(E)
  {
    forall x, y | (x, y) in E
      ensures !Reaches(E, y, x)
    {
      NoReachBack(F, E, x, y);
    }
  }

  /** Two nodes that reach each other in an acyclic graph are one. */
  lemma MutualReachIsEqual(E: Edges, x: int, y: int)
    requires Acyclic(E) && Reaches(E, x, y) && Reaches(E, y, x)
    ensures x == y
  {
    if x != y {
      var w := FirstEdge(E, x, y);
      ReachesTransitive(E, w, y, x);
    }
  }

  /**
   `d` dissolves the classes of `c` that are not kept: two nodes share a class of `d` when they are
   one node, or share a class of `c` that is kept.
   */
  ghost predicate Dissolves(c: seq<int>, d: seq<int>, kept: set<int>) {
    && |d| == |c|
    && forall u, v :: 0 <= u < |c| && 0 <= v < |c| ==>
         (d[u] == d[v] <==> u == v || (c[u] == c[v] && c[u] in kept))
  }

  /** A path between the finer classes is one between the coarser classes. */
  lemma {:induction false} FinePathIsCoarse(E: Edges, c: seq<int>, d: seq<int>, kept: set<int>, p: seq<int>, u: int,
                                            v: int)
    requires Within(E, |c|) && Dissolves(c, d, kept)
    requires 0 <= u < |c| && 0 <= v < |c|
    requires PathFromTo(ClassEdges(E, d), d[u], d[v], p)
    ensures Reaches(ClassEdges(E, c), c[u], c[v])
    decreases |p|
  {
    if |p| == 1 {
      ReachesSelf(ClassEdges(E, c), c[u]);
    } else {
      var a, b := PathHead(ClassEdges(E, d), p);
      var x, y := QuotientEdge(E, d, a, b);
      FinePathIsCoarse(E, c, d, kept, p[1..], y, v);
      if c[x] != c[y] {
        QuotientHas(E, c, x, y);
        StepReaches(ClassEdges(E, c), c[x], c[y], c[v]);
      }
    }
  }

  /** Inside a dissolved class, a path between classes is a path between nodes. */
  lemma {:induction false} FinePathInsideIsEdgePath(E: Edges, c: seq<int>, d: seq<int>, kept: set<int>, p: seq<int>,
        u: int, v: int)
    requires Within(E, |c|) && Dissolves(c, d, kept) && Acyclic(ClassEdges(E, c))
    requires 0 <= u < |c| && 0 <= v < |c| && c[u] == c[v] && c[u] !in kept
    requires PathFromTo(ClassEdges(E, d), d[u], d[v], p)
    ensures Reaches(E, u, v)
    decreases |p|
  {
    if |p| == 1 {
      ReachesSelf(E, u);
    } else {
      var a, b := PathHead(ClassEdges(E, d), p);
      var x, y := QuotientEdge(E, d, a, b);
      assert x == u;
      FinePathIsCoarse(E, c, d, kept, p[1..], y, v);
      if c[u] != c[y] {
        QuotientHas(E, c, u, y);
      }
      FinePathInsideIsEdgePath(E, c, d, kept, p[1..], y, v);
      StepReaches(E, u, y, v);
    }
  }

  /** Dissolving any set of classes of an acyclic quotient leaves an acyclic quotient. */
  lemma DissolveAcyclic(E: Edges, c: seq<int>, d: seq<int>, kept: set<int>)
    requires Within(E, |c|) && Dissolves(c, d, kept)
    requires Acyclic(E) && Acyclic(ClassEdges(E, c))
    ensures Acyclic(ClassEdges(E, d))
  {
    forall a, b | (a, b) in ClassEdges(E, d)
      ensures !Reaches(ClassEdges(E, d), b, a)
    {
      if Reaches(ClassEdges(E, d), b, a) {
        var x, y := QuotientEdge(E, d, a, b);
        var p :| PathFromTo(ClassEdges(E, d), b, a, p);
        FinePathIsCoarse(E, c, d, kept, p, y, x);
        if c[x] != c[y] {
          QuotientHas(E, c, x, y);
        } else {
          FinePathInsideIsEdgePath(E, c, d, kept, p, y, x);
        }
      }
    }
  }
}
