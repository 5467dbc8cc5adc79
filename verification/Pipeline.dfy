/** From the clusters to the encapsulated graph: nothing along the way closes a cycle or changes a value. */
module Pipeline {
  import opened Digraph
  import opened Quotient
  import C = Clustering
  import A = AssignClusters
  import D = DeassignClusters
  import opened Encapsulation
  import opened EncapsulateClusters

  /** The clusters with a tag in `kept` are left, under that tag, and no others. */
  ghost predicate Keeps(tags: map<int, int>, kept: set<int>, cluster: map<int, int>) {
    && (forall v :: v in cluster <==> v in tags && tags[v] in kept)
    && (forall v :: v in cluster ==> cluster[v] == tags[v])
  }

  /** Neither source nor sink, and no NextIteration. */
  predicate Inner(g: C.OpGraph, v: int) {
    0 <= v < g.n && v in g.ops && v !in g.nextIterations
  }

  function Outside(g: C.OpGraph): set<int> {
    set v | 0 <= v < g.n && !Inner(g, v)
  }

  /**
   The graph of nodes and ports is the one that was clustered: the same nodes, and no edge between inner
   nodes that the clustering did not check. Edges at source, sink and NextIteration nodes are free.
   */
  ghost predicate SameGraph(g: C.OpGraph, eg: Graph) {
    && (forall v :: v in eg.nodes <==> 0 <= v < g.n)
    && (forall e :: e in eg.edges ==> e.src in eg.nodes && e.dst in eg.nodes)
    && (forall e :: e in eg.edges && Inner(g, e.src) && Inner(g, e.dst) ==> (e.src, e.dst) in C.OpEdges(g))
  }

  /** Only inner nodes are marked. */
  predicate MarkedInner(g: C.OpGraph) {
    forall v :: v in g.marked && 0 <= v < g.n ==> Inner(g, v)
  }

  /** The graph without the edges at the given nodes. */
  ghost function Without(h: Graph, nodes: set<int>): (r: Graph)
    ensures forall e :: e in r.edges <==> e in h.edges && e.src !in nodes && e.dst !in nodes
  {
    Graph(h.nodes, set e | e in h.edges && e.src !in nodes && e.dst !in nodes)
  }

  /** What every node becomes. */
  ghost function Labels(n: nat, cluster: map<int, int>, call: map<int, int>): (r: seq<int>)
    requires forall v :: v in cluster ==> cluster[v] in call
    ensures |r| == n && forall v :: 0 <= v < n ==> r[v] == Label(cluster, call, v)
  {
    seq(n, v requires 0 <= v < n => Label(cluster, call, v))
  }

  /** The classes of the nodes whose tag is in `kept`. */
  ghost function KeptClasses(s: C.State, tags: map<int, int>, kept: set<int>): set<int> {
    set v | v in tags && tags[v] in kept && 0 <= v < |s.index| :: s.index[v]
  }

  // ---------- acyclic graphs ----------

  /** The labels dissolve exactly the clusters that are not kept. */
  lemma LabelsDissolve(g: C.OpGraph, s: C.State, tags: map<int, int>, kept: set<int>, cluster: map<int, int>, eg: Graph,
                       call: map<int, int>)
    requires g.WellFormed() && C.Outcome(g, tags, s) && SameGraph(g, eg) && Keeps(tags, kept, cluster)
    requires ClustersFit(eg, cluster) && CallNodesFit(eg, cluster, call)
    ensures Dissolves(s.index, Labels(g.n, cluster, call),
              set v | v in tags && tags[v] in kept && 0 <= v < |s.index| :: s.index[v])
  {
    var c, d, K := s.index, Labels(g.n, cluster, call), KeptClasses(s, tags, kept);
    hide C.ValidClustering, C.CannotGrow, CallNodesFit, C.Deps, C.OpEdges;
    TagsAreMarks(g, tags);
    forall u, v | 0 <= u < |c| && 0 <= v < |c|
      ensures d[u] == d[v] <==> u == v || (c[u] == c[v] && c[u] in K)
    {
      LabelsDiffer(eg, cluster, call, u, v);
      KeptClass(g, s, tags, cluster, kept, u);
      if u != v {
        SameClass(g, s, tags, cluster, kept, u, v);
      }
    }
  }

  lemma TagsAreMarks(g: C.OpGraph, tags: map<int, int>)
    requires g.WellFormed() && C.ValidClustering(g, tags)
    ensures C.MarkedAreTagged(g, tags)
  {
  }

  /** A class is kept exactly if its nodes keep their cluster. */
  lemma KeptClass(g: C.OpGraph, s: C.State, tags: map<int, int>, cluster: map<int, int>, kept: set<int>, u: int)
    requires g.WellFormed() && s.WellFormed(g) && C.MarkedTogether(g, s) && C.MarkedAreTagged(g, tags) && 0 <= u < g.n
    requires forall v, w :: v in tags && w in tags ==> (tags[v] == tags[w] <==> s.Same(v, w))
    requires Keeps(tags, kept, cluster)
    ensures s.index[u] in KeptClasses(s, tags, kept) <==> u in cluster
  {
    if s.index[u] in KeptClasses(s, tags, kept) {
      var v :| v in tags && tags[v] in kept && 0 <= v < |s.index| && s.index[v] == s.index[u];
      assert s.Same(u, v);
      if u != v {
        assert u in g.marked && u in tags;
      }
    }
  }

  lemma SameClass(g: C.OpGraph, s: C.State, tags: map<int, int>, cluster: map<int, int>, kept: set<int>, u: int, v: int)
    requires g.WellFormed() && C.Outcome(g, tags, s) && C.MarkedAreTagged(g, tags)
    requires 0 <= u < g.n && 0 <= v < g.n && Keeps(tags, kept, cluster) && u != v
    ensures (u in cluster && v in cluster && cluster[u] == cluster[v]) <==> (s.index[u] == s.index[v] && u in cluster)
  {
    hide C.ValidClustering, C.CannotGrow, C.Deps;
    if s.index[u] == s.index[v] && u in cluster {
      assert s.Same(u, v);
      assert v in g.marked && v in tags;
    }
    if u in cluster && v in cluster && cluster[u] == cluster[v] {
      assert s.Same(u, v);
    }
  }

  lemma OutcomeAcyclic(g: C.OpGraph, tags: map<int, int>, s: C.State)
    requires g.WellFormed() && C.Outcome(g, tags, s)
    ensures Within(C.Deps(g), |s.index|) && Acyclic(ClassEdges(C.Deps(g), s.index)) && |s.index| == g.n
  {
    hide C.Deps, C.ValidClustering, C.CannotGrow;
  }

  lemma OutcomeValid(g: C.OpGraph, tags: map<int, int>, s: C.State)
    requires g.WellFormed() && C.Outcome(g, tags, s)
    ensures C.ValidClustering(g, tags)
  {
    hide C.Deps, C.ValidClustering, C.CannotGrow;
  }

  lemma CallsFit(eg: Graph, cluster: map<int, int>, arity: int -> nat, t: Tables, bodies: map<int, Body>,
                 call: map<int, int>, h: Graph)
    requires Encapsulated(eg, cluster, arity, t, bodies, call, h)
    ensures CallNodesFit(eg, cluster, call) && ClustersFit(eg, cluster)
  {
  }

  /** An end of an old edge whose representative is no outside node is an inner node. */
  lemma RepresentsInner(g: C.OpGraph, eg: Graph, tags: map<int, int>, cluster: map<int, int>, call: map<int, int>,
                        v: int)
    requires g.WellFormed() && C.MarkedAreTagged(g, tags) && MarkedInner(g) && SameGraph(g, eg) && v in eg.nodes
    requires (forall u :: u in cluster ==> u in tags && cluster[u] in call) && Label(cluster, call, v) !in Outside(g)
    ensures Inner(g, v)
  {
  }

  /** An edge of the encapsulated graph between inner nodes and call nodes joins two classes of dependent nodes. */
  lemma InnerEdge(g: C.OpGraph, eg: Graph, tags: map<int, int>, cluster: map<int, int>, arity: int -> nat, t: Tables,
                  bodies: map<int, Body>, call: map<int, int>, h: Graph, f: Edge)
    requires g.WellFormed() && C.MarkedAreTagged(g, tags) && MarkedInner(g) && SameGraph(g, eg)
    requires Acyclic(C.Deps(g)) && Within(C.Deps(g), g.n)
    requires Encapsulated(eg, cluster, arity, t, bodies, call, h) && (forall u :: u in cluster ==> u in tags)
    requires forall u :: u in cluster ==> cluster[u] in call
    requires f in h.edges && f.src !in Outside(g) && f.dst !in Outside(g)
    ensures (f.src, f.dst) in ClassEdges(C.Deps(g), Labels(g.n, cluster, call))
  {
    hide Encapsulated, C.OpEdges, C.Deps, ClassEdges, Inner, Outside, Acyclic;
    CallsFit(eg, cluster, arity, t, bodies, call, h);
    var e := EdgeStandsFor(eg, cluster, arity, t, bodies, call, h, f);
    RepresentsInner(g, eg, tags, cluster, call, e.src);
    RepresentsInner(g, eg, tags, cluster, call, e.dst);
    NoLoop(C.Deps(g), e.src, e.dst);
    QuotientHas(C.Deps(g), Labels(g.n, cluster, call), e.src, e.dst);
  }

  lemma NoLoop(E: Edges, x: int, y: int)
    requires Acyclic(E) && (x, y) in E
    ensures x != y
  {
    ReachesSelf(E, x);
  }

  /**
   Where no dependency was circular before the clustering, no edge between inner nodes and call nodes is part of
   a cycle after any clusters are dissolved and the rest encapsulated.
   */
  lemma EncapsulatedAcyclic(g: C.OpGraph, s: C.State, tags: map<int, int>, kept: set<int>, cluster: map<int, int>,
                            eg: Graph, arity: int -> nat, t: Tables, bodies: map<int, Body>, call: map<int, int>,
                            h: Graph)
    requires g.WellFormed() && MarkedInner(g) && Acyclic(C.Deps(g)) && C.Outcome(g, tags, s) && SameGraph(g, eg)
    requires Keeps(tags, kept, cluster) && Encapsulated(eg, cluster, arity, t, bodies, call, h)
    ensures Acyclic(Pairs(Without(h, Outside(g))))
  {
    CallsFit(eg, cluster, arity, t, bodies, call, h);
    LabelsDissolve(g, s, tags, kept, cluster, eg, call);
    OutcomeAcyclic(g, tags, s);
    assert C.MarkedAreTagged(g, tags);
    hide Encapsulated, C.OpEdges, C.Deps, C.Outcome, Dissolves, Labels, Acyclic, ClassEdges, Within, SameGraph,
        CallNodesFit;
    var d, inside := Labels(g.n, cluster, call), Without(h, Outside(g));
    DissolveAcyclic(C.Deps(g), s.index, d, KeptClasses(s, tags, kept));
    forall q | q in Pairs(inside) ensures q in ClassEdges(C.Deps(g), d) {
      var f :| f in inside.edges && q == (f.src, f.dst);
      InnerEdge(g, eg, tags, cluster, arity, t, bodies, call, h, f);
    }
    SubgraphAcyclic(Pairs(inside), ClassEdges(C.Deps(g), d));
  }

  /** Source and sink: the nodes that are no operations. No edge leads to them, or none leads away. */
  ghost predicate EndsAreEnds(g: C.OpGraph, eg: Graph) {
    forall v :: v in Outside(g) && v !in g.nextIterations ==> AtEnd(Pairs(eg), v)
  }

  lemma PairOf(h: Graph, x: int, y: int) returns (f: Edge)
    requires (x, y) in Pairs(h)
    ensures f in h.edges && f.src == x && f.dst == y
  {
    f :| f in h.edges && (x, y) == (f.src, f.dst);
  }

  /** The pair of old nodes that two joined nodes of the new graph stand for. */
  lemma PairStandsFor(eg: Graph, cluster: map<int, int>, arity: int -> nat, t: Tables, bodies: map<int, Body>,
                      call: map<int, int>, h: Graph, x: int, y: int)
    returns (u: int, w: int)
    requires Encapsulated(eg, cluster, arity, t, bodies, call, h) && (x, y) in Pairs(h)
    ensures (u, w) in Pairs(eg) && (x in eg.nodes ==> u == x) && (y in eg.nodes ==> w == y)
  {
    hide Encapsulated;
    CallsFit(eg, cluster, arity, t, bodies, call, h);
    var f := PairOf(h, x, y);
    var e := EdgeStandsFor(eg, cluster, arity, t, bodies, call, h, f);
    u, w := e.src, e.dst;
  }

  /** A node of both graphs has edges in the new graph only where it had some in the old one. */
  lemma EndStays(eg: Graph, cluster: map<int, int>, arity: int -> nat, t: Tables, bodies: map<int, Body>,
                 call: map<int, int>, h: Graph, v: int)
    requires Encapsulated(eg, cluster, arity, t, bodies, call, h) && v in eg.nodes && AtEnd(Pairs(eg), v)
    ensures AtEnd(Pairs(h), v)
  {
    hide Encapsulated;
    if forall x :: (x, v) !in Pairs(eg) {
      forall x ensures (x, v) !in Pairs(h) {
        if (x, v) in Pairs(h) {
          var u, w := PairStandsFor(eg, cluster, arity, t, bodies, call, h, x, v);
        }
      }
    } else {
      forall y ensures (v, y) !in Pairs(h) {
        if (v, y) in Pairs(h) {
          var u, w := PairStandsFor(eg, cluster, arity, t, bodies, call, h, v, y);
        }
      }
    }
  }

  /** So if no edge leads to the source and none away from the sink, every cycle meets a NextIteration. */
  lemma CyclesIterate(g: C.OpGraph, s: C.State, tags: map<int, int>, kept: set<int>, cluster: map<int, int>,
                      eg: Graph, arity: int -> nat, t: Tables, bodies: map<int, Body>, call: map<int, int>, h: Graph)
    requires g.WellFormed() && MarkedInner(g) && Acyclic(C.Deps(g)) && C.Outcome(g, tags, s) && SameGraph(g, eg)
    requires Keeps(tags, kept, cluster) && Encapsulated(eg, cluster, arity, t, bodies, call, h) && EndsAreEnds(g, eg)
    ensures Acyclic(Pairs(Without(h, g.nextIterations)))
  {
    hide Encapsulated, C.OpEdges, C.Deps, C.Outcome, Acyclic, AtEnd;
    EncapsulatedAcyclic(g, s, tags, kept, cluster, eg, arity, t, bodies, call, h);
    var rest, ends := Pairs(Without(h, g.nextIterations)), Outside(g) - g.nextIterations;
    forall v | v in ends ensures AtEnd(rest, v) {
      EndStays(eg, cluster, arity, t, bodies, call, h, v);
      FewerEdges(h, g.nextIterations, v);
    }
    forall q | q in Avoiding(rest, ends) ensures q in Pairs(Without(h, Outside(g))) {
      assert q == (q.0, q.1);
      PairWithout(h, g.nextIterations, q.0, q.1);
      PairWithout(h, Outside(g), q.0, q.1);
    }
    SubgraphAcyclic(Avoiding(rest, ends), Pairs(Without(h, Outside(g))));
    EndsAreOnNoCycle(rest, ends);
  }

  lemma PairWithout(h: Graph, nodes: set<int>, x: int, y: int)
    ensures (x, y) in Pairs(Without(h, nodes)) <==> (x, y) in Pairs(h) && x !in nodes && y !in nodes
  {
    if (x, y) in Pairs(Without(h, nodes)) {
      var f := PairOf(Without(h, nodes), x, y);
    }
    if (x, y) in Pairs(h) {
      var f := PairOf(h, x, y);
    }
  }

  lemma FewerEdges(h: Graph, nodes: set<int>, v: int)
    requires AtEnd(Pairs(h), v)
    ensures AtEnd(Pairs(Without(h, nodes)), v)
  {
    forall x, y ensures (x, y) in Pairs(Without(h, nodes)) ==> (x, y) in Pairs(h) {
      PairWithout(h, nodes, x, y);
    }
  }

  // ---------- values ----------

  /** What one valuation of the original graph and one of the encapsulated graph say of the old nodes is the same. */
  ghost predicate Agree<V(!new)>(eg: Graph, cluster: map<int, int>, val: Valuation<V>, outer: Valuation<V>,
                                 inner: Valuation<V>)
  {
    && (forall v, k :: v in eg.nodes && v !in cluster ==> outer(v, k) == val(v, k))
    && (forall v, k :: v in cluster ==> inner(v, k) == val(v, k))
  }

  /** Every valuation of the original graph is found again in the encapsulated one, ... */
  ghost predicate ValuesCarryOver<V(!new)>(eg: Graph, arity: int -> nat, cluster: map<int, int>, t: Tables,
                                           bodies: map<int, Body>, call: map<int, int>, h: Graph, sem: Semantics<V>)
  {
    forall val: Valuation<V> :: Solves(eg, arity, sem, val) ==>
      exists outer: Valuation<V>, inner: Valuation<V> ::
        SolvesRewritten(eg, cluster, arity, t, bodies, call, h, sem, outer, inner)
            && Agree(eg, cluster, val, outer, inner)
  }

  /** ... and the other way round, loops or not. */
  ghost predicate ValuesComeBack<V(!new)>(eg: Graph, arity: int -> nat, cluster: map<int, int>, t: Tables,
                                          bodies: map<int, Body>, call: map<int, int>, h: Graph, sem: Semantics<V>)
  {
    forall outer: Valuation<V>, inner: Valuation<V> ::
      SolvesRewritten(eg, cluster, arity, t, bodies, call, h, sem, outer, inner) ==>
        exists val: Valuation<V> :: Solves(eg, arity, sem, val) && Agree(eg, cluster, val, outer, inner)
  }

  /** However both graphs are evaluated, the nodes that survive and those extracted have their old values. */
  ghost predicate ValuesUnique<V(!new)>(eg: Graph, arity: int -> nat, cluster: map<int, int>, t: Tables,
                                        bodies: map<int, Body>, call: map<int, int>, h: Graph, sem: Semantics<V>)
  {
    forall val: Valuation<V>, outer: Valuation<V>, inner: Valuation<V> ::
      Solves(eg, arity, sem, val) && SolvesRewritten(eg, cluster, arity, t, bodies, call, h, sem, outer, inner) ==>
        Agree(eg, cluster, val, outer, inner)
  }

  lemma EncapsulatedMeans<V(!new)>(eg: Graph, arity: int -> nat, cluster: map<int, int>, t: Tables,
                                   bodies: map<int, Body>, call: map<int, int>, h: Graph, sem: Semantics<V>)
    requires Encapsulated(eg, cluster, arity, t, bodies, call, h)
    ensures ValuesCarryOver(eg, arity, cluster, t, bodies, call, h, sem)
    ensures ValuesComeBack(eg, arity, cluster, t, bodies, call, h, sem)
    ensures Acyclic(Pairs(eg)) ==> ValuesUnique(eg, arity, cluster, t, bodies, call, h, sem)
  {
    CallsFit(eg, cluster, arity, t, bodies, call, h);
    hide Encapsulated, SolvesRewritten, Solves, Acyclic, Restrict, CallNodesFit;
    forall val: Valuation<V> | Solves(eg, arity, sem, val)
      ensures exists outer: Valuation<V>, inner: Valuation<V> ::
        SolvesRewritten(eg, cluster, arity, t, bodies, call, h, sem, outer, inner)
            && Agree(eg, cluster, val, outer, inner)
    {
      MeaningCarriesOver(eg, cluster, arity, t, bodies, call, h, sem, val);
      assert Agree(eg, cluster, val, Restrict(call, t, val), val);
    }
    forall outer: Valuation<V>, inner: Valuation<V>
        | SolvesRewritten(eg, cluster, arity, t, bodies, call, h, sem, outer, inner)
      ensures exists val: Valuation<V> :: Solves(eg, arity, sem, val) && Agree(eg, cluster, val, outer, inner)
    {
      MeaningComesBack(eg, cluster, arity, t, bodies, call, h, sem, outer, inner);
      assert Agree(eg, cluster, Extend(cluster, outer, inner), outer, inner);
    }
    if Acyclic(Pairs(eg)) {
      forall val: Valuation<V>, outer: Valuation<V>, inner: Valuation<V> |
        Solves(eg, arity, sem, val) && SolvesRewritten(eg, cluster, arity, t, bodies, call, h, sem, outer, inner)
        ensures Agree(eg, cluster, val, outer, inner)
      {
        SurvivorsCompute(eg, cluster, arity, t, bodies, call, h, sem, val, outer, inner);
      }
    }
  }

  // ---------- the passes ----------

  /** Dissolved clusters leave nodes of the graph, with tags from 0 on. */
  lemma KeptFits(g: C.OpGraph, tags: map<int, int>, kept: set<int>, cluster: map<int, int>, eg: Graph)
    requires g.WellFormed() && C.ValidClustering(g, tags) && SameGraph(g, eg) && forall v :: v in tags ==> 0 <= tags[v]
    requires Keeps(tags, kept, cluster)
    ensures ClustersFit(eg, cluster)
  {
    TagsAreMarks(g, tags);
  }

  /** The tags that are left. */
  ghost function LargeTags(tags: map<int, int>, cluster: map<int, int>): set<int> {
    set v | v in tags && v in cluster :: tags[v]
  }

  lemma LargeKept(tags: map<int, int>, typeOf: int -> string, minimum: int, cluster: map<int, int>)
    requires forall v :: v in cluster <==>
               v in tags &&
               |set u | u in tags && tags[u] == tags[v] && typeOf(u) != "Const" && typeOf(u) != "Identitiy"| >= minimum
    requires forall v :: v in cluster ==> cluster[v] == tags[v]
    ensures Keeps(tags, LargeTags(tags, cluster), cluster)
  {
    var kept := LargeTags(tags, cluster);
    forall v | v in tags && tags[v] in kept ensures v in cluster {
      var w :| w in tags && w in cluster && tags[w] == tags[v];
    }
  }

  lemma CallsOfLeft(eg: Graph, tags: map<int, int>, cluster: map<int, int>, call: map<int, int>)
    requires CallNodesFit(eg, cluster, call) && forall v :: v in cluster ==> v in tags && cluster[v] == tags[v]
    ensures forall c :: c in call <==> exists v :: v in cluster && v in tags && tags[v] == c
  {
    forall c | c in call ensures exists v :: v in cluster && v in tags && tags[v] == c {
      var v :| v in cluster && cluster[v] == c;
      assert v in tags && tags[v] == c;
    }
  }

  lemma ControlStays(eg: Graph, cluster: map<int, int>, arity: int -> nat, t: Tables, bodies: map<int, Body>,
                     call: map<int, int>, h: Graph)
    requires Encapsulated(eg, cluster, arity, t, bodies, call, h)
    ensures forall u, v :: v in cluster ==>
              v in bodies
              && (u in bodies[v].control <==> Control(u, v) in eg.edges && u in cluster && cluster[u] == cluster[v])
  {
    hide WellFormed, Numbered, Rewritten;
    assert Extracted(eg, cluster, arity, t, bodies);
  }

  /** The analysis and the rewriting of a graph; fails exactly when a cluster is spread over two devices. */
  method EncapsulateGraph(eg: Graph, next: int, arity: int -> nat, device: int -> string, cluster: map<int, int>)
    returns (ok: bool, e: Encapsulator)
    requires WellFormed(eg, arity) && ClustersFit(eg, cluster) && forall v :: v in eg.nodes ==> v < next
    ensures ok ==> Encapsulated(eg, cluster, arity, e.T(), e.bodies, e.clusterNodeMap, e.graph)
    ensures ok <==>
              forall u, v :: u in cluster && v in cluster && cluster[u] == cluster[v] ==> device(u) == device(v)
    // inside a cluster, control edges are kept
    ensures ok ==> forall u, v :: v in cluster ==>
              v in e.bodies && (u in e.bodies[v].control <==>
                                  Control(u, v) in eg.edges && u in cluster && cluster[u] == cluster[v])
  {
    hide Encapsulated, WellFormed, ClustersFit, Encapsulator.Valid, TerminalsDense;
    e := new Encapsulator(eg, next, arity, device, cluster);
    var st := e.AnalysisPass();
    ok := st == Status.OK;
    if ok {
      st := e.RewritePass();
      ControlStays(eg, cluster, arity, e.T(), e.bodies, e.clusterNodeMap, e.graph);
    }
  }

  /**
   The passes over a marked graph, one after the other. The clustering succeeds unless the graph has a cycle or
   control flow surprises, and the rest unless a cluster is spread over two devices. Then the clusters left are the
   large ones of a valid clustering, the new graph encapsulates them, has no cycle but through source, sink or
   NextIteration, and means what the old one did.
   */
  method Run<V(!new)>(g: C.OpGraph, eg: Graph, next: int, arity: int -> nat, device: int -> string,
                      typeOf: int -> string, minimum: int, logging: bool, first: nat, ghost sem: Semantics<V>)
    returns (clustered: bool, tags: map<int, int>, ok: bool, cluster: map<int, int>, e: Encapsulator?,
             ghost final: C.State)
    requires g.WellFormed() && MarkedInner(g) && SameGraph(g, eg) && WellFormed(eg, arity)
    requires forall v :: v in eg.nodes ==> v < next
    ensures Acyclic(C.Deps(g)) && C.Unsurprising(g) ==> clustered
    ensures clustered ==> Acyclic(C.Deps(g)) && C.Outcome(g, tags, final)
    ensures clustered ==> forall v :: v in cluster <==>
              v in tags &&
              |set u | u in tags && tags[u] == tags[v] && typeOf(u) != "Const" && typeOf(u) != "Identitiy"| >= minimum
    ensures clustered ==> forall v :: v in cluster ==> cluster[v] == tags[v]
    ensures ok ==> clustered
    ensures clustered ==> (ok <==>
              forall u, v :: u in cluster && v in cluster && cluster[u] == cluster[v] ==> device(u) == device(v))
    ensures ok ==> e != null && Encapsulated(eg, cluster, arity, e.T(), e.bodies, e.clusterNodeMap, e.graph)
    ensures ok ==> forall c :: c in e.clusterNodeMap <==> exists v :: v in cluster && v in tags && tags[v] == c
    ensures ok ==> Acyclic(Pairs(Without(e.graph, Outside(g))))
    ensures ok && EndsAreEnds(g, eg) ==> Acyclic(Pairs(Without(e.graph, g.nextIterations)))
    ensures ok ==> ValuesCarryOver(eg, arity, cluster, e.T(), e.bodies, e.clusterNodeMap, e.graph, sem)
    ensures ok ==> ValuesComeBack(eg, arity, cluster, e.T(), e.bodies, e.clusterNodeMap, e.graph, sem)
    ensures ok && Acyclic(Pairs(eg)) ==>
              ValuesUnique(eg, arity, cluster, e.T(), e.bodies, e.clusterNodeMap, e.graph, sem)
  {
    hide Acyclic, C.Deps, C.Unsurprising, Encapsulated, SameGraph, C.Outcome, MarkedInner, EndsAreEnds, Keeps,
         CallNodesFit;
    cluster, e, ok := map[], null, false;
    var st;
    st, tags, final := A.AssignClusters(g, logging, first);
    clustered := st == A.OK;
    if clustered {
      OutcomeValid(g, tags, final);
      cluster := D.DeassignClusters(tags, typeOf, minimum);
      ghost var kept := LargeTags(tags, cluster);
      LargeKept(tags, typeOf, minimum, cluster);
      KeptFits(g, tags, kept, cluster, eg);
      ok, e := EncapsulateGraph(eg, next, arity, device, cluster);
      if ok {
        CallsFit(eg, cluster, arity, e.T(), e.bodies, e.clusterNodeMap, e.graph);
        CallsOfLeft(eg, tags, cluster, e.clusterNodeMap);
        EncapsulatedAcyclic(g, final, tags, kept, cluster, eg, arity, e.T(), e.bodies, e.clusterNodeMap, e.graph);
        if EndsAreEnds(g, eg) {
          CyclesIterate(g, final, tags, kept, cluster, eg, arity, e.T(), e.bodies, e.clusterNodeMap, e.graph);
        }
        EncapsulatedMeans(eg, arity, cluster, e.T(), e.bodies, e.clusterNodeMap, e.graph, sem);
      }
    }
  }
}
