/**
 The clustering pass: every node starts as a cluster of its own, and edges between marked operations
 are contracted as long as deadness allows and no cycle arises.
 */
module AssignClusters {
  import opened Digraph
  import opened Sets
  import opened Quotient
  import opened Clustering
  import GraphCycles

  class Cluster {
    var index: int
    var nodes: set<int>
    var predString: Pred
    var outgoing: set<int>

    constructor (index: int, node: int, pred: Pred, outgoing: set<int>)
      ensures this.index == index && nodes == {node}
      ensures this.predString == pred && this.outgoing == outgoing
    {
      this.index, this.nodes, this.predString, this.outgoing := index, {node}, pred, outgoing;
    }
  }

  datatype Status =
    | OK
    | CycleInGraph          // the checked edges have a cycle
    | ShadowFailed          // a shadow path could not be inserted
    | ControlFlowContracted // an edge to be contracted has a control flow end
    | ControlFlowClustered  // an edge to be contracted goes from a stricter predicate to True
    | CheckFailed           // a node does not fit its cluster
    | MixedCluster          // a cluster has marked and unmarked nodes

  class Assigner {
    const g: OpGraph
    const gc: GraphCycles.GraphCycles
    var clusterMap: map<int, Cluster>
    ghost var s: State
    ghost var shadowed: seq<int>      // the edges doubled by a shadow path ...
    ghost var shadows: seq<int>       // ... and the shadow node of each
    ghost var clusters: set<Cluster>  // every cluster object of this pass

    /** The object of node v's cluster spells out the state t. */
    ghost predicate NodeTied(t: State, v: int)
      requires 0 <= v < |t.index| && forall u :: 0 <= u < |t.index| ==> u in clusterMap
      reads this`clusterMap, this`clusters, clusters
    {
      var c := clusterMap[v];
      && c in clusters
      && t.index[v] in t.pred && t.index[v] in t.out
      && c.index == t.index[v] && c.predString == t.PredOf(v) && c.outgoing == t.OutOf(v)
      && (forall u :: u in c.nodes <==> 0 <= u < |t.index| && t.Same(u, v))
      && (forall u :: 0 <= u < |t.index| && t.Same(u, v) ==> clusterMap[u] == c)
    }

    /** The cluster objects spell out the state. */
    ghost predicate Tied()
      reads this`clusterMap, this`s, this`clusters, clusters
    {
      && (forall v :: v in clusterMap <==> 0 <= v < |s.index|)
      && (forall v :: 0 <= v < |s.index| ==> NodeTied(s, v))
    }

    /** The pass and its clusters are apart from the contraction graph. */
    ghost predicate Apart()
      reads this`clusters, gc`Repr
    {
      this !in gc.Repr && forall c :: c in clusters ==> c !in gc.Repr
    }

    constructor (g: OpGraph)
      requires g.WellFormed()
      ensures this.g == g && fresh(gc) && fresh(gc.Repr) && gc.Valid()
      ensures gc.E == {} && gc.nodes == [] && gc.freeNodes == []
      ensures shadowed == [] && shadows == []
      ensures clusterMap == map[] && clusters == {} && s == State([], map[], map[])
      ensures Apart()
    {
      this.g := g;
      gc := new GraphCycles.GraphCycles();
      clusterMap := map[];
      clusters := {};
      shadowed, shadows := [], [];
      s := State([], map[], map[]);
    }

    // ---------- setting up ----------

    /** A gc node and a cluster for the next graph node. */
    method AddNode()
      requires g.WellFormed() && |s.index| < g.n && s == InitialUpTo(g, |s.index|)
      requires Tied() && Apart() && gc.Valid() && gc.E == {} && gc.freeNodes == [] && |gc.nodes| == |s.index|
      modifies this`clusterMap, this`s, this`clusters, gc.Repr
      ensures |s.index| == |old(s).index| + 1 && s == InitialUpTo(g, |s.index|)
      ensures Tied() && Apart() && gc.Valid() && gc.E == {} && gc.freeNodes == [] && |gc.nodes| == |s.index|
      ensures fresh(gc.Repr - old(gc.Repr)) && fresh(clusters - old(clusters))
    {
      ghost var t := s;
      var v := gc.NewNode();
      var c := new Cluster(v, v, g.pred[v], OutEdges(g, v));
      clusterMap := clusterMap[v := c];
      clusters := clusters + {c};
      s := InitialUpTo(g, v + 1);
      forall u | 0 <= u < |s.index|
        ensures NodeTied(s, u)
      {
        if u < v {
          assert old(NodeTied(s, u));
        }
      }
    }

    method AddNodes()
      requires g.WellFormed() && s == InitialUpTo(g, 0) && clusterMap == map[]
      requires Apart() && gc.Valid() && gc.E == {} && gc.freeNodes == [] && gc.nodes == []
      modifies this`clusterMap, this`s, this`clusters, gc.Repr
      ensures s == Initial(g) && Tied() && Apart() && gc.Valid() && IndicesLive() && gc.E == {}
      ensures fresh(gc.Repr - old(gc.Repr)) && fresh(clusters - old(clusters))
    {
      for m := 0 to g.n
        invariant |s.index| == m && s == InitialUpTo(g, m)
        invariant Tied() && Apart() && gc.Valid() && gc.E == {} && gc.freeNodes == [] && |gc.nodes| == m
        invariant fresh(gc.Repr - old(gc.Repr)) && fresh(clusters - old(clusters))
      {
        AddNode();
      }
    }

    /** Inserts every checked edge; fails exactly when the checked edges have a cycle. */
    method InsertCheckedEdges() returns (ok: bool)
      requires g.WellFormed() && s == Initial(g) && Tied() && Apart() && gc.Valid() && IndicesLive() && gc.E == {}
      modifies gc.Repr
      ensures Tied() && Apart() && gc.Valid() && IndicesLive() && gc.Repr == old(gc.Repr)
      ensures ok <==> Acyclic(OpEdges(g))
      ensures ok ==> gc.E == OpEdges(g)
    {
      ok := true;
      var k := 0;
      while k < |g.edges| && ok
        invariant 0 <= k <= |g.edges|
        invariant Tied() && Apart() && gc.Valid() && IndicesLive() && gc.Repr == old(gc.Repr)
        invariant ok ==> gc.E == CheckedPairs(g, k)
        invariant !ok ==> !Acyclic(OpEdges(g))
      {
        ok := InsertCheckedEdge(k);
        k := k + 1;
      }
      gc.ValidIsAcyclic();
    }

    method InsertCheckedEdge(k: int) returns (ok: bool)
      requires g.WellFormed() && s == Initial(g) && Tied() && Apart() && gc.Valid() && IndicesLive()
      requires 0 <= k < |g.edges| && gc.E == CheckedPairs(g, k)
      modifies gc.Repr
      ensures Tied() && Apart() && gc.Valid() && IndicesLive() && gc.Repr == old(gc.Repr)
      ensures ok ==> gc.E == CheckedPairs(g, k + 1)
      ensures !ok ==> !Acyclic(OpEdges(g))
    {
      var src, dst := g.edges[k].src, g.edges[k].dst;
      CheckedPairsStep(g, k);
      if src !in g.ops || dst !in g.ops {
        return true;
      }
      if src in g.nextIterations || dst in g.nextIterations {
        return true;
      }
      assert NodeTied(s, src) && NodeTied(s, dst);
      CheckedPair(g, k);
      CheckedPairsGrow(g, k);
      ok := gc.InsertEdge(clusterMap[src].index, clusterMap[dst].index);
      TiedKept();
      if !ok {
        ReachesMonotone(CheckedPairs(g, k), OpEdges(g), dst, src);
      }
    }

    /** Inserts the path x -> w -> y through a new node w. */
    method InsertShadowPath(x: int, y: int) returns (ok: bool, w: int)
      requires gc.Valid() && gc.Live(x) && gc.Live(y)
      modifies gc.Repr
      ensures gc.Valid() && fresh(gc.Repr - old(gc.Repr))
      ensures !old(gc.Live(w)) && forall u :: old(gc.Live(u)) ==> gc.Live(u)
      ensures forall u, v :: (u, v) in old(gc.E) ==> u != w && v != w
      ensures ok <==> !Reaches(old(gc.E), y, x)
      ensures gc.E == old(gc.E) + {(x, w)} + if ok then {(w, y)} else {}
    {
      w := gc.NewNode();
      ghost var E := gc.E;
      HangBelow(E, x, w);
      ShadowPathCloses(E, x, y, w);
      var upper := gc.InsertEdge(x, w);
      var lower := gc.InsertEdge(w, y);
      ok := upper && lower;
    }

    /** Besides the checked edges the contraction graph has exactly the shadow paths recorded. */
    ghost predicate ShadowsExact()
      requires g.WellFormed() && s.WellFormed(g)
      reads this`s, this`shadowed, this`shadows, gc`E
    {
      && Within(OpEdges(g), |s.index|)
      && Shadowed(g, s, gc.E, shadowed, shadows) && NothingElse(g, s, gc.E, shadowed, shadows)
    }

    /** Doubles edge `k` by a path through a new shadow node; fails exactly if its end reaches its start. */
    method AddShadow(k: int) returns (ok: bool)
      requires g.WellFormed() && s.WellFormed(g) && Tied() && Apart() && gc.Valid() && IndicesLive()
      requires ShadowsExact() && 0 <= k < |g.edges| && g.StaticDep(k)
      modifies gc.Repr, this`shadowed, this`shadows
      ensures Tied() && Apart() && gc.Valid() && IndicesLive() && fresh(gc.Repr - old(gc.Repr))
      ensures old(gc.E) <= gc.E
      ensures ok ==> ShadowsExact() && shadowed == old(shadowed) + [k]
      ensures ok <==> !Reaches(old(gc.E), s.index[g.edges[k].dst], s.index[g.edges[k].src])
    {
      hide Shadowed, NothingElse, Reaches, Within;
      assert NodeTied(s, g.edges[k].src) && NodeTied(s, g.edges[k].dst);
      var w: int;
      ok, w := InsertShadowPath(clusterMap[g.edges[k].src].index, clusterMap[g.edges[k].dst].index);
      TiedKept();
      if ok {
        ShadowedGrows(g, s, old(gc.E), gc.E, shadowed, shadows, k, w);
        NothingElseGrows(g, s, old(gc.E), shadowed, shadows, k, w);
        SameEdges(gc.E, old(gc.E) + {(s.index[g.edges[k].src], w), (w, s.index[g.edges[k].dst])});
        shadowed := shadowed + [k];
        shadows := shadows + [w];
      }
    }

    /** Every static edge with a non-constant source, among the first `count`, is doubled. */
    ghost predicate StaticsShadowed(count: nat)
      requires g.WellFormed() && count <= |g.statics|
      reads this`shadowed
    {
      forall i :: 0 <= i < count && g.edges[g.statics[i]].src !in g.consts ==> g.statics[i] in shadowed
    }

    /** The i-th static edge. */
    method ShadowStatic(i: int) returns (ok: bool)
      requires g.WellFormed() && s == Initial(g) && s.WellFormed(g) && 0 <= i < |g.statics|
      requires Tied() && Apart() && gc.Valid() && IndicesLive() && OpEdges(g) <= gc.E
      requires ShadowsExact() && StaticsShadowed(i)
      modifies gc.Repr, this`shadowed, this`shadows
      ensures Tied() && Apart() && gc.Valid() && IndicesLive() && fresh(gc.Repr - old(gc.Repr))
      ensures OpEdges(g) <= gc.E
      ensures ok ==> ShadowsExact() && StaticsShadowed(i + 1)
      ensures !ok ==> !Acyclic(Deps(g))
    {
      hide Shadowed, NothingElse, Reaches, Acyclic;
      var k := g.statics[i];
      if g.edges[k].src in g.consts {
        return true;
      }
      ghost var E, doubled, nodes := gc.E, shadowed, shadows;
      ok := AddShadow(k);
      if !ok {
        ShadowRefused(g, E, doubled, nodes, k);
      }
    }

    /** Doubles every static edge with a non-constant source; fails exactly if the dependencies have a cycle. */
    method AddShadows() returns (ok: bool)
      requires g.WellFormed() && s == Initial(g) && s.WellFormed(g)
      requires Tied() && Apart() && gc.Valid() && IndicesLive() && gc.E == OpEdges(g)
      requires shadowed == [] && shadows == []
      modifies gc.Repr, this`shadowed, this`shadows
      ensures Tied() && Apart() && gc.Valid() && IndicesLive() && fresh(gc.Repr - old(gc.Repr))
      ensures OpEdges(g) <= gc.E
      ensures ok ==> ShadowsExact() && AllShadowed(g, shadowed)
      ensures ok <==> Acyclic(Deps(g))
    {
      gc.ValidIsAcyclic();
      InitialInvariants(g);
      hide Shadowed, NothingElse, Reaches, Acyclic, Covers;
      ok := true;
      var i := 0;
      while i < |g.statics| && ok
        invariant 0 <= i <= |g.statics|
        invariant Tied() && Apart() && gc.Valid() && IndicesLive() && fresh(gc.Repr - old(gc.Repr))
        invariant OpEdges(g) <= gc.E
        invariant ok ==> ShadowsExact() && StaticsShadowed(i)
        invariant !ok ==> !Acyclic(Deps(g))
      {
        ok := ShadowStatic(i);
        i := i + 1;
      }
      if ok {
        gc.ValidIsAcyclic();
        CoversGrows(g, s, OpEdges(g), gc.E);
        DepsAcyclic(g, gc.E, shadowed, shadows);
      }
    }

    // ---------- the checks on an edge ----------

    /** Whether an edge out of the source cluster, other than `k`, leads to another predicate than `k`. */
    method SomeOtherOutPred(k: int) returns (found: bool)
      requires g.WellFormed() && s.WellFormed(g) && Tied() && 0 <= k < |g.edges|
      ensures found <==> exists m :: OtherOutPred(g, s, k, m)
    {
      assert NodeTied(s, g.edges[k].src) && NodeTied(s, g.edges[k].dst);
      var predCheck := clusterMap[g.edges[k].dst].predString;
      var rest := clusterMap[g.edges[k].src].outgoing;
      while rest != {}
        invariant rest <= s.OutOf(g.edges[k].src)
        invariant forall m :: m in s.OutOf(g.edges[k].src) && m !in rest ==> !OtherOutPred(g, s, k, m)
      {
        ghost var some := SomeMember(rest);
        var m :| m in rest;
        rest := rest - {m};
        if m == k {
          continue;
        }
        assert m in s.out[s.index[g.edges[k].src]];
        assert NodeTied(s, g.edges[m].dst);
        if predCheck != clusterMap[g.edges[m].dst].predString {
          assert OtherOutPred(g, s, k, m);
          return true;
        }
      }
      return false;
    }

    method CanContractEdgeDeadnessCheck(k: int) returns (verdict: Verdict)
      requires g.WellFormed() && s.WellFormed(g) && Tied() && 0 <= k < |g.edges|
      ensures verdict == DeadnessVerdict(g, s, k)
    {
      assert NodeTied(s, g.edges[k].src) && NodeTied(s, g.edges[k].dst);
      var p := clusterMap[g.edges[k].src].predString;
      var q := clusterMap[g.edges[k].dst].predString;
      if p == CONTROL_FLOW_PRED || q == CONTROL_FLOW_PRED {
        return ControlFlowOps;
      }
      if p != TRUE_PRED && q != TRUE_PRED && p != q {
        return Mismatch;
      }
      if p != TRUE_PRED && q == TRUE_PRED {
        return ControlFlowNode;
      }
      if p == TRUE_PRED && q != TRUE_PRED {
        var found := SomeOtherOutPred(k);
        if found {
          return Mismatch;
        }
      }
      return Fine;
    }

    // ---------- merging ----------

    /** Moves the nodes of the cluster of `dst` over to the cluster of `src`. */
    method MoveNodes(src: int, dst: int)
      requires src in clusterMap && dst in clusterMap && clusterMap[src] != clusterMap[dst]
      requires forall u :: u in clusterMap[dst].nodes ==> u in clusterMap
      modifies this`clusterMap, {clusterMap[src]}`nodes
      ensures clusterMap.Keys == old(clusterMap.Keys)
      ensures forall u :: u in clusterMap ==>
                clusterMap[u] == old(if u in clusterMap[dst].nodes then clusterMap[src] else clusterMap[u])
      ensures old(clusterMap[src]).nodes == old(clusterMap[src].nodes) + old(clusterMap[dst].nodes)
    {
      var into, from := clusterMap[src], clusterMap[dst];
      var rest := from.nodes;
      while rest != {}
        invariant rest <= from.nodes
        invariant clusterMap.Keys == old(clusterMap.Keys)
        invariant forall u :: u in clusterMap ==>
                    clusterMap[u] == if u in from.nodes && u !in rest then into else old(clusterMap[u])
        invariant into.nodes == old(into.nodes) + (from.nodes - rest)
      {
        ghost var some := SomeMember(rest);
        var u :| u in rest;
        rest := rest - {u};
        into.nodes := into.nodes + {u};
        clusterMap := clusterMap[u := into];
      }
    }

    /** Merges the cluster at the end of edge `k` into the one at its start. */
    method MergeClusters(k: int)
      requires g.WellFormed() && s.WellFormed(g) && Tied() && 0 <= k < |g.edges|
      requires !s.Same(g.edges[k].src, g.edges[k].dst)
      modifies this`clusterMap, this`s, clusters
      ensures s == Merge(g, old(s), k) && Tied()
    {
      var src, dst := g.edges[k].src, g.edges[k].dst;
      var a, b := clusterMap[src], clusterMap[dst];
      assert NodeTied(s, src) && NodeTied(s, dst);
      a.predString := MergedPred(a.predString, b.predString);
      a.outgoing := a.outgoing + b.outgoing - {k};
      MoveNodes(src, dst);
      ghost var t := Merge(g, s, k);
      MergedTied(k);
      s := t;
    }

    /** Object a has taken over the nodes and edges of b, but for edge k. */
    twostate predicate MergedObject(a: Cluster, b: Cluster, k: int)
      reads a
    {
      && a.index == old(a.index) && a.nodes == old(a.nodes) + old(b.nodes)
      && a.predString == MergedPred(old(a.predString), old(b.predString))
      && a.outgoing == old(a.outgoing) + old(b.outgoing) - {k}
    }

    /** The updates of the two cluster objects re-establish what is known of every node. */
    twostate lemma MergedTied(k: int)
      requires g.WellFormed() && s == old(s) && s.WellFormed(g) && old(Tied()) && clusters == old(clusters)
      requires 0 <= k < |g.edges| && !s.Same(g.edges[k].src, g.edges[k].dst) && clusterMap.Keys == old(clusterMap.Keys)
      requires forall u :: u in clusterMap ==>
                 clusterMap[u] == old(clusterMap)[if u in old(clusterMap[g.edges[k].dst].nodes) then g.edges[k].src
                     else u]
      requires MergedObject(old(clusterMap)[g.edges[k].src], old(clusterMap)[g.edges[k].dst], k)
      requires forall c :: c in clusters && c != old(clusterMap)[g.edges[k].src] ==> unchanged(c)
      ensures Merge(g, s, k).WellFormed(g) && forall v :: 0 <= v < |s.index| ==> NodeTied(Merge(g, s, k), v)
    {
      var t := Merge(g, s, k);
      assert old(NodeTied(s, g.edges[k].src)) && old(NodeTied(s, g.edges[k].dst));
      forall v | 0 <= v < |t.index|
        ensures NodeTied(t, v)
      {
        assert old(NodeTied(s, v));
        MergedMembers(g, s, k, v);
      }
    }

    // ---------- contraction ----------

    ghost predicate IndicesLive()
      reads this`s, gc`nodes, gc`freeNodes
    {
      forall v :: 0 <= v < |s.index| ==> gc.Live(s.index[v])
    }

    /** What holds before and after every attempt to contract an edge. */
    ghost predicate Good()
      reads this, clusters, gc, gc.nodes
    {
      && g.WellFormed() && s.WellFormed(g)
      && Tied() && Apart() && gc.Valid() && IndicesLive()
      && Invariants(g, s, gc.E, shadowed, shadows)
    }

    /** A state in which nothing can be contracted, tagged through, is a successful outcome. */
    lemma FinishedRun(tags: map<int, int>, first: int, next: int)
      requires Good() && AllShadowed(g, shadowed) && Maximal(g, s, gc.E)
      requires TagsSoFar(g, s, tags, Elems(s.index), first, next)
      ensures Outcome(g, tags, s)
    {
      gc.ValidIsAcyclic();
      hide Acyclic, Covers, Shadowed, NothingElse, AllShadowed, Maximal, CannotGrow, DeadnessInvariant, ValidClustering,
          TagsSoFar;
      ClusterGraphAcyclic(g, s, gc.E, shadowed, shadows);
      MaximalCannotGrow(g, s, gc.E, shadowed, shadows);
      TagsMatch(g, s, tags, first, next);
      TagsAreValid(g, s, gc.E, shadowed, shadows, tags, first, next);
    }

    /** The state in which contraction starts. */
    lemma StartIsGood()
      requires g.WellFormed() && s == Initial(g) && s.WellFormed(g)
      requires Tied() && Apart() && gc.Valid() && IndicesLive() && OpEdges(g) <= gc.E && ShadowsExact()
      ensures Good()
    {
      InitialInvariants(g);
      hide Shadowed, NothingElse, Covers, DeadnessInvariant, MarkedTogether;
      CoversGrows(g, s, OpEdges(g), gc.E);
    }

    /** Operations on the contraction graph do not touch the clusters. */
    twostate lemma TiedKept()
      requires old(Tied()) && old(Apart())
      requires unchanged(this) && unchanged(clusters)
      ensures Tied()
    {
      forall v | 0 <= v < |s.index|
        ensures NodeTied(s, v)
      {
        assert old(NodeTied(s, v));
      }
    }

    /** Contracts the gc edge between the ends of `k`. */
    method ContractIndices(k: int) returns (merged: bool)
      requires Good() && 0 <= k < |g.edges|
      requires (s.index[g.edges[k].src], s.index[g.edges[k].dst]) in gc.E
      modifies gc.Repr
      ensures s.WellFormed(g) && Tied() && Apart() && gc.Valid() && gc.Repr == old(gc.Repr)
      ensures !merged ==> Good() && gc.E == old(gc.E) && Blocked(g, s, gc.E, k)
      ensures merged ==> gc.E == Contract(old(gc.E), s.index[g.edges[k].src], s.index[g.edges[k].dst])
      ensures merged ==> !s.Same(g.edges[k].src, g.edges[k].dst)
      ensures merged ==> forall v :: 0 <= v < g.n && !s.Same(v, g.edges[k].dst) ==> gc.Live(s.index[v])
    {
      hide Invariants, DeadnessVerdict;
      ghost var a, b := s.index[g.edges[k].src], s.index[g.edges[k].dst];
      gc.ValidIsAcyclic();
      ReachesSelf(gc.E, a);
      assert NodeTied(s, g.edges[k].src) && NodeTied(s, g.edges[k].dst);
      merged := gc.ContractEdge(clusterMap[g.edges[k].src].index, clusterMap[g.edges[k].dst].index);
      TiedKept();
    }

    /** Contracts the gc edge between the ends of `k`, and on success merges the clusters. */
    method ContractAndMerge(k: int) returns (merged: bool)
      requires Good() && 0 <= k < |g.edges| && g.Contractible(k) && DeadnessVerdict(g, s, k).Fine?
      requires (s.index[g.edges[k].src], s.index[g.edges[k].dst]) in gc.E
      modifies this`clusterMap, this`s, clusters, gc.Repr
      ensures Good() && gc.Repr == old(gc.Repr) && clusters == old(clusters)
      ensures merged ==> s == Merge(g, old(s), k) && !old(s).Same(g.edges[k].src, g.edges[k].dst)
      ensures !merged ==> s == old(s) && gc.E == old(gc.E) && Blocked(g, s, gc.E, k)
    {
      hide Invariants, DeadnessVerdict;
      gc.ValidIsAcyclic();
      merged := ContractIndices(k);
      if merged {
        InvariantsMerge(g, s, old(gc.E), shadowed, shadows, k);
        MergeClusters(k);
      }
    }

    /** One step of the contraction loop. */
    method TryContract(k: int) returns (st: Status, merged: bool)
      requires Good() && 0 <= k < |g.edges|
      modifies this`clusterMap, this`s, clusters, gc.Repr
      ensures Good() && gc.Repr == old(gc.Repr) && clusters == old(clusters)
      ensures st in {OK, ControlFlowContracted, ControlFlowClustered}
      ensures st == ControlFlowContracted <==> g.Contractible(k) && DeadnessVerdict(g, old(s), k).ControlFlowOps?
      ensures st == ControlFlowClustered <==> g.Contractible(k) && DeadnessVerdict(g, old(s), k).ControlFlowNode?
      ensures merged ==> s == Merge(g, old(s), k)
      ensures merged ==> g.Contractible(k) && DeadnessVerdict(g, old(s), k).Fine?
      ensures merged ==> !old(s).Same(g.edges[k].src, g.edges[k].dst)
      ensures !merged ==> s == old(s) && gc.E == old(gc.E)
      ensures !merged && st.OK? ==> Blocked(g, s, gc.E, k)
    {
      var src, dst := g.edges[k].src, g.edges[k].dst;
      st, merged := OK, false;
      if src in g.ops && dst in g.ops && src in g.marked && dst in g.marked {
        var verdict := CanContractEdgeDeadnessCheck(k);
        if verdict.ControlFlowOps? {
          st := ControlFlowContracted;
        } else if verdict.ControlFlowNode? {
          st := ControlFlowClustered;
        } else if verdict.Fine? {
          merged := ContractIfJoined(k);
        }
      }
    }

    /** Contracts edge `k` if its ends are joined in the contraction graph. */
    method ContractIfJoined(k: int) returns (merged: bool)
      requires Good() && 0 <= k < |g.edges| && g.Contractible(k) && DeadnessVerdict(g, s, k).Fine?
      modifies this`clusterMap, this`s, clusters, gc.Repr
      ensures Good() && gc.Repr == old(gc.Repr) && clusters == old(clusters)
      ensures merged ==> s == Merge(g, old(s), k) && !old(s).Same(g.edges[k].src, g.edges[k].dst)
      ensures !merged ==> s == old(s) && gc.E == old(gc.E) && Blocked(g, s, gc.E, k)
    {
      hide Good, Blocked, DeadnessVerdict;
      var src, dst := g.edges[k].src, g.edges[k].dst;
      EndsLive(k);
      merged := gc.HasEdge(clusterMap[src].index, clusterMap[dst].index);
      if merged {
        merged := ContractAndMerge(k);
      } else {
        NotJoined(k);
      }
    }

    /** The ends of an edge are live nodes of the contraction graph, named by their cluster objects. */
    lemma EndsLive(k: int)
      requires Good() && 0 <= k < |g.edges|
      ensures var src, dst := g.edges[k].src, g.edges[k].dst;
              && src in clusterMap && dst in clusterMap && 0 <= src < |s.index| && 0 <= dst < |s.index|
              && clusterMap[src].index == s.index[src] && clusterMap[dst].index == s.index[dst]
              && gc.Valid() && gc.Live(s.index[src]) && gc.Live(s.index[dst])
    {
      hide Invariants;
      assert NodeTied(s, g.edges[k].src) && NodeTied(s, g.edges[k].dst);
    }

    /** Where the contraction graph does not join the ends of an edge, nothing can be contracted. */
    lemma NotJoined(k: int)
      requires Good() && 0 <= k < |g.edges| && (s.index[g.edges[k].src], s.index[g.edges[k].dst]) !in gc.E
      ensures Blocked(g, s, gc.E, k)
    {
      hide Tied, Shadowed, NothingElse, MarkedTogether, DeadnessInvariant;
    }

    /** No marked node is a control flow operation. */
    ghost predicate NoMarkedControlFlow()
      requires g.WellFormed()
    {
      NoControlFlow(g)
    }

    /** The contraction loop fails in two ways, each with its reason in the graph it started from. */
    ghost predicate Explained(st: Status, start: State)
      requires g.WellFormed() && start.WellFormed(g)
    {
      && st in {OK, ControlFlowContracted, ControlFlowClustered}
      && (NoMarkedControlFlow() ==> st != ControlFlowContracted)
      && (NoStrictToTrue(g, start) ==> st != ControlFlowClustered)
    }

    /** Step `k` of a pass. */
    method PassStep(k: int, changed: bool, ghost start: State) returns (st: Status, now: bool)
      requires Good() && 0 <= k < |g.edges|
      requires start.WellFormed(g) && PassSoFar(g, start, s, gc.E, k, changed)
      modifies this`clusterMap, this`s, clusters, gc.Repr
      ensures Good() && gc.Repr == old(gc.Repr) && clusters == old(clusters)
      ensures Explained(st, start)
      ensures st.OK? ==> PassSoFar(g, start, s, gc.E, k + 1, now)
    {
      ghost var before, E := s, gc.E;
      StepErrors(k);
      var merged: bool;
      st, merged := TryContract(k);
      now := changed || merged;
      if merged {
        PassMerges(g, start, before, E, gc.E, k, changed);
      } else if st.OK? {
        PassSkips(g, start, before, E, k, changed);
      }
    }

    /** One pass over all edges, up to the first error. */
    method ContractPass() returns (st: Status, changed: bool)
      requires Good()
      modifies this`clusterMap, this`s, clusters, gc.Repr
      ensures Good() && gc.Repr == old(gc.Repr) && clusters == old(clusters)
      ensures Explained(st, old(s))
      ensures st.OK? ==> PassSoFar(g, old(s), s, gc.E, |g.edges|, changed)
    {
      st, changed := OK, false;
      var k := 0;
      while k < |g.edges| && st == OK
        invariant 0 <= k <= |g.edges|
        invariant Good() && gc.Repr == old(gc.Repr) && clusters == old(clusters)
        invariant Explained(st, old(s))
        invariant st == OK ==> PassSoFar(g, old(s), s, gc.E, k, changed)
      {
        st, changed := PassStep(k, changed, old(s));
        k := k + 1;
      }
    }

    /** Which errors a step may raise. */
    lemma StepErrors(k: int)
      requires g.WellFormed() && s.WellFormed(g) && PredHasOrigin(g, s) && MarkedTogether(g, s)
      requires 0 <= k < |g.edges|
      ensures NoMarkedControlFlow() && g.Contractible(k) ==> !DeadnessVerdict(g, s, k).ControlFlowOps?
      ensures NoStrictToTrue(g, s) && g.Contractible(k) ==> !DeadnessVerdict(g, s, k).ControlFlowNode?
    {
      if NoMarkedControlFlow() && g.Contractible(k) {
        NoControlFlowMet(g, s, k);
      }
    }

    /** Passes until one changes nothing; with logging, one more pass collects information. */
    method ContractAll(logging: bool) returns (st: Status)
      requires Good()
      modifies this`clusterMap, this`s, clusters, gc.Repr
      ensures Good() && gc.Repr == old(gc.Repr) && clusters == old(clusters)
      ensures Explained(st, old(s))
      ensures st.OK? ==> Maximal(g, s, gc.E)
    {
      st := OK;
      var changed, collect := true, false;
      while changed && st == OK
        invariant Good() && gc.Repr == old(gc.Repr) && clusters == old(clusters)
        invariant Explained(st, old(s))
        invariant NoStrictToTrue(g, old(s)) && st == OK ==> NoStrictToTrue(g, s)
        invariant !changed && st == OK ==> Maximal(g, s, gc.E)
        decreases st == OK, Elems(s.index), !collect, changed
      {
        st, changed := ContractPass();
        if st == OK && !changed && logging {
          if !collect {
            changed := true;
            collect := true;
          }
        }
      }
    }

    // ---------- checking and tagging ----------

    /** The sanity check of one node against its cluster. */
    method CheckNodeClusterAssignmentWRTDeadness(v: int) returns (ok: bool)
      requires g.WellFormed() && s.WellFormed(g) && Tied() && 0 <= v < g.n
      ensures ok <==> NodePassesCheck(g, s, v)
    {
      assert NodeTied(s, v);
      var p, q := g.pred[v], clusterMap[v].predString;
      if p == CONTROL_FLOW_PRED {
        return false;
      }
      if p != TRUE_PRED && p != q {
        return false;
      }
      if p == TRUE_PRED && q != TRUE_PRED {
        var rest := OutEdges(g, v);
        while rest != {}
          invariant rest <= OutEdges(g, v)
          invariant forall m :: m in OutEdges(g, v) && m !in rest ==>
                      s.Same(g.edges[m].dst, v) || s.PredOf(g.edges[m].dst) == s.PredOf(v)
        {
          ghost var some := SomeMember(rest);
          var m :| m in rest;
          rest := rest - {m};
          assert NodeTied(s, g.edges[m].dst);
          if clusterMap[g.edges[m].dst].index != clusterMap[v].index {
            if clusterMap[g.edges[m].dst].predString != q {
              return false;
            }
          }
        }
      }
      return true;
    }

    /** Looks at every node of v's cluster: which kinds there are, and whether the marked ones fit. */
    method InspectCluster(v: int) returns (ok: bool, hasMarked: bool, hasUnmarked: bool)
      requires g.WellFormed() && s.WellFormed(g) && Tied() && DeadnessInvariant(g, s) && 0 <= v < g.n
      ensures ok ==> (hasMarked <==> exists u :: u in Members(g, s, v) && u in g.marked)
      ensures ok ==> (hasUnmarked <==> exists u :: u in Members(g, s, v) && u !in g.marked)
      ensures ok ==> forall u :: u in Members(g, s, v) && u in g.marked ==> g.pred[u] != CONTROL_FLOW_PRED
      ensures !ok ==> exists u :: 0 <= u < g.n && u in g.marked && g.pred[u] == CONTROL_FLOW_PRED
    {
      hide DeadnessInvariant, NodePassesCheck;
      hasMarked, hasUnmarked := false, false;
      assert NodeTied(s, v);
      var rest := clusterMap[v].nodes;
      SameMembers(rest, Members(g, s, v));
      while rest != {}
        invariant rest <= Members(g, s, v)
        invariant hasMarked <==> exists u :: u in Members(g, s, v) && u !in rest && u in g.marked
        invariant hasUnmarked <==> exists u :: u in Members(g, s, v) && u !in rest && u !in g.marked
        invariant forall u :: u in Members(g, s, v) && u !in rest && u in g.marked ==> g.pred[u] != CONTROL_FLOW_PRED
      {
        ghost var some := SomeMember(rest);
        var u :| u in rest;
        rest := rest - {u};
        if u in g.marked {
          hasMarked := true;
          var fits := CheckNodeClusterAssignmentWRTDeadness(u);
          CheckExact(g, s, u);
          if !fits {
            return false, hasMarked, hasUnmarked;
          }
        } else {
          hasUnmarked := true;
        }
      }
      return true, hasMarked, hasUnmarked;
    }

    /** Gives every node of v's cluster the tag. */
    method TagNodes(v: int, tag: int, before: map<int, int>) returns (tags: map<int, int>)
      requires g.WellFormed() && s.WellFormed(g) && Tied() && 0 <= v < g.n
      ensures forall u :: u in tags <==> u in before || u in Members(g, s, v)
      ensures forall u :: u in tags ==> tags[u] == if u in Members(g, s, v) then tag else before[u]
    {
      tags := before;
      assert NodeTied(s, v);
      var rest := clusterMap[v].nodes;
      SameMembers(rest, Members(g, s, v));
      while rest != {}
        invariant rest <= Members(g, s, v)
        invariant forall u :: u in tags <==> u in before || (u in Members(g, s, v) && u !in rest)
        invariant forall u :: u in tags ==> tags[u] == if u in Members(g, s, v) && u !in rest then tag else before[u]
      {
        ghost var some := SomeMember(rest);
        var u :| u in rest;
        rest := rest - {u};
        tags := tags[u := tag];
      }
    }

    /** One cluster of the tagging loop. */
    method TagCluster(v: int, before: map<int, int>, next: int, ghost done: set<int>, ghost first: int)
      returns (st: Status, tags: map<int, int>, after: int)
      requires g.WellFormed() && s.WellFormed(g) && Tied() && 0 <= v < g.n
      requires DeadnessInvariant(g, s) && MarkedTogether(g, s)
      requires TagsSoFar(g, s, before, done, first, next) && s.index[v] !in done && NoControlFlowIn(done)
      ensures st in {OK, CheckFailed}
      ensures st == OK ==> TagsSoFar(g, s, tags, done + {s.index[v]}, first, after)
      ensures st == OK ==> NoControlFlowIn(done + {s.index[v]})
      ensures st == CheckFailed ==> !NoMarkedControlFlow()
    {
      var ok, hasMarked, hasUnmarked := InspectCluster(v);
      if !ok {
        return CheckFailed, before, next;
      }
      MembersByIndex(g, s, v);
      forall u | u in Members(g, s, v) ensures u in g.marked <==> v in g.marked {
        ClusterIsPure(g, s, u, v);
      }
      if hasMarked && hasUnmarked {
        return MixedCluster, before, next;
      }
      if !hasMarked {
        TagsSkip(g, s, before, done, first, next, v);
        return OK, before, next;
      }
      tags := TagNodes(v, next, before);
      TagsAdd(g, s, before, tags, done, first, next, v);
      return OK, tags, next + 1;
    }

    /** The tagging loop's view of the clusters it has been through. */
    ghost predicate SeenIs(seen: set<Cluster>, done: set<int>)
      reads this`clusterMap, this`s
    {
      && (forall v :: v in clusterMap <==> 0 <= v < |s.index|)
      && (forall u :: 0 <= u < |s.index| ==> (clusterMap[u] in seen <==> s.index[u] in done))
      && (forall i :: i in done ==> i in s.index)
    }

    ghost predicate NoControlFlowIn(done: set<int>)
      requires g.WellFormed() && |s.index| == g.n
      reads this`s
    {
      forall u :: 0 <= u < g.n && u in g.marked && s.index[u] in done ==> g.pred[u] != CONTROL_FLOW_PRED
    }

    /** One node of the tagging loop. */
    method TagStep(v: int, seen: set<Cluster>, before: map<int, int>, id: int, ghost done: set<int>, ghost first: int)
      returns (st: Status, seen': set<Cluster>, tags: map<int, int>, id': int, ghost done': set<int>)
      requires g.WellFormed() && s.WellFormed(g) && Tied() && 0 <= v < g.n
      requires DeadnessInvariant(g, s) && MarkedTogether(g, s)
      requires TagsSoFar(g, s, before, done, first, id) && SeenIs(seen, done) && NoControlFlowIn(done)
      ensures st in {OK, CheckFailed} && (st == CheckFailed ==> !NoMarkedControlFlow())
      ensures st == OK ==> TagsSoFar(g, s, tags, done', first, id') && SeenIs(seen', done') && NoControlFlowIn(done')
      ensures done' == done + {s.index[v]}
    {
      hide Tied, DeadnessInvariant, MarkedTogether, TagsSoFar, NoControlFlowIn, NoControlFlow;
      done' := done + {s.index[v]};
      st, seen', tags, id' := OK, seen, before, id;
      if clusterMap[v] in seen {
        SameMembers(done', done);
      } else {
        st, tags, id' := TagCluster(v, before, id, done, first);
        SeenAdd(v, seen, done);
        seen' := seen + {clusterMap[v]};
      }
    }

    /** Tags cluster by cluster. */
    method TagClusters(first: int) returns (st: Status, tags: map<int, int>, ghost next: int)
      requires g.WellFormed() && s.WellFormed(g) && Tied()
      requires DeadnessInvariant(g, s) && MarkedTogether(g, s)
      ensures st in {OK, CheckFailed}
      ensures st == OK ==> TagsSoFar(g, s, tags, Elems(s.index), first, next)
      ensures st == OK <==> NoMarkedControlFlow()
    {
      var seen: set<Cluster> := {};
      ghost var done: set<int> := {};
      var id := first;
      st, tags := OK, map[];
      var v := 0;
      while v < g.n && st == OK
        invariant 0 <= v <= g.n && st in {OK, CheckFailed}
        invariant st == OK ==> TagsSoFar(g, s, tags, done, first, id) && SeenIs(seen, done) && NoControlFlowIn(done)
        invariant done == Elems(s.index[..v])
        invariant st == CheckFailed ==> !NoMarkedControlFlow()
      {
        ElemsAppend(s.index[..v], s.index[v]);
        assert s.index[..v + 1] == s.index[..v] + [s.index[v]];
        st, seen, tags, id, done := TagStep(v, seen, tags, id, done, first);
        v := v + 1;
      }
      next := id;
      assert st == OK ==> s.index[..v] == s.index;
    }

    /** Tagging once nothing can be contracted. */
    method TagFinished(first: int) returns (st: Status, tags: map<int, int>)
      requires Good() && AllShadowed(g, shadowed) && Maximal(g, s, gc.E)
      ensures st in {OK, CheckFailed}
      ensures st == OK ==> Outcome(g, tags, s) && forall v :: v in tags ==> first <= tags[v]
      ensures st == OK ==> forall t, v :: v in tags && first <= t <= tags[v] ==> t in tags.Values
      ensures st == OK <==> NoMarkedControlFlow()
    {
      ghost var next: int;
      st, tags, next := TagClusters(first);
      if st == OK {
        FinishedRun(tags, first, next);
      }
    }

    lemma SeenAdd(v: int, seen: set<Cluster>, done: set<int>)
      requires s.WellFormed(g) && Tied() && 0 <= v < g.n && SeenIs(seen, done)
      ensures SeenIs(seen + {clusterMap[v]}, done + {s.index[v]})
    {
      SeenByIndex(v);
    }

    /** Two nodes have the same cluster object exactly when they have the same index. */
    lemma SeenByIndex(v: int)
      requires s.WellFormed(g) && Tied() && 0 <= v < g.n
      ensures forall u :: 0 <= u < g.n ==> (clusterMap[u] == clusterMap[v] <==> s.Same(u, v))
    {
      assert NodeTied(s, v);
      forall u | 0 <= u < g.n
        ensures clusterMap[u] == clusterMap[v] <==> s.Same(u, v)
      {
        assert NodeTied(s, u);
      }
    }
  }

  /** Everything up to the contraction loop. */
  method Prepare(g: OpGraph) returns (st: Status, a: Assigner)
    requires g.WellFormed()
    ensures st in {OK, CycleInGraph, ShadowFailed} && a.g == g
    ensures fresh(a) && fresh(a.gc) && fresh(a.gc.Repr) && fresh(a.clusters)
    ensures st == CycleInGraph <==> !Acyclic(OpEdges(g))
    ensures st == ShadowFailed <==> Acyclic(OpEdges(g)) && !Acyclic(Deps(g))
    ensures st == OK ==> a.Good() && AllShadowed(g, a.shadowed)
    ensures st == OK && Unsurprising(g) ==> NoStrictToTrue(g, a.s)
  {
    hide Acyclic, DeadnessInvariant, Covers, Shadowed, AllShadowed, Unsurprising, NoStrictToTrue;
    a := new Assigner(g);
    a.AddNodes();
    InitialInvariants(g);
    var ok := a.InsertCheckedEdges();
    st := if ok then OK else CycleInGraph;
    if ok {
      ok := a.AddShadows();
      if ok {
        a.StartIsGood();
        if Unsurprising(g) {
          UnsurprisingStart(g);
        }
      } else {
        st := ShadowFailed;
      }
    }
  }

  /** Contraction and tagging. */
  method Run(a: Assigner, logging: bool, first: int) returns (st: Status, tags: map<int, int>)
    requires a.Good() && AllShadowed(a.g, a.shadowed)
    requires Unsurprising(a.g) ==> NoStrictToTrue(a.g, a.s)
    modifies a`clusterMap, a`s, a.clusters, a.gc.Repr
    ensures st !in {MixedCluster, CycleInGraph, ShadowFailed}
    ensures st == OK ==> Outcome(a.g, tags, a.s) && forall v :: v in tags ==> first <= tags[v]
    ensures st == OK ==> forall t, v :: v in tags && first <= t <= tags[v] ==> t in tags.Values
    ensures st == OK ==> NoControlFlow(a.g)
    ensures Unsurprising(a.g) ==> st == OK
  {
    st := a.ContractAll(logging);
    tags := map[];
    if st == OK {
      st, tags := a.TagFinished(first);
    }
  }

  /** Assigns the marked nodes of the graph to clusters, tagged from `first` on. */
  method AssignClusters(g: OpGraph, logging: bool, first: int)
    returns (st: Status, tags: map<int, int>, ghost final: State)
    requires g.WellFormed()
    ensures st != MixedCluster
    ensures st == CycleInGraph <==> !Acyclic(OpEdges(g))
    ensures st == ShadowFailed <==> Acyclic(OpEdges(g)) && !Acyclic(Deps(g))
    ensures st == OK ==> Acyclic(Deps(g)) && Outcome(g, tags, final) && forall v :: v in tags ==> first <= tags[v]
    ensures st == OK ==> forall t, v :: v in tags && first <= t <= tags[v] ==> t in tags.Values
    ensures st == OK ==> NoControlFlow(g)
    // nothing fails if the dependencies are acyclic and there are no control flow surprises
    ensures Acyclic(Deps(g)) && Unsurprising(g) ==> st == OK
  {
    if Acyclic(Deps(g)) {
      SubgraphAcyclic(OpEdges(g), Deps(g));
    }
    hide Acyclic, Outcome, Unsurprising, NoStrictToTrue, AllShadowed;
    var a: Assigner;
    st, a := Prepare(g);
    tags := map[];
    if st == OK {
      st, tags := Run(a, logging, first);
    }
    final := a.s;
  }

  /** Who shares a cluster after a merge. */
  lemma MergedMembers(g: OpGraph, s: State, k: int, v: int)
    requires g.WellFormed() && s.WellFormed(g) && 0 <= k < |g.edges| && 0 <= v < |s.index|
    ensures var t, src, dst := Merge(g, s, k), g.edges[k].src, g.edges[k].dst;
            forall u :: 0 <= u < |s.index| ==>
              (t.Same(u, v) <==>
                (s.Same(u, v) || ((s.Same(u, src) || s.Same(u, dst)) && (s.Same(v, src) || s.Same(v, dst)))))
  {
  }

  lemma MembersByIndex(g: OpGraph, s: State, v: int)
    requires |s.index| == g.n && 0 <= v < g.n
    ensures forall u :: 0 <= u < g.n ==> (u in Members(g, s, v) <==> s.index[u] == s.index[v])
  {
  }
}
