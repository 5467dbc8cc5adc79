/** What the clusters owe to the deadness analysis: the nodes of a finished cluster are live together. */
module ClusterLiveness {
  import C = Clustering
  import opened Predicates
  import opened Deadness
  import opened DeadnessAnalysis
  import opened Printing
  import opened Ties

  /** The string every node gets before the clusters are built; a node without outgoing edges gets none. */
  ghost predicate NodeString(dg: Graph, m: PredicateMap, v: int, s: string, name: TensorId -> string) {
    && v in dg
    && if dg[v].controlFlow then s == C.CONTROL_FLOW_PRED
       else if dg[v].outSlots == [] then s == ""
       else
         && (forall j :: 0 <= j < |dg[v].outSlots| ==> (v, dg[v].outSlots[j]) in m)
         && (forall j :: 0 <= j < |dg[v].outSlots| ==> m[(v, dg[v].outSlots[j])] == m[(v, dg[v].outSlots[0])])
         && s == ToString(m[(v, dg[v].outSlots[0])], name)
  }

  /** The graph of the clusters carries the strings of the analysed graph. */
  ghost predicate Labelled(g: C.OpGraph, dg: Graph, m: PredicateMap, name: TensorId -> string)
    requires g.WellFormed()
  {
    forall v :: 0 <= v < g.n ==> NodeString(dg, m, v, g.pred[v], name)
  }

  /**
   Asks for the string of every node; fails only where the outputs of a Switch that is no control flow
   operation differ.
   */
  method NodeStrings(a: Analysis, n: nat, name: TensorId -> string) returns (ok: bool, pred: seq<string>)
    requires a.Valid() && forall v :: 0 <= v < n ==> v in a.g && a.OutputsKnown(v)
    ensures ok <==> forall v :: 0 <= v < n ==> a.g[v].controlFlow || a.SameOutputs(v)
    ensures ok ==> |pred| == n && forall v :: 0 <= v < n ==> NodeString(a.g, a.predicateMap, v, pred[v], name)
  {
    hide Analysed, MapTied, Rooted, ToString;
    pred, ok := [], true;
    var v := 0;
    while v < n && ok
      invariant 0 <= v <= n
      invariant ok ==> |pred| == v && forall u :: 0 <= u < v ==> a.g[u].controlFlow || a.SameOutputs(u)
      invariant ok ==> forall u :: 0 <= u < v ==> NodeString(a.g, a.predicateMap, u, pred[u], name)
      invariant !ok ==> exists u :: 0 <= u < n && !(a.g[u].controlFlow || a.SameOutputs(u))
    {
      var s;
      ok, s := a.GetNodePredicate(v, "", name);
      pred, v := pred + [s], v + 1;
    }
  }

  // ---------- what a string tells about a node ----------

  lemma PrintedIsPlain(p: Predicate, name: TensorId -> string)
    requires PlainNames(name)
    ensures ToString(p, name) != "" && ToString(p, name) != C.CONTROL_FLOW_PRED
  {
    StartsWithHead(p, name);
    var s := ToString(p, name);
    if s[0] == '#' {
      assert s == "#true" || s == "#false";
      assert "#control_flow"[1] == 'c';
    }
  }

  /** A node whose string is that of a predicate has that predicate at all its outputs. */
  lemma StringTells(dg: Graph, m: PredicateMap, h: Hash, v: int, name: TensorId -> string, t: TensorId, j: nat)
    requires MapTied(m, h) && MapNormal(m, h) && FaithfulNames(name) && t in m
    requires NodeString(dg, m, v, ToString(m[t], name), name)
    ensures !dg[v].controlFlow && dg[v].outSlots != []
    ensures j < |dg[v].outSlots| ==> (v, dg[v].outSlots[j]) in m && m[(v, dg[v].outSlots[j])] == m[t]
  {
    hide ToString, MapTied, MapNormal;
    PrintedIsPlain(m[t], name);
    PredicatesPrintApart(m, h, name, (v, dg[v].outSlots[0]), t);
  }

  /** Output j of node u and output k of node v are live together in every execution. */
  ghost predicate OutputsTogether(dg: Graph, u: int, j: nat, v: int, k: nat)
    requires u in dg && v in dg && j < |dg[u].outSlots| && k < |dg[v].outSlots|
  {
    forall live, truth :: Execution(dg, live, truth) ==>
      (live((u, dg[u].outSlots[j])) <==> live((v, dg[v].outSlots[k])))
  }

  /** Nodes with the same string are live together, those with the string of True are always live. */
  lemma SameStringTogether(dg: Graph, m: PredicateMap, h: Hash, u: int, j: nat, v: int, k: nat, s: string,
                           name: TensorId -> string)
    requires Sound(dg, m) && MapTied(m, h) && MapNormal(m, h) && FaithfulNames(name)
    requires NodeString(dg, m, u, s, name) && NodeString(dg, m, v, s, name) && s != C.CONTROL_FLOW_PRED
    requires j < |dg[u].outSlots|
    ensures dg[v].outSlots != []
    ensures k < |dg[v].outSlots| ==> OutputsTogether(dg, u, j, v, k)
  {
    hide ToString, MapTied, MapNormal, Execution;
    var t := (u, dg[u].outSlots[0]);
    StringTells(dg, m, h, u, name, t, j);
    StringTells(dg, m, h, v, name, t, k);
    if k < |dg[v].outSlots| {
      forall live, truth | Execution(dg, live, truth)
        ensures live((u, dg[u].outSlots[j])) <==> live((v, dg[v].outSlots[k]))
      {
        assert Tells(m, live, truth);
      }
    }
  }

  lemma TrueStringLive(dg: Graph, m: PredicateMap, v: int, k: nat, name: TensorId -> string, live: Liveness,
                       truth: Liveness)
    requires Sound(dg, m) && PlainNames(name) && NodeString(dg, m, v, C.TRUE_PRED, name)
    requires k < |dg[v].outSlots| && Execution(dg, live, truth)
    ensures live((v, dg[v].outSlots[k]))
  {
    hide ToString, Execution;
    assert "#true"[1] != "#control_flow"[1];
    PrintsTrue(m[(v, dg[v].outSlots[0])], name);
    assert Tells(m, live, truth);
  }

  // ---------- clusters ----------

  /**
   In a finished cluster the nodes with a predicate other than True are live together in every execution,
   and those with the predicate True are always live.
   */
  lemma ClusterLivesTogether(g: C.OpGraph, tags: map<int, int>, dg: Graph, m: PredicateMap, h: Hash,
                             name: TensorId -> string, u: int, j: nat, v: int, k: nat)
    requires g.WellFormed() && C.ValidClustering(g, tags) && C.NoControlFlow(g)
    requires Labelled(g, dg, m, name) && Sound(dg, m) && MapTied(m, h) && MapNormal(m, h) && FaithfulNames(name)
    requires u in tags && v in tags && tags[u] == tags[v]
    requires j < |dg[u].outSlots| && k < |dg[v].outSlots|
    ensures g.pred[u] != C.TRUE_PRED && g.pred[v] != C.TRUE_PRED ==> OutputsTogether(dg, u, j, v, k)
    ensures g.pred[v] == C.TRUE_PRED ==>
              forall live, truth :: Execution(dg, live, truth) ==> live((v, dg[v].outSlots[k]))
  {
    hide ToString, MapTied, MapNormal, Execution, Sound, OutputsTogether, C.NothingReenters, C.StaticsApart,
        C.TrueNodesLeadOn;
    if g.pred[v] == C.TRUE_PRED {
      forall live, truth | Execution(dg, live, truth) ensures live((v, dg[v].outSlots[k])) {
        TrueStringLive(dg, m, v, k, name, live, truth);
      }
    } else if g.pred[u] != C.TRUE_PRED {
      assert C.PredsApart(g, tags);
      SameStringTogether(dg, m, h, u, j, v, k, g.pred[v], name);
    }
  }

  /**
   So nothing outside misses a True node when the stricter nodes of its cluster are dead: where an edge
   leaves the cluster from it, there is a node x, the reader or one of its cluster, that is live together
   with the stricter node v.
   */
  lemma LeavesTogether(g: C.OpGraph, tags: map<int, int>, dg: Graph, m: PredicateMap, h: Hash,
                       name: TensorId -> string, e: nat, v: int, k: nat) returns (x: int)
    requires g.WellFormed() && C.ValidClustering(g, tags) && C.NoControlFlow(g)
    requires Labelled(g, dg, m, name) && Sound(dg, m) && MapTied(m, h) && MapNormal(m, h) && FaithfulNames(name)
    requires e < |g.edges| && v in tags && g.edges[e].src in tags && tags[v] == tags[g.edges[e].src]
    requires g.pred[g.edges[e].src] == C.TRUE_PRED && g.pred[v] != C.TRUE_PRED && k < |dg[v].outSlots|
    requires !C.Joins(tags, v, g.edges[e].dst)
    ensures 0 <= x < g.n && C.Joins(tags, x, g.edges[e].dst) && x in dg && dg[x].outSlots != []
    ensures forall j :: 0 <= j < |dg[x].outSlots| ==> OutputsTogether(dg, v, k, x, j)
  {
    hide ToString, MapTied, MapNormal, Execution, Sound, OutputsTogether, C.NothingReenters, C.StaticsApart,
        C.PredsApart;
    assert C.TrueNodesLeadOn(g, tags);
    x :| 0 <= x < g.n && C.Joins(tags, x, g.edges[e].dst) && g.pred[x] == g.pred[v];
    SameStringTogether(dg, m, h, v, k, x, 0, g.pred[v], name);
    forall j | 0 <= j < |dg[x].outSlots| ensures OutputsTogether(dg, v, k, x, j) {
      SameStringTogether(dg, m, h, v, k, x, j, g.pred[v], name);
    }
  }
}
