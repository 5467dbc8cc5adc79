/**
 The encapsulation pass: every cluster becomes a function graph with numbered arguments and results,
 and one call node takes its place. Iteration over nodes and edges is in arbitrary order.
 */
module EncapsulateClusters {
  import opened Encapsulation
  import opened Sets

  datatype Status =
    | OK
    | AlreadyRewritten   // analysis after the rewriting
    | AlreadyAnalysed    // analysis a second time
    | DevicesDiffer      // a cluster with nodes on two devices
    | NotAnalysed        // rewriting before the analysis
    | RewrittenTwice     // rewriting a second time

  datatype Option<T> = None | Some(value: T)

  class Encapsulator {
    // attributes of the nodes
    const arity: int -> nat
    const device: int -> string
    const cluster: map<int, int>

    var graph: Graph
    var nextNodeId: int
    var analysisDone: bool
    var rewriteDone: bool

    var deviceNameMap: map<int, string>
    var outputRemapMap: map<Port, (int, int)>
    var inputRemapMap: map<(int, int, int), int>
    var inputRenameMap: map<(int, int, int), int>  // the argument that replaces an input name
    var clusterInputMap: map<int, seq<Port>>
    var clusterOutputMap: map<int, seq<Port>>
    var clusterNodeMap: map<int, int>

    // the extracted graphs
    var retvals: map<int, seq<Terminal>>
    var args: map<int, seq<Terminal>>
    var bodies: map<int, Body>

    function T(): Tables
      reads this
    {
      Tables(outputRemapMap, inputRemapMap, clusterOutputMap, clusterInputMap)
    }

    // ---------- what holds between calls ----------

    /** Node attributes and graph fit together. */
    ghost predicate GraphFits()
      reads this
    {
      && WellFormed(graph, arity) && ClustersFit(graph, cluster)
      && forall v :: v in graph.nodes ==> v < nextNodeId
    }

    ghost predicate DevicesAgree() {
      forall u, v :: u in cluster && v in cluster && cluster[u] == cluster[v] ==> device(u) == device(v)
    }

    /** The recorded devices are those of nodes in `seen`. */
    ghost predicate DevicesFrom(seen: set<int>)
      reads this`deviceNameMap
    {
      forall c :: c in deviceNameMap ==>
        exists v :: v in seen && v in cluster && cluster[v] == c && device(v) == deviceNameMap[c]
    }

    ghost predicate DevicesRecorded(seen: set<int>)
      reads this`deviceNameMap
    {
      forall v :: v in seen && v in cluster ==> cluster[v] in deviceNameMap && deviceNameMap[cluster[v]] == device(v)
    }

    /** The clusters of the graph. */
    ghost function Clusters(): set<int> {
      set v | v in cluster :: cluster[v]
    }

    /** The devices recorded for the nodes of the graph are those of its clusters. */
    lemma DevicesOfClusters()
      requires ClustersFit(graph, cluster) && DevicesFrom(graph.nodes) && DevicesRecorded(graph.nodes)
      ensures deviceNameMap.Keys == Clusters()
    {
      forall c ensures c in deviceNameMap.Keys <==> c in Clusters() {
        if c in deviceNameMap {
          var v :| v in graph.nodes && v in cluster && cluster[v] == c && device(v) == deviceNameMap[c];
        }
        if c in Clusters() {
          var v :| v in cluster && cluster[v] == c;
          assert v in graph.nodes;
        }
      }
      SameMembers(deviceNameMap.Keys, Clusters());
    }

    ghost predicate TablesEmpty()
      reads this
    {
      && outputRemapMap == map[] && inputRemapMap == map[] && inputRenameMap == map[]
      && clusterInputMap == map[] && clusterOutputMap == map[] && clusterNodeMap == map[]
      && retvals == map[] && args == map[] && bodies == map[]
    }

    /** What the analysis has established. */
    ghost predicate Analysed()
      reads this
    {
      && Numbered(cluster, T(), graph.edges)
      && Extracted(graph, cluster, arity, T(), bodies)
      && TerminalsDense(clusterOutputMap, retvals)
      && TerminalsDense(clusterInputMap, args)
      && DevicesFrom(graph.nodes) && DevicesRecorded(graph.nodes)
      && clusterNodeMap == map[]
    }

    ghost predicate Valid()
      reads this
    {
      && (rewriteDone ==> analysisDone)
      && (!rewriteDone ==> GraphFits())
      && (!analysisDone ==> TablesEmpty() && DevicesFrom(graph.nodes))
      && (analysisDone && !rewriteDone ==> Analysed())
      && (analysisDone ==> deviceNameMap.Keys == Clusters())
    }

    constructor (graph: Graph, nextNodeId: int, arity: int -> nat, device: int -> string, cluster: map<int, int>)
      requires WellFormed(graph, arity) && ClustersFit(graph, cluster)
      requires forall v :: v in graph.nodes ==> v < nextNodeId
      ensures Valid() && !analysisDone && !rewriteDone
      ensures this.graph == graph && this.arity == arity && this.cluster == cluster && this.device == device
    {
      this.graph, this.nextNodeId := graph, nextNodeId;
      this.arity, this.device, this.cluster := arity, device, cluster;
      analysisDone, rewriteDone := false, false;
      deviceNameMap, clusterNodeMap := map[], map[];
      outputRemapMap, inputRemapMap, inputRenameMap := map[], map[], map[];
      clusterInputMap, clusterOutputMap := map[], map[];
      retvals, args, bodies := map[], map[], map[];
    }

    // ---------- analysis: devices ----------

    /** Notes the device of every cluster; fails exactly when a cluster is spread over two. */
    method CheckDevices() returns (ok: bool)
      requires GraphFits() && DevicesFrom(graph.nodes)
      modifies this`deviceNameMap
      ensures DevicesFrom(graph.nodes)
      ensures ok <==> DevicesAgree()
      ensures ok ==> DevicesRecorded(graph.nodes)
    {
      var rest := graph.nodes;
      ok := true;
      while rest != {} && ok
        invariant rest <= graph.nodes
        invariant DevicesFrom(graph.nodes)
        invariant ok ==> DevicesRecorded(graph.nodes - rest)
        invariant !ok ==> !DevicesAgree()
        decreases rest
      {
        ghost var some := SomeMember(rest);
        var v :| v in rest;
        ok := CheckDevice(v, graph.nodes - rest);
        rest := rest - {v};
      }
      if ok {
        assert graph.nodes - rest == graph.nodes;
      }
    }

    method CheckDevice(v: int, ghost seen: set<int>) returns (ok: bool)
      requires GraphFits() && DevicesFrom(graph.nodes) && DevicesRecorded(seen) && v in graph.nodes
      modifies this`deviceNameMap
      ensures DevicesFrom(graph.nodes)
      ensures ok ==> DevicesRecorded(seen + {v})
      ensures !ok ==> !DevicesAgree()
    {
      ok := true;
      if v in cluster {
        var c := cluster[v];
        if c in deviceNameMap {
          ok := deviceNameMap[c] == device(v);
        } else {
          deviceNameMap := deviceNameMap[c := device(v)];
        }
      }
    }

    // ---------- analysis: numbering ----------

    /** Gives the port its number among the results of cluster c, and a result node. */
    method RecordOutput(c: int, p: Port, count: map<int, nat>) returns (count': map<int, nat>)
      requires TerminalsMatch(clusterOutputMap, retvals, count)
      modifies this`outputRemapMap, this`clusterOutputMap, this`retvals
      ensures T() == AddOutput(old(T()), c, p)
      ensures TerminalsMatch(clusterOutputMap, retvals, count')
    {
      TerminalsAppend(clusterOutputMap, retvals, count, c, p);
      outputRemapMap := outputRemapMap[p := (c, |At(clusterOutputMap, c)|)];
      retvals := retvals[c := At(retvals, c) + [Terminal(Count(count, c), p)]];
      count' := count[c := Count(count, c) + 1];
      clusterOutputMap := clusterOutputMap[c := At(clusterOutputMap, c) + [p]];
    }

    /** Gives the port its number among the arguments of cluster c, an argument node and its new name. */
    method RecordInput(c: int, p: Port, count: map<int, nat>) returns (count': map<int, nat>)
      requires TerminalsMatch(clusterInputMap, args, count) && inputRenameMap == inputRemapMap
      modifies this`inputRemapMap, this`inputRenameMap, this`clusterInputMap, this`args
      ensures T() == AddInput(old(T()), c, p)
      ensures TerminalsMatch(clusterInputMap, args, count') && inputRenameMap == inputRemapMap
    {
      TerminalsAppend(clusterInputMap, args, count, c, p);
      inputRemapMap := inputRemapMap[(c, p.0, p.1) := |At(clusterInputMap, c)|];
      inputRenameMap := inputRenameMap[(c, p.0, p.1) := |At(clusterInputMap, c)|];
      args := args[c := At(args, c) + [Terminal(Count(count, c), p)]];
      count' := count[c := Count(count, c) + 1];
      clusterInputMap := clusterInputMap[c := At(clusterInputMap, c) + [p]];
    }

    /** Numbers the ends of one edge. */
    method NumberEdge(e: Edge, retvalIndexCount: map<int, nat>, argIndexCount: map<int, nat>, ghost done: set<Edge>)
      returns (retvalIndexCount': map<int, nat>, argIndexCount': map<int, nat>)
      requires ClustersFit(graph, cluster) && Numbered(cluster, T(), done) && inputRenameMap == inputRemapMap
      requires TerminalsMatch(clusterOutputMap, retvals, retvalIndexCount)
      requires TerminalsMatch(clusterInputMap, args, argIndexCount)
      modifies this`outputRemapMap, this`clusterOutputMap, this`retvals
      modifies this`inputRemapMap, this`inputRenameMap, this`clusterInputMap, this`args
      ensures Numbered(cluster, T(), done + {e}) && inputRenameMap == inputRemapMap
      ensures TerminalsMatch(clusterOutputMap, retvals, retvalIndexCount')
      ensures TerminalsMatch(clusterInputMap, args, argIndexCount')
    {
      hide Numbered, TerminalsMatch;
      retvalIndexCount', argIndexCount' := retvalIndexCount, argIndexCount;
      ghost var t := T();
      if e.Data? && ClusterOf(cluster, e.src) != ClusterOf(cluster, e.dst) {
        var p := (e.src, e.slot);
        if e.src in cluster && p !in outputRemapMap {
          retvalIndexCount' := RecordOutput(cluster[e.src], p, retvalIndexCount);
        }
        if e.dst in cluster && (cluster[e.dst], e.src, e.slot) !in inputRemapMap {
          argIndexCount' := RecordInput(cluster[e.dst], p, argIndexCount);
        }
      }
      NumberStep(cluster, t, T(), done, e);
    }

    /** Numbers the arguments and results of all clusters. */
    method NumberPorts()
      requires GraphFits() && TablesEmpty()
      modifies this`outputRemapMap, this`clusterOutputMap, this`retvals
      modifies this`inputRemapMap, this`inputRenameMap, this`clusterInputMap, this`args
      ensures Numbered(cluster, T(), graph.edges) && inputRenameMap == inputRemapMap
      ensures TerminalsDense(clusterOutputMap, retvals)
      ensures TerminalsDense(clusterInputMap, args)
    {
      var retvalIndexCount: map<int, nat>, argIndexCount: map<int, nat> := map[], map[];
      var rest := graph.edges;
      while rest != {}
        invariant rest <= graph.edges
        invariant Numbered(cluster, T(), graph.edges - rest) && inputRenameMap == inputRemapMap
        invariant TerminalsMatch(clusterOutputMap, retvals, retvalIndexCount)
        invariant TerminalsMatch(clusterInputMap, args, argIndexCount)
      {
        ghost var some := SomeMember(rest);
        var e :| e in rest;
        ghost var done := graph.edges - rest;
        retvalIndexCount, argIndexCount := NumberEdge(e, retvalIndexCount, argIndexCount, done);
        rest := rest - {e};
        assert graph.edges - rest == done + {e};
      }
      assert graph.edges - rest == graph.edges;
    }

    // ---------- analysis: copying the nodes ----------

    ghost function InEdges(v: int): set<Edge>
      reads this`graph
    {
      set e | e in graph.edges && e.dst == v
    }

    /** The slots hold the data edges among `done`, the set the sources of the control edges inside the cluster. */
    ghost predicate Gathered(v: int, done: set<Edge>, slots: seq<Option<Edge>>, control: set<int>)
      requires v in cluster
      reads this`graph
    {
      && |slots| == arity(v)
      && (forall i :: 0 <= i < |slots| && slots[i].Some? ==>
            slots[i].value in done && slots[i].value.Data? && slots[i].value.input == i)
      && (forall e :: e in done && e.Data? && 0 <= e.input < |slots| ==> slots[e.input] == Some(e))
      && (forall u :: u in control <==> Control(u, v) in done && ClusterOf(cluster, u) == cluster[v])
    }

    /** Sorts the edges into node v by the input they feed; control edges from other clusters are dropped. */
    method GatherInputs(v: int) returns (slots: seq<Option<Edge>>, control: set<int>)
      requires GraphFits() && v in cluster
      ensures Gathered(v, InEdges(v), slots, control)
    {
      slots, control := seq(arity(v), _ => None), {};
      var rest := set e | e in graph.edges && e.dst == v;
      while rest != {}
        invariant rest <= InEdges(v)
        invariant Gathered(v, InEdges(v) - rest, slots, control)
      {
        ghost var some := SomeMember(rest);
        var e :| e in rest;
        assert e in graph.edges && e.dst == v;
        ghost var done := InEdges(v) - rest;
        if e.Control? {
          if ClusterOf(cluster, e.src) == cluster[v] {
            control := control + {e.src};
          }
        } else {
          slots := slots[e.input := Some(e)];
        }
        rest := rest - {e};
        assert InEdges(v) - rest == done + {e};
        assert Gathered(v, done + {e}, slots, control);
      }
      assert InEdges(v) - rest == InEdges(v);
    }

    /** The copy of node v for its cluster's graph: inputs that became arguments are renamed. */
    method CopyNode(v: int) returns (body: Body)
      requires GraphFits() && v in cluster && inputRenameMap == inputRemapMap
      ensures Copied(graph, cluster, arity, T(), v, body)
    {
      var slots, control := GatherInputs(v);
      var data: seq<Ref> := [];
      for i := 0 to |slots|
        invariant |data| == i
        invariant forall j :: 0 <= j < i ==> data[j] == RefTo(T(), cluster[v], Feeder(graph, v, j))
      {
        assert Fed(graph, v, i);
        ghost var p := Feeder(graph, v, i);
        ghost var f := Data(p.0, p.1, v, i);
        assert f in InEdges(v) && slots[i] == Some(f);
        var e := slots[i].value;
        var key := (cluster[v], e.src, e.slot);
        data := data + [if key in inputRenameMap then FromArg(inputRenameMap[key]) else FromNode(e.src, e.slot)];
      }
      body := Body(data, control);
    }

    method CopyNodes()
      requires GraphFits() && inputRenameMap == inputRemapMap && bodies == map[]
      modifies this`bodies
      ensures Extracted(graph, cluster, arity, T(), bodies)
    {
      var rest := graph.nodes;
      while rest != {}
        invariant rest <= graph.nodes
        invariant forall v :: v in bodies <==> v in cluster && v !in rest
        invariant forall v :: v in bodies ==> Copied(graph, cluster, arity, T(), v, bodies[v])
      {
        ghost var some := SomeMember(rest);
        var v :| v in rest;
        rest := rest - {v};
        if v in cluster {
          var body := CopyNode(v);
          bodies := bodies[v := body];
        }
      }
    }

    /** Numbers the ports and copies the nodes. */
    method Extract()
      requires GraphFits() && TablesEmpty() && DevicesFrom(graph.nodes) && DevicesRecorded(graph.nodes)
      modifies this`outputRemapMap, this`clusterOutputMap, this`retvals
      modifies this`inputRemapMap, this`inputRenameMap, this`clusterInputMap, this`args, this`bodies
      ensures Analysed()
    {
      NumberPorts();
      CopyNodes();
    }

    /** The work of the analysis once the order of calls is right. */
    method Analyse() returns (ok: bool)
      requires Valid() && !analysisDone
      modifies this
      ensures Valid() && graph == old(graph) && rewriteDone == old(rewriteDone)
      ensures ok <==> DevicesAgree()
      ensures analysisDone <==> ok
    {
      ok := CheckDevices();
      if ok {
        DevicesOfClusters();
        Extract();
        analysisDone := true;
      }
    }

    /** The analysis: numbers arguments and results and extracts the clusters; the graph stays as it is. */
    method AnalysisPass() returns (st: Status)
      requires Valid()
      modifies this
      ensures Valid() && graph == old(graph) && rewriteDone == old(rewriteDone)
      ensures st == AlreadyRewritten <==> old(rewriteDone)
      ensures st == AlreadyAnalysed <==> !old(rewriteDone) && old(analysisDone)
      ensures st == OK <==>
                && !old(rewriteDone) && !old(analysisDone)
                && forall u, v :: u in cluster && v in cluster && cluster[u] == cluster[v] ==> device(u) == device(v)
      ensures st in {OK, AlreadyRewritten, AlreadyAnalysed, DevicesDiffer}
      ensures analysisDone <==> old(analysisDone) || st == OK
    {
      if rewriteDone {
        st := AlreadyRewritten;
      } else if analysisDone {
        st := AlreadyAnalysed;
      } else {
        var ok := Analyse();
        st := if ok then OK else DevicesDiffer;
      }
    }

    // ---------- rewriting ----------

    /** The call nodes added so far: those of the clusters in `done`. */
    ghost predicate CallsSoFar(g: Graph, done: set<int>)
      reads this`graph, this`nextNodeId, this`clusterNodeMap, this`clusterInputMap, this`clusterOutputMap,
          this`outputRemapMap, this`inputRemapMap
    {
      && clusterNodeMap.Keys == done
      && CallsAdded(g, clusterNodeMap, Tables(outputRemapMap, inputRemapMap, clusterOutputMap, clusterInputMap), graph)
      && (forall v :: v in graph.nodes ==> v < nextNodeId)
      && (forall c :: c in clusterNodeMap ==> clusterNodeMap[c] !in g.nodes && clusterNodeMap[c] in graph.nodes)
      && (forall c, d :: c in clusterNodeMap && d in clusterNodeMap && clusterNodeMap[c] == clusterNodeMap[d] ==>
           c == d)
    }

    /** A new node with the given inputs. */
    method BuildNode(inputs: seq<Port>) returns (n: int)
      modifies this`graph, this`nextNodeId
      ensures n == old(nextNodeId) && nextNodeId == n + 1
      ensures graph.nodes == old(graph).nodes + {n}
      ensures forall e :: e in graph.edges <==>
                e in old(graph).edges
                    || (e.Data? && e.dst == n && 0 <= e.input < |inputs| && inputs[e.input] == (e.src, e.slot))
    {
      n := nextNodeId;
      nextNodeId := nextNodeId + 1;
      graph := Graph(graph.nodes + {n}, graph.edges);
      for i := 0 to |inputs|
        invariant nextNodeId == n + 1 && graph.nodes == old(graph).nodes + {n}
        invariant forall e :: e in graph.edges <==>
                    e in old(graph).edges
                        || (e.Data? && e.dst == n && 0 <= e.input < i && inputs[e.input] == (e.src, e.slot))
      {
        graph := Graph(graph.nodes, graph.edges + {Data(inputs[i].0, inputs[i].1, n, i)});
      }
    }

    /** Adds the call node of cluster c, fed by what fed the cluster. */
    method AddCallNode(c: int, ghost g: Graph, ghost done: set<int>)
      requires CallsSoFar(g, done) && c !in done
      modifies this`graph, this`nextNodeId, this`clusterNodeMap
      ensures CallsSoFar(g, done + {c})
    {
      ghost var t, before, calls := T(), graph, clusterNodeMap;
      var n := BuildNode(At(clusterInputMap, c));
      CallsAddedStep(g, calls, t, before, graph, c, n);
      clusterNodeMap := clusterNodeMap[c := n];
      assert clusterNodeMap.Keys == calls.Keys + {c};
    }

    /** Adds a call node for every cluster. */
    method AddCallNodes()
      requires (forall v :: v in graph.nodes ==> v < nextNodeId) && ClustersFit(graph, cluster)
      requires DevicesFrom(graph.nodes) && DevicesRecorded(graph.nodes) && clusterNodeMap == map[]
      modifies this`graph, this`nextNodeId, this`clusterNodeMap
      ensures CallNodesFit(old(graph), cluster, clusterNodeMap)
      ensures CallsAdded(old(graph), clusterNodeMap, T(), graph)
    {
      ghost var g := graph;
      var rest := deviceNameMap.Keys;
      while rest != {}
        invariant rest <= deviceNameMap.Keys
        invariant CallsSoFar(g, deviceNameMap.Keys - rest)
      {
        ghost var some := SomeMember(rest);
        var c :| c in rest;
        AddCallNode(c, g, deviceNameMap.Keys - rest);
        assert deviceNameMap.Keys - (rest - {c}) == deviceNameMap.Keys - rest + {c};
        rest := rest - {c};
      }
      assert deviceNameMap.Keys - rest == deviceNameMap.Keys;
      EveryClusterCalled(g, clusterNodeMap);
    }

    /** Devices are recorded for exactly the clusters of the graph. */
    lemma EveryClusterCalled(g: Graph, call: map<int, int>)
      requires ClustersFit(g, cluster) && DevicesFrom(g.nodes) && DevicesRecorded(g.nodes)
      requires call.Keys == deviceNameMap.Keys
      requires forall c :: c in call ==> call[c] !in g.nodes
      requires forall c, d :: c in call && d in call && call[c] == call[d] ==> c == d
      ensures CallNodesFit(g, cluster, call)
    {
    }

    /** Makes (src, slot) feed input `input` of node dst instead of what feeds it now. */
    method UpdateEdge(src: int, slot: int, dst: int, input: int)
      modifies this`graph
      ensures graph.nodes == old(graph).nodes
      ensures forall f :: f in graph.edges <==>
                f == Data(src, slot, dst, input)
                    || (f in old(graph).edges && !(f.Data? && f.dst == dst && f.input == input))
    {
      var fed := set f | f in graph.edges && f.Data? && f.dst == dst && f.input == input;
      graph := Graph(graph.nodes, graph.edges - fed + {Data(src, slot, dst, input)});
    }

    /** Redirects one edge. */
    method RedirectEdge(e: Edge, ghost done: set<Edge>, ghost rest: set<Edge>)
      requires forall v :: v in cluster ==> cluster[v] in clusterNodeMap
      requires forall v :: v in cluster ==> cluster[v] >= 0
      requires forall c :: c in clusterNodeMap ==> clusterNodeMap[c] !in cluster
      requires InputsOnce(done + rest) && e in rest && e !in done
      requires forall p :: p in outputRemapMap ==> p.0 in cluster && outputRemapMap[p].0 in clusterNodeMap
      requires RedirectedSoFar(cluster, clusterNodeMap, T(), done, rest, graph.edges)
      modifies this`graph
      ensures graph.nodes == old(graph).nodes
      ensures RedirectedSoFar(cluster, clusterNodeMap, T(), done + {e}, rest - {e}, graph.edges)
    {
      ghost var t, before := T(), graph.edges;
      if ClusterOf(cluster, e.src) == ClusterOf(cluster, e.dst) {
      } else if e.Control? {
        graph := Graph(graph.nodes, graph.edges - {e});
        if e.src in cluster && e.dst in cluster {
          graph := Graph(graph.nodes,
              graph.edges + {Control(clusterNodeMap[cluster[e.src]], clusterNodeMap[cluster[e.dst]])});
        } else if e.src in cluster {
          graph := Graph(graph.nodes, graph.edges + {Control(clusterNodeMap[cluster[e.src]], e.dst)});
        } else if e.dst in cluster {
          graph := Graph(graph.nodes, graph.edges + {Control(e.src, clusterNodeMap[cluster[e.dst]])});
        }
      } else if e.dst in cluster {
        // an argument of the call node stands for it
      } else if (e.src, e.slot) in outputRemapMap {
        var (c, i) := outputRemapMap[(e.src, e.slot)];
        UpdateEdge(clusterNodeMap[c], i, e.dst, e.input);
      }
      RedirectStep(cluster, clusterNodeMap, t, done, rest, before, e, graph.edges);
    }

    /** Redirects every edge that leaves a cluster and every control edge that enters one. */
    method RedirectEdges()
      requires forall v :: v in cluster ==> cluster[v] in clusterNodeMap
      requires forall v :: v in cluster ==> cluster[v] >= 0
      requires forall c :: c in clusterNodeMap ==> clusterNodeMap[c] !in cluster
      requires InputsOnce(graph.edges)
      requires forall p :: p in outputRemapMap ==> p.0 in cluster && outputRemapMap[p].0 in clusterNodeMap
      modifies this`graph
      ensures graph.nodes == old(graph).nodes
      ensures RedirectedSoFar(cluster, clusterNodeMap, T(), old(graph).edges, {}, graph.edges)
    {
      ghost var all := graph.edges;
      var rest := graph.edges;  // a copy
      while rest != {}
        invariant rest <= all && graph.nodes == old(graph).nodes
        invariant RedirectedSoFar(cluster, clusterNodeMap, T(), all - rest, rest, graph.edges)
      {
        ghost var some := SomeMember(rest);
        var e :| e in rest;
        assert all - rest + rest == all;
        RedirectEdge(e, all - rest, rest);
        assert all - (rest - {e}) == all - rest + {e};
        rest := rest - {e};
      }
      assert all - rest == all && rest == {};
    }

    /** Removes a node with all its edges. */
    method RemoveNode(v: int)
      modifies this`graph
      ensures graph.nodes == old(graph).nodes - {v}
      ensures forall f :: f in graph.edges <==> f in old(graph).edges && f.src != v && f.dst != v
    {
      graph := Graph(graph.nodes - {v}, set f | f in graph.edges && f.src != v && f.dst != v);
    }

    /** Removes the clustered nodes. */
    method RemoveClustered()
      requires forall v :: v in cluster ==> v in graph.nodes
      modifies this`graph
      ensures forall v :: v in graph.nodes <==> v in old(graph).nodes && v !in cluster
      ensures forall f :: f in graph.edges <==> f in old(graph).edges && f.src !in cluster && f.dst !in cluster
    {
      var rest := set v | v in graph.nodes && v in cluster;
      ghost var all := rest;
      while rest != {}
        invariant rest <= all
        invariant forall v :: v in graph.nodes <==> v in old(graph).nodes && !(v in all && v !in rest)
        invariant forall f :: f in graph.edges <==>
                    f in old(graph).edges && !(f.src in all && f.src !in rest) && !(f.dst in all && f.dst !in rest)
      {
        ghost var some := SomeMember(rest);
        var v :| v in rest;
        rest := rest - {v};
        RemoveNode(v);
      }
    }

    /** The rewriting: call nodes take the place of the clusters. */
    method Rewrite()
      requires GraphFits() && Analysed()
      modifies this`graph, this`nextNodeId, this`clusterNodeMap
      ensures Encapsulated(old(graph), cluster, arity, T(), bodies, clusterNodeMap, graph)
    {
      hide WellFormed, Numbered, Extracted, TerminalsDense, Rewritten, CallsAdded, DevicesFrom, DevicesRecorded;
      ghost var g, t := graph, T();
      AddCallNodes();
      ghost var h0 := graph;
      ResultsCalled(g, cluster, t, clusterNodeMap);
      CallsKeepInputsOnce(g, cluster, arity, t, clusterNodeMap, h0);
      RedirectEdges();
      RemoveClustered();
      SplicedIsRewritten(g, cluster, arity, t, clusterNodeMap, h0, graph);
    }

    /** The rewriting pass; the result is the encapsulated graph. */
    method RewritePass() returns (st: Status)
      requires Valid()
      modifies this
      ensures Valid() && analysisDone == old(analysisDone)
      ensures st == if !old(analysisDone) then NotAnalysed else if old(rewriteDone) then RewrittenTwice else OK
      ensures st == OK ==> rewriteDone && Encapsulated(old(graph), cluster, arity, T(), bodies, clusterNodeMap, graph)
      ensures st == OK ==> TerminalsDense(clusterOutputMap, retvals) && TerminalsDense(clusterInputMap, args)
      ensures st != OK ==> graph == old(graph) && rewriteDone == old(rewriteDone)
    {
      hide Encapsulated, WellFormed, Numbered, Extracted;
      if !analysisDone {
        st := NotAnalysed;
      } else if rewriteDone {
        st := RewrittenTwice;
      } else {
        Rewrite();
        rewriteDone := true;
        st := OK;
      }
    }

    /** The clusters found by the analysis. */
    method GetNewClusterIDs() returns (st: Status, ids: set<int>)
      requires Valid()
      ensures st == if analysisDone then OK else NotAnalysed
      ensures st == OK ==> ids == set v | v in cluster :: cluster[v]
    {
      if !analysisDone {
        return NotAnalysed, {};
      }
      return OK, deviceNameMap.Keys;
    }
  }

  /** Results belong to clustered nodes, whose clusters have call nodes. */
  lemma ResultsCalled(g: Graph, cluster: map<int, int>, t: Tables, call: map<int, int>)
    requires ClustersFit(g, cluster) && Numbered(cluster, t, g.edges) && CallNodesFit(g, cluster, call)
    ensures forall p :: p in t.outputRemap ==> p.0 in cluster && t.outputRemap[p].0 in call
  {
  }

  lemma NumberStep(cluster: map<int, int>, t: Tables, t': Tables, done: set<Edge>, e: Edge)
    requires Numbered(cluster, t, done) && forall v :: v in cluster ==> cluster[v] >= 0
    requires var out := if Crossing(cluster, e) && e.src in cluster && (e.src, e.slot) !in t.outputRemap
                        then AddOutput(t, cluster[e.src], (e.src, e.slot)) else t;
             t' == if Crossing(cluster, e) && e.dst in cluster && (cluster[e.dst], e.src, e.slot) !in t.inputRemap
                   then AddInput(out, cluster[e.dst], (e.src, e.slot)) else out
    ensures Numbered(cluster, t', done + {e})
  {
    var out := if Crossing(cluster, e) && e.src in cluster && (e.src, e.slot) !in t.outputRemap
               then AddOutput(t, cluster[e.src], (e.src, e.slot)) else t;
    OutputStep(cluster, t, out, done, e);
    SameInputs(cluster, t, out, done);
    InputStep(cluster, out, t', done, e);
    SameOutputs(cluster, out, t', done + {e});
  }

  lemma SameInputs(cluster: map<int, int>, t: Tables, t': Tables, done: set<Edge>)
    requires InputsNumbered(cluster, t, done) && t'.inputRemap == t.inputRemap && t'.inputs == t.inputs
    ensures InputsNumbered(cluster, t', done)
  {
    forall c ensures t'.Inputs(c) == t.Inputs(c) { }
  }

  lemma SameOutputs(cluster: map<int, int>, t: Tables, t': Tables, done: set<Edge>)
    requires OutputsNumbered(cluster, t, done) && t'.outputRemap == t.outputRemap && t'.outputs == t.outputs
    ensures OutputsNumbered(cluster, t', done)
  {
    forall c, i, p ensures OutputAt(t', c, i, p) <==> OutputAt(t, c, i, p) { }
  }

  lemma CallsAddedStep(g: Graph, call: map<int, int>, t: Tables, h: Graph, h': Graph, c: int, n: int)
    requires CallsAdded(g, call, t, h) && c !in call
    requires h'.nodes == h.nodes + {n}
    requires forall e :: e in h'.edges <==>
               e in h.edges || (e.Data? && e.dst == n && 0 <= e.input < |t.Inputs(c)|
                   && t.Inputs(c)[e.input] == (e.src, e.slot))
    ensures CallsAdded(g, call[c := n], t, h')
  {
    var call' := call[c := n];
    forall v ensures v in h'.nodes <==> v in g.nodes || exists d :: d in call' && call'[d] == v {
      if v == n {
        assert c in call' && call'[c] == n;
      }
      if exists d :: d in call && call[d] == v {
        var d :| d in call && call[d] == v;
        assert d in call' && call'[d] == v;
      }
    }
    forall e ensures ArgumentEdge(t, call', e) <==> ArgumentEdge(t, call, e) || ArgumentEdgeOf(t, call', e, c) {
      if ArgumentEdge(t, call, e) {
        var d :| ArgumentEdgeOf(t, call, e, d);
        assert ArgumentEdgeOf(t, call', e, d);
      }
      if ArgumentEdge(t, call', e) {
        var d :| ArgumentEdgeOf(t, call', e, d);
        assert d == c || ArgumentEdgeOf(t, call, e, d);
      }
    }
  }

  /** No input is fed twice. */
  ghost predicate InputsOnce(edges: set<Edge>) {
    forall e, f :: e in edges && f in edges && e.Data? && f.Data? && e.dst == f.dst && e.input == f.input ==> e == f
  }

  lemma CallsKeepInputsOnce(g: Graph, cluster: map<int, int>, arity: int -> nat, t: Tables, call: map<int, int>,
                            h: Graph)
    requires WellFormed(g, arity) && CallNodesFit(g, cluster, call) && CallsAdded(g, call, t, h)
    ensures InputsOnce(h.edges)
  {
  }

  lemma RedirectStep(cluster: map<int, int>, call: map<int, int>, t: Tables, done: set<Edge>, rest: set<Edge>,
                     now: set<Edge>, e: Edge, after: set<Edge>)
    requires forall v :: v in cluster ==> cluster[v] in call
    requires forall c :: c in call ==> call[c] !in cluster
    requires InputsOnce(done + rest) && e in rest && e !in done
    requires RedirectedSoFar(cluster, call, t, done, rest, now)
    requires var f := Redirected(cluster, call, t, e);
             if f == e then after == now
             else forall x :: x in after <==>
               x == f || (x in now && x != e && !(e.Data? && x.Data? && x.dst == e.dst && x.input == e.input))
    ensures RedirectedSoFar(cluster, call, t, done + {e}, rest - {e}, after)
  {
  }
}
