/**
 What encapsulation computes, on values: the numbering of arguments and results, the graph extracted
 for every cluster, the rewritten graph, and the meaning of all of them.
 */
module Encapsulation {
  import opened Digraph
  import opened Quotient

  /** An output of a node: the node and the slot. */
  type Port = (int, int)

  datatype Edge =
    | Data(src: int, slot: int, dst: int, input: int)
    | Control(src: int, dst: int)

  datatype Graph = Graph(nodes: set<int>, edges: set<Edge>)

  /** The cluster of a node, -1 when it has none. */
  function ClusterOf(cluster: map<int, int>, v: int): int {
    if v in cluster then cluster[v] else -1
  }

  predicate Crossing(cluster: map<int, int>, e: Edge) {
    e.Data? && ClusterOf(cluster, e.src) != ClusterOf(cluster, e.dst)
  }

  /** Clusters have indices from 0 on and contain nodes of the graph. */
  predicate ClustersFit(g: Graph, cluster: map<int, int>) {
    forall v :: v in cluster ==> v in g.nodes && cluster[v] >= 0
  }

  /** Edges join nodes of the graph, and every input of a node is fed by exactly one edge. */
  ghost predicate WellFormed(g: Graph, arity: int -> nat) {
    && (forall e :: e in g.edges ==> e.src in g.nodes && e.dst in g.nodes)
    && (forall e :: e in g.edges && e.Data? ==> 0 <= e.input < arity(e.dst))
    && (forall e, f :: e in g.edges && f in g.edges && e.Data? && f.Data? && e.dst == f.dst && e.input == f.input ==>
         e == f)
    && (forall v, i :: v in g.nodes && 0 <= i < arity(v) ==> Fed(g, v, i))
  }

  ghost predicate Fed(g: Graph, v: int, i: int) {
    exists s, k :: Data(s, k, v, i) in g.edges
  }

  /** The output that feeds input `i` of node `v`, if there is one. */
  ghost function Feeder(g: Graph, v: int, i: int): (p: Port)
    ensures Fed(g, v, i) ==> Data(p.0, p.1, v, i) in g.edges
  {
    if Fed(g, v, i) then
      var s, k :| Data(s, k, v, i) in g.edges;
      (s, k)
    else (-1, -1)
  }

  // ---------- numbering ----------

  /** The remap tables and, per cluster, the ports in argument and in result order. */
  datatype Tables = Tables(
    outputRemap: map<Port, (int, int)>,
    inputRemap: map<(int, int, int), int>,
    outputs: map<int, seq<Port>>,
    inputs: map<int, seq<Port>>)
  {
    function Outputs(c: int): seq<Port> {
      if c in outputs then outputs[c] else []
    }

    function Inputs(c: int): seq<Port> {
      if c in inputs then inputs[c] else []
    }
  }

  /** A crossing edge among `done` leaves port p of a clustered node. */
  ghost predicate Leaves(cluster: map<int, int>, done: set<Edge>, p: Port) {
    p.0 in cluster && exists e :: e in done && Crossing(cluster, e) && (e.src, e.slot) == p
  }

  /** A crossing edge among `done` carries port p into cluster c. */
  ghost predicate Enters(cluster: map<int, int>, done: set<Edge>, c: int, p: Port) {
    c >= 0 && exists e :: e in done && Crossing(cluster, e) && (e.src, e.slot) == p && ClusterOf(cluster, e.dst) == c
  }

  /** Port p is result i of cluster c. */
  ghost predicate OutputAt(t: Tables, c: int, i: int, p: Port) {
    0 <= i < |t.Outputs(c)| && t.Outputs(c)[i] == p
  }

  /** Results: one per distinct port leaving the cluster, numbered densely, as the remap table says. */
  ghost predicate OutputsNumbered(cluster: map<int, int>, t: Tables, done: set<Edge>) {
    && (forall p :: p in t.outputRemap <==> Leaves(cluster, done, p))
    && (forall p :: p in t.outputRemap ==>
          t.outputRemap[p].0 == ClusterOf(cluster, p.0) && OutputAt(t, t.outputRemap[p].0, t.outputRemap[p].1, p))
    && (forall c, i, p :: OutputAt(t, c, i, p) ==> p in t.outputRemap && t.outputRemap[p] == (c, i))
  }

  /** Arguments: one per distinct port entering the cluster, numbered densely, as the remap table says. */
  ghost predicate InputsNumbered(cluster: map<int, int>, t: Tables, done: set<Edge>) {
    && (forall c, s, k :: (c, s, k) in t.inputRemap <==> Enters(cluster, done, c, (s, k)))
    && (forall c, s, k :: (c, s, k) in t.inputRemap ==>
          var i := t.inputRemap[(c, s, k)];
          0 <= i < |t.Inputs(c)| && t.Inputs(c)[i] == (s, k))
    && (forall c, i :: 0 <= i < |t.Inputs(c)| ==>
          var p := t.Inputs(c)[i];
          (c, p.0, p.1) in t.inputRemap && t.inputRemap[(c, p.0, p.1)] == i)
  }

  ghost predicate Numbered(cluster: map<int, int>, t: Tables, done: set<Edge>) {
    OutputsNumbered(cluster, t, done) && InputsNumbered(cluster, t, done)
  }

  /** Dense numbering means that no port is numbered twice in a cluster. */
  lemma NumbersDistinct(cluster: map<int, int>, t: Tables, done: set<Edge>, c: int, i: int, j: int)
    requires Numbered(cluster, t, done)
    ensures 0 <= i < j < |t.Outputs(c)| ==> t.Outputs(c)[i] != t.Outputs(c)[j]
    ensures 0 <= i < j < |t.Inputs(c)| ==> t.Inputs(c)[i] != t.Inputs(c)[j]
  {
    if 0 <= i < j < |t.Outputs(c)| {
      assert OutputAt(t, c, i, t.Outputs(c)[i]) && OutputAt(t, c, j, t.Outputs(c)[j]);
    }
  }

  function At<X>(m: map<int, seq<X>>, c: int): seq<X> {
    if c in m then m[c] else []
  }

  function Count(m: map<int, nat>, c: int): nat {
    if c in m then m[c] else 0
  }

  /** A result node or an argument node of an extracted graph: its index and the port it stands for. */
  datatype Terminal = Terminal(index: nat, port: Port)

  /** The terminals of every cluster are its ports, indexed densely. */
  ghost predicate TerminalsDense(ports: map<int, seq<Port>>, terminals: map<int, seq<Terminal>>) {
    forall c ::
      && |At(terminals, c)| == |At(ports, c)|
      && forall i :: 0 <= i < |At(ports, c)| ==> At(terminals, c)[i] == Terminal(i, At(ports, c)[i])
  }

  /** ... and `count` holds the next index for every cluster. */
  ghost predicate TerminalsMatch(ports: map<int, seq<Port>>, terminals: map<int, seq<Terminal>>, count: map<int, nat>) {
    TerminalsDense(ports, terminals) && forall c :: Count(count, c) == |At(ports, c)|
  }

  lemma TerminalsAppend(ports: map<int, seq<Port>>, terminals: map<int, seq<Terminal>>, count: map<int, nat>, c: int,
                        p: Port)
    requires TerminalsMatch(ports, terminals, count)
    ensures TerminalsMatch(ports[c := At(ports, c) + [p]],
                           terminals[c := At(terminals, c) + [Terminal(Count(count, c), p)]],
                           count[c := Count(count, c) + 1])
  {
    var ports' := ports[c := At(ports, c) + [p]];
    var terminals' := terminals[c := At(terminals, c) + [Terminal(Count(count, c), p)]];
    var count' := count[c := Count(count, c) + 1];
    forall d
      ensures |At(terminals', d)| == |At(ports', d)|
      ensures forall i :: 0 <= i < |At(ports', d)| ==> At(terminals', d)[i] == Terminal(i, At(ports', d)[i])
    {
      assert |At(terminals, d)| == |At(ports, d)| && Count(count, d) == |At(ports, d)|;
    }
    forall d ensures Count(count', d) == |At(ports', d)| {
      assert Count(count, d) == |At(ports, d)|;
    }
  }

  /** The tables with p as the next result of cluster c, or as its next argument. */
  function AddOutput(t: Tables, c: int, p: Port): Tables {
    t.(outputRemap := t.outputRemap[p := (c, |t.Outputs(c)|)], outputs := t.outputs[c := t.Outputs(c) + [p]])
  }

  function AddInput(t: Tables, c: int, p: Port): Tables {
    t.(inputRemap := t.inputRemap[(c, p.0, p.1) := |t.Inputs(c)|], inputs := t.inputs[c := t.Inputs(c) + [p]])
  }

  lemma OutputStep(cluster: map<int, int>, t: Tables, t': Tables, done: set<Edge>, e: Edge)
    requires OutputsNumbered(cluster, t, done)
    requires t' == if Crossing(cluster, e) && e.src in cluster && (e.src, e.slot) !in t.outputRemap
                   then AddOutput(t, cluster[e.src], (e.src, e.slot)) else t
    ensures OutputsNumbered(cluster, t', done + {e})
  {
    forall p ensures Leaves(cluster, done + {e}, p) <==>
                     Leaves(cluster, done, p) || (Crossing(cluster, e) && p.0 in cluster && p == (e.src, e.slot))
    {
      if Leaves(cluster, done, p) {
        var f :| f in done && Crossing(cluster, f) && (f.src, f.slot) == p;
        assert f in done + {e};
      }
    }
    if Crossing(cluster, e) && e.src in cluster && (e.src, e.slot) !in t.outputRemap {
      NextOutput(cluster, t, done, done + {e}, cluster[e.src], (e.src, e.slot));
    }
  }

  lemma NextOutput(cluster: map<int, int>, t: Tables, done: set<Edge>, more: set<Edge>, c: int, p: Port)
    requires OutputsNumbered(cluster, t, done) && p !in t.outputRemap && p.0 in cluster && c == cluster[p.0]
    requires forall q :: Leaves(cluster, more, q) <==> Leaves(cluster, done, q) || q == p
    ensures OutputsNumbered(cluster, AddOutput(t, c, p), more)
  {
    var t', n := AddOutput(t, c, p), |t.Outputs(c)|;
    forall d, i, q
      ensures OutputAt(t', d, i, q) <==> OutputAt(t, d, i, q) || (d, i, q) == (c, n, p)
    {
    }
    assert OutputAt(t', c, n, p);
  }

  lemma InputStep(cluster: map<int, int>, t: Tables, t': Tables, done: set<Edge>, e: Edge)
    requires InputsNumbered(cluster, t, done) && forall v :: v in cluster ==> cluster[v] >= 0
    requires t' == if Crossing(cluster, e) && e.dst in cluster && (cluster[e.dst], e.src, e.slot) !in t.inputRemap
                   then AddInput(t, cluster[e.dst], (e.src, e.slot)) else t
    ensures InputsNumbered(cluster, t', done + {e})
  {
    forall c, p ensures Enters(cluster, done + {e}, c, p) <==>
                        Enters(cluster, done, c, p)
                            || (Crossing(cluster, e) && c >= 0 && c == ClusterOf(cluster, e.dst)
                            && p == (e.src, e.slot))
    {
      if Enters(cluster, done, c, p) {
        var f :| f in done && Crossing(cluster, f) && (f.src, f.slot) == p && ClusterOf(cluster, f.dst) == c;
        assert f in done + {e};
      }
    }
    forall c ensures t'.Inputs(c) == t.Inputs(c) || t'.Inputs(c) == t.Inputs(c) + [(e.src, e.slot)] { }
  }

  // ---------- the extracted graphs ----------

  /** Where an input inside an extracted graph comes from. */
  datatype Ref = FromNode(node: int, slot: int) | FromArg(arg: int)

  /** How cluster c refers to a port: by argument number if it comes from outside. */
  function RefTo(t: Tables, c: int, p: Port): Ref {
    if (c, p.0, p.1) in t.inputRemap then FromArg(t.inputRemap[(c, p.0, p.1)]) else FromNode(p.0, p.1)
  }

  /** A copied node: its data inputs, and the nodes of the cluster it waits for. */
  datatype Body = Body(data: seq<Ref>, control: set<int>)

  /** The copy of a clustered node has its old inputs, those from outside by argument. */
  ghost predicate Copied(g: Graph, cluster: map<int, int>, arity: int -> nat, t: Tables, v: int, body: Body)
    requires v in cluster
  {
    && |body.data| == arity(v)
    && (forall i :: 0 <= i < arity(v) ==> body.data[i] == RefTo(t, cluster[v], Feeder(g, v, i)))
    && (forall u :: u in body.control <==> Control(u, v) in g.edges && ClusterOf(cluster, u) == cluster[v])
  }

  /** `bodies` holds a copy of every clustered node. */
  ghost predicate Extracted(g: Graph, cluster: map<int, int>, arity: int -> nat, t: Tables, bodies: map<int, Body>)
  {
    && (forall v :: v in bodies <==> v in cluster)
    && (forall v :: v in cluster ==> Copied(g, cluster, arity, t, v, bodies[v]))
  }

  // ---------- the rewritten graph ----------

  /** Every cluster has its own new node. */
  ghost predicate CallNodesFit(g: Graph, cluster: map<int, int>, call: map<int, int>) {
    && (forall v :: v in cluster ==> cluster[v] in call)
    && (forall c :: c in call ==> call[c] !in g.nodes)
    && (forall c, d :: c in call && d in call && call[c] == call[d] ==> c == d)
    && (forall c :: c in call ==> exists v :: v in cluster && cluster[v] == c)
  }

  /** The node that stands for v after rewriting. */
  function Label(cluster: map<int, int>, call: map<int, int>, v: int): int
    requires v in cluster ==> cluster[v] in call
  {
    if v in cluster then call[cluster[v]] else v
  }

  /** Where a port of the original graph is found after rewriting. */
  function NewPort(call: map<int, int>, t: Tables, p: Port): Port {
    if p in t.outputRemap && t.outputRemap[p].0 in call then (call[t.outputRemap[p].0], t.outputRemap[p].1) else p
  }

  /** A data edge of the rewritten graph feeds a survivor as before, or an argument of a call node. */
  ghost predicate Feeds(g: Graph, cluster: map<int, int>, call: map<int, int>, t: Tables, p: Port, dst: int,
                        input: int)
  {
    || (dst !in cluster && Data(p.0, p.1, dst, input) in g.edges)
    || (exists c :: c in call && call[c] == dst && 0 <= input < |t.Inputs(c)| && t.Inputs(c)[input] == p)
  }

  /** The data edges of the rewritten graph: whatever was fed by a port is fed by its new port. */
  ghost predicate DataRewritten(g: Graph, cluster: map<int, int>, call: map<int, int>, t: Tables, h: Graph) {
    && (forall p: Port, d, i :: Feeds(g, cluster, call, t, p, d, i) ==>
          Data(NewPort(call, t, p).0, NewPort(call, t, p).1, d, i) in h.edges)
    && (forall e :: e in h.edges && e.Data? ==>
          exists p: Port :: Feeds(g, cluster, call, t, p, e.dst, e.input) && NewPort(call, t, p) == (e.src, e.slot))
  }

  /** A control edge that survives, up to the replacement of its ends. */
  ghost predicate KeptControl(g: Graph, cluster: map<int, int>, u: int, v: int) {
    && Control(u, v) in g.edges
    && (u in cluster && v in cluster ==> cluster[u] != cluster[v])
  }

  /** The control edges of the rewritten graph: the kept ones, with clustered ends replaced by call nodes. */
  ghost predicate ControlRewritten(g: Graph, cluster: map<int, int>, call: map<int, int>, h: Graph)
    requires CallNodesFit(g, cluster, call)
  {
    && (forall u, v :: KeptControl(g, cluster, u, v) ==>
         Control(Label(cluster, call, u), Label(cluster, call, v)) in h.edges)
    && (forall e :: e in h.edges && e.Control? ==>
          exists u, v :: KeptControl(g, cluster, u, v) && Label(cluster, call, u) == e.src
              && Label(cluster, call, v) == e.dst)
  }

  ghost predicate Rewritten(g: Graph, cluster: map<int, int>, call: map<int, int>, t: Tables, h: Graph)
    requires CallNodesFit(g, cluster, call)
  {
    && (forall v :: v in h.nodes <==> (v in g.nodes && v !in cluster) || exists c :: c in call && call[c] == v)
    && DataRewritten(g, cluster, call, t, h)
    && ControlRewritten(g, cluster, call, h)
  }

  /** The situation after both passes. */
  ghost predicate Encapsulated(g: Graph, cluster: map<int, int>, arity: int -> nat, t: Tables, bodies: map<int, Body>,
                               call: map<int, int>, h: Graph)
  {
    && WellFormed(g, arity) && ClustersFit(g, cluster)
    && Numbered(cluster, t, g.edges)
    && Extracted(g, cluster, arity, t, bodies)
    && CallNodesFit(g, cluster, call)
    && Rewritten(g, cluster, call, t, h)
  }

  // ---------- rewriting, edge by edge ----------

  /** The data edge for argument i of cluster c's call node. */
  ghost predicate ArgumentEdge(t: Tables, call: map<int, int>, e: Edge) {
    exists c :: ArgumentEdgeOf(t, call, e, c)
  }

  ghost predicate ArgumentEdgeOf(t: Tables, call: map<int, int>, e: Edge, c: int) {
    && e.Data? && c in call && e.dst == call[c]
    && 0 <= e.input < |t.Inputs(c)| && t.Inputs(c)[e.input] == (e.src, e.slot)
  }

  /** The graph with the call nodes in place, before anything is redirected or removed. */
  ghost predicate CallsAdded(g: Graph, call: map<int, int>, t: Tables, h: Graph) {
    && (forall v :: v in h.nodes <==> v in g.nodes || exists c :: c in call && call[c] == v)
    && (forall e :: e in h.edges <==> e in g.edges || ArgumentEdge(t, call, e))
  }

  /** What edge `e` is replaced by. */
  function Redirected(cluster: map<int, int>, call: map<int, int>, t: Tables, e: Edge): Edge
    requires forall v :: v in cluster ==> cluster[v] in call
  {
    if ClusterOf(cluster, e.src) == ClusterOf(cluster, e.dst) then e
    else if e.Control? then Control(Label(cluster, call, e.src), Label(cluster, call, e.dst))
    else if e.dst in cluster || (e.src, e.slot) !in t.outputRemap then e
    else
      var p := NewPort(call, t, (e.src, e.slot));
      Data(p.0, p.1, e.dst, e.input)
  }

  /** The edges once those in `done` are redirected and those in `rest` are not. */
  ghost predicate RedirectedSoFar(cluster: map<int, int>, call: map<int, int>, t: Tables, done: set<Edge>,
                                  rest: set<Edge>, now: set<Edge>)
    requires forall v :: v in cluster ==> cluster[v] in call
  {
    forall f :: f in now <==> f in rest || exists e :: e in done && Redirected(cluster, call, t, e) == f
  }

  /** The graph after redirecting all edges of h0 and removing the clustered nodes. */
  ghost predicate Spliced(cluster: map<int, int>, call: map<int, int>, t: Tables, h0: Graph, h: Graph)
    requires forall v :: v in cluster ==> cluster[v] in call
  {
    && (forall v :: v in h.nodes <==> v in h0.nodes && v !in cluster)
    && (forall f :: f in h.edges <==>
          f.src !in cluster && f.dst !in cluster && exists e :: e in h0.edges && Redirected(cluster, call, t, e) == f)
  }

  /** A data edge that ends outside the clusters comes from its new port after redirection. */
  lemma RedirectedData(g: Graph, cluster: map<int, int>, arity: int -> nat, t: Tables, call: map<int, int>, e: Edge)
    requires WellFormed(g, arity) && ClustersFit(g, cluster) && Numbered(cluster, t, g.edges)
    requires CallNodesFit(g, cluster, call)
    requires e.Data? && e.dst !in cluster && (e in g.edges || ArgumentEdge(t, call, e))
    ensures var p := NewPort(call, t, (e.src, e.slot));
            p.0 !in cluster && Redirected(cluster, call, t, e) == Data(p.0, p.1, e.dst, e.input)
  {
    var p := (e.src, e.slot);
    if e.src in cluster {
      if e in g.edges {
        assert Crossing(cluster, e) && Leaves(cluster, g.edges, p);
      } else {
        var c :| ArgumentEdgeOf(t, call, e, c);
        assert (c, p.0, p.1) in t.inputRemap;
        assert Enters(cluster, g.edges, c, (p.0, p.1));
        var f :| f in g.edges && Crossing(cluster, f) && (f.src, f.slot) == p && ClusterOf(cluster, f.dst) == c;
        assert Leaves(cluster, g.edges, p);
      }
    } else {
      assert !Leaves(cluster, g.edges, p);
    }
  }

  lemma SplicedIsRewritten(g: Graph, cluster: map<int, int>, arity: int -> nat, t: Tables, call: map<int, int>,
                           h0: Graph, h: Graph)
    requires WellFormed(g, arity) && ClustersFit(g, cluster) && Numbered(cluster, t, g.edges)
    requires CallNodesFit(g, cluster, call)
    requires CallsAdded(g, call, t, h0) && Spliced(cluster, call, t, h0, h)
    ensures Rewritten(g, cluster, call, t, h)
  {
    SplicedData(g, cluster, arity, t, call, h0, h);
    SplicedControl(g, cluster, arity, t, call, h0, h);
  }

  lemma SplicedData(g: Graph, cluster: map<int, int>, arity: int -> nat, t: Tables, call: map<int, int>, h0: Graph,
                    h: Graph)
    requires WellFormed(g, arity) && ClustersFit(g, cluster) && Numbered(cluster, t, g.edges)
    requires CallNodesFit(g, cluster, call)
    requires CallsAdded(g, call, t, h0) && Spliced(cluster, call, t, h0, h)
    ensures DataRewritten(g, cluster, call, t, h)
  {
    forall p: Port, d, i | Feeds(g, cluster, call, t, p, d, i)
      ensures Data(NewPort(call, t, p).0, NewPort(call, t, p).1, d, i) in h.edges
    {
      var e := Data(p.0, p.1, d, i);
      if !(d !in cluster && e in g.edges) {
        var c :| c in call && call[c] == d && 0 <= i < |t.Inputs(c)| && t.Inputs(c)[i] == p;
        assert ArgumentEdgeOf(t, call, e, c);
      }
      RedirectedData(g, cluster, arity, t, call, e);
    }
    forall f | f in h.edges && f.Data?
      ensures exists p: Port :: Feeds(g, cluster, call, t, p, f.dst, f.input) && NewPort(call, t, p) == (f.src, f.slot)
    {
      var e :| e in h0.edges && Redirected(cluster, call, t, e) == f;
      RedirectedData(g, cluster, arity, t, call, e);
      var p := (e.src, e.slot);
      if e !in g.edges {
        var c :| ArgumentEdgeOf(t, call, e, c);
        assert t.Inputs(c)[e.input] == p;
      }
      assert Feeds(g, cluster, call, t, p, f.dst, f.input);
    }
  }

  lemma SplicedControl(g: Graph, cluster: map<int, int>, arity: int -> nat, t: Tables, call: map<int, int>, h0: Graph,
                       h: Graph)
    requires WellFormed(g, arity) && ClustersFit(g, cluster) && Numbered(cluster, t, g.edges)
    requires CallNodesFit(g, cluster, call)
    requires CallsAdded(g, call, t, h0) && Spliced(cluster, call, t, h0, h)
    ensures ControlRewritten(g, cluster, call, h)
  {
    forall u, v | KeptControl(g, cluster, u, v)
      ensures Control(Label(cluster, call, u), Label(cluster, call, v)) in h.edges
    {
      var e := Control(u, v);
      assert e in h0.edges;
      assert Redirected(cluster, call, t, e) == Control(Label(cluster, call, u), Label(cluster, call, v));
    }
    forall f | f in h.edges && f.Control?
      ensures exists u, v :: KeptControl(g, cluster, u, v) && Label(cluster, call, u) == f.src
                && Label(cluster, call, v) == f.dst
    {
      var e :| e in h0.edges && Redirected(cluster, call, t, e) == f;
      assert e == Control(e.src, e.dst);
      assert KeptControl(g, cluster, e.src, e.dst);
    }
  }

  // ---------- meaning ----------

  /** The values of all outputs. */
  type Valuation<!V> = (int, int) -> V

  /** What a node computes: from the values of its inputs, the value of each output slot. */
  type Semantics<!V> = (int, seq<V>, int) -> V

  ghost function InputValues<V>(g: Graph, n: nat, val: Valuation<V>, v: int): (r: seq<V>)
    ensures |r| == n && forall i :: 0 <= i < n ==> r[i] == val(Feeder(g, v, i).0, Feeder(g, v, i).1)
  {
    seq(n, i requires 0 <= i < n => val(Feeder(g, v, i).0, Feeder(g, v, i).1))
  }

  /** Every output has the value its node computes from its inputs. */
  ghost predicate Solves<V(!new)>(g: Graph, arity: int -> nat, sem: Semantics<V>, val: Valuation<V>) {
    forall v, k :: v in g.nodes ==> val(v, k) == sem(v, InputValues(g, arity(v), val, v), k)
  }

  /** The value of a reference inside an extracted graph called with arguments `args`. */
  ghost function RefValue<V>(inner: Valuation<V>, args: seq<V>, r: Ref): V {
    match r
    case FromNode(v, k) => inner(v, k)
    case FromArg(i) => if 0 <= i < |args| then args[i] else inner(-1, i)  // never out of range here
  }

  ghost function BodyValues<V>(inner: Valuation<V>, args: seq<V>, refs: seq<Ref>): (r: seq<V>)
    ensures |r| == |refs| && forall i :: 0 <= i < |refs| ==> r[i] == RefValue(inner, args, refs[i])
  {
    seq(|refs|, i requires 0 <= i < |refs| => RefValue(inner, args, refs[i]))
  }

  /** `inner` is the evaluation of every extracted graph on the arguments its call node receives in `h`. */
  ghost predicate EvaluatesBodies<V(!new)>(cluster: map<int, int>, t: Tables, bodies: map<int, Body>,
                                           call: map<int, int>, h: Graph, sem: Semantics<V>, outer: Valuation<V>,
                                           inner: Valuation<V>)
  {
    forall v, k :: v in cluster && v in bodies && cluster[v] in call ==>
      var c := cluster[v];
      inner(v, k) == sem(v, BodyValues(inner, InputValues(h, |t.Inputs(c)|, outer, call[c]), bodies[v].data), k)
  }

  /**
   A valuation of the rewritten graph: survivors compute as before from their new inputs, and result i
   of a call node is the i-th result of the evaluation of its extracted graph.
   */
  ghost predicate SolvesRewritten<V(!new)>(g: Graph, cluster: map<int, int>, arity: int -> nat, t: Tables,
                                           bodies: map<int, Body>, call: map<int, int>, h: Graph, sem: Semantics<V>,
                                           outer: Valuation<V>, inner: Valuation<V>)
  {
    && (forall v, k :: v in g.nodes && v !in cluster ==> outer(v, k) == sem(v, InputValues(h, arity(v), outer, v), k))
    && (forall c, i :: c in call && 0 <= i < |t.Outputs(c)| ==>
          outer(call[c], i) == inner(t.Outputs(c)[i].0, t.Outputs(c)[i].1))
    && EvaluatesBodies(cluster, t, bodies, call, h, sem, outer, inner)
  }

  // ---------- the new feeders ----------

  /** What fed a survivor or an argument is fed by the new port of the same output, and by nothing else. */
  lemma NewFeeder(g: Graph, cluster: map<int, int>, arity: int -> nat, t: Tables, bodies: map<int, Body>,
                  call: map<int, int>, h: Graph, p: Port, d: int, i: int)
    requires Encapsulated(g, cluster, arity, t, bodies, call, h)
    requires Feeds(g, cluster, call, t, p, d, i)
    ensures Feeder(h, d, i) == NewPort(call, t, p)
  {
    var q := NewPort(call, t, p);
    assert Data(q.0, q.1, d, i) in h.edges;
    assert Fed(h, d, i);
    var r := Feeder(h, d, i);
    var e := Data(r.0, r.1, d, i);
    assert e in h.edges;
    var p': Port :| Feeds(g, cluster, call, t, p', e.dst, e.input) && NewPort(call, t, p') == (e.src, e.slot);
    OneSource(g, cluster, arity, t, call, p, p', d, i);
  }

  lemma OneSource(g: Graph, cluster: map<int, int>, arity: int -> nat, t: Tables, call: map<int, int>, p: Port, q: Port,
                  d: int, i: int)
    requires WellFormed(g, arity) && CallNodesFit(g, cluster, call)
    requires Feeds(g, cluster, call, t, p, d, i) && Feeds(g, cluster, call, t, q, d, i)
    ensures p == q
  {
    if d in g.nodes {
      assert Data(p.0, p.1, d, i) in g.edges && Data(q.0, q.1, d, i) in g.edges;
      assert Data(p.0, p.1, d, i) == Data(q.0, q.1, d, i);
    } else {
      var c :| c in call && call[c] == d && 0 <= i < |t.Inputs(c)| && t.Inputs(c)[i] == p;
      var c' :| c' in call && call[c'] == d && 0 <= i < |t.Inputs(c')| && t.Inputs(c')[i] == q;
    }
  }

  /** An input of a survivor is fed by the new port of what fed it before. */
  lemma SurvivorInput(g: Graph, cluster: map<int, int>, arity: int -> nat, t: Tables, bodies: map<int, Body>,
                      call: map<int, int>, h: Graph, v: int, i: int)
    requires Encapsulated(g, cluster, arity, t, bodies, call, h)
    requires v in g.nodes && v !in cluster && 0 <= i < arity(v)
    ensures Feeder(h, v, i) == NewPort(call, t, Feeder(g, v, i))
    ensures Feeder(g, v, i).0 in cluster ==> Feeder(g, v, i) in t.outputRemap
  {
    var p := Feeder(g, v, i);
    assert Fed(g, v, i);
    var e := Data(p.0, p.1, v, i);
    assert e in g.edges;
    NewFeeder(g, cluster, arity, t, bodies, call, h, p, v, i);
    if p.0 in cluster {
      assert Crossing(cluster, e);
      assert Leaves(cluster, g.edges, p);
    }
  }

  /** Argument i of a call node is fed by the new port of the i-th port entering the cluster. */
  lemma ArgumentInput(g: Graph, cluster: map<int, int>, arity: int -> nat, t: Tables, bodies: map<int, Body>,
                      call: map<int, int>, h: Graph, c: int, i: int)
    requires Encapsulated(g, cluster, arity, t, bodies, call, h)
    requires c in call && 0 <= i < |t.Inputs(c)|
    ensures Feeder(h, call[c], i) == NewPort(call, t, t.Inputs(c)[i])
    ensures t.Inputs(c)[i].0 in cluster ==> t.Inputs(c)[i] in t.outputRemap
  {
    var p := t.Inputs(c)[i];
    NewFeeder(g, cluster, arity, t, bodies, call, h, p, call[c], i);
    if p.0 in cluster {
      assert (c, p.0, p.1) in t.inputRemap;
      assert Enters(cluster, g.edges, c, (p.0, p.1));
      var e :| e in g.edges && Crossing(cluster, e) && (e.src, e.slot) == p && ClusterOf(cluster, e.dst) == c;
      assert Leaves(cluster, g.edges, p);
    }
  }

  /** An input of a clustered node is a reference to what fed it: inside by node, from outside by argument. */
  lemma BodyInput(g: Graph, cluster: map<int, int>, arity: int -> nat, t: Tables, bodies: map<int, Body>,
                  call: map<int, int>, h: Graph, v: int, i: int)
    returns (p: Port)
    requires Encapsulated(g, cluster, arity, t, bodies, call, h)
    requires v in cluster && 0 <= i < arity(v)
    ensures p == Feeder(g, v, i) && v in bodies && |bodies[v].data| == arity(v)
    ensures bodies[v].data[i].FromArg? ==>
              0 <= bodies[v].data[i].arg < |t.Inputs(cluster[v])| && t.Inputs(cluster[v])[bodies[v].data[i].arg] == p
    ensures bodies[v].data[i].FromNode? ==> bodies[v].data[i] == FromNode(p.0, p.1) && p.0 in cluster
  {
    p := Feeder(g, v, i);
    assert Fed(g, v, i);
    var e := Data(p.0, p.1, v, i);
    assert e in g.edges;
    assert bodies[v].data[i] == RefTo(t, cluster[v], p);
    if ClusterOf(cluster, p.0) != cluster[v] {
      assert Crossing(cluster, e);
      assert Enters(cluster, g.edges, cluster[v], (p.0, p.1));
    }
  }

  // ---------- meaning is preserved ----------

  /** Whether x is the call node of cluster c and i one of its results. */
  ghost predicate ResultOf(call: map<int, int>, t: Tables, x: int, i: int, c: int) {
    c in call && call[c] == x && 0 <= i < |t.Outputs(c)|
  }

  /** The value of an output in the rewritten graph, taken over from the original graph. */
  ghost function RestrictAt<V>(call: map<int, int>, t: Tables, val: Valuation<V>, x: int, i: int): V {
    if exists c :: ResultOf(call, t, x, i, c) then
      var c :| ResultOf(call, t, x, i, c);
      val(t.Outputs(c)[i].0, t.Outputs(c)[i].1)
    else val(x, i)
  }

  ghost function Restrict<V>(call: map<int, int>, t: Tables, val: Valuation<V>): Valuation<V> {
    (x: int, i: int) => RestrictAt(call, t, val, x, i)
  }

  lemma RestrictResult<V(!new)>(g: Graph, cluster: map<int, int>, call: map<int, int>, t: Tables, val: Valuation<V>,
                                c: int, i: int)
    requires CallNodesFit(g, cluster, call) && c in call && 0 <= i < |t.Outputs(c)|
    ensures Restrict(call, t, val)(call[c], i) == val(t.Outputs(c)[i].0, t.Outputs(c)[i].1)
  {
    assert ResultOf(call, t, call[c], i, c);
    forall d | ResultOf(call, t, call[c], i, d) ensures d == c { }
  }

  lemma RestrictSurvivor<V(!new)>(g: Graph, cluster: map<int, int>, call: map<int, int>, t: Tables, val: Valuation<V>,
                                  v: int, k: int)
    requires CallNodesFit(g, cluster, call) && v in g.nodes
    ensures Restrict(call, t, val)(v, k) == val(v, k)
  {
    forall c ensures !ResultOf(call, t, v, k, c) { }
  }

  /** The value of an output of the original graph, taken over from the rewritten graph. */
  ghost function Extend<V>(cluster: map<int, int>, outer: Valuation<V>, inner: Valuation<V>): Valuation<V> {
    (x: int, i: int) => if x in cluster then inner(x, i) else outer(x, i)
  }

  lemma ExtendNewPort<V(!new)>(g: Graph, cluster: map<int, int>, arity: int -> nat, t: Tables, bodies: map<int, Body>,
                               call: map<int, int>, h: Graph, sem: Semantics<V>, outer: Valuation<V>,
                               inner: Valuation<V>, p: Port)
    requires Encapsulated(g, cluster, arity, t, bodies, call, h)
    requires SolvesRewritten(g, cluster, arity, t, bodies, call, h, sem, outer, inner)
    requires p.0 in cluster ==> p in t.outputRemap
    ensures outer(NewPort(call, t, p).0, NewPort(call, t, p).1) == Extend(cluster, outer, inner)(p.0, p.1)
  {
    if p in t.outputRemap {
      assert Leaves(cluster, g.edges, p);
      var (c, i) := t.outputRemap[p];
      assert c == ClusterOf(cluster, p.0);
      assert t.Outputs(c)[i] == p;
    }
  }

  lemma RestrictNewPort<V(!new)>(g: Graph, cluster: map<int, int>, arity: int -> nat, t: Tables, bodies: map<int, Body>,
                                 call: map<int, int>, h: Graph, val: Valuation<V>, p: Port)
    requires Encapsulated(g, cluster, arity, t, bodies, call, h)
    requires p.0 in g.nodes && (p.0 in cluster ==> p in t.outputRemap)
    ensures Restrict(call, t, val)(NewPort(call, t, p).0, NewPort(call, t, p).1) == val(p.0, p.1)
  {
    if p in t.outputRemap {
      assert Leaves(cluster, g.edges, p);
      var (c, i) := t.outputRemap[p];
      assert c == ClusterOf(cluster, p.0);
      assert t.Outputs(c)[i] == p;
      RestrictResult(g, cluster, call, t, val, c, i);
    } else {
      RestrictSurvivor(g, cluster, call, t, val, p.0, p.1);
    }
  }

  lemma SurvivorSolved<V(!new)>(g: Graph, cluster: map<int, int>, arity: int -> nat, t: Tables, bodies: map<int, Body>,
                                call: map<int, int>, h: Graph, sem: Semantics<V>, val: Valuation<V>, v: int, k: int)
    requires Encapsulated(g, cluster, arity, t, bodies, call, h)
    requires Solves(g, arity, sem, val) && v in g.nodes && v !in cluster
    ensures var outer := Restrict(call, t, val);
            outer(v, k) == sem(v, InputValues(h, arity(v), outer, v), k)
  {
    var outer := Restrict(call, t, val);
    RestrictSurvivor(g, cluster, call, t, val, v, k);
    forall i | 0 <= i < arity(v)
      ensures InputValues(h, arity(v), outer, v)[i] == InputValues(g, arity(v), val, v)[i]
    {
      SurvivorInput(g, cluster, arity, t, bodies, call, h, v, i);
      assert Fed(g, v, i);
      RestrictNewPort(g, cluster, arity, t, bodies, call, h, val, Feeder(g, v, i));
    }
    assert InputValues(h, arity(v), outer, v) == InputValues(g, arity(v), val, v);
  }

  lemma BodySolved<V(!new)>(g: Graph, cluster: map<int, int>, arity: int -> nat, t: Tables, bodies: map<int, Body>,
                            call: map<int, int>, h: Graph, sem: Semantics<V>, val: Valuation<V>, v: int, k: int)
    requires Encapsulated(g, cluster, arity, t, bodies, call, h)
    requires Solves(g, arity, sem, val) && v in cluster
    ensures v in bodies && cluster[v] in call
    ensures var c, outer := cluster[v], Restrict(call, t, val);
            val(v, k) == sem(v, BodyValues(val, InputValues(h, |t.Inputs(c)|, outer, call[c]), bodies[v].data), k)
  {
    var c, outer := cluster[v], Restrict(call, t, val);
    var args := InputValues(h, |t.Inputs(c)|, outer, call[c]);
    forall i | 0 <= i < arity(v)
      ensures |bodies[v].data| == arity(v)
      ensures RefValue(val, args, bodies[v].data[i]) == InputValues(g, arity(v), val, v)[i]
    {
      var p := BodyInput(g, cluster, arity, t, bodies, call, h, v, i);
      if bodies[v].data[i].FromArg? {
        ArgumentInput(g, cluster, arity, t, bodies, call, h, c, bodies[v].data[i].arg);
        assert Fed(g, v, i);
        RestrictNewPort(g, cluster, arity, t, bodies, call, h, val, p);
      }
    }
    assert BodyValues(val, args, bodies[v].data) == InputValues(g, arity(v), val, v);
  }

  /** What a valuation solves in the original graph, its restriction solves in the rewritten one. */
  lemma MeaningCarriesOver<V(!new)>(g: Graph, cluster: map<int, int>, arity: int -> nat, t: Tables,
                                    bodies: map<int, Body>, call: map<int, int>, h: Graph, sem: Semantics<V>,
                                    val: Valuation<V>)
    requires Encapsulated(g, cluster, arity, t, bodies, call, h)
    requires Solves(g, arity, sem, val)
    ensures SolvesRewritten(g, cluster, arity, t, bodies, call, h, sem, Restrict(call, t, val), val)
    ensures forall v, k :: v in g.nodes ==> Restrict(call, t, val)(v, k) == val(v, k)
  {
    forall v, k | v in g.nodes ensures Restrict(call, t, val)(v, k) == val(v, k) {
      RestrictSurvivor(g, cluster, call, t, val, v, k);
    }
    forall v, k | v in g.nodes && v !in cluster
      ensures Restrict(call, t, val)(v, k) == sem(v, InputValues(h, arity(v), Restrict(call, t, val), v), k)
    {
      SurvivorSolved(g, cluster, arity, t, bodies, call, h, sem, val, v, k);
    }
    forall c, i | c in call && 0 <= i < |t.Outputs(c)|
      ensures Restrict(call, t, val)(call[c], i) == val(t.Outputs(c)[i].0, t.Outputs(c)[i].1)
    {
      RestrictResult(g, cluster, call, t, val, c, i);
    }
    forall v, k | v in cluster && v in bodies && cluster[v] in call
      ensures var c := cluster[v];
              val(v, k) == sem(v, BodyValues(val, InputValues(h, |t.Inputs(c)|, Restrict(call, t, val), call[c]),
                  bodies[v].data), k)
    {
      BodySolved(g, cluster, arity, t, bodies, call, h, sem, val, v, k);
    }
  }

  /** What solves the rewritten graph, with the extracted graphs evaluated inside, solves the original one. */
  lemma MeaningComesBack<V(!new)>(g: Graph, cluster: map<int, int>, arity: int -> nat, t: Tables,
                                  bodies: map<int, Body>, call: map<int, int>, h: Graph, sem: Semantics<V>,
                                  outer: Valuation<V>, inner: Valuation<V>)
    requires Encapsulated(g, cluster, arity, t, bodies, call, h)
    requires SolvesRewritten(g, cluster, arity, t, bodies, call, h, sem, outer, inner)
    ensures Solves(g, arity, sem, Extend(cluster, outer, inner))
  {
    var val := Extend(cluster, outer, inner);
    forall v, k | v in g.nodes
      ensures val(v, k) == sem(v, InputValues(g, arity(v), val, v), k)
    {
      if v in cluster {
        var c := cluster[v];
        var args := InputValues(h, |t.Inputs(c)|, outer, call[c]);
        forall i | 0 <= i < arity(v)
          ensures |bodies[v].data| == arity(v)
          ensures RefValue(inner, args, bodies[v].data[i]) == InputValues(g, arity(v), val, v)[i]
        {
          var p := BodyInput(g, cluster, arity, t, bodies, call, h, v, i);
          if bodies[v].data[i].FromArg? {
            var j := bodies[v].data[i].arg;
            ArgumentInput(g, cluster, arity, t, bodies, call, h, c, j);
            ExtendNewPort(g, cluster, arity, t, bodies, call, h, sem, outer, inner, p);
          }
        }
        assert BodyValues(inner, args, bodies[v].data) == InputValues(g, arity(v), val, v);
      } else {
        forall i | 0 <= i < arity(v)
          ensures InputValues(h, arity(v), outer, v)[i] == InputValues(g, arity(v), val, v)[i]
        {
          SurvivorInput(g, cluster, arity, t, bodies, call, h, v, i);
          ExtendNewPort(g, cluster, arity, t, bodies, call, h, sem, outer, inner, Feeder(g, v, i));
        }
        assert InputValues(h, arity(v), outer, v) == InputValues(g, arity(v), val, v);
      }
    }
  }

  // ---------- acyclic graphs ----------

  /** The node pairs joined by an edge. */
  ghost function Pairs(g: Graph): (E: Edges)
    ensures forall e :: e in g.edges ==> (e.src, e.dst) in E
  {
    set e | e in g.edges :: (e.src, e.dst)
  }

  /** The nodes of g that lead to v. */
  ghost function Above(g: Graph, v: int): (r: set<int>)
    ensures forall u :: u in r <==> u in g.nodes && Reaches(Pairs(g), u, v)
  {
    set u | u in g.nodes && Reaches(Pairs(g), u, v)
  }

  lemma AboveGrows(g: Graph, u: int, v: int)
    requires Acyclic(Pairs(g)) && (u, v) in Pairs(g) && u in g.nodes && v in g.nodes
    ensures Above(g, u) < Above(g, v)
  {
    forall w | w in Above(g, u) ensures w in Above(g, v) {
      ReachesStep(Pairs(g), w, u, v);
    }
    ReachesSelf(Pairs(g), v);
    assert v in Above(g, v) && v !in Above(g, u);
  }

  /** In an acyclic graph the values are determined by what the nodes compute. */
  lemma {:induction false} ValuesDetermined<V(!new)>(g: Graph, arity: int -> nat, sem: Semantics<V>, val: Valuation<V>,
        val': Valuation<V>, v: int, k: int)
    requires WellFormed(g, arity) && Acyclic(Pairs(g)) && v in g.nodes
    requires Solves(g, arity, sem, val) && Solves(g, arity, sem, val')
    ensures val(v, k) == val'(v, k)
    decreases Above(g, v)
  {
    forall i | 0 <= i < arity(v)
      ensures InputValues(g, arity(v), val, v)[i] == InputValues(g, arity(v), val', v)[i]
    {
      assert Fed(g, v, i);
      var p := Feeder(g, v, i);
      var e := Data(p.0, p.1, v, i);
      assert e in g.edges;
      AboveGrows(g, p.0, v);
      ValuesDetermined(g, arity, sem, val, val', p.0, p.1);
    }
    assert InputValues(g, arity(v), val, v) == InputValues(g, arity(v), val', v);
  }

  /** Every surviving node of an acyclic graph computes after the rewriting what it computed before. */
  lemma SurvivorsCompute<V(!new)>(g: Graph, cluster: map<int, int>, arity: int -> nat, t: Tables,
                                  bodies: map<int, Body>, call: map<int, int>, h: Graph, sem: Semantics<V>,
                                  val: Valuation<V>, outer: Valuation<V>, inner: Valuation<V>)
    requires Encapsulated(g, cluster, arity, t, bodies, call, h) && Acyclic(Pairs(g))
    requires Solves(g, arity, sem, val)
    requires SolvesRewritten(g, cluster, arity, t, bodies, call, h, sem, outer, inner)
    ensures forall v, k :: v in g.nodes && v !in cluster ==> outer(v, k) == val(v, k)
    ensures forall v, k :: v in cluster ==> inner(v, k) == val(v, k)
  {
    MeaningComesBack(g, cluster, arity, t, bodies, call, h, sem, outer, inner);
    var val' := Extend(cluster, outer, inner);
    forall v, k | v in g.nodes
      ensures val'(v, k) == val(v, k)
    {
      ValuesDetermined(g, arity, sem, val, val', v, k);
    }
  }

  // ---------- order of execution ----------

  /** The pairs of different labels joined by an edge of g. */
  ghost function LabelPairs(g: Graph, cluster: map<int, int>, call: map<int, int>): Edges
    requires CallNodesFit(g, cluster, call)
  {
    set e | e in g.edges && Label(cluster, call, e.src) != Label(cluster, call, e.dst) ::
      (Label(cluster, call, e.src), Label(cluster, call, e.dst))
  }

  lemma LabelPairsHas(g: Graph, cluster: map<int, int>, call: map<int, int>, e: Edge)
    requires CallNodesFit(g, cluster, call) && e in g.edges
    requires Label(cluster, call, e.src) != Label(cluster, call, e.dst)
    ensures (Label(cluster, call, e.src), Label(cluster, call, e.dst)) in LabelPairs(g, cluster, call)
  {
  }

  /** Labels differ exactly across clusters. */
  lemma LabelsDiffer(g: Graph, cluster: map<int, int>, call: map<int, int>, u: int, v: int)
    requires CallNodesFit(g, cluster, call) && ClustersFit(g, cluster) && u in g.nodes && v in g.nodes
    ensures Label(cluster, call, u) == Label(cluster, call, v) <==>
              u == v || (u in cluster && v in cluster && cluster[u] == cluster[v])
  {
  }

  /** Every edge of the rewritten graph stands for an edge of the original one between its labels. */
  lemma EdgeStandsFor(g: Graph, cluster: map<int, int>, arity: int -> nat, t: Tables, bodies: map<int, Body>,
                      call: map<int, int>, h: Graph, f: Edge)
    returns (e: Edge)
    requires Encapsulated(g, cluster, arity, t, bodies, call, h) && f in h.edges
    ensures e in g.edges && Label(cluster, call, e.src) == f.src && Label(cluster, call, e.dst) == f.dst
    ensures e.Control? <==> f.Control?
    ensures e.src == e.dst || f.src != f.dst
  {
    if f.Control? {
      var u, v :| KeptControl(g, cluster, u, v) && Label(cluster, call, u) == f.src && Label(cluster, call, v) == f.dst;
      e := Control(u, v);
      assert e in g.edges;
    } else {
      var p: Port :| Feeds(g, cluster, call, t, p, f.dst, f.input) && NewPort(call, t, p) == (f.src, f.slot);
      if f.dst !in cluster && Data(p.0, p.1, f.dst, f.input) in g.edges {
        e := Data(p.0, p.1, f.dst, f.input);
        PortLabel(g, cluster, arity, t, bodies, call, h, e);
      } else {
        var c :| c in call && call[c] == f.dst && 0 <= f.input < |t.Inputs(c)| && t.Inputs(c)[f.input] == p;
        assert Enters(cluster, g.edges, c, (p.0, p.1));
        e :| e in g.edges && Crossing(cluster, e) && (e.src, e.slot) == p && ClusterOf(cluster, e.dst) == c;
        PortLabel(g, cluster, arity, t, bodies, call, h, e);
      }
    }
    LabelsDiffer(g, cluster, call, e.src, e.dst);
  }

  /** The new port of an edge that is not swallowed sits on the label of its source. */
  lemma PortLabel(g: Graph, cluster: map<int, int>, arity: int -> nat, t: Tables, bodies: map<int, Body>,
                  call: map<int, int>, h: Graph, e: Edge)
    requires Encapsulated(g, cluster, arity, t, bodies, call, h) && e in g.edges && e.Data?
    requires e.dst !in cluster || Crossing(cluster, e)
    ensures NewPort(call, t, (e.src, e.slot)).0 == Label(cluster, call, e.src)
  {
    var p := (e.src, e.slot);
    if e.src in cluster {
      assert Crossing(cluster, e);
      assert Leaves(cluster, g.edges, p);
    } else {
      assert !Leaves(cluster, g.edges, p);
    }
  }

  /** If clusters do not depend on each other in a circle, the rewritten graph is acyclic. */
  lemma RewrittenAcyclic(g: Graph, cluster: map<int, int>, arity: int -> nat, t: Tables, bodies: map<int, Body>,
                         call: map<int, int>, h: Graph)
    requires Encapsulated(g, cluster, arity, t, bodies, call, h) && Acyclic(Pairs(g))
    requires Acyclic(LabelPairs(g, cluster, call))
    ensures Acyclic(Pairs(h))
  {
    forall x, y | (x, y) in Pairs(h)
      ensures (x, y) in LabelPairs(g, cluster, call)
    {
      var f :| f in h.edges && (f.src, f.dst) == (x, y);
      var e := EdgeStandsFor(g, cluster, arity, t, bodies, call, h, f);
      ReachesSelf(Pairs(g), e.src);
      assert (e.src, e.dst) in Pairs(g);
      LabelPairsHas(g, cluster, call, e);
    }
    forall q | q in Pairs(h) ensures q in LabelPairs(g, cluster, call) {
      assert q == (q.0, q.1);
    }
    SubgraphAcyclic(Pairs(h), LabelPairs(g, cluster, call));
  }

  /** And no circle among the clusters is lost: then the rewritten graph has one, too. */
  lemma LabelPairsKept(g: Graph, cluster: map<int, int>, arity: int -> nat, t: Tables, bodies: map<int, Body>,
                       call: map<int, int>, h: Graph)
    requires Encapsulated(g, cluster, arity, t, bodies, call, h)
    ensures LabelPairs(g, cluster, call) <= Pairs(h)
  {
    forall q | q in LabelPairs(g, cluster, call)
      ensures q in Pairs(h)
    {
      var e :| e in g.edges && Label(cluster, call, e.src) != Label(cluster, call, e.dst)
        && q == (Label(cluster, call, e.src), Label(cluster, call, e.dst));
      var f := EdgeKept(g, cluster, arity, t, bodies, call, h, e);
      assert (f.src, f.dst) in Pairs(h);
    }
  }

  lemma EdgeKept(g: Graph, cluster: map<int, int>, arity: int -> nat, t: Tables, bodies: map<int, Body>,
                 call: map<int, int>, h: Graph, e: Edge)
    returns (f: Edge)
    requires Encapsulated(g, cluster, arity, t, bodies, call, h) && e in g.edges
    requires Label(cluster, call, e.src) != Label(cluster, call, e.dst)
    ensures f in h.edges && f.src == Label(cluster, call, e.src) && f.dst == Label(cluster, call, e.dst)
  {
    LabelsDiffer(g, cluster, call, e.src, e.dst);
    if e.Control? {
      assert KeptControl(g, cluster, e.src, e.dst);
      f := Control(Label(cluster, call, e.src), Label(cluster, call, e.dst));
    } else {
      var p := (e.src, e.slot);
      PortLabel(g, cluster, arity, t, bodies, call, h, e);
      if e.dst in cluster {
        var c := cluster[e.dst];
        assert Crossing(cluster, e) && Enters(cluster, g.edges, c, (p.0, p.1));
        var i := t.inputRemap[(c, p.0, p.1)];
        assert Feeds(g, cluster, call, t, p, call[c], i);
        f := Data(NewPort(call, t, p).0, NewPort(call, t, p).1, call[c], i);
      } else {
        assert Feeds(g, cluster, call, t, p, e.dst, e.input);
        f := Data(NewPort(call, t, p).0, NewPort(call, t, p).1, e.dst, e.input);
      }
    }
  }
}
