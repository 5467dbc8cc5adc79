/**
 The executions of a graph: there is one for every way the primitive nodes and the values of the tensors
 may turn out. So conjunctions of symbols that differ come apart in some execution.
 */
module Executions {
  import opened Predicates
  import opened Deadness
  import opened Ties
  import opened Sets

  /** Whether a received tensor was sent live, and whether a loop has arrived at its Merge. */
  type Arrivals = int -> bool

  /** What a slot of a node is, given the liveness of its inputs. */
  ghost predicate SlotLive(g: Graph, v: int, k: int, sent: Arrivals, truth: Liveness, before: Liveness)
    requires v in g
  {
    var edges := g[v].inEdges;
    var ready := AllLive(edges, DataAndControl, before);
    match g[v].kind
    case Switch =>
      var condition := InputEdge(edges, 1);
      && ready
      && (condition.Some? && k == 0 ==> !truth(condition.value.Tensor()))
      && (condition.Some? && k == 1 ==> truth(condition.value.Tensor()))
    case Merge => if HasBackedge(g, g[v]) then sent(v) else AnyLive(edges, DataOnly, before)
    case ControlTrigger => true
    case Recv => ready && sent(v)
    case Generic(_) => ready
  }

  /** The liveness of the outputs of the first n nodes. */
  ghost function LiveUpTo(g: Graph, order: seq<int>, n: nat, sent: Arrivals, truth: Liveness): Liveness
    requires n <= |order| && forall i :: 0 <= i < n ==> order[i] in g
  {
    if n == 0 then (t: TensorId) => false
    else
      var before := LiveUpTo(g, order, n - 1, sent, truth);
      var v := order[n - 1];
      (t: TensorId) => if t.0 == v then SlotLive(g, v, t.1, sent, truth, before) else before(t)
  }

  /** The liveness of an output stays what it was made. */
  lemma {:induction false} LiveStays(g: Graph, order: seq<int>, i: nat, n: nat, sent: Arrivals, truth: Liveness,
                                     t: TensorId)
    requires i <= n <= |order| && (forall j :: 0 <= j < n ==> order[j] in g)
    requires forall j :: i <= j < n ==> order[j] != t.0
    ensures LiveUpTo(g, order, n, sent, truth)(t) == LiveUpTo(g, order, i, sent, truth)(t)
  {
    if i < n {
      LiveStays(g, order, i, n - 1, sent, truth, t);
    }
  }

  /** The primitive nodes behave as chosen. */
  ghost predicate Chosen(g: Graph, live: Liveness, sent: Arrivals) {
    forall v :: v in g && Primitive(g, v) ==>
      (live((v, 0)) <==> sent(v) && (g[v].kind.Recv? ==> AllLive(g[v].inEdges, DataAndControl, live)))
  }

  /** Two accounts of the liveness of the inputs that matter to a node. */
  ghost predicate SameInputs(g: Graph, v: int, live: Liveness, live': Liveness)
    requires v in g
  {
    LookedAt(g, g[v]).Some? ==>
      forall e :: e in g[v].inEdges && Selected(e, LookedAt(g, g[v]).value) ==> live(e.Tensor()) == live'(e.Tensor())
  }

  lemma SameSlot(g: Graph, v: int, k: int, sent: Arrivals, truth: Liveness, live: Liveness, live': Liveness)
    requires v in g && SameInputs(g, v, live, live')
    ensures SlotLive(g, v, k, sent, truth, live) == SlotLive(g, v, k, sent, truth, live')
  {
  }

  /** The inputs of a node are settled before the node. */
  lemma InputsSettled(g: Graph, order: seq<int>, i: nat, sent: Arrivals, truth: Liveness)
    requires Ordered(g, order) && i < |order|
    ensures SameInputs(g, order[i], LiveUpTo(g, order, i, sent, truth), LiveUpTo(g, order, |order|, sent, truth))
  {
    hide LiveUpTo, InputEdge;
    var node := g[order[i]];
    if LookedAt(g, node).Some? {
      forall e | e in node.inEdges && Selected(e, LookedAt(g, node).value)
        ensures LiveUpTo(g, order, i, sent, truth)(e.Tensor()) == LiveUpTo(g, order, |order|, sent, truth)(e.Tensor())
      {
        assert !FromNextIteration(g, e);
        assert e.src in order[..i];
        LiveStays(g, order, i, |order|, sent, truth, e.Tensor());
      }
    }
  }

  /** Every slot of the constructed execution is what the liveness of the inputs makes it. */
  lemma SlotSettled(g: Graph, order: seq<int>, i: nat, k: int, sent: Arrivals, truth: Liveness)
    requires Ordered(g, order) && i < |order|
    ensures LiveUpTo(g, order, |order|, sent, truth)((order[i], k))
        <==> SlotLive(g, order[i], k, sent, truth, LiveUpTo(g, order, |order|, sent, truth))
  {
    hide SlotLive;
    LiveStays(g, order, i + 1, |order|, sent, truth, (order[i], k));
    InputsSettled(g, order, i, sent, truth);
    SameSlot(g, order[i], k, sent, truth, LiveUpTo(g, order, i, sent, truth), LiveUpTo(g, order, |order|, sent, truth));
  }

  /** Nodes whose slots are what their inputs make them follow the executor. */
  lemma SlotsFollow(g: Graph, v: int, live: Liveness, sent: Arrivals, truth: Liveness)
    requires v in g && forall k :: live((v, k)) <==> SlotLive(g, v, k, sent, truth, live)
    ensures Follows(g, live, truth, v)
    ensures Primitive(g, v) ==>
              (live((v, 0)) <==> sent(v) && (g[v].kind.Recv? ==> AllLive(g[v].inEdges, DataAndControl, live)))
  {
    hide Follows;
    ExecutorRules(g, live, truth, v);
  }

  /** For all arrivals and truth values there is an execution of an ordered graph. */
  lemma ExecutionExists(g: Graph, order: seq<int>, sent: Arrivals, truth: Liveness) returns (live: Liveness)
    requires Ordered(g, order) && forall v :: v in g ==> v in order
    ensures Execution(g, live, truth) && Chosen(g, live, sent)
  {
    hide LiveUpTo, SlotLive, Follows, Primitive, AllLive;
    live := LiveUpTo(g, order, |order|, sent, truth);
    forall v | v in g
      ensures Follows(g, live, truth, v)
      ensures Primitive(g, v) ==>
                (live((v, 0)) <==> sent(v) && (g[v].kind.Recv? ==> AllLive(g[v].inEdges, DataAndControl, live)))
    {
      var i :| 0 <= i < |order| && order[i] == v;
      forall k ensures live((v, k)) <==> SlotLive(g, v, k, sent, truth, live) {
        SlotSettled(g, order, i, k, sent, truth);
      }
      SlotsFollow(g, v, live, sent, truth);
    }
  }

  /** The executor has no choice where the primitive nodes have none. */
  lemma FollowsDetermines(g: Graph, v: int, k: int, live: Liveness, sent: Arrivals, truth: Liveness)
    requires v in g && Follows(g, live, truth, v) && SlotOf(g[v], k)
    requires g[v].kind.Switch? ==> InputEdge(g[v].inEdges, 1).Some?
    requires Primitive(g, v) ==>
               (live((v, 0)) <==> sent(v) && (g[v].kind.Recv? ==> AllLive(g[v].inEdges, DataAndControl, live)))
    ensures live((v, k)) <==> SlotLive(g, v, k, sent, truth, live)
  {
    hide Follows;
    ExecutorRules(g, live, truth, v);
  }

  ghost predicate Agreeing(g: Graph, nodes: seq<int>, live: Liveness, live': Liveness) {
    forall v, k :: v in nodes && v in g && SlotOf(g[v], k) ==> live((v, k)) == live'((v, k))
  }

  /** The execution is the only one: arrivals and truth values determine what is live. */
  lemma {:induction false} ExecutionUnique(g: Graph, order: seq<int>, n: nat, sent: Arrivals, truth: Liveness,
                                           live: Liveness, live': Liveness)
    requires Ordered(g, order) && n <= |order|
    requires forall v :: v in g && g[v].kind.Switch? ==> InputEdge(g[v].inEdges, 1).Some?
    requires Execution(g, live, truth) && Chosen(g, live, sent) && Execution(g, live', truth) && Chosen(g, live', sent)
    ensures Agreeing(g, order[..n], live, live')
  {
    if n > 0 {
      hide Follows, SlotLive, AllLive, Primitive;
      ExecutionUnique(g, order, n - 1, sent, truth, live, live');
      var v := order[n - 1];
      assert order[..n] == order[..n - 1] + [v];
      InputsAgreeing(g, order, n - 1, live, live');
      forall k | SlotOf(g[v], k) ensures live((v, k)) == live'((v, k)) {
        FollowsDetermines(g, v, k, live, sent, truth);
        FollowsDetermines(g, v, k, live', sent, truth);
        SameSlot(g, v, k, sent, truth, live, live');
      }
    }
  }

  lemma InputsAgreeing(g: Graph, order: seq<int>, i: nat, live: Liveness, live': Liveness)
    requires Ordered(g, order) && i < |order| && Agreeing(g, order[..i], live, live')
    ensures SameInputs(g, order[i], live, live')
  {
    var node := g[order[i]];
    if LookedAt(g, node).Some? {
      forall e | e in node.inEdges && Selected(e, LookedAt(g, node).value)
        ensures live(e.Tensor()) == live'(e.Tensor())
      {
        assert !FromNextIteration(g, e);
        assert e.src in order[..i];
      }
    }
  }
}
