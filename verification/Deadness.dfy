/**
 What the deadness analysis computes, on values: a predicate for every output of every node, and why
 the predicates are right about every execution of the graph.
 */
module Deadness {
  import opened Predicates
  import opened Sets

  const CONTROL_SLOT := -1

  datatype InEdge = InEdge(src: int, slot: int, input: int)
  {
    predicate IsControl() {
      slot == CONTROL_SLOT
    }

    function Tensor(): TensorId {
      (src, slot)
    }
  }

  datatype Kind = Switch | Merge | ControlTrigger | Recv | Generic(outputs: nat)

  /**
   `inEdges` and `outSlots` list the edges of the node in the order they are visited; `controlFlow`
   says that the node is source, sink or a control flow operation.
   */
  datatype Node = Node(kind: Kind, nextIteration: bool, controlFlow: bool, inEdges: seq<InEdge>, outSlots: seq<int>)

  type Graph = map<int, Node>

  datatype Option<T> = None | Some(value: T)

  datatype EdgeKind = DataAndControl | DataOnly | ControlOnly

  predicate Selected(e: InEdge, kind: EdgeKind) {
    || kind.DataAndControl?
    || (e.IsControl() && kind.ControlOnly?)
    || (!e.IsControl() && kind.DataOnly?)
  }

  predicate SlotOf(node: Node, k: int) {
    match node.kind
    case Switch => k in {0, 1, CONTROL_SLOT}
    case Merge => k in {0, 1, CONTROL_SLOT}
    case ControlTrigger => k == CONTROL_SLOT
    case Recv => k in {0, CONTROL_SLOT}
    case Generic(n) => 0 <= k < n || k == CONTROL_SLOT
  }

  /** The edge that feeds the given input. */
  function InputEdge(edges: seq<InEdge>, input: int): (r: Option<InEdge>)
    ensures r.Some? ==> r.value in edges && r.value.input == input
  {
    if edges == [] then None
    else if edges[0].input == input then Some(edges[0])
    else InputEdge(edges[1..], input)
  }

  predicate FromNextIteration(g: Graph, e: InEdge) {
    e.src in g && g[e.src].nextIteration
  }

  predicate HasBackedge(g: Graph, node: Node) {
    exists e :: e in node.inEdges && !e.IsControl() && FromNextIteration(g, e)
  }

  // ---------- executions ----------

  /** Which tensors are live, and which are true. */
  type Liveness = TensorId -> bool

  ghost predicate AllLive(edges: seq<InEdge>, kind: EdgeKind, live: Liveness) {
    forall e :: e in edges && Selected(e, kind) ==> live(e.Tensor())
  }

  ghost predicate AnyLive(edges: seq<InEdge>, kind: EdgeKind, live: Liveness) {
    exists e :: e in edges && Selected(e, kind) && live(e.Tensor())
  }

  /** The i-th edge is the first one into the given input. */
  ghost predicate FirstInto(edges: seq<InEdge>, input: int, i: int) {
    0 <= i < |edges| && edges[i].input == input && forall j :: 0 <= j < i ==> edges[j].input != input
  }

  /** How the executor decides which outputs of node v are live. */
  ghost predicate Follows(g: Graph, live: Liveness, truth: Liveness, v: int)
    requires v in g
  {
    var edges := g[v].inEdges;
    var ready := forall e :: e in edges ==> live((e.src, e.slot));
    match g[v].kind
    case Switch =>
      // the input 1 decides between the outputs
      && (live((v, CONTROL_SLOT)) <==> ready)
      && forall i :: FirstInto(edges, 1, i) ==>
           var condition := (edges[i].src, edges[i].slot);
           && (live((v, 0)) <==> ready && !truth(condition))
           && (live((v, 1)) <==> ready && truth(condition))
    case Merge =>
      // one live data input is enough; what arrives around a loop is not known
      && live((v, 0)) == live((v, 1)) == live((v, CONTROL_SLOT))
      && ((forall e :: e in edges && e.slot != CONTROL_SLOT && e.src in g ==> !g[e.src].nextIteration) ==>
           (live((v, 0)) <==> exists e :: e in edges && e.slot != CONTROL_SLOT && live((e.src, e.slot))))
    case ControlTrigger => live((v, CONTROL_SLOT))
    case Recv =>
      // the sender may be dead
      live((v, 0)) == live((v, CONTROL_SLOT)) && (live((v, 0)) ==> ready)
    case Generic(n) =>
      (live((v, CONTROL_SLOT)) <==> ready) && forall k :: 0 <= k < n ==> (live((v, k)) <==> ready)
  }

  /** The same in terms of what the analysis looks at. */
  ghost predicate FollowsBy(g: Graph, live: Liveness, truth: Liveness, v: int)
    requires v in g
  {
    var edges := g[v].inEdges;
    var ready := AllLive(edges, DataAndControl, live);
    match g[v].kind
    case Switch =>
      var condition := InputEdge(edges, 1);
      && (live((v, CONTROL_SLOT)) <==> ready)
      && (condition.Some? ==> (live((v, 0)) <==> ready && !truth(condition.value.Tensor())))
      && (condition.Some? ==> (live((v, 1)) <==> ready && truth(condition.value.Tensor())))
    case Merge =>
      && live((v, 0)) == live((v, 1)) == live((v, CONTROL_SLOT))
      && (!HasBackedge(g, g[v]) ==> (live((v, 0)) <==> AnyLive(edges, DataOnly, live)))
    case ControlTrigger => live((v, CONTROL_SLOT))
    case Recv =>
      // the sender may be dead
      live((v, 0)) == live((v, CONTROL_SLOT)) && (live((v, 0)) ==> ready)
    case Generic(_) =>
      forall k :: SlotOf(g[v], k) ==> (live((v, k)) <==> ready)
  }

  lemma {:induction false} InputEdgeFirst(edges: seq<InEdge>, input: int)
    ensures InputEdge(edges, input).Some? <==> exists i :: FirstInto(edges, input, i)
    ensures forall i :: FirstInto(edges, input, i) ==> InputEdge(edges, input) == Some(edges[i])
  {
    if edges != [] {
      InputEdgeFirst(edges[1..], input);
      if edges[0].input == input {
        assert FirstInto(edges, input, 0);
      } else {
        forall i | FirstInto(edges, input, i) ensures i > 0 && FirstInto(edges[1..], input, i - 1) {
        }
        if i :| FirstInto(edges[1..], input, i) {
          assert FirstInto(edges, input, i + 1);
        }
      }
    }
  }

  lemma LiveEdges(edges: seq<InEdge>, live: Liveness)
    ensures AllLive(edges, DataAndControl, live) <==> forall e :: e in edges ==> live((e.src, e.slot))
    ensures AnyLive(edges, DataOnly, live)
       <==> exists e :: e in edges && e.slot != CONTROL_SLOT && live((e.src, e.slot))
  {
    forall e | e in edges ensures live(e.Tensor()) <==> live((e.src, e.slot)) {
    }
    if e :| e in edges && e.slot != CONTROL_SLOT && live((e.src, e.slot)) {
      assert Selected(e, DataOnly) && live(e.Tensor());
    }
  }

  /** What the analysis looks at is what the executor goes by. */
  lemma ExecutorRules(g: Graph, live: Liveness, truth: Liveness, v: int)
    requires v in g
    ensures Follows(g, live, truth, v) <==> FollowsBy(g, live, truth, v)
  {
    var edges := g[v].inEdges;
    LiveEdges(edges, live);
    InputEdgeFirst(edges, 1);
    hide InputEdge, AllLive, AnyLive, FirstInto;
  }

  ghost predicate Execution(g: Graph, live: Liveness, truth: Liveness) {
    forall v :: v in g ==> Follows(g, live, truth, v)
  }

  /** A symbol stands for "live and true", or for "live". */
  ghost function Meaning(live: Liveness, truth: Liveness): Assignment {
    (t: TensorId, mustBeTrue: bool) => live(t) && (mustBeTrue ==> truth(t))
  }

  type PredicateMap = map<TensorId, Predicate>

  /** The predicates tell which tensors are live. */
  ghost predicate Tells(m: PredicateMap, live: Liveness, truth: Liveness) {
    forall t :: t in m ==> (live(t) <==> Holds(m[t], Meaning(live, truth)))
  }

  /** The predicates are right about every execution. */
  ghost predicate Sound(g: Graph, m: PredicateMap) {
    forall live, truth :: Execution(g, live, truth) ==> Tells(m, live, truth)
  }

  // ---------- the predicates of one node ----------

  /** The predicates of the selected edges. */
  function Incoming(edges: seq<InEdge>, kind: EdgeKind, m: PredicateMap): (r: seq<Predicate>)
    requires Known(edges, kind, m)
    ensures forall p :: p in r <==> exists e :: e in edges && Selected(e, kind) && m[e.Tensor()] == p
  {
    if edges == [] then []
    else
      assert edges == [edges[0]] + edges[1..];
      (if Selected(edges[0], kind) then [m[edges[0].Tensor()]] else []) + Incoming(edges[1..], kind, m)
  }

  predicate Known(edges: seq<InEdge>, kind: EdgeKind, m: PredicateMap) {
    forall e :: e in edges && Selected(e, kind) ==> e.Tensor() in m
  }

  lemma {:induction false} IncomingStep(edges: seq<InEdge>, k: nat, kind: EdgeKind, m: PredicateMap)
    requires k < |edges| && Known(edges[..k + 1], kind, m)
    ensures Known(edges[..k], kind, m)
    ensures Incoming(edges[..k + 1], kind, m) ==
            Incoming(edges[..k], kind, m) + if Selected(edges[k], kind) then [m[edges[k].Tensor()]] else []
  {
    assert edges[..k + 1] == edges[..k] + [edges[k]];
    if k > 0 {
      var rest := edges[1..];
      assert rest[..k] == edges[..k + 1][1..] && rest[..k - 1] == edges[..k][1..];
      IncomingStep(rest, k - 1, kind, m);
    }
  }

  /** Which edges are looked at. */
  function LookedAt(g: Graph, node: Node): Option<EdgeKind> {
    match node.kind
    case Switch => Some(DataAndControl)
    case Merge => if HasBackedge(g, node) then None else Some(DataOnly)
    case ControlTrigger => None
    case Recv => Some(DataAndControl)
    case Generic(_) => Some(DataAndControl)
  }

  predicate InputsKnown(g: Graph, node: Node, m: PredicateMap) {
    LookedAt(g, node).Some? ==> Known(node.inEdges, LookedAt(g, node).value, m)
  }

  /** The predicate of slot k of node v. */
  function SlotPredicate(g: Graph, v: int, k: int, m: PredicateMap, h: Hash): Predicate
    requires v in g && InputsKnown(g, g[v], m) && SlotOf(g[v], k)
    requires g[v].kind.Switch? ==> InputEdge(g[v].inEdges, 1).Some?
  {
    var edges := g[v].inEdges;
    match g[v].kind
    case Switch =>
      var inputs := Incoming(edges, DataAndControl, m);
      var trueSwitch := Symbol(InputEdge(edges, 1).value.Tensor(), true);
      MakeAndOr(inputs + (if k == 0 then [Not(trueSwitch)] else if k == 1 then [trueSwitch] else []), true, h)
    case Merge =>
      if HasBackedge(g, g[v]) then Symbol((v, 0), false)
      else MakeAndOr(Incoming(edges, DataOnly, m), false, h)
    case ControlTrigger => MakeAndOr([], true, h)
    case Recv => MakeAndOr(Incoming(edges, DataAndControl, m) + [Symbol((v, 0), false)], true, h)
    case Generic(_) => MakeAndOr(Incoming(edges, DataAndControl, m), true, h)
  }

  lemma IncomingTells(edges: seq<InEdge>, kind: EdgeKind, m: PredicateMap, live: Liveness, truth: Liveness)
    requires Known(edges, kind, m) && Tells(m, live, truth)
    ensures AllAre(Incoming(edges, kind, m), Meaning(live, truth), true) <==> AllLive(edges, kind, live)
    ensures AllAre(Incoming(edges, kind, m), Meaning(live, truth), false) <==> !AnyLive(edges, kind, live)
  {
    var inputs, a := Incoming(edges, kind, m), Meaning(live, truth);
    forall e | e in edges && Selected(e, kind)
      ensures m[e.Tensor()] in inputs && (Holds(m[e.Tensor()], a) <==> live(e.Tensor()))
    {
    }
    forall p | p in inputs
      ensures exists e :: e in edges && Selected(e, kind) && m[e.Tensor()] == p
    {
    }
  }

  lemma AllAreAppend(s: seq<Predicate>, p: Predicate, a: Assignment, b: bool)
    ensures AllAre(s + [p], a, b) <==> AllAre(s, a, b) && Holds(p, a) == b
  {
    assert p in s + [p];
    forall q | q in s ensures q in s + [p] { }
  }

  /** The predicate of a slot is right if those of the inputs are. */
  lemma SlotTells(g: Graph, v: int, k: int, m: PredicateMap, h: Hash, live: Liveness, truth: Liveness)
    requires v in g && InputsKnown(g, g[v], m) && SlotOf(g[v], k)
    requires g[v].kind.Switch? ==> InputEdge(g[v].inEdges, 1).Some?
    requires Tells(m, live, truth) && FollowsBy(g, live, truth, v)
    ensures live((v, k)) <==> Holds(SlotPredicate(g, v, k, m, h), Meaning(live, truth))
  {
    var edges, a := g[v].inEdges, Meaning(live, truth);
    match g[v].kind
    case Switch =>
      SwitchTells(g, v, k, m, h, live, truth);
    case Merge =>
      if !HasBackedge(g, g[v]) {
        IncomingTells(edges, DataOnly, m, live, truth);
        MakeAndOrMeans(Incoming(edges, DataOnly, m), false, h, a);
      }
    case ControlTrigger =>
      MakeAndOrMeans([], true, h, a);
    case Recv =>
      var inputs := Incoming(edges, DataAndControl, m);
      IncomingTells(edges, DataAndControl, m, live, truth);
      AllAreAppend(inputs, Symbol((v, 0), false), a, true);
      MakeAndOrMeans(inputs + [Symbol((v, 0), false)], true, h, a);
    case Generic(_) =>
      IncomingTells(edges, DataAndControl, m, live, truth);
      MakeAndOrMeans(Incoming(edges, DataAndControl, m), true, h, a);
  }

  lemma SwitchTells(g: Graph, v: int, k: int, m: PredicateMap, h: Hash, live: Liveness, truth: Liveness)
    requires v in g && g[v].kind.Switch? && InputsKnown(g, g[v], m) && SlotOf(g[v], k)
    requires InputEdge(g[v].inEdges, 1).Some?
    requires Tells(m, live, truth) && FollowsBy(g, live, truth, v)
    ensures live((v, k)) <==> Holds(SlotPredicate(g, v, k, m, h), Meaning(live, truth))
  {
    var edges, a := g[v].inEdges, Meaning(live, truth);
    var inputs := Incoming(edges, DataAndControl, m);
    var condition := InputEdge(edges, 1).value;
    var trueSwitch := Symbol(condition.Tensor(), true);
    IncomingTells(edges, DataAndControl, m, live, truth);
    assert AllLive(edges, DataAndControl, live) ==> live(condition.Tensor());
    AllAreAppend(inputs, trueSwitch, a, true);
    AllAreAppend(inputs, Not(trueSwitch), a, true);
    MakeAndOrMeans(inputs + [trueSwitch], true, h, a);
    MakeAndOrMeans(inputs + [Not(trueSwitch)], true, h, a);
    assert inputs + [] == inputs;
    MakeAndOrMeans(inputs, true, h, a);
  }

  ghost predicate MapNormal(m: PredicateMap, h: Hash) {
    forall t :: t in m ==> Normal(m[t], h)
  }

  /** Every predicate the analysis makes is in normal form. */
  lemma SlotNormal(g: Graph, v: int, k: int, m: PredicateMap, h: Hash)
    requires v in g && InputsKnown(g, g[v], m) && SlotOf(g[v], k) && MapNormal(m, h)
    requires g[v].kind.Switch? ==> InputEdge(g[v].inEdges, 1).Some?
    ensures Normal(SlotPredicate(g, v, k, m, h), h)
  {
    var edges := g[v].inEdges;
    match g[v].kind
    case Switch =>
      var trueSwitch := Symbol(InputEdge(edges, 1).value.Tensor(), true);
      MakeAndOrNormal(Incoming(edges, DataAndControl, m)
          + (if k == 0 then [Not(trueSwitch)] else if k == 1 then [trueSwitch] else []), true, h);
    case Merge =>
      if !HasBackedge(g, g[v]) {
        MakeAndOrNormal(Incoming(edges, DataOnly, m), false, h);
      }
    case ControlTrigger =>
      MakeAndOrNormal([], true, h);
    case Recv =>
      MakeAndOrNormal(Incoming(edges, DataAndControl, m) + [Symbol((v, 0), false)], true, h);
    case Generic(_) =>
      MakeAndOrNormal(Incoming(edges, DataAndControl, m), true, h);
  }

  // ---------- one node more ----------

  /** `after` adds the predicates of all slots of node v to `m`. */
  ghost predicate Extends(g: Graph, v: int, m: PredicateMap, h: Hash, after: PredicateMap)
    requires v in g && InputsKnown(g, g[v], m)
    requires g[v].kind.Switch? ==> InputEdge(g[v].inEdges, 1).Some?
  {
    && (forall t :: t in after <==> t in m || (t.0 == v && SlotOf(g[v], t.1)))
    && (forall t :: t in m ==> after[t] == m[t])
    && (forall t :: t in after && t !in m ==> SlotOf(g[v], t.1) && after[t] == SlotPredicate(g, v, t.1, m, h))
  }

  /** All slots of every node but a Switch have one predicate. */
  ghost predicate Uniform(g: Graph, m: PredicateMap) {
    forall t, u :: t in m && u in m && t.0 == u.0 && t.0 in g && !g[t.0].kind.Switch? ==> m[t] == m[u]
  }

  ghost predicate Handleable(g: Graph, v: int, m: PredicateMap)
    requires v in g
  {
    InputsKnown(g, g[v], m) && (g[v].kind.Switch? ==> InputEdge(g[v].inEdges, 1).Some?)
  }

  /** Every predicate is what the rules make of those of the inputs. */
  ghost predicate Computed(g: Graph, h: Hash, done: set<int>, m: PredicateMap) {
    forall v, k :: v in done && v in g && SlotOf(g[v], k) ==>
      Handleable(g, v, m) && (v, k) in m && m[(v, k)] == SlotPredicate(g, v, k, m, h)
  }

  /** The predicates of the inputs are all that counts. */
  lemma {:induction false} IncomingSame(edges: seq<InEdge>, kind: EdgeKind, m: PredicateMap, after: PredicateMap)
    requires Known(edges, kind, m) && forall t :: t in m ==> t in after && after[t] == m[t]
    ensures Known(edges, kind, after) && Incoming(edges, kind, after) == Incoming(edges, kind, m)
  {
    if edges != [] {
      assert edges == [edges[0]] + edges[1..];
      IncomingSame(edges[1..], kind, m, after);
    }
  }

  lemma SlotSame(g: Graph, v: int, k: int, m: PredicateMap, h: Hash, after: PredicateMap)
    requires v in g && SlotOf(g[v], k) && Handleable(g, v, m) && forall t :: t in m ==> t in after && after[t] == m[t]
    ensures Handleable(g, v, after) && SlotPredicate(g, v, k, after, h) == SlotPredicate(g, v, k, m, h)
  {
    hide Known, Incoming, MakeAndOr;
    if LookedAt(g, g[v]).Some? {
      IncomingSame(g[v].inEdges, LookedAt(g, g[v]).value, m, after);
    }
  }

  lemma ComputedStep(g: Graph, h: Hash, done: set<int>, m: PredicateMap, v: int, after: PredicateMap)
    requires Computed(g, h, done, m) && v in g && v !in done && Handleable(g, v, m) && Extends(g, v, m, h, after)
    requires forall k :: (v, k) !in m
    ensures Computed(g, h, done + {v}, after)
  {
    hide SlotPredicate;
    forall w, k | w in done + {v} && w in g && SlotOf(g[w], k)
      ensures Handleable(g, w, after) && (w, k) in after && after[(w, k)] == SlotPredicate(g, w, k, after, h)
    {
      SlotSame(g, w, k, m, h, after);
    }
  }

  /** What holds of the predicates of the nodes in `done`. */
  ghost predicate Analysed(g: Graph, h: Hash, done: set<int>, m: PredicateMap) {
    && (forall t :: t in m <==> t.0 in done && t.0 in g && SlotOf(g[t.0], t.1))
    && Sound(g, m) && MapNormal(m, h) && Uniform(g, m) && Computed(g, h, done, m)
  }

  lemma AnalysedStep(g: Graph, h: Hash, done: set<int>, m: PredicateMap, v: int, after: PredicateMap)
    requires Analysed(g, h, done, m) && v in g && v !in done && InputsKnown(g, g[v], m)
    requires g[v].kind.Switch? ==> InputEdge(g[v].inEdges, 1).Some?
    requires Extends(g, v, m, h, after)
    ensures Analysed(g, h, done + {v}, after)
  {
    ComputedStep(g, h, done, m, v, after);
    hide Computed;
    forall live, truth | Execution(g, live, truth)
      ensures Tells(after, live, truth)
    {
      forall t | t in after
        ensures live(t) <==> Holds(after[t], Meaning(live, truth))
      {
        if t !in m {
          ExecutorRules(g, live, truth, v);
          SlotTells(g, v, t.1, m, h, live, truth);
          assert t == (v, t.1);
        }
      }
    }
    forall t | t in after ensures Normal(after[t], h) {
      if t !in m {
        SlotNormal(g, v, t.1, m, h);
      }
    }
  }

  // ---------- what the predicates mean, whatever the truth values of the symbols ----------

  /**
   The predicate of output k of node v, in terms of those of the tensors that come in: which of them it needs, and
   what it adds.
   */
  ghost predicate MeansAt(g: Graph, m: PredicateMap, v: int, k: int, a: Assignment)
    requires v in g
  {
    var edges := g[v].inEdges;
    var allKnown := forall e :: e in edges ==> (e.src, e.slot) in m;
    var allHold := forall e :: e in edges && (e.src, e.slot) in m ==> Holds(m[(e.src, e.slot)], a);
    && (v, k) in m
    && match g[v].kind
       case Switch =>
         // the condition is the tensor of input 1
         && allKnown
         && forall i :: FirstInto(edges, 1, i) ==>
              var condition := (edges[i].src, edges[i].slot);
              Holds(m[(v, k)], a)
              <==> allHold && (k == 0 ==> !a(condition, true)) && (k == 1 ==> a(condition, true))
       case Merge =>
         if exists e :: e in edges && e.slot != CONTROL_SLOT && e.src in g && g[e.src].nextIteration
         then m[(v, k)] == Symbol((v, 0), false)
         else
           && (forall e :: e in edges && e.slot != CONTROL_SLOT ==> (e.src, e.slot) in m)
           && (Holds(m[(v, k)], a)
               <==> exists e :: e in edges && e.slot != CONTROL_SLOT && Holds(m[(e.src, e.slot)], a))
       case ControlTrigger => Holds(m[(v, k)], a)
       case Recv => allKnown && (Holds(m[(v, k)], a) <==> allHold && a((v, 0), false))
       case Generic(_) => allKnown && (Holds(m[(v, k)], a) <==> allHold)
  }

  lemma IncomingMeans(edges: seq<InEdge>, kind: EdgeKind, m: PredicateMap, a: Assignment)
    requires Known(edges, kind, m)
    ensures AllAre(Incoming(edges, kind, m), a, true)
       <==> forall e :: e in edges && Selected(e, kind) ==> Holds(m[e.Tensor()], a)
    ensures AllAre(Incoming(edges, kind, m), a, false)
       <==> forall e :: e in edges && Selected(e, kind) ==> !Holds(m[e.Tensor()], a)
  {
    var inputs := Incoming(edges, kind, m);
    forall e | e in edges && Selected(e, kind) ensures m[e.Tensor()] in inputs {
    }
  }

  lemma AllIncoming(edges: seq<InEdge>, m: PredicateMap, a: Assignment)
    requires Known(edges, DataAndControl, m)
    ensures forall e :: e in edges ==> (e.src, e.slot) in m
    ensures AllAre(Incoming(edges, DataAndControl, m), a, true)
       <==> forall e :: e in edges && (e.src, e.slot) in m ==> Holds(m[(e.src, e.slot)], a)
  {
    IncomingMeans(edges, DataAndControl, m, a);
    forall e | e in edges ensures (e.src, e.slot) in m {
      assert Selected(e, DataAndControl) && e.Tensor() == (e.src, e.slot);
    }
  }

  lemma DataIncoming(edges: seq<InEdge>, m: PredicateMap, a: Assignment)
    requires Known(edges, DataOnly, m)
    ensures forall e :: e in edges && e.slot != CONTROL_SLOT ==> (e.src, e.slot) in m
    ensures AllAre(Incoming(edges, DataOnly, m), a, false)
       <==> !exists e :: e in edges && e.slot != CONTROL_SLOT && Holds(m[(e.src, e.slot)], a)
  {
    IncomingMeans(edges, DataOnly, m, a);
    forall e | e in edges && e.slot != CONTROL_SLOT ensures (e.src, e.slot) in m {
      assert Selected(e, DataOnly) && e.Tensor() == (e.src, e.slot);
    }
  }

  lemma SwitchMeans(g: Graph, v: int, k: int, m: PredicateMap, h: Hash, a: Assignment)
    requires v in g && g[v].kind.Switch? && Handleable(g, v, m) && SlotOf(g[v], k)
    requires (v, k) in m && m[(v, k)] == SlotPredicate(g, v, k, m, h)
    ensures MeansAt(g, m, v, k, a)
  {
    var edges := g[v].inEdges;
    var inputs := Incoming(edges, DataAndControl, m);
    var trueSwitch := Symbol(InputEdge(edges, 1).value.Tensor(), true);
    InputEdgeFirst(edges, 1);
    AllIncoming(edges, m, a);
    AllAreAppend(inputs, trueSwitch, a, true);
    AllAreAppend(inputs, Not(trueSwitch), a, true);
    MakeAndOrMeans(inputs + [trueSwitch], true, h, a);
    MakeAndOrMeans(inputs + [Not(trueSwitch)], true, h, a);
    assert inputs + [] == inputs;
    MakeAndOrMeans(inputs, true, h, a);
  }

  /** This is what the rules make of the predicates of the inputs. */
  lemma SlotMeans(g: Graph, v: int, k: int, m: PredicateMap, h: Hash, a: Assignment)
    requires v in g && Handleable(g, v, m) && SlotOf(g[v], k)
    requires (v, k) in m && m[(v, k)] == SlotPredicate(g, v, k, m, h)
    ensures MeansAt(g, m, v, k, a)
  {
    var edges := g[v].inEdges;
    match g[v].kind
    case Switch =>
      SwitchMeans(g, v, k, m, h, a);
    case Merge =>
      if !HasBackedge(g, g[v]) {
        DataIncoming(edges, m, a);
        MakeAndOrMeans(Incoming(edges, DataOnly, m), false, h, a);
      }
    case ControlTrigger =>
      MakeAndOrMeans([], true, h, a);
    case Recv =>
      var inputs := Incoming(edges, DataAndControl, m);
      AllIncoming(edges, m, a);
      AllAreAppend(inputs, Symbol((v, 0), false), a, true);
      MakeAndOrMeans(inputs + [Symbol((v, 0), false)], true, h, a);
    case Generic(_) =>
      AllIncoming(edges, m, a);
      MakeAndOrMeans(Incoming(edges, DataAndControl, m), true, h, a);
  }

  /** One more node, ... */
  lemma ExtendsMeans(g: Graph, v: int, m: PredicateMap, h: Hash, after: PredicateMap, k: int, a: Assignment)
    requires v in g && Handleable(g, v, m) && Extends(g, v, m, h, after) && SlotOf(g[v], k) && (v, k) !in m
    ensures MeansAt(g, after, v, k, a)
  {
    hide SlotPredicate, MeansAt;
    SlotSame(g, v, k, m, h, after);
    SlotMeans(g, v, k, after, h, a);
  }

  /** ... and all of them. */
  lemma AnalysedMeansAt(g: Graph, h: Hash, done: set<int>, m: PredicateMap, v: int, k: int, a: Assignment)
    requires Computed(g, h, done, m) && v in done && v in g && SlotOf(g[v], k)
    ensures MeansAt(g, m, v, k, a)
  {
    hide SlotPredicate, MeansAt;
    SlotMeans(g, v, k, m, h, a);
  }

  // ---------- the order of the nodes ----------

  /**
   The nodes come after the sources of their edges, except for edges from NextIteration nodes, which
   end in Merge and ControlTrigger nodes; every edge starts at an output its source has.
   */
  ghost predicate Ordered(g: Graph, order: seq<int>) {
    && (forall i, j :: 0 <= i < j < |order| ==> order[i] != order[j])
    && (forall i :: 0 <= i < |order| ==> order[i] in g)
    && (forall i, e :: 0 <= i < |order| && e in g[order[i]].inEdges ==>
          if FromNextIteration(g, e) then g[order[i]].kind.Merge? || g[order[i]].kind.ControlTrigger?
          else e.src in order[..i] && SlotOf(g[e.src], e.slot))
  }

  lemma OrderGivesInputs(g: Graph, h: Hash, order: seq<int>, i: nat, m: PredicateMap)
    requires Ordered(g, order) && i < |order|
    requires Analysed(g, h, Elems(order[..i]), m)
    ensures InputsKnown(g, g[order[i]], m)
  {
    var node := g[order[i]];
    if LookedAt(g, node).Some? {
      forall e | e in node.inEdges && Selected(e, LookedAt(g, node).value)
        ensures e.Tensor() in m
      {
        assert !FromNextIteration(g, e);
        assert e.src in order[..i];
      }
    }
  }

  // ---------- mismatching inputs ----------

  /** Two inputs of the node have different predicates. */
  ghost predicate InputsDiffer(node: Node, m: PredicateMap)
    requires Known(node.inEdges, DataAndControl, m)
  {
    exists e, f :: e in node.inEdges && f in node.inEdges && m[e.Tensor()] != m[f.Tensor()]
  }

  /** The inputs of the node are live together or dead together in every execution. */
  ghost predicate InputsAgree(g: Graph, node: Node) {
    forall live, truth :: Execution(g, live, truth) ==>
      forall e, f :: e in node.inEdges && f in node.inEdges ==> (live(e.Tensor()) <==> live(f.Tensor()))
  }

  lemma EqualPredicatesAgree(g: Graph, node: Node, m: PredicateMap)
    requires Known(node.inEdges, DataAndControl, m) && Sound(g, m) && !InputsDiffer(node, m)
    ensures InputsAgree(g, node)
  {
    forall live, truth, e, f | Execution(g, live, truth) && e in node.inEdges && f in node.inEdges
      ensures live(e.Tensor()) <==> live(f.Tensor())
    {
      assert Selected(e, DataAndControl) && Selected(f, DataAndControl);
      assert m[e.Tensor()] == m[f.Tensor()];
      assert Tells(m, live, truth);
    }
  }
}
