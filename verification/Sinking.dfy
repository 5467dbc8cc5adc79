/**
 Transpose sinking on values: graphs of tensor operations, what their outputs are worth, and what the
 pass keeps while it holds transposes pending.
 */
module Sinking {
  import opened TensorAlgebra
  import R = Reshaping

  /** An output of a node. */
  datatype Output = Output(node: int, slot: int)

  /** Operations; those on elements and the opaque ones are named, see Semantics. */
  datatype Op =
    | Transpose(order: Order)
    | Unary(name: int)
    | Binary(name: int)
    | Pad(begin: seq<int>, end: seq<int>, mode: PadMode)  // inputs: data and filling
    | Concat(axis: nat)
    | Reshape(target: Shape)                              // only ever inserted
    | Opaque(name: int)

  /**
   A node, with the cached shape of every output. Before the pass these are the shapes of the tensors; during
   the pass they may be out of date.
   */
  datatype Node = Node(op: Op, inputs: seq<Output>, shapes: seq<Shape>)

  type Graph = map<int, Node>

  /** What the named operations compute. */
  datatype Semantics = Semantics(
    unary: int -> (Element -> Element),
    binary: int -> ((Element, Element) -> Element),
    opaque_: (int, seq<Tensor>, int) -> Tensor)

  ghost function Meaningless(): Tensor {
    Build([], (_: Index) => 0)
  }

  /** Output k of an operation applied to arguments it can take; anything on others. */
  ghost function Eval(env: Semantics, op: Op, args: seq<Tensor>, k: int): Tensor {
    match op
    case Transpose(p) =>
      if |args| == 1 && IsPermutation(p) && |args[0].shape| == |p| then Permute(args[0], p) else Meaningless()
    case Unary(name) => if |args| == 1 then Map(env.unary(name), args[0]) else Meaningless()
    case Binary(name) => if |args| == 2 then Zip(env.binary(name), args[0], args[1]) else Meaningless()
    case Pad(begin, end, mode) =>
      if |args| == 2 && |args[0].shape| == |begin| == |end|
      then PadTensor(mode, args[0], begin, end, args[1].Get([])) else Meaningless()
    case Concat(axis) =>
      if |args| > 0 && axis < |args[0].shape| then ConcatTensor(args, axis) else Meaningless()
    case Reshape(target) => if |args| == 1 then R.Reshaped(args[0], target) else Meaningless()
    case Opaque(name) => env.opaque_(name, args, k)
  }

  // ---------- the graph before the pass ----------

  /**
   What the pass holds against an output: the order of its pending transpose, the cached shape of the output
   where it is found, and the cached shape of that transpose.
   */
  datatype Found = Found(order: Order, shape: Shape, pending: Shape)

  /** The graph, the values of all its outputs, and what the pass is going to hold against them. */
  datatype Problem = Problem(env: Semantics, g: Graph, before: Output -> Tensor, found: Output -> Found)
  {
    ghost predicate Has(o: Output) {
      o.node in g && 0 <= o.slot < |g[o.node].shapes|
    }

    ghost function Values(inputs: seq<Output>): (r: seq<Tensor>)
      ensures |r| == |inputs| && forall j :: 0 <= j < |inputs| ==> r[j] == before(inputs[j])
    {
      seq(|inputs|, j requires 0 <= j < |inputs| => before(inputs[j]))
    }

    /** What type inference has made sure of for node x. */
    ghost predicate Typed(x: int)
      requires x in g && forall j :: 0 <= j < |g[x].inputs| ==> Has(g[x].inputs[j])
    {
      var n := g[x];
      match n.op
      case Transpose(p) =>
        |n.inputs| == 1 && |n.shapes| == 1 && IsPermutation(p) && |p| == |n.shapes[0]| == Rank(n.inputs[0])
      case Unary(_) => |n.inputs| == 1 && |n.shapes| == 1
      case Binary(_) => |n.inputs| == 2 && |n.shapes| == 1 && |n.shapes[0]| == Max(Rank(n.inputs[0]), Rank(n.inputs[1]))
      case Pad(begin, end, _) => |n.inputs| == 2 && |n.shapes| == 1 && |begin| == |end| == Rank(n.inputs[0])
          && Rank(n.inputs[1]) == 0
      case Concat(axis) =>
        && |n.inputs| > 0 && |n.shapes| == 1 && axis < Rank(n.inputs[0])
        && forall j :: 0 <= j < |n.inputs| ==> Rank(n.inputs[j]) == Rank(n.inputs[0])
      case Reshape(_) => false
      case Opaque(_) => true
    }

    ghost function Rank(o: Output): nat
      requires Has(o)
    {
      |g[o.node].shapes[o.slot]|
    }

    /** A well-typed graph with its values. */
    ghost predicate WellFormed() {
      && (forall x, j :: x in g && 0 <= j < |g[x].inputs| ==> Has(g[x].inputs[j]))
      && (forall x :: x in g ==> Typed(x))
      && (forall o :: Has(o) ==> before(o).WellFormed() && before(o).shape == g[o.node].shapes[o.slot])
      && (forall o :: Has(o) ==> before(o) == Eval(env, g[o.node].op, Values(g[o.node].inputs), o.slot))
    }
  }

  // ---------- the state of the pass ----------

  /** The graph, the pending transpose of every output, and the transposes that will be bypassed. */
  datatype State = State(g: Graph, nextId: int, reorders: map<Output, int>, toDelete: set<int>)
  {
    predicate HasOrder(c: Output) {
      c in reorders && reorders[c] in g && g[reorders[c]].op.Transpose?
    }

    function OrderOf(c: Output): Order {
      if HasOrder(c) then g[reorders[c]].op.order else []
    }
  }

  /** The cached shape of an output. */
  function ShapeOf(s: State, c: Output): Shape {
    if c.node in s.g && 0 <= c.slot < |s.g[c.node].shapes| then s.g[c.node].shapes[c.slot] else []
  }

  function RankOf(s: State, c: Output): nat {
    |ShapeOf(s, c)|
  }

  /** The cached shape of the transpose pending for an output. */
  function PendingShape(s: State, c: Output): Shape {
    if s.HasOrder(c) then ShapeOf(s, Output(s.reorders[c], 0)) else []
  }

  function FoundOf(s: State, c: Output): Found {
    Found(s.OrderOf(c), ShapeOf(s, c), PendingShape(s, c))
  }

  /** The cached shapes of vectors are never out of date. */
  predicate Steady(f: Found, shape: Shape) {
    |shape| <= 1 ==> f.shape == shape && f.pending == shape
  }

  /** The entries of s in the order p, if that is one for a list of this length. */
  function Reordered(s: seq<nat>, p: Order): (r: seq<nat>)
    ensures |r| == |p|
  {
    if |s| == |p| && InRange(p) then Apply(s, p) else p
  }

  /** A new transpose of c by order p. */
  function TransposeNode(s: State, c: Output, p: Order): (n: Node)
    ensures n.op == Transpose(p) && n.inputs == [c] && |n.shapes| == 1 && |n.shapes[0]| == |p|
  {
    Node(Transpose(p), [c], [Reordered(ShapeOf(s, c), p)])
  }

  /**
   What the proof keeps track of: the level of every node whose inputs are settled, where each original
   output is found, and the value of every settled output once the marked transposes are bypassed.
   */
  datatype Trace = Trace(level: map<int, nat>, clock: nat, cur: map<Output, Output>, now: map<Output, Tensor>)

  ghost predicate AllKnown(now: map<Output, Tensor>, inputs: seq<Output>) {
    forall j :: 0 <= j < |inputs| ==> inputs[j] in now
  }

  ghost function Args(now: map<Output, Tensor>, inputs: seq<Output>): (r: seq<Tensor>)
    requires AllKnown(now, inputs)
    ensures |r| == |inputs| && forall j :: 0 <= j < |inputs| ==> r[j] == now[inputs[j]]
  {
    seq(|inputs|, j requires 0 <= j < |inputs| => if inputs[j] in now then now[inputs[j]] else Meaningless())
  }

  /** Original output o is its pending transpose applied to the output where it is found now. */
  ghost predicate Corresponds(pb: Problem, s: State, tr: Trace, o: Output) {
    && o in tr.cur && pb.Has(o)
    && var c := tr.cur[o];
    && s.HasOrder(c) && c in tr.now
    && var p := s.OrderOf(c);
    && IsPermutation(p) && |p| == pb.Rank(o)
    && tr.now[c].WellFormed() && |tr.now[c].shape| == |p|
    && pb.before(o) == Permute(tr.now[c], p)
    && c.node in s.g && 0 <= c.slot < |s.g[c.node].shapes| && |s.g[c.node].shapes[c.slot]| == |p|
    && (c.slot != 0 ==> p == Default(|p|))
    && c.slot == o.slot && FoundOf(s, c) == pb.found(o) && Steady(pb.found(o), pb.before(o).shape)
  }

  ghost predicate AllCorrespond(pb: Problem, s: State, tr: Trace, done: set<int>) {
    forall o :: pb.Has(o) && o.node in done ==> Corresponds(pb, s, tr, o)
  }

  ghost predicate CurDomain(pb: Problem, tr: Trace, done: set<int>) {
    forall o :: o in tr.cur <==> pb.Has(o) && o.node in done
  }

  /** A node not yet processed is as it was, but for inputs that have moved. */
  ghost predicate Waiting(pb: Problem, s: State, tr: Trace, x: int) {
    && x in pb.g && x in s.g && x !in tr.level && x !in s.toDelete
    && s.g[x].op == pb.g[x].op && s.g[x].shapes == pb.g[x].shapes && |s.g[x].inputs| == |pb.g[x].inputs|
    && forall j :: 0 <= j < |s.g[x].inputs| ==> s.g[x].inputs[j] == Moved(tr.cur, pb.g[x].inputs[j])
  }

  function Moved(cur: map<Output, Output>, o: Output): Output {
    if o in cur then cur[o] else o
  }

  ghost predicate AllWaiting(pb: Problem, s: State, tr: Trace, done: set<int>) {
    forall x :: x in pb.g && x !in done ==> Waiting(pb, s, tr, x)
  }

  /**
   A settled node has settled inputs of lower level, and the value its operation gives, or its input's if
   bypassed.
   */
  ghost predicate Settled(env: Semantics, s: State, tr: Trace, x: int) {
    && x in tr.level && tr.level[x] < tr.clock && x in s.g
    && AllKnown(tr.now, s.g[x].inputs)
    && (forall j :: 0 <= j < |s.g[x].inputs| ==>
          s.g[x].inputs[j].node in tr.level && tr.level[s.g[x].inputs[j].node] < tr.level[x])
    && (x in s.toDelete ==> s.g[x].op.Transpose? && |s.g[x].inputs| == 1 && |s.g[x].shapes| == 1)
    && (forall k :: 0 <= k < |s.g[x].shapes| ==>
          Output(x, k) in tr.now &&
          tr.now[Output(x, k)] == if x in s.toDelete then tr.now[s.g[x].inputs[0]]
              else Eval(env, s.g[x].op, Args(tr.now, s.g[x].inputs), k))
  }

  ghost predicate AllSettled(env: Semantics, s: State, tr: Trace) {
    && (forall x :: x in tr.level ==> Settled(env, s, tr, x))
    && (forall o :: o in tr.now ==> o.node in tr.level && o.node in s.g && 0 <= o.slot < |s.g[o.node].shapes|)
  }

  /** Pending transposes that are inputs of other nodes are marked; the others hang on no node. */
  ghost predicate PendingMarked(s: State, tr: Trace) {
    && (forall c :: c in s.reorders ==>
          s.reorders[c] in s.g && s.g[s.reorders[c]].op.Transpose? && |s.g[s.reorders[c]].inputs| == 1)
    && (forall c :: c in s.reorders && s.reorders[c] in tr.level ==> s.reorders[c] in s.toDelete)
    && (forall t :: t in s.toDelete ==> t in s.g && s.g[t].op.Transpose? && |s.g[t].inputs| == 1)
  }

  /** Identifiers from nextId on are free; pending transposes are no nodes of the original graph. */
  ghost predicate Fresh(pb: Problem, s: State) {
    && (forall x :: x in s.g || x in pb.g ==> x < s.nextId)
    && (forall c :: c in s.reorders ==> c.node in s.g && s.reorders[c] !in pb.g)
  }

  /** Opaque nodes keep their place, and see and give the values they did. */
  ghost predicate OpaqueKept(pb: Problem, s: State, tr: Trace, x: int) {
    && x in pb.g && x in s.g && x in tr.level && x !in s.toDelete
    && s.g[x].op == pb.g[x].op && |s.g[x].inputs| == |pb.g[x].inputs| && s.g[x].shapes == pb.g[x].shapes
    && (forall j :: 0 <= j < |s.g[x].inputs| ==>
          s.g[x].inputs[j] in tr.now && tr.now[s.g[x].inputs[j]] == pb.before(pb.g[x].inputs[j]))
    && (forall k :: 0 <= k < |s.g[x].shapes| ==>
          Output(x, k) in tr.now && tr.now[Output(x, k)] == pb.before(Output(x, k)))
  }

  ghost predicate AllOpaqueKept(pb: Problem, s: State, tr: Trace, done: set<int>) {
    forall x :: x in done && x in pb.g && pb.g[x].op.Opaque? ==> OpaqueKept(pb, s, tr, x)
  }

  /** The nodes in `done` are processed, those outside `begun` untouched. */
  ghost predicate Inv(pb: Problem, s: State, tr: Trace, done: set<int>, begun: set<int>) {
    && CurDomain(pb, tr, done)
    && AllCorrespond(pb, s, tr, done)
    && AllWaiting(pb, s, tr, begun)
    && AllSettled(pb.env, s, tr)
    && PendingMarked(s, tr)
    && Fresh(pb, s)
    && AllOpaqueKept(pb, s, tr, done)
  }

  // ---------- small steps ----------

  function AddNode(s: State, n: Node): State {
    s.(g := s.g[s.nextId := n], nextId := s.nextId + 1)
  }

  function Pend(s: State, c: Output, t: int): State {
    s.(reorders := s.reorders[c := t])
  }

  function Mark(s: State, t: int): State {
    s.(toDelete := s.toDelete + {t})
  }

  /** What the invariant says of nodes and outputs, apart from the bookkeeping of identifiers and marks. */
  ghost predicate Core(pb: Problem, s: State, tr: Trace, done: set<int>, begun: set<int>) {
    && CurDomain(pb, tr, done)
    && AllCorrespond(pb, s, tr, done)
    && AllWaiting(pb, s, tr, begun)
    && AllSettled(pb.env, s, tr)
    && AllOpaqueKept(pb, s, tr, done)
  }

  /**
   The nodes keep their operation, those settled or waiting keep their inputs, too; the outputs found keep
   their pending transposes, and no node that counts is marked anew.
   */
  ghost predicate Grows(pb: Problem, s: State, s': State, tr: Trace, begun: set<int>) {
    && (forall x :: x in s.g ==> x in s'.g && SameKind(s.g[x], s'.g[x]))
    && (forall x :: x in s.g && (x in tr.level || (x in pb.g && x !in begun)) ==> x in s'.g && s'.g[x] == s.g[x])
    && (forall o :: o in tr.cur && tr.cur[o] in s.reorders ==>
          tr.cur[o] in s'.reorders && s'.reorders[tr.cur[o]] == s.reorders[tr.cur[o]])
    && (forall x :: x in tr.level || x in pb.g ==> (x in s'.toDelete <==> x in s.toDelete))
  }

  predicate SameKind(m: Node, n: Node) {
    m.op == n.op && m.shapes == n.shapes && |m.inputs| == |n.inputs|
  }

  lemma CorrespondsGrows(pb: Problem, s: State, s': State, tr: Trace, begun: set<int>, o: Output)
    requires Corresponds(pb, s, tr, o) && Grows(pb, s, s', tr, begun)
    ensures Corresponds(pb, s', tr, o)
  {
    hide Permute;
    var c := tr.cur[o];
    assert s'.reorders[c] == s.reorders[c] && s'.OrderOf(c) == s.OrderOf(c);
  }

  lemma WaitingGrows(pb: Problem, s: State, s': State, tr: Trace, begun: set<int>, x: int)
    requires Waiting(pb, s, tr, x) && Grows(pb, s, s', tr, begun) && x !in begun
    ensures Waiting(pb, s', tr, x)
  {
  }

  lemma SettledGrows(pb: Problem, s: State, s': State, tr: Trace, begun: set<int>, x: int)
    requires Settled(pb.env, s, tr, x) && Grows(pb, s, s', tr, begun)
    ensures Settled(pb.env, s', tr, x)
  {
    hide Eval;
  }

  lemma OpaqueGrows(pb: Problem, s: State, s': State, tr: Trace, begun: set<int>, x: int)
    requires OpaqueKept(pb, s, tr, x) && Grows(pb, s, s', tr, begun)
    ensures OpaqueKept(pb, s', tr, x)
  {
  }

  lemma OutputsGrow(pb: Problem, s: State, s': State, tr: Trace, begun: set<int>)
    requires AllSettled(pb.env, s, tr) && Grows(pb, s, s', tr, begun)
    ensures forall o :: o in tr.now ==> o.node in tr.level && o.node in s'.g && 0 <= o.slot < |s'.g[o.node].shapes|
  {
  }

  lemma GrowsKeeps(pb: Problem, s: State, s': State, tr: Trace, done: set<int>, begun: set<int>)
    requires Core(pb, s, tr, done, begun) && Grows(pb, s, s', tr, begun)
    ensures Core(pb, s', tr, done, begun)
  {
    OutputsGrow(pb, s, s', tr, begun);
    hide Corresponds, Waiting, Settled, OpaqueKept;
    forall o | pb.Has(o) && o.node in done ensures Corresponds(pb, s', tr, o) {
      CorrespondsGrows(pb, s, s', tr, begun, o);
    }
    forall x | x in pb.g && x !in begun ensures Waiting(pb, s', tr, x) {
      WaitingGrows(pb, s, s', tr, begun, x);
    }
    forall x | x in tr.level ensures Settled(pb.env, s', tr, x) {
      SettledGrows(pb, s, s', tr, begun, x);
    }
    forall x | x in done && x in pb.g && pb.g[x].op.Opaque? ensures OpaqueKept(pb, s', tr, x) {
      OpaqueGrows(pb, s, s', tr, begun, x);
    }
  }

  /** A node that nobody uses and whose value nobody needs. */
  lemma AddDangling(pb: Problem, s: State, tr: Trace, done: set<int>, begun: set<int>, n: Node)
    requires Inv(pb, s, tr, done, begun)
    ensures Inv(pb, AddNode(s, n), tr, done, begun)
  {
    hide *;
    InvIsCore(pb, s, tr, done, begun);
    AddGrows(pb, s, tr, begun, n);
    GrowsKeeps(pb, s, AddNode(s, n), tr, done, begun);
    InvIsCore(pb, AddNode(s, n), tr, done, begun);
  }

  lemma InvIsCore(pb: Problem, s: State, tr: Trace, done: set<int>, begun: set<int>)
    ensures Inv(pb, s, tr, done, begun) <==> Core(pb, s, tr, done, begun) && PendingMarked(s, tr) && Fresh(pb, s)
  {
    hide CurDomain, AllCorrespond, AllWaiting, AllSettled, AllOpaqueKept, PendingMarked, Fresh;
  }

  lemma AddGrows(pb: Problem, s: State, tr: Trace, begun: set<int>, n: Node)
    requires PendingMarked(s, tr) && Fresh(pb, s)
    ensures Grows(pb, s, AddNode(s, n), tr, begun) && PendingMarked(AddNode(s, n), tr) && Fresh(pb, AddNode(s, n))
  {
  }

  /** Nothing original is found at c, so its pending transpose may be set. */
  lemma PendNew(pb: Problem, s: State, tr: Trace, done: set<int>, begun: set<int>, c: Output, t: int)
    requires Inv(pb, s, tr, done, begun)
    requires c.node in s.g && forall o :: o in tr.cur ==> tr.cur[o] != c
    requires t in s.g && s.g[t].op.Transpose? && |s.g[t].inputs| == 1 && t !in pb.g
    requires (t in tr.level ==> t in s.toDelete)
    ensures Inv(pb, Pend(s, c, t), tr, done, begun)
  {
    hide CurDomain, AllCorrespond, AllWaiting, AllSettled, AllOpaqueKept;
    GrowsKeeps(pb, s, Pend(s, c, t), tr, done, begun);
  }

  /** Marking a pending transpose: it is marked already, or no node depends on it. */
  lemma MarkPending(pb: Problem, s: State, tr: Trace, done: set<int>, begun: set<int>, c: Output)
    requires Inv(pb, s, tr, done, begun) && c in s.reorders
    ensures Inv(pb, Mark(s, s.reorders[c]), tr, done, begun)
  {
    hide CurDomain, AllCorrespond, AllWaiting, AllSettled, AllOpaqueKept;
    GrowsKeeps(pb, s, Mark(s, s.reorders[c]), tr, done, begun);
  }

  lemma ArgsExtend(now: map<Output, Tensor>, now': map<Output, Tensor>, inputs: seq<Output>)
    requires AllKnown(now, inputs) && forall o :: o in now ==> o in now' && now'[o] == now[o]
    ensures AllKnown(now', inputs) && Args(now', inputs) == Args(now, inputs)
  {
  }

  // ---------- settling a node ----------

  /** The trace after settling node x with the given values of its outputs. */
  ghost function Settle(tr: Trace, x: int, values: seq<Tensor>): Trace {
    Trace(tr.level[x := tr.clock], tr.clock + 1, tr.cur,
          tr.now + map k | 0 <= k < |values| :: Output(x, k) := values[k])
  }

  /** The inputs of node x are settled, and `values` is what its outputs are worth. */
  ghost predicate ReadyToSettle(env: Semantics, s: State, tr: Trace, x: int, values: seq<Tensor>) {
    && x in s.g && x !in tr.level && |values| == |s.g[x].shapes|
    && AllKnown(tr.now, s.g[x].inputs)
    && (x in s.toDelete ==> s.g[x].op.Transpose? && |s.g[x].inputs| == 1 && |s.g[x].shapes| == 1)
    && forall k :: 0 <= k < |values| ==>
         values[k] == if x in s.toDelete then tr.now[s.g[x].inputs[0]]
             else Eval(env, s.g[x].op, Args(tr.now, s.g[x].inputs), k)
  }

  lemma SettleAt(tr: Trace, x: int, values: seq<Tensor>)
    ensures forall o :: o in Settle(tr, x, values).now <==> o in tr.now || (o.node == x && 0 <= o.slot < |values|)
    ensures forall k :: 0 <= k < |values| ==>
        Output(x, k) in Settle(tr, x, values).now && Settle(tr, x, values).now[Output(x, k)] == values[k]
    ensures forall o :: o in tr.now && o.node != x ==> Settle(tr, x, values).now[o] == tr.now[o]
  {
    var m := map k | 0 <= k < |values| :: Output(x, k) := values[k];
    forall k | 0 <= k < |values| ensures Output(x, k) in m && m[Output(x, k)] == values[k] { }
    forall o: Output | o.node == x && 0 <= o.slot < |values| ensures o in m {
      assert o == Output(x, o.slot);
    }
  }

  lemma SettledNew(env: Semantics, s: State, tr: Trace, x: int, values: seq<Tensor>)
    requires AllSettled(env, s, tr) && ReadyToSettle(env, s, tr, x, values)
    ensures Settled(env, s, Settle(tr, x, values), x)
  {
    hide Eval;
    var tr' := Settle(tr, x, values);
    SettleAt(tr, x, values);
    forall o | o in tr.now ensures o.node in tr.level && o.node != x { }
    ArgsExtend(tr.now, tr'.now, s.g[x].inputs);
    forall j | 0 <= j < |s.g[x].inputs|
      ensures s.g[x].inputs[j].node in tr'.level && tr'.level[s.g[x].inputs[j].node] < tr'.level[x]
    {
      assert s.g[x].inputs[j] in tr.now;
      assert Settled(env, s, tr, s.g[x].inputs[j].node);
    }
  }

  lemma SettledStill(env: Semantics, s: State, tr: Trace, x: int, values: seq<Tensor>, y: int)
    requires AllSettled(env, s, tr) && x !in tr.level && y in tr.level
    ensures Settled(env, s, Settle(tr, x, values), y)
  {
    hide Eval;
    var tr' := Settle(tr, x, values);
    SettleAt(tr, x, values);
    assert Settled(env, s, tr, y);
    forall o | o in tr.now ensures o.node in tr.level && o.node != x { }
    ArgsExtend(tr.now, tr'.now, s.g[y].inputs);
  }

  lemma AllSettledNow(env: Semantics, s: State, tr: Trace, x: int, values: seq<Tensor>)
    requires AllSettled(env, s, tr) && ReadyToSettle(env, s, tr, x, values)
    ensures AllSettled(env, s, Settle(tr, x, values))
  {
    hide Eval, Settled;
    var tr' := Settle(tr, x, values);
    SettleAt(tr, x, values);
    forall y | y in tr'.level ensures Settled(env, s, tr', y) {
      if y == x {
        SettledNew(env, s, tr, x, values);
      } else {
        SettledStill(env, s, tr, x, values, y);
      }
    }
  }

  /** Every value known stays known. */
  ghost predicate NowGrows(tr: Trace, tr': Trace) {
    && tr'.cur == tr.cur
    && (forall x :: x in tr.level ==> x in tr'.level)
    && forall o :: o in tr.now ==> o in tr'.now && tr'.now[o] == tr.now[o]
  }

  lemma CorrespondsLater(pb: Problem, s: State, tr: Trace, tr': Trace, o: Output)
    requires Corresponds(pb, s, tr, o) && NowGrows(tr, tr')
    ensures Corresponds(pb, s, tr', o)
  {
    hide Permute, IsPermutation;
  }

  lemma OpaqueLater(pb: Problem, s: State, tr: Trace, tr': Trace, x: int)
    requires OpaqueKept(pb, s, tr, x) && NowGrows(tr, tr')
    ensures OpaqueKept(pb, s, tr', x)
  {
  }

  lemma SettleGrows(env: Semantics, s: State, tr: Trace, x: int, values: seq<Tensor>)
    requires AllSettled(env, s, tr) && x !in tr.level
    ensures NowGrows(tr, Settle(tr, x, values))
  {
    SettleAt(tr, x, values);
    forall o | o in tr.now ensures o.node in tr.level && o.node != x { }
  }

  /** Settling a node outside the waiting ones keeps the invariant. */
  lemma SettleKeeps(pb: Problem, s: State, tr: Trace, done: set<int>, begun: set<int>, x: int, values: seq<Tensor>)
    requires Inv(pb, s, tr, done, begun) && ReadyToSettle(pb.env, s, tr, x, values)
    requires x in begun || x !in pb.g
    requires forall c :: c in s.reorders && s.reorders[c] == x ==> x in s.toDelete
    ensures Inv(pb, s, Settle(tr, x, values), done, begun)
  {
    hide Eval, Corresponds, Settled, OpaqueKept, NowGrows;
    var tr' := Settle(tr, x, values);
    AllSettledNow(pb.env, s, tr, x, values);
    SettleGrows(pb.env, s, tr, x, values);
    forall o | pb.Has(o) && o.node in done ensures Corresponds(pb, s, tr', o) {
      CorrespondsLater(pb, s, tr, tr', o);
    }
    forall y | y in pb.g && y !in begun ensures Waiting(pb, s, tr', y) {
      assert Waiting(pb, s, tr, y);
    }
    forall y | y in done && y in pb.g && pb.g[y].op.Opaque? ensures OpaqueKept(pb, s, tr', y) {
      OpaqueLater(pb, s, tr, tr', y);
    }
  }

  // ---------- adding a settled node ----------

  ghost predicate NewNodeFits(env: Semantics, tr: Trace, n: Node, bypassed: bool, value: Tensor) {
    && AllKnown(tr.now, n.inputs) && |n.shapes| == 1
    && (bypassed ==> n.op.Transpose? && |n.inputs| == 1)
    && value == if bypassed then tr.now[n.inputs[0]] else Eval(env, n.op, Args(tr.now, n.inputs), 0)
  }

  function Added(s: State, n: Node, bypassed: bool): State {
    if bypassed then Mark(AddNode(s, n), s.nextId) else AddNode(s, n)
  }

  lemma NewIdUnused(pb: Problem, s: State, tr: Trace, done: set<int>, begun: set<int>)
    requires Inv(pb, s, tr, done, begun)
    ensures s.nextId !in tr.level && s.nextId !in pb.g && s.nextId !in s.g && s.nextId !in s.toDelete
    ensures forall c :: c in s.reorders ==> s.reorders[c] != s.nextId
    ensures forall o :: o in tr.cur ==> tr.cur[o].node != s.nextId
  {
    assert s.nextId in tr.level ==> Settled(pb.env, s, tr, s.nextId);
    forall o | o in tr.cur ensures tr.cur[o].node != s.nextId {
      assert Corresponds(pb, s, tr, o);
    }
  }

  /** A new node over settled outputs; a bypassed one is worth what its input is worth. */
  lemma AddSettled(pb: Problem, s: State, tr: Trace, done: set<int>, begun: set<int>, n: Node, bypassed: bool,
                   value: Tensor)
    requires Inv(pb, s, tr, done, begun) && NewNodeFits(pb.env, tr, n, bypassed, value)
    ensures Inv(pb, Added(s, n, bypassed), Settle(tr, s.nextId, [value]), done, begun)
  {
    hide Eval, CurDomain, AllCorrespond, AllWaiting, AllSettled, AllOpaqueKept;
    NewIdUnused(pb, s, tr, done, begun);
    AddDangling(pb, s, tr, done, begun, n);
    var t := AddNode(s, n);
    GrowsKeeps(pb, t, Added(s, n, bypassed), tr, done, begun);
    SettleKeeps(pb, Added(s, n, bypassed), tr, done, begun, s.nextId, [value]);
  }

  /** Another input for a node that is being processed. */
  function SetInput(s: State, x: int, j: int, o: Output): State
    requires x in s.g && 0 <= j < |s.g[x].inputs|
  {
    s.(g := s.g[x := s.g[x].(inputs := s.g[x].inputs[j := o])])
  }

  lemma SetInputKeeps(pb: Problem, s: State, tr: Trace, done: set<int>, begun: set<int>, x: int, j: int, o: Output)
    requires Inv(pb, s, tr, done, begun) && x in begun && x in pb.g && x !in tr.level
    requires x in s.g && 0 <= j < |s.g[x].inputs|
    ensures Inv(pb, SetInput(s, x, j, o), tr, done, begun)
  {
    hide CurDomain, AllCorrespond, AllWaiting, AllSettled, AllOpaqueKept;
    GrowsKeeps(pb, s, SetInput(s, x, j, o), tr, done, begun);
  }

  // ---------- finishing an original node ----------

  /** The outputs of original node x are found at the first n outputs of y. */
  ghost function FoundAt(tr: Trace, x: int, y: int, n: nat): Trace {
    tr.(cur := tr.cur + map k | 0 <= k < n :: Output(x, k) := Output(y, k))
  }

  lemma FoundAtCur(tr: Trace, x: int, y: int, n: nat)
    ensures forall o :: o in FoundAt(tr, x, y, n).cur <==> o in tr.cur || (o.node == x && 0 <= o.slot < n)
    ensures forall k :: 0 <= k < n ==> FoundAt(tr, x, y, n).cur[Output(x, k)] == Output(y, k)
    ensures forall o :: o in tr.cur && o.node != x ==> FoundAt(tr, x, y, n).cur[o] == tr.cur[o]
  {
    var m := map k | 0 <= k < n :: Output(x, k) := Output(y, k);
    forall k | 0 <= k < n ensures Output(x, k) in m && m[Output(x, k)] == Output(y, k) { }
    forall o: Output | o.node == x && 0 <= o.slot < n ensures o in m {
      assert o == Output(x, o.slot);
    }
  }

  lemma FoundAtKeeps(tr: Trace, x: int, y: int, n: nat)
    ensures var tr' := FoundAt(tr, x, y, n);
            tr'.now == tr.now && tr'.level == tr.level && tr'.clock == tr.clock
  {
  }

  /** One more original node whose outputs are found. */
  lemma AllCorrespondAt(pb: Problem, s: State, tr: Trace, done: set<int>, x: int, y: int)
    requires AllCorrespond(pb, s, tr, done) && CurDomain(pb, tr, done) && x in pb.g && x !in done
    requires forall k :: 0 <= k < |pb.g[x].shapes| ==>
               Corresponds(pb, s, FoundAt(tr, x, y, |pb.g[x].shapes|), Output(x, k))
    ensures AllCorrespond(pb, s, FoundAt(tr, x, y, |pb.g[x].shapes|), done + {x})
    ensures CurDomain(pb, FoundAt(tr, x, y, |pb.g[x].shapes|), done + {x})
  {
    hide Corresponds;
    var tr' := FoundAt(tr, x, y, |pb.g[x].shapes|);
    FoundAtCur(tr, x, y, |pb.g[x].shapes|);
    forall o | pb.Has(o) && o.node in done + {x} ensures Corresponds(pb, s, tr', o) {
      if o.node == x {
        assert o == Output(x, o.slot);
      } else {
        FoundElsewhere(pb, s, tr, tr', o);
      }
    }
  }

  lemma OpaqueAt(pb: Problem, s: State, tr: Trace, tr': Trace, done: set<int>, x: int)
    requires AllOpaqueKept(pb, s, tr, done) && tr'.now == tr.now && tr'.level == tr.level
    requires x in pb.g && pb.g[x].op.Opaque? ==> OpaqueKept(pb, s, tr, x)
    ensures AllOpaqueKept(pb, s, tr', done + {x})
  {
    forall y | y in done + {x} && y in pb.g && pb.g[y].op.Opaque? ensures OpaqueKept(pb, s, tr', y) {
      assert OpaqueKept(pb, s, tr, y);
    }
  }

  lemma WaitingAt(pb: Problem, s: State, tr: Trace, begun: set<int>, x: int, n: nat)
    requires AllWaiting(pb, s, tr, begun) && forall k :: 0 <= k < n ==> Output(x, k) !in tr.cur
    ensures AllWaiting(pb, s, FoundAt(tr, x, x, n), begun)
  {
    FoundAtCur(tr, x, x, n);
    forall y | y in pb.g && y !in begun ensures Waiting(pb, s, FoundAt(tr, x, x, n), y) {
      assert Waiting(pb, s, tr, y);
      forall o ensures Moved(FoundAt(tr, x, x, n).cur, o) == Moved(tr.cur, o) {
        assert o.node == x ==> o == Output(x, o.slot);
      }
    }
  }

  lemma NotFoundYet(pb: Problem, tr: Trace, done: set<int>, x: int)
    requires CurDomain(pb, tr, done) && x !in done
    ensures forall k :: Output(x, k) !in tr.cur
  {
  }

  lemma MarksSame(s: State, tr: Trace, tr': Trace)
    requires PendingMarked(s, tr) && tr'.level == tr.level
    ensures PendingMarked(s, tr')
  {
  }

  /** Node x stays in its place. */
  lemma FinishKeeps(pb: Problem, s: State, tr: Trace, done: set<int>, begun: set<int>, x: int)
    requires Inv(pb, s, tr, done, begun) && x in pb.g && x in begun && x !in done
    requires forall k :: 0 <= k < |pb.g[x].shapes| ==>
               Corresponds(pb, s, FoundAt(tr, x, x, |pb.g[x].shapes|), Output(x, k))
    requires pb.g[x].op.Opaque? ==> OpaqueKept(pb, s, tr, x)
    ensures Inv(pb, s, FoundAt(tr, x, x, |pb.g[x].shapes|), done + {x}, begun)
  {
    hide AllCorrespond, AllWaiting, AllSettled, AllOpaqueKept, Corresponds, OpaqueKept, CurDomain, PendingMarked, Fresh;
    var tr' := FoundAt(tr, x, x, |pb.g[x].shapes|);
    NotFoundYet(pb, tr, done, x);
    MarksSame(s, tr, tr');
    AllCorrespondAt(pb, s, tr, done, x, x);
    SettledSame(pb.env, s, tr, tr');
    WaitingAt(pb, s, tr, begun, x, |pb.g[x].shapes|);
    OpaqueAt(pb, s, tr, tr', done, x);
  }

  lemma FoundElsewhere(pb: Problem, s: State, tr: Trace, tr': Trace, o: Output)
    requires Corresponds(pb, s, tr, o) && tr'.now == tr.now && o in tr'.cur && tr'.cur[o] == tr.cur[o]
    ensures Corresponds(pb, s, tr', o)
  {
    hide Permute;
  }

  /** The values and levels do not depend on where the originals are found. */
  lemma SettledSame(env: Semantics, s: State, tr: Trace, tr': Trace)
    requires AllSettled(env, s, tr) && tr'.now == tr.now && tr'.level == tr.level && tr'.clock == tr.clock
    ensures AllSettled(env, s, tr')
  {
    hide Eval;
    forall x | x in tr'.level ensures Settled(env, s, tr', x) {
      assert Settled(env, s, tr, x);
    }
  }

  // ---------- replacing a node ----------

  function Redirect(o: Output, x: int, y: int): Output {
    if o == Output(x, 0) then Output(y, 0) else o
  }

  function RedirectAll(inputs: seq<Output>, x: int, y: int): (r: seq<Output>)
    ensures |r| == |inputs| && forall j :: 0 <= j < |inputs| ==> r[j] == Redirect(inputs[j], x, y)
  {
    seq(|inputs|, j requires 0 <= j < |inputs| => Redirect(inputs[j], x, y))
  }

  /** Whoever uses output 0 of x uses output 0 of y. */
  function Rewired(s: State, x: int, y: int): State {
    s.(g := map z | z in s.g :: s.g[z].(inputs := RedirectAll(s.g[z].inputs, x, y)))
  }

  lemma SettledUntouched(env: Semantics, s: State, tr: Trace, x: int, y: int, z: int)
    requires AllSettled(env, s, tr) && x !in tr.level && z in tr.level
    ensures z in s.g && Rewired(s, x, y).g[z] == s.g[z]
  {
    hide Eval;
    assert Settled(env, s, tr, z);
    forall j | 0 <= j < |s.g[z].inputs| ensures RedirectAll(s.g[z].inputs, x, y)[j] == s.g[z].inputs[j] {
      assert s.g[z].inputs[j].node in tr.level;
    }
    assert RedirectAll(s.g[z].inputs, x, y) == s.g[z].inputs;
  }

  lemma WaitingRewired(pb: Problem, s: State, tr: Trace, done: set<int>, begun: set<int>, x: int, y: int, z: int)
    requires Inv(pb, s, tr, done, begun) && pb.WellFormed() && x in pb.g && x !in done && x !in tr.level
    requires |pb.g[x].shapes| == 1
    requires z in pb.g && z !in begun
    ensures Waiting(pb, Rewired(s, x, y), FoundAt(tr, x, y, 1), z)
  {
    hide Settled, OpaqueKept, PendingMarked, Fresh, Permute, IsPermutation, Eval, Problem.Typed;
    var s', tr' := Rewired(s, x, y), FoundAt(tr, x, y, 1);
    FoundAtCur(tr, x, y, 1);
    assert Waiting(pb, s, tr, z);
    forall j | 0 <= j < |s'.g[z].inputs|
      ensures s'.g[z].inputs[j] == Moved(tr'.cur, pb.g[z].inputs[j])
    {
      var o := pb.g[z].inputs[j];
      assert pb.Has(o);
      if o in tr.cur {
        assert Corresponds(pb, s, tr, o);
        assert tr.cur[o].node in tr.level;
      } else {
        assert o.node == x ==> o == Output(x, 0);
      }
    }
  }

  /** Node y takes the place of node x. */
  lemma RewireKeeps(pb: Problem, s: State, tr: Trace, done: set<int>, begun: set<int>, x: int, y: int)
    requires Inv(pb, s, tr, done, begun) && pb.WellFormed() && x in pb.g && x in begun && x !in done && x !in tr.level
    requires |pb.g[x].shapes| == 1 && !pb.g[x].op.Opaque?
    requires Corresponds(pb, s, FoundAt(tr, x, y, 1), Output(x, 0))
    ensures Inv(pb, Rewired(s, x, y), FoundAt(tr, x, y, 1), done + {x}, begun)
  {
    hide CurDomain, AllCorrespond, AllSettled, PendingMarked, Fresh, AllOpaqueKept, Rewired, FoundAt, Corresponds,
        Waiting;
    RewireFinds(pb, s, tr, done, x, y);
    RewireSettled(pb, s, tr, done, x, y);
    RewiredMarks(pb, s, tr, x, y);
    forall z | z in pb.g && z !in begun ensures Waiting(pb, Rewired(s, x, y), FoundAt(tr, x, y, 1), z) {
      WaitingRewired(pb, s, tr, done, begun, x, y, z);
    }
  }

  lemma RewireFinds(pb: Problem, s: State, tr: Trace, done: set<int>, x: int, y: int)
    requires CurDomain(pb, tr, done) && AllCorrespond(pb, s, tr, done) && x in pb.g && x !in done
    requires |pb.g[x].shapes| == 1
    requires Corresponds(pb, s, FoundAt(tr, x, y, 1), Output(x, 0))
    ensures CurDomain(pb, FoundAt(tr, x, y, 1), done + {x})
    ensures AllCorrespond(pb, Rewired(s, x, y), FoundAt(tr, x, y, 1), done + {x})
  {
    hide Corresponds, CurDomain, AllCorrespond, Rewired, FoundAt;
    forall k | 0 <= k < |pb.g[x].shapes| ensures Corresponds(pb, s, FoundAt(tr, x, y, |pb.g[x].shapes|), Output(x, k)) {
      assert k == 0;
    }
    AllCorrespondAt(pb, s, tr, done, x, y);
    AllCorrespondRewired(pb, s, FoundAt(tr, x, y, 1), done + {x}, x, y);
  }

  lemma RewireSettled(pb: Problem, s: State, tr: Trace, done: set<int>, x: int, y: int)
    requires AllSettled(pb.env, s, tr) && AllOpaqueKept(pb, s, tr, done) && x in pb.g && x !in tr.level
    requires !pb.g[x].op.Opaque?
    ensures AllSettled(pb.env, Rewired(s, x, y), FoundAt(tr, x, y, 1))
    ensures AllOpaqueKept(pb, Rewired(s, x, y), FoundAt(tr, x, y, 1), done + {x})
  {
    forall z | z in tr.level ensures z in s.g && Rewired(s, x, y).g[z] == s.g[z] {
      SettledUntouched(pb.env, s, tr, x, y, z);
    }
    hide AllSettled, AllOpaqueKept, Rewired, FoundAt;
    FoundAtKeeps(tr, x, y, 1);
    SettledRewired(pb.env, s, tr, FoundAt(tr, x, y, 1), x, y);
    OpaqueRewired(pb, s, tr, done, x, y);
    OpaqueAt(pb, Rewired(s, x, y), tr, FoundAt(tr, x, y, 1), done, x);
  }

  lemma RewiredNode(s: State, x: int, y: int, z: int)
    requires z in s.g
    ensures z in Rewired(s, x, y).g && SameKind(s.g[z], Rewired(s, x, y).g[z])
  {
  }

  lemma RewiredMarks(pb: Problem, s: State, tr: Trace, x: int, y: int)
    requires PendingMarked(s, tr) && Fresh(pb, s)
    ensures PendingMarked(Rewired(s, x, y), FoundAt(tr, x, y, 1)) && Fresh(pb, Rewired(s, x, y))
  {
    var s' := Rewired(s, x, y);
    forall c | c in s'.reorders
      ensures s.reorders[c] in s'.g && s'.g[s.reorders[c]].op.Transpose? && |s'.g[s.reorders[c]].inputs| == 1
    {
      RewiredNode(s, x, y, s.reorders[c]);
    }
    forall t | t in s'.toDelete
      ensures t in s'.g && s'.g[t].op.Transpose? && |s'.g[t].inputs| == 1
    {
      RewiredNode(s, x, y, t);
    }
  }

  lemma AllCorrespondRewired(pb: Problem, s: State, tr: Trace, done: set<int>, x: int, y: int)
    requires AllCorrespond(pb, s, tr, done)
    ensures AllCorrespond(pb, Rewired(s, x, y), tr, done)
  {
    hide Corresponds;
    forall o | pb.Has(o) && o.node in done ensures Corresponds(pb, Rewired(s, x, y), tr, o) {
      CorrespondsRewired(pb, s, tr, x, y, o);
    }
  }

  lemma OpaqueRewired(pb: Problem, s: State, tr: Trace, done: set<int>, x: int, y: int)
    requires AllOpaqueKept(pb, s, tr, done)
    requires forall z :: z in tr.level ==> z in s.g && Rewired(s, x, y).g[z] == s.g[z]
    ensures AllOpaqueKept(pb, Rewired(s, x, y), tr, done)
  {
    var s' := Rewired(s, x, y);
    forall z | z in done && z in pb.g && pb.g[z].op.Opaque? ensures OpaqueKept(pb, s', tr, z) {
      assert OpaqueKept(pb, s, tr, z);
    }
  }

  lemma CorrespondsRewired(pb: Problem, s: State, tr: Trace, x: int, y: int, o: Output)
    requires Corresponds(pb, s, tr, o)
    ensures Corresponds(pb, Rewired(s, x, y), tr, o)
  {
    hide Permute;
    var c := tr.cur[o];
    assert Rewired(s, x, y).OrderOf(c) == s.OrderOf(c);
  }

  lemma SettledRewired(env: Semantics, s: State, tr: Trace, tr': Trace, x: int, y: int)
    requires AllSettled(env, s, tr) && tr'.now == tr.now && tr'.level == tr.level && tr'.clock == tr.clock
    requires forall z :: z in tr.level ==> z in s.g && Rewired(s, x, y).g[z] == s.g[z]
    ensures AllSettled(env, Rewired(s, x, y), tr')
  {
    hide Eval;
    forall z | z in tr'.level ensures Settled(env, Rewired(s, x, y), tr', z) {
      assert Settled(env, s, tr, z);
    }
  }
}
