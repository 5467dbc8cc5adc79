/**
 What the transpose-sinking pass will do to a graph, read off the graph before the pass: the order it holds
 pending for every output, the shapes it will have cached, and the first step that may lose the meaning.
 */
module Foresight {
  import opened TensorAlgebra
  import opened Sinking
  import R = Reshaping

  /** How a step ends: as it should, in one of the ways in which the meaning may be lost, or with an error. */
  datatype Status =
    | Supported
    | TwoOrders    // a binary operation under two different orders that both move axes
    | WrongRank    // a default order of another rank than the result's was taken
    | OtherOutput  // a pad of an output other than the first
    | Extended     // a reshape to more axes took the place of a transpose that moves several of them
    | Refused      // "case not supported when converting binary to default order"

  // ---------- binary operations ----------

  predicate IsDefault(p: Order) {
    p == Default(|p|)
  }

  /** Equal orders, or two that move no axis. */
  predicate Alike(p: Order, q: Order) {
    p == q || (IsDefault(p) && IsDefault(q))
  }

  /** Whether the node that makes an output of rank r match an order of rank n does so. */
  predicate Matchable(r: nat, n: nat) {
    r == n || (r < n && r <= 1)
  }

  /** How matching an input of rank l to an order of rank r ends. */
  function MatchVerdict(l: nat, r: nat): Status {
    if l > r then Refused else if Matchable(l, r) then Supported else Extended
  }

  /** The shape of an output before the pass. */
  function ShapeBefore(g: Graph, o: Output): Shape {
    if o.node in g && 0 <= o.slot < |g[o.node].shapes| then g[o.node].shapes[o.slot] else []
  }

  /**
   An input of this shape, found with this cached shape, may be reshaped in front of an argument of order q: the
   cached shape is up to date, and the axes longer than 1 keep their order.
   */
  predicate Reshapes(found: Found, shape: Shape, q: Order) {
    found.shape == shape && R.MovesInOrder(shape, q)
  }

  /** The input of a binary operation that is reshaped may be. */
  predicate ReshapesOne(left: Found, right: Found, l: Shape, r: Shape) {
    if IsDefault(left.order) then Reshapes(left, l, right.order) else Reshapes(right, r, left.order)
  }

  /** The one of two alike inputs whose transpose is taken: the left one if its cached shape is that of the result. */
  function Picked(left: Found, right: Found, shape: Shape): Found {
    if left.shape == shape then left else right
  }

  /** How sinking a binary operation ends, given its inputs and its own shape. */
  function BinaryVerdict(left: Found, right: Found, shape: Shape): Status {
    var p, q := left.order, right.order;
    if Alike(p, q) then if |Picked(left, right, shape).order| == |shape| then Supported else WrongRank
    else if IsDefault(p) then MatchVerdict(|p|, |q|)
    else if IsDefault(q) then MatchVerdict(|q|, |p|)
    else if |p| == |q| then TwoOrders
    else Refused
  }

  /** The same, seeing the shapes of the inputs before the pass: whether a reshape of several axes does harm. */
  function BinaryJudged(left: Found, right: Found, l: Shape, r: Shape, shape: Shape): Status {
    var v := BinaryVerdict(left, right, shape);
    if v.Extended? && ReshapesOne(left, right, l, r) then Supported else v
  }

  /** The input whose transpose is pending for the result. */
  function BinarySource(left: Found, right: Found, shape: Shape): Found {
    var p, q := left.order, right.order;
    if Alike(p, q) then Picked(left, right, shape)
    else if IsDefault(p) then right
    else left
  }

  // ---------- pads and concatenations ----------

  /** The shape a pending transpose of the given cached shape and order is taken from. */
  function Unmoved(pending: Shape, p: Order): Shape {
    Reordered(pending, Inverse(p))
  }

  /** The cached shape of the pad moved by p. */
  function PadMoved(begin: seq<int>, end: seq<int>, pending: Shape, p: Order): (r: Shape)
    ensures |begin| == |end| == |p| ==> |r| == |p|
  {
    if |begin| == |end| == |p| && InRange(Inverse(p)) then
      PadShape(Unmoved(pending, p), Apply(begin, Inverse(p)), Apply(end, Inverse(p)))
    else Unmoved(pending, p)
  }

  /** The lengths along an axis of the inputs with the given pending shapes, together. */
  function Lengths(pendings: seq<Shape>, p: Order, axis: nat): nat {
    if pendings == [] then 0
    else
      var first := Unmoved(pendings[0], p);
      (if axis < |first| then first[axis] else 0) + Lengths(pendings[1..], p, axis)
  }

  /** The cached shape of the concatenation moved by p. */
  function ConcatMoved(pendings: seq<Shape>, p: Order, axis: nat): (r: Shape)
    ensures pendings != [] ==> |r| == |p|
  {
    if pendings == [] then []
    else
      var first := Unmoved(pendings[0], p);
      if axis < |p| && p[axis] < |first| then first[p[axis] := Lengths(pendings, p, p[axis])] else first
  }

  function Pendings(ins: seq<Found>): (r: seq<Shape>)
    ensures |r| == |ins| && forall j :: 0 <= j < |ins| ==> r[j] == ins[j].pending
  {
    seq(|ins|, j requires 0 <= j < |ins| => ins[j].pending)
  }

  predicate SameOrder(ins: seq<Found>, p: Order) {
    forall j :: 0 <= j < |ins| ==> ins[j].order == p
  }

  // ---------- every operation ----------

  /** A node in its place, with a default transpose pending for an output of this shape. */
  function Placed(shape: Shape): Found {
    Found(Default(|shape|), shape, shape)
  }

  /** A new node of this cached shape, with a new transpose of order p pending. */
  function Renewed(shape: Shape, p: Order): Found {
    Found(p, shape, Reordered(shape, p))
  }

  /** What the pass holds against output k of node n, given what it holds against the inputs. */
  function Foresee(n: Node, k: nat, ins: seq<Found>): Found
    requires k < |n.shapes|
  {
    match n.op
    case Transpose(q) =>
      if |ins| == 1 then
        var r := Reordered(ins[0].order, q);
        var shape := Reordered(ins[0].shape, r);
        Found(r, shape, shape)
      else Placed(n.shapes[k])
    case Unary(_) =>
      if |ins| == 1 then Found(ins[0].order, n.shapes[k], ins[0].pending) else Placed(n.shapes[k])
    case Binary(_) =>
      if |ins| == 2 then
        var source := BinarySource(ins[0], ins[1], n.shapes[k]);
        Found(source.order, n.shapes[k], source.pending)
      else Placed(n.shapes[k])
    case Pad(begin, end, _) =>
      if |ins| == 2 then Renewed(PadMoved(begin, end, ins[0].pending, ins[0].order), ins[0].order)
      else Placed(n.shapes[k])
    case Concat(axis) =>
      if ins != [] && SameOrder(ins, ins[0].order)
      then Renewed(ConcatMoved(Pendings(ins), ins[0].order, axis), ins[0].order)
      else Placed(n.shapes[k])
    case Reshape(_) => Placed(n.shapes[k])
    case Opaque(_) => Placed(n.shapes[k])
  }

  /** How the step for node n ends, given also the shapes of its inputs before the pass. */
  function Verdict(n: Node, ins: seq<Found>, shapes: seq<Shape>): Status {
    match n.op
    case Binary(_) =>
      if |ins| == |shapes| == 2 && |n.shapes| == 1
      then BinaryJudged(ins[0], ins[1], shapes[0], shapes[1], n.shapes[0])
      else Supported
    case Pad(_, _, _) => if |n.inputs| == 2 && n.inputs[0].slot != 0 then OtherOutput else Supported
    case _ => Supported
  }

  // ---------- whole graphs ----------

  function Nothing(): Found {
    Found([], [], [])
  }

  function FoundIn(m: map<Output, Found>, o: Output): Found {
    if o in m then m[o] else Nothing()
  }

  function FoundsIn(m: map<Output, Found>, inputs: seq<Output>): (r: seq<Found>)
    ensures |r| == |inputs| && forall j :: 0 <= j < |inputs| ==> r[j] == FoundIn(m, inputs[j])
  {
    seq(|inputs|, j requires 0 <= j < |inputs| => FoundIn(m, inputs[j]))
  }

  function WithNode(g: Graph, x: int, m: map<Output, Found>): map<Output, Found>
    requires x in g
  {
    m + map k: nat | k < |g[x].shapes| :: Output(x, k) := Foresee(g[x], k, FoundsIn(m, g[x].inputs))
  }

  /** What the pass holds against the outputs of the first n nodes. */
  function Foretold(g: Graph, order: seq<int>, n: nat): map<Output, Found>
    requires n <= |order|
  {
    if n == 0 then map[]
    else
      var m := Foretold(g, order, n - 1);
      if order[n - 1] in g then WithNode(g, order[n - 1], m) else m
  }

  function Foretelling(g: Graph, order: seq<int>): Output -> Found {
    var m := Foretold(g, order, |order|);
    (o: Output) => FoundIn(m, o)
  }

  function Founds(found: Output -> Found, inputs: seq<Output>): (r: seq<Found>)
    ensures |r| == |inputs| && forall j :: 0 <= j < |inputs| ==> r[j] == found(inputs[j])
  {
    seq(|inputs|, j requires 0 <= j < |inputs| => found(inputs[j]))
  }

  /** What is held against the outputs of x follows from what is held against its inputs. */
  ghost predicate ForeseenAt(g: Graph, found: Output -> Found, x: int)
    requires x in g
  {
    forall k: nat :: k < |g[x].shapes| ==> found(Output(x, k)) == Foresee(g[x], k, Founds(found, g[x].inputs))
  }

  function ShapesBefore(g: Graph, inputs: seq<Output>): (r: seq<Shape>)
    ensures |r| == |inputs| && forall j :: 0 <= j < |inputs| ==> r[j] == ShapeBefore(g, inputs[j])
  {
    seq(|inputs|, j requires 0 <= j < |inputs| => ShapeBefore(g, inputs[j]))
  }

  function VerdictAt(g: Graph, found: Output -> Found, x: int): Status
    requires x in g
  {
    Verdict(g[x], Founds(found, g[x].inputs), ShapesBefore(g, g[x].inputs))
  }

  /** The graphs of which the pass keeps the meaning: every step is one it supports. */
  ghost predicate InFragment(g: Graph, order: seq<int>) {
    forall x :: x in g ==> VerdictAt(g, Foretelling(g, order), x).Supported?
  }

  /** How the first step after the first i ends that is not supported. */
  function FirstTrouble(g: Graph, found: Output -> Found, order: seq<int>, i: nat): Status
    requires i <= |order|
    decreases |order| - i
  {
    if i == |order| then Supported
    else if order[i] in g && !VerdictAt(g, found, order[i]).Supported? then VerdictAt(g, found, order[i])
    else FirstTrouble(g, found, order, i + 1)
  }

  lemma TroubleStep(g: Graph, found: Output -> Found, order: seq<int>, i: nat)
    requires i < |order| && order[i] in g
    ensures FirstTrouble(g, found, order, i)
         == if VerdictAt(g, found, order[i]).Supported? then FirstTrouble(g, found, order, i + 1)
            else VerdictAt(g, found, order[i])
  {
    hide VerdictAt;
  }

  lemma NoneLeft(g: Graph, found: Output -> Found, order: seq<int>)
    ensures FirstTrouble(g, found, order, |order|).Supported?
  {
  }

  lemma {:induction false} NoTrouble(g: Graph, found: Output -> Found, order: seq<int>, i: nat)
    requires i <= |order|
    ensures FirstTrouble(g, found, order, i).Supported?
       <==> forall j :: i <= j < |order| && order[j] in g ==> VerdictAt(g, found, order[j]).Supported?
    decreases |order| - i
  {
    hide VerdictAt;
    if i < |order| {
      NoTrouble(g, found, order, i + 1);
    }
  }

  // ---------- the order of the nodes ----------

  function Done(order: seq<int>, n: nat): set<int>
    requires n <= |order|
  {
    set k | 0 <= k < n :: order[k]
  }

  /** Every node once, after its inputs. */
  ghost predicate Ordered(g: Graph, order: seq<int>) {
    && (forall x :: x in g <==> x in order)
    && (forall i, k :: 0 <= i < k < |order| ==> order[i] != order[k])
    && (forall i, j :: 0 <= i < |order| && order[i] in g && 0 <= j < |g[order[i]].inputs| ==>
          g[order[i]].inputs[j].node in Done(order, i))
  }

  lemma AddedElsewhere(g: Graph, x: int, m: map<Output, Found>, o: Output)
    requires x in g
    ensures o.node != x ==> FoundIn(WithNode(g, x, m), o) == FoundIn(m, o)
    ensures o.node == x && 0 <= o.slot < |g[x].shapes| ==>
              FoundIn(WithNode(g, x, m), o) == Foresee(g[x], o.slot, FoundsIn(m, g[x].inputs))
  {
    hide Foresee, FoundsIn;
    if o.node == x && 0 <= o.slot < |g[x].shapes| {
      assert o == Output(x, o.slot);
    }
  }

  /** What is held against an output does not change once its node is done. */
  lemma {:induction false} ForetoldStays(g: Graph, order: seq<int>, i: nat, n: nat, o: Output)
    requires i <= n <= |order| && forall k :: i <= k < n ==> order[k] != o.node
    ensures FoundIn(Foretold(g, order, n), o) == FoundIn(Foretold(g, order, i), o)
  {
    hide WithNode;
    if i < n {
      ForetoldStays(g, order, i, n - 1, o);
      if order[n - 1] in g {
        AddedElsewhere(g, order[n - 1], Foretold(g, order, n - 1), o);
      }
    }
  }

  lemma InputsDone(g: Graph, order: seq<int>, i: nat, j: nat)
    requires Ordered(g, order) && i < |order| && order[i] in g && j < |g[order[i]].inputs|
    ensures forall k :: i <= k < |order| ==> order[k] != g[order[i]].inputs[j].node
  {
  }

  /** In a topological order the foretelling follows its own rules at every node. */
  lemma ForetellingForesees(g: Graph, order: seq<int>, i: nat)
    requires Ordered(g, order) && i < |order| && order[i] in g
    ensures ForeseenAt(g, Foretelling(g, order), order[i])
  {
    hide Foresee, WithNode, Ordered;
    var x, found, m := order[i], Foretelling(g, order), Foretold(g, order, i);
    forall j | 0 <= j < |g[x].inputs| ensures Founds(found, g[x].inputs)[j] == FoundsIn(m, g[x].inputs)[j] {
      InputsDone(g, order, i, j);
      ForetoldStays(g, order, i, |order|, g[x].inputs[j]);
    }
    assert Founds(found, g[x].inputs) == FoundsIn(m, g[x].inputs);
    forall k: nat | k < |g[x].shapes| ensures found(Output(x, k)) == Foresee(g[x], k, Founds(found, g[x].inputs)) {
      OnlyOnce(g, order, i);
      ForetoldStays(g, order, i + 1, |order|, Output(x, k));
      AddedElsewhere(g, x, m, Output(x, k));
    }
  }

  lemma OnlyOnce(g: Graph, order: seq<int>, i: nat)
    requires Ordered(g, order) && i < |order|
    ensures forall k :: i + 1 <= k < |order| ==> order[k] != order[i]
  {
  }

  /** Whatever follows the rules is the foretelling, whatever the order it was computed in. */
  lemma {:induction false} ForetellingUnique(g: Graph, order: seq<int>, n: nat, found: Output -> Found,
                                             other: Output -> Found)
    requires Ordered(g, order) && n <= |order|
    requires forall x :: x in g ==> ForeseenAt(g, found, x) && ForeseenAt(g, other, x)
    requires forall x, j :: x in g && 0 <= j < |g[x].inputs| ==> Known(g, g[x].inputs[j])
    ensures forall o :: Known(g, o) && o.node in Done(order, n) ==> found(o) == other(o)
  {
    hide Foresee;
    if n > 0 {
      ForetellingUnique(g, order, n - 1, found, other);
      var x := order[n - 1];
      forall o | Known(g, o) && o.node in Done(order, n) ensures found(o) == other(o) {
        if o.node !in Done(order, n - 1) {
          assert o.node == x;
          forall j | 0 <= j < |g[x].inputs| ensures Founds(found, g[x].inputs)[j] == Founds(other, g[x].inputs)[j] {
            assert Known(g, g[x].inputs[j]);
          }
          assert Founds(found, g[x].inputs) == Founds(other, g[x].inputs);
          assert ForeseenAt(g, found, x) && ForeseenAt(g, other, x);
          assert o == Output(x, o.slot);
        }
      }
    }
  }

  ghost predicate Known(g: Graph, o: Output) {
    o.node in g && 0 <= o.slot < |g[o.node].shapes|
  }
}
