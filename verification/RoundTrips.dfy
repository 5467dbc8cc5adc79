/**
 Which graphs the pass takes through, read off their shapes: default orders, and transposes that undo each other
 around an elementwise operation, after which the cached shapes are out of date.
 */
module RoundTrips {
  import opened TensorAlgebra
  import opened Sinking
  import opened Foresight
  import opened TransposeSinking
  import opened SinkingSteps
  import opened Residue
  import L = SinkingLimits
  import R = Reshaping

  /** Without binary operations only a pad of another output than the first stands in the way. */
  lemma UnaryInFragment(g: Graph, order: seq<int>)
    requires forall x :: x in g ==> !g[x].op.Binary?
    ensures InFragment(g, order)
       <==> forall x :: x in g && g[x].op.Pad? && |g[x].inputs| == 2 ==> g[x].inputs[0].slot == 0
  {
    hide Foretelling;
    forall x | x in g ensures VerdictAt(g, Foretelling(g, order), x).Supported?
                         <==> (g[x].op.Pad? && |g[x].inputs| == 2 ==> g[x].inputs[0].slot == 0)
    {
    }
  }

  /** The binary operation with these inputs is one the pass sinks without losing the meaning, in plain terms. */
  ghost predicate BinaryTaken(left: Found, right: Found, l: Shape, r: Shape, shape: Shape) {
    var p, q := left.order, right.order;
    if p == q || (p == Default(|p|) && q == Default(|q|)) then |if left.shape == shape then p else q| == |shape|
    else if p == Default(|p|) then
      |p| == |q| || (|p| < |q| && (|p| <= 1 || (left.shape == l && R.MovesInOrder(l, q))))
    else
      q == Default(|q|) && (|p| == |q| || (|q| < |p| && (|q| <= 1 || (right.shape == r && R.MovesInOrder(r, p)))))
  }

  /**
   The graphs the pass takes through: pads of first outputs only, and binary operations under one order of the
   result's rank, or under one order that moves axes with an input in its place that has no more axes.
   */
  lemma FragmentMeans(g: Graph, order: seq<int>)
    requires forall x :: x in g && g[x].op.Pad? ==> |g[x].inputs| == 2
    requires forall x :: x in g && g[x].op.Binary? ==> |g[x].inputs| == 2 && |g[x].shapes| == 1
    ensures var found := Foretelling(g, order);
            InFragment(g, order) <==>
              && (forall x :: x in g && g[x].op.Pad? ==> g[x].inputs[0].slot == 0)
              && forall x :: x in g && g[x].op.Binary? ==>
                   var a, b := g[x].inputs[0], g[x].inputs[1];
                   BinaryTaken(found(a), found(b), ShapeBefore(g, a), ShapeBefore(g, b), g[x].shapes[0])
  {
    hide Foretelling, ShapeBefore, R.MovesInOrder, Default;
    var found := Foretelling(g, order);
    forall x | x in g
      ensures g[x].op.Pad? ==> (VerdictAt(g, found, x).Supported? <==> g[x].inputs[0].slot == 0)
      ensures g[x].op.Binary? ==>
                var a, b := g[x].inputs[0], g[x].inputs[1];
                VerdictAt(g, found, x).Supported?
                <==> BinaryTaken(found(a), found(b), ShapeBefore(g, a), ShapeBefore(g, b), g[x].shapes[0])
      ensures !g[x].op.Pad? && !g[x].op.Binary? ==> VerdictAt(g, found, x).Supported?
    {
    }
  }

  /**
   Two inputs with nothing pending: while the cached shape of the left one is up to date, the default order taken
   is the result's unless the left input has more axes and is stretched.
   */
  lemma UpToDateIff(l: Shape, r: Shape, left: Found, right: Found)
    requires left.order == Default(|l|) && right.order == Default(|r|) && left.shape == l
    ensures |Picked(left, right, BroadcastShape(l, r)).order| == L.PickedRank(l, r)
    ensures BinaryVerdict(left, right, BroadcastShape(l, r)).Supported?
       <==> |l| <= |r| || BroadcastShape(l, r) == l
  {
    hide BroadcastShape;
  }

  lemma NewShapeTells(s: Shape, t: Shape, q: Order)
    requires |s| == |t| <= |q| && L.Orders(q, q) && InRange(Inverse(q))
    ensures R.NewShape(s, q) == R.NewShape(t, q) <==> s == t
  {
    hide L.Orders, Inverse, IsPermutation;
    if R.NewShape(s, q) == R.NewShape(t, q) {
      UndoneBy(Extend(s, |q|), q);
      UndoneBy(Extend(t, |q|), q);
      assert Extend(s, |q|)[|q| - |s|..] == s;
      assert Extend(t, |q|)[|q| - |t|..] == t;
    }
  }

  lemma UndoneBy(s: Shape, q: Order)
    requires |s| == |q| && L.Orders(q, q) && InRange(Inverse(q))
    ensures InRange(q) && Apply(Apply(s, Inverse(q)), q) == s
  {
    ApplyInverse(s, q);
  }

  /**
   An input of fewer axes, in default order and found with a cached shape of the right rank: reshaping it to that
   shape, widened and transposed, keeps the result for every operation and all tensors exactly if the cached shape is
   up to date and the axes longer than 1 keep their order.
   */
  lemma ReshapesIff(found: Found, shape: Shape, q: Order)
    requires |found.shape| == |shape| <= |q| && L.Orders(q, q) && InRange(Inverse(q))
    ensures R.TargetPreserved(shape, Target(found.shape, q), q) <==> Reshapes(found, shape, q)
  {
    hide R.TargetPreserved, R.MovesInOrder, L.Orders, Inverse, IsPermutation, Extend;
    assert Target(found.shape, q) == R.NewShape(found.shape, q);
    R.TargetPreservedIff(shape, Target(found.shape, q), q);
    NewShapeTells(found.shape, shape, q);
  }

  // ---------- transposes that undo each other ----------

  /** Node y transposes back what node x transposed, with the elementwise operation u between them. */
  ghost predicate RoundTrip(g: Graph, x: int, u: int, y: int) {
    && x in g && u in g && y in g
    && g[x].op.Transpose? && g[u].op.Unary? && g[y].op.Transpose?
    && |g[x].inputs| == 1 && g[u].inputs == [Output(x, 0)] && g[y].inputs == [Output(u, 0)]
    && |g[x].shapes| == |g[u].shapes| == |g[y].shapes| == 1
    && var p, q := g[x].op.order, g[y].op.order;
    && |p| == |q| == |g[u].shapes[0]| && InRange(p) && InRange(q) && Apply(p, q) == Default(|p|)
  }

  /** What is held against output 0 of a node with one input and one output. */
  lemma ForeseenOne(g: Graph, found: Output -> Found, x: int, o: Output)
    requires x in g && ForeseenAt(g, found, x) && g[x].inputs == [o] && |g[x].shapes| == 1
    ensures found(Output(x, 0)) == Foresee(g[x], 0, [found(o)])
  {
    hide Foresee;
    assert Founds(found, [o]) == [found(o)];
  }

  lemma DefaultReorders(s: seq<nat>, n: nat)
    requires |s| == n
    ensures Reordered(s, Default(n)) == s && InRange(Default(n))
  {
  }

  lemma DefaultApplied(p: Order)
    requires InRange(p)
    ensures Reordered(Default(|p|), p) == p
  {
  }

  /**
   After the round trip nothing is pending, and the cached shape is still that of the elementwise operation: it is
   out of date unless transposing leaves that shape as it is.
   */
  lemma RoundTripStale(g: Graph, found: Output -> Found, x: int, u: int, y: int)
    requires RoundTrip(g, x, u, y) && ForeseenAt(g, found, x) && ForeseenAt(g, found, u) && ForeseenAt(g, found, y)
    requires found(g[x].inputs[0]).order == Default(|g[x].op.order|)
    ensures found(Output(y, 0)).order == Default(|g[y].op.order|) && found(Output(y, 0)).shape == g[u].shapes[0]
  {
    hide Default;
    var p, q := g[x].op.order, g[y].op.order;
    assert g[x].inputs == [g[x].inputs[0]];
    ForeseenOne(g, found, x, g[x].inputs[0]);
    ForeseenOne(g, found, u, Output(x, 0));
    ForeseenOne(g, found, y, Output(u, 0));
    DefaultApplied(p);
    assert found(Output(x, 0)).order == p && found(Output(u, 0)).order == p;
    assert Reordered(p, q) == Default(|p|);
    DefaultReorders(g[u].shapes[0], |p|);
  }

  /** Of a round trip in front of an opaque node no transpose is left, neither before nor after the operation. */
  lemma RoundTripVanishes(f: Graph, found: Output -> Found, g: Graph, x: int, u: int, y: int, z: int, j: int)
    requires RoundTrip(f, x, u, y) && ForeseenAt(f, found, x) && ForeseenAt(f, found, u) && ForeseenAt(f, found, y)
    requires found(f[x].inputs[0]).order == Default(|f[x].op.order|)
    requires z in f && f[z].op.Opaque? && 0 <= j < |f[z].inputs| && f[z].inputs[j] == Output(y, 0)
    requires OnlyWanted(f, found, g) && u in g && |g[u].inputs| == 1 && z in g && |g[z].inputs| == |f[z].inputs|
    ensures !TransposeAt(g, g[u].inputs[0].node) && !TransposeAt(g, g[z].inputs[j].node)
  {
    hide Default, Foresee, ForeseenAt, RoundTrip;
    RoundTripStale(f, found, x, u, y);
    RoundTripOps(f, x, u, y);
    assert !Wanted(f, found, u, 0) && !Wanted(f, found, z, j);
  }

  lemma RoundTripOps(g: Graph, x: int, u: int, y: int)
    requires RoundTrip(g, x, u, y)
    ensures x in g && u in g && y in g && g[u].op.Unary? && g[y].op.Transpose?
  {
  }

  /**
   Adding something of fewer axes after a round trip, which does not stretch: the code takes the order of the other
   input, of too few axes, unless the two transposes leave the shape as it is.
   */
  lemma RoundTripIff(g: Graph, found: Output -> Found, x: int, u: int, y: int, z: int, b: Output)
    requires RoundTrip(g, x, u, y) && ForeseenAt(g, found, x) && ForeseenAt(g, found, u) && ForeseenAt(g, found, y)
    requires found(g[x].inputs[0]).order == Default(|g[x].op.order|)
    requires z in g && g[z].op.Binary? && g[z].inputs == [Output(y, 0), b] && g[z].shapes == g[y].shapes
    requires g[y].shapes[0] == Apply(g[u].shapes[0], g[y].op.order)
    requires found(b).order == Default(|found(b).order|) && |found(b).order| < |g[y].op.order|
    ensures VerdictAt(g, found, z) == if g[y].shapes[0] == g[u].shapes[0] then Supported else WrongRank
  {
    hide Default, Foresee;
    RoundTripStale(g, found, x, u, y);
    assert Founds(found, [Output(y, 0), b]) == [found(Output(y, 0)), found(b)];
  }

  // ---------- an instance ----------

  /** A matrix is transposed, negated, transposed back and has a vector added to each of its rows. */
  function Instance(): Graph {
    map[0 := Node(Opaque(0), [], [[2, 3]]),
        1 := Node(Transpose([1, 0]), [Output(0, 0)], [[3, 2]]),
        2 := Node(Unary(0), [Output(1, 0)], [[3, 2]]),
        3 := Node(Transpose([1, 0]), [Output(2, 0)], [[2, 3]]),
        4 := Node(Opaque(1), [], [[3]]),
        5 := Node(Binary(0), [Output(3, 0), Output(4, 0)], [[2, 3]])]
  }

  function InstanceOrder(): seq<int> {
    [0, 1, 2, 3, 4, 5]
  }

  lemma InstanceOrdered()
    ensures Ordered(Instance(), InstanceOrder())
  {
    var g, order := Instance(), InstanceOrder();
    forall i, j | 0 <= i < |order| && order[i] in g && 0 <= j < |g[order[i]].inputs|
      ensures g[order[i]].inputs[j].node in Done(order, i)
    {
      assert order[0] in Done(order, i) || i == 0;
      assert i >= 2 ==> order[1] in Done(order, i);
      assert i >= 3 ==> order[2] in Done(order, i);
      assert i >= 4 ==> order[3] in Done(order, i);
      assert i >= 5 ==> order[4] in Done(order, i);
    }
  }

  /** The vector stretches and the matrix does not; still the order of the vector is taken for the result. */
  lemma InstanceMisled()
    ensures BroadcastShape([2, 3], [3]) == [2, 3]
    ensures FirstTrouble(Instance(), Foretelling(Instance(), InstanceOrder()), InstanceOrder(), 0) == WrongRank
  {
    hide Foretelling, Ordered, Foresee, ForeseenAt, VerdictAt, FirstTrouble;
    var g, order := Instance(), InstanceOrder();
    var found := Foretelling(g, order);
    InstanceOrdered();
    assert Extend([3], 2) == [1, 3];
    forall i | 0 <= i < 6 ensures ForeseenAt(g, found, i) {
      assert order[i] == i;
      ForetellingForesees(g, order, i);
    }
    InstanceAdds(found);
    forall i | 0 <= i < 5 ensures VerdictAt(g, found, order[i]).Supported? {
      EarlierSupported(found, i);
    }
    FirstTroubleAt(g, found, order, 0, 5);
  }

  lemma {:induction false} FirstTroubleAt(g: Graph, found: Output -> Found, order: seq<int>, i: nat, n: nat)
    requires i <= n < |order| && order[n] in g && !VerdictAt(g, found, order[n]).Supported?
    requires forall j :: i <= j < n && order[j] in g ==> VerdictAt(g, found, order[j]).Supported?
    ensures FirstTrouble(g, found, order, i) == VerdictAt(g, found, order[n])
    decreases n - i
  {
    hide VerdictAt;
    if i < n {
      FirstTroubleAt(g, found, order, i + 1, n);
    }
  }

  lemma InstanceAdds(found: Output -> Found)
    requires forall i :: 0 <= i < 6 ==> ForeseenAt(Instance(), found, i)
    ensures VerdictAt(Instance(), found, 5) == WrongRank
  {
    hide Foresee, ForeseenAt, VerdictAt;
    InstanceSources(found);
    assert Apply([1, 0], [1, 0]) == Default(2);
    assert Apply<nat>([3, 2], [1, 0]) == [2, 3];
    RoundTripIff(Instance(), found, 1, 2, 3, 5, Output(4, 0));
  }

  lemma EarlierSupported(found: Output -> Found, i: int)
    requires 0 <= i < 5
    ensures VerdictAt(Instance(), found, i).Supported?
  {
  }

  /** Nothing is pending for the opaque nodes. */
  lemma InstanceSources(found: Output -> Found)
    requires ForeseenAt(Instance(), found, 0) && ForeseenAt(Instance(), found, 4)
    ensures found(Output(0, 0)).order == Default(2) && found(Output(4, 0)).order == Default(1)
  {
    var g := Instance();
    assert found(Output(0, 0)) == Foresee(g[0], 0, Founds(found, []));
    assert found(Output(4, 0)) == Foresee(g[4], 0, Founds(found, []));
  }

  // ---------- the instance as the pass meets it ----------

  ghost function InstanceSemantics(): Semantics {
    Semantics(_ => (x => x), _ => ((x, y) => x), (name, args, k) => L.Zeros(if name == 0 then [2, 3] else [3]))
  }

  lemma Swaps()
    ensures IsPermutation([1, 0])
  {
    InversesMatch([1, 0], [1, 0]);
  }

  ghost function Turned(x: Tensor): Tensor {
    Eval(InstanceSemantics(), Transpose([1, 0]), [x], 0)
  }

  ghost function InstanceValues(o: Output): Tensor {
    var env := InstanceSemantics();
    var matrix := L.Zeros([2, 3]);
    var negated := Eval(env, Unary(0), [Turned(matrix)], 0);
    match o.node
    case 0 => matrix
    case 1 => Turned(matrix)
    case 2 => negated
    case 3 => Turned(negated)
    case 4 => L.Zeros([3])
    case _ => Eval(env, Binary(0), [Turned(negated), L.Zeros([3])], 0)
  }

  ghost function InstanceProblem(): Problem {
    Problem(InstanceSemantics(), Instance(), InstanceValues, Foretelling(Instance(), InstanceOrder()))
  }

  lemma TurnedShape(x: Tensor)
    requires |x.shape| == 2
    ensures Turned(x).WellFormed() && Turned(x).shape == [x.shape[1], x.shape[0]]
  {
    hide Permute;
    Swaps();
  }

  lemma InstanceOpaque()
    ensures Eval(InstanceSemantics(), Opaque(0), [], 0) == L.Zeros([2, 3])
    ensures Eval(InstanceSemantics(), Opaque(1), [], 0) == L.Zeros([3])
  {
    hide L.Zeros;
  }

  lemma InstanceSolved(o: Output)
    requires InstanceProblem().Has(o)
    ensures var pb := InstanceProblem();
            pb.before(o) == Eval(pb.env, pb.g[o.node].op, pb.Values(pb.g[o.node].inputs), o.slot)
  {
    hide Foretelling, L.Zeros, Eval, InstanceSemantics;
    var pb := InstanceProblem();
    InstanceOpaque();
    assert pb.Values([]) == [];
    assert pb.Values([Output(0, 0)]) == [pb.before(Output(0, 0))];
    assert pb.Values([Output(1, 0)]) == [pb.before(Output(1, 0))];
    assert pb.Values([Output(2, 0)]) == [pb.before(Output(2, 0))];
    assert pb.Values([Output(3, 0), Output(4, 0)]) == [pb.before(Output(3, 0)), pb.before(Output(4, 0))];
  }

  lemma ElementwiseShapes(x: Tensor, y: Tensor)
    ensures var r := Eval(InstanceSemantics(), Unary(0), [x], 0); r.WellFormed() && r.shape == x.shape
    ensures var r := Eval(InstanceSemantics(), Binary(0), [x, y], 0);
            r.WellFormed() && r.shape == BroadcastShape(x.shape, y.shape)
  {
    hide Map, Zip, BroadcastShape;
  }

  lemma InstanceShaped(o: Output)
    requires InstanceProblem().Has(o)
    ensures InstanceValues(o).WellFormed() && InstanceValues(o).shape == Instance()[o.node].shapes[o.slot]
  {
    hide Foretelling, Turned, L.Zeros, Eval, InstanceSemantics, BroadcastShape, Problem.WellFormed, Foretold, Default,
         FirstTrouble;
    var matrix := L.Zeros([2, 3]);
    TurnedShape(matrix);
    ElementwiseShapes(Turned(matrix), matrix);
    var negated := Eval(InstanceSemantics(), Unary(0), [Turned(matrix)], 0);
    TurnedShape(negated);
    ElementwiseShapes(Turned(negated), L.Zeros([3]));
    InstanceMisled();
  }

  lemma InstanceTyped()
    ensures var pb := InstanceProblem();
            && (forall x, j :: x in pb.g && 0 <= j < |pb.g[x].inputs| ==> pb.Has(pb.g[x].inputs[j]))
            && forall x :: x in pb.g ==> pb.Typed(x)
  {
    hide Foretelling, InstanceValues, InstanceSemantics, IsPermutation;
    Swaps();
  }

  lemma InstanceWellFormed()
    ensures InstanceProblem().WellFormed()
  {
    hide Foretelling, Eval, InstanceValues, InstanceSemantics, Instance, Problem.Typed;
    var pb := InstanceProblem();
    InstanceTyped();
    forall o | pb.Has(o)
      ensures pb.before(o).WellFormed() && pb.before(o).shape == pb.g[o.node].shapes[o.slot]
      ensures pb.before(o) == Eval(pb.env, pb.g[o.node].op, pb.Values(pb.g[o.node].inputs), o.slot)
    {
      InstanceShaped(o);
      InstanceSolved(o);
    }
  }

  /** The pass comes to the addition and takes the wrong order. */
  method InstanceRun() returns (status: Status)
    ensures InstanceProblem().WellFormed() && status == WrongRank
  {
    hide Foretelling, Ordered, FirstTrouble, InFragment, Problem.WellFormed, MeaningPreserved, Evaluable;
    InstanceWellFormed();
    InstanceOrdered();
    InstanceMisled();
    var pass := new Pass(Instance(), 6);
    status := pass.RunOnFunction(InstanceProblem(), InstanceOrder());
  }
}
