/**
 The transpose-sinking pass: transposes are held pending and moved towards the results, and the ones that
 were moved are bypassed at the end.
 */
module TransposeSinking {
  import opened TensorAlgebra
  import opened Sinking
  import opened Foresight
  import opened SinkingSteps
  import opened Materializing
  import opened Purging
  import opened Residue
  import opened Sets
  import L = SinkingLimits

  // ---------- permutations ----------

  method ApplyPermutation(input: seq<int>, order: Order) returns (output: seq<int>)
    requires |order| == |input| && InRange(order)
    ensures output == Apply(input, order)
  {
    output := seq(|input|, _ => 0);
    for i := 0 to |order|
      invariant |output| == |input|
      invariant forall k :: 0 <= k < i ==> output[k] == input[order[k]]
    {
      output := output[i := input[order[i]]];
    }
  }

  method PermutationToDefaultOrder(axisOrder: Order) returns (out: Order)
    requires IsPermutation(axisOrder)
    ensures out == Inverse(axisOrder) && InRange(out)
  {
    ghost var inverse := Inverse(axisOrder);
    out := seq(|axisOrder|, _ => 0);
    for i := 0 to |axisOrder|
      invariant |out| == |axisOrder|
      invariant forall k :: 0 <= k < |out| && inverse[k] < i ==> out[k] == inverse[k]
    {
      assert forall k :: 0 <= k < |out| && inverse[k] == i ==> axisOrder[i] == k;
      out := out[axisOrder[i] := i];
    }
  }

  lemma ApplyToDefault(p: Order)
    requires InRange(p)
    ensures Apply(Default(|p|), p) == p
  {
  }

  method CombineTransposes(order1: Order, order2: Order) returns (combined: Order)
    requires InRange(order1) && InRange(order2) && |order1| == |order2|
    ensures combined == Apply(order1, order2)
  {
    var defaultOrder := Default(|order1|);
    var perm1 := Apply(defaultOrder, order1);
    ApplyToDefault(order1);
    combined := Apply(perm1, order2);
  }

  // ---------- what the code relies on ----------

  /** Node x can be processed: its inputs from j on have pending transposes that fit them. */
  ghost predicate ExecutableFrom(s: State, x: int, j: nat) {
    && x in s.g && x < s.nextId && (forall z :: z in s.g ==> z < s.nextId) && j <= |s.g[x].inputs|
    && forall i :: j <= i < |s.g[x].inputs| ==> Pending(s, s.g[x].inputs[i]) && s.g[x].inputs[i].node != x
  }

  ghost predicate Executable(s: State, x: int) {
    ExecutableFrom(s, x, 0)
  }

  ghost predicate Pending(s: State, c: Output) {
    && s.HasOrder(c) && IsPermutation(s.OrderOf(c)) && |s.OrderOf(c)| == RankOf(s, c)
    && c.node in s.g && 0 <= c.slot < |s.g[c.node].shapes|
  }

  lemma FoundPending(pb: Problem, s: State, tr: Trace, x: int, j: int)
    requires InputFound(pb, s, tr, x, j)
    ensures Pending(s, s.g[x].inputs[j])
  {
    hide Permute, IsPermutation;
  }

  lemma ReadyInput(pb: Problem, s: State, tr: Trace, done: set<int>, x: int, j: int)
    requires Ready(pb, s, tr, done, x) && x in s.g && x in pb.g && 0 <= j < |s.g[x].inputs| == |pb.g[x].inputs|
    ensures Pending(s, s.g[x].inputs[j]) && s.g[x].inputs[j].node != x
  {
    hide InputFound, Pending, Inv, Ready, Usable;
    ReadyFacts(pb, s, tr, done, x);
    InputAt(pb, s, tr, done, x, j);
    FoundPending(pb, s, tr, x, j);
    FoundUsable(pb, s, tr, x, j);
    UsableElsewhere(pb, s, tr, done, done + {x}, x, s.g[x].inputs[j]);
  }

  lemma ReadyExecutable(pb: Problem, s: State, tr: Trace, done: set<int>, x: int)
    requires Ready(pb, s, tr, done, x)
    ensures Executable(s, x) && |s.g[x].inputs| == |pb.g[x].inputs| && s.g[x].op == pb.g[x].op
    ensures s.g[x].shapes == pb.g[x].shapes
  {
    hide Pending, Inv, Ready, Problem.WellFormed;
    ReadyFacts(pb, s, tr, done, x);
    BelowNext(pb, s, tr, done, done + {x});
    forall j | 0 <= j < |s.g[x].inputs| ensures Pending(s, s.g[x].inputs[j]) && s.g[x].inputs[j].node != x {
      ReadyInput(pb, s, tr, done, x, j);
    }
  }

  lemma PendingPermutation(s: State, c: Output)
    requires Pending(s, c)
    ensures c in s.reorders && s.HasOrder(c) && IsPermutation(s.OrderOf(c)) && InRange(s.OrderOf(c))
    ensures |s.OrderOf(c)| == RankOf(s, c)
  {
  }

  lemma PendingLater(s: State, s': State, c: Output)
    requires Pending(s, c) && (forall z :: z in s.g ==> z in s'.g && SameKind(s.g[z], s'.g[z]))
    requires c in s'.reorders && s'.reorders[c] == s.reorders[c]
    ensures Pending(s', c)
  {
    hide IsPermutation;
    assert s'.OrderOf(c) == s.OrderOf(c);
  }

  lemma InputMaterializedNode(s: State, x: int, j: nat)
    requires ExecutableFrom(s, x, j) && j < |s.g[x].inputs|
    ensures var s' := InputMaterialized(s, x, j);
            && s'.reorders == s.reorders && (forall z :: z in s'.g ==> z < s'.nextId)
            && (forall z :: z in s.g ==> z in s'.g && SameKind(s.g[z], s'.g[z]))
            && (forall i :: j < i < |s.g[x].inputs| ==> s'.g[x].inputs[i] == s.g[x].inputs[i])
  {
    hide Pending;
  }

  lemma InputMaterializedExecutable(s: State, x: int, j: nat)
    requires ExecutableFrom(s, x, j) && j < |s.g[x].inputs|
    ensures ExecutableFrom(InputMaterialized(s, x, j), x, j + 1)
  {
    hide Pending, InputMaterialized;
    var s' := InputMaterialized(s, x, j);
    InputMaterializedNode(s, x, j);
    forall i | j + 1 <= i < |s'.g[x].inputs| ensures Pending(s', s'.g[x].inputs[i]) {
      PendingPermutation(s, s.g[x].inputs[i]);
      PendingLater(s, s', s.g[x].inputs[i]);
    }
  }

  lemma DefaultPendedExecutable(s: State, x: int, k: nat)
    requires Executable(s, x)
    ensures Executable(DefaultPended(s, x, k), x) && DefaultPended(s, x, k).g[x] == s.g[x]
  {
    var s' := DefaultPended(s, x, k);
    forall i | 0 <= i < |s'.g[x].inputs| ensures Pending(s', s'.g[x].inputs[i]) {
      PendingPermutation(s, s.g[x].inputs[i]);
      hide Pending, Default;
      PendingLater(s, s', s.g[x].inputs[i]);
    }
  }

  // ---------- binary operations ----------

  /**
   Input j of x, of rank l, is made to match `right` of rank r, if it has no more axes: by a transpose, or by a
   reshape if it has fewer. The reshape does the work of the transpose on vectors; beyond, that depends on the shape.
   */
  ghost predicate Converted(s: State, s': State, x: int, j: nat, right: Output, l: nat, r: nat, status: Status)
    requires x in s.g && x != s.nextId && j < |s.g[x].inputs| && right in s.reorders
  {
    status == MatchVerdict(l, r) && s' == if l > r then s else BinaryConverted(s, x, j, right)
  }

  /** The state and status after sinking the binary operation x. */
  ghost predicate BinarySunk(s: State, s': State, x: int, status: Status)
    requires x in s.g && x != s.nextId && |s.g[x].inputs| == 2 && |s.g[x].shapes| == 1
    requires s.g[x].inputs[0] in s.reorders && s.g[x].inputs[1] in s.reorders
  {
    var left, right := s.g[x].inputs[0], s.g[x].inputs[1];
    var p, q := s.OrderOf(left), s.OrderOf(right);
    && status == BinaryVerdict(FoundOf(s, left), FoundOf(s, right), s.g[x].shapes[0])
    && if Alike(p, q) then s' == BinaryPropagated(s, x, PickedOf(s, x))
       else if IsDefault(p) then Converted(s, s', x, 0, right, |p|, |q|, status)
       else if IsDefault(q) then Converted(s, s', x, 1, left, |q|, |p|, status)
       else if |p| == |q| then ConvertedTwice(s, s', x, left, right)
       else s' == if |p| < |q| then BinaryConverted(s, x, 0, right)
           else s  // the second conversion throws, or the first
  }

  ghost predicate ConvertedTwice(s: State, s': State, x: int, left: Output, right: Output)
    requires x in s.g && x != s.nextId && |s.g[x].inputs| == 2 && right in s.reorders
  {
    var s1 := BinaryConverted(s, x, 0, right);
    x in s1.g && x != s1.nextId && |s1.g[x].inputs| == 2 && left in s1.reorders && s' == BinaryConverted(s1, x, 1, left)
  }

  lemma ConvertedPending(s: State, x: int, left: Output, right: Output)
    requires Executable(s, x) && |s.g[x].inputs| == 2 && left == s.g[x].inputs[0] && right == s.g[x].inputs[1]
    ensures var s1 := BinaryConverted(s, x, 0, right);
            && x in s1.g && x != s1.nextId && |s1.g[x].inputs| == 2 && s1.g[x].inputs[1] == right
            && Pending(s1, left) && Pending(s1, right) && s1.OrderOf(left) == s.OrderOf(left)
  {
    PendingPermutation(s, left);
    PendingPermutation(s, right);
    var s1 := BinaryConverted(s, x, 0, right);
    hide IsPermutation, Inverse, Pending, Matching;
    assert x != s.nextId;
    PendingLater(s, s1, left);
    PendingLater(s, s1, right);
  }

  lemma PropagatedStep(pb: Problem, s: State, tr: Trace, done: set<int>, x: int) returns (tr': Trace)
    requires Ready(pb, s, tr, done, x) && pb.g[x].op.Binary? && |s.g[x].inputs| == 2
    requires |s.g[x].shapes| == 1 && s.g[x].shapes == pb.g[x].shapes
    requires s.g[x].inputs[0] in s.reorders && s.g[x].inputs[1] in s.reorders
    requires Alike(s.OrderOf(s.g[x].inputs[0]), s.OrderOf(s.g[x].inputs[1]))
    requires |Picked(FoundOf(s, s.g[x].inputs[0]), FoundOf(s, s.g[x].inputs[1]), s.g[x].shapes[0]).order|
          == |s.g[x].shapes[0]|
    ensures Inv(pb, BinaryPropagated(s, x, PickedOf(s, x)), tr', done + {x}, done + {x})
  {
    hide Inv, BinaryPropagated, Default, Problem.WellFormed, AllWaiting, InputFound, Alike;
    BeforeBinary(pb, x);
    InputAt(pb, s, tr, done, x, 0);
    InputAt(pb, s, tr, done, x, 1);
    FoundUsable(pb, s, tr, x, 0);
    FoundUsable(pb, s, tr, x, 1);
    tr' := BinaryPropagateStep(pb, s, tr, done, x, PickedOf(s, x));
  }

  lemma VerdictHarmless(pb: Problem, x: int, j: nat, l: nat, q: Order)
    requires pb.WellFormed() && x in pb.g && j < |pb.g[x].inputs|
    requires var v := MatchVerdict(l, |q|);
             var o := pb.g[x].inputs[j];
             v.Supported? || (v.Extended? && Reshapes(pb.found(o), ShapeBefore(pb.g, o), q))
    ensures Harmless(pb, x, j, l, q) && l <= |q|
  {
    var o := pb.g[x].inputs[j];
    assert pb.Has(o);
    hide Problem.Typed, Eval, R.MovesInOrder;
    assert ShapeBefore(pb.g, o) == pb.before(o).shape;
  }

  /** A step that is supported keeps the invariant; `status` is how the operation alone ended. */
  lemma BinarySunkStep(pb: Problem, s: State, tr: Trace, done: set<int>, x: int, s': State, status: Status)
    returns (tr': Trace)
    requires Ready(pb, s, tr, done, x) && x in pb.g && pb.g[x].op.Binary?
    requires x in s.g && x != s.nextId && |s.g[x].inputs| == 2 && |s.g[x].shapes| == 1
    requires s.g[x].shapes == pb.g[x].shapes
    requires s.g[x].inputs[0] in s.reorders && s.g[x].inputs[1] in s.reorders
    requires BinarySunk(s, s', x, status) && VerdictAt(pb.g, pb.found, x).Supported?
    ensures Inv(pb, s', tr', done + {x}, done + {x})
  {
    hide Inv, Ready, BinaryPropagated, BinaryConverted, Default, ConvertedTwice, State.HasOrder, MatchVerdict, PickedOf,
         VerdictAt, Harmless, Reshapes, Problem.WellFormed;
    var left, right := s.g[x].inputs[0], s.g[x].inputs[1];
    var p, q := s.OrderOf(left), s.OrderOf(right);
    BinaryVerdictAt(pb, s, tr, done, x);
    ReadyFacts(pb, s, tr, done, x);
    if Alike(p, q) {
      JudgedAlike(FoundOf(s, left), FoundOf(s, right), ShapeBefore(pb.g, pb.g[x].inputs[0]),
        ShapeBefore(pb.g, pb.g[x].inputs[1]), s.g[x].shapes[0]);
      tr' := PropagatedStep(pb, s, tr, done, x);
    } else if IsDefault(p) {
      VerdictHarmless(pb, x, 0, |p|, q);
      tr' := BinaryConvertStep(pb, s, tr, done, x, 0, left, right, |p|, q);
    } else {
      VerdictHarmless(pb, x, 1, |q|, p);
      tr' := BinaryConvertStep(pb, s, tr, done, x, 1, right, left, |q|, p);
    }
  }

  lemma JudgedAlike(left: Found, right: Found, l: Shape, r: Shape, shape: Shape)
    requires Alike(left.order, right.order) && BinaryJudged(left, right, l, r, shape).Supported?
    ensures |Picked(left, right, shape).order| == |shape|
  {
  }

  /** The two transposes inserted for inputs of one rank, and the order left pending. */
  lemma ConvertedTwiceNodes(s: State, s': State, x: int, left: Output, right: Output, p: Order, q: Order)
    requires Executable(s, x) && |s.g[x].inputs| == 2 && left == s.g[x].inputs[0] && right == s.g[x].inputs[1]
    requires p == s.OrderOf(left) && q == s.OrderOf(right) && |p| == |q|
    requires right in s.reorders && ConvertedTwice(s, s', x, left, right)
    ensures var y, z := s.nextId, s.nextId + 1;
            && y in s'.g && s'.g[y].op == Transpose(Inverse(q)) && s'.g[y].inputs == [left]
            && z in s'.g && s'.g[z].op == Transpose(Inverse(p)) && s'.g[z].inputs == [right]
            && x in s'.g && s'.g[x].op == s.g[x].op && s'.g[x].inputs == [Output(y, 0), Output(z, 0)]
            && s'.OrderOf(Output(x, 0)) == p
  {
    ConvertedPending(s, x, left, right);
    PendingPermutation(s, left);
    PendingPermutation(s, right);
    var s1 := BinaryConverted(s, x, 0, right);
    PendingPermutation(s1, right);
    assert s1.OrderOf(right) == q;
    hide IsPermutation, Inverse, Pending, Executable, TransposeNode;
    assert Matching(s, left, q) == TransposeNode(s, left, Inverse(q));
    assert Matching(s1, right, p) == TransposeNode(s1, right, Inverse(p));
  }

  /** Output 0 of node z has under w the value its operation computes. */
  ghost predicate SolvedAt(env: Semantics, g: Graph, w: Output -> Tensor, z: int) {
    z in g && w(Output(z, 0)) == Eval(env, g[z].op, Seen(w, g[z].inputs), 0)
  }

  lemma SolvedTranspose(env: Semantics, g: Graph, w: Output -> Tensor, z: int, p: Order, c: Output)
    requires SolvedAt(env, g, w, z) && g[z].op == Transpose(p) && g[z].inputs == [c] && IsPermutation(p)
    requires |w(c).shape| == |p|
    ensures w(Output(z, 0)) == Permute(w(c), p)
  {
    hide Permute, IsPermutation;
    assert Seen(w, [c])[0] == w(c);
  }

  lemma SolvedBinary(env: Semantics, g: Graph, w: Output -> Tensor, x: int, a: Output, b: Output)
    requires SolvedAt(env, g, w, x) && g[x].op.Binary? && g[x].inputs == [a, b]
    ensures w(Output(x, 0)) == Zip(env.binary(g[x].op.name), w(a), w(b))
  {
    hide Zip;
    assert Seen(w, [a, b])[0] == w(a) && Seen(w, [a, b])[1] == w(b);
  }

  /**
   Two different orders that both move axes: what the output and its pending order stand for afterwards, right
   or wrong.
   */
  lemma TwoOrdersCompute(env: Semantics, s: State, s': State, x: int, left: Output, right: Output, p: Order, q: Order,
                         w: Output -> Tensor)
    requires Executable(s, x) && |s.g[x].inputs| == 2 && left == s.g[x].inputs[0] && right == s.g[x].inputs[1]
    requires s.g[x].op.Binary?
    requires p == s.OrderOf(left) && q == s.OrderOf(right) && right in s.reorders
    requires ConvertedTwice(s, s', x, left, right)
    requires L.Orders(p, q) && p != q && L.Moved(p) && L.Moved(q) && L.Fits(w(left), p) && L.Fits(w(right), q)
    requires forall z :: z in {x, s.nextId, s.nextId + 1} ==> SolvedAt(env, s'.g, w, z)
    ensures s'.OrderOf(Output(x, 0)) == p && |w(Output(x, 0)).shape| == |p|
    ensures Permute(w(Output(x, 0)), p) == L.BinaryAfter(env.binary(s.g[x].op.name), p, q, w(left), w(right))
  {
    ConvertedTwiceNodes(s, s', x, left, right, p, q);
    hide Permute, Zip, IsPermutation, Inverse, Executable, ConvertedTwice, SolvedAt, State.OrderOf;
    SolvedTranspose(env, s'.g, w, s.nextId, Inverse(q), left);
    SolvedTranspose(env, s'.g, w, s.nextId + 1, Inverse(p), right);
    SolvedBinary(env, s'.g, w, x, Output(s.nextId, 0), Output(s.nextId + 1, 0));
  }

  // ---------- every operation ----------

  /** What type inference has made sure of, for the node as the pass finds it. */
  ghost predicate Fitting(s: State, x: int)
    requires x in s.g
  {
    var n := s.g[x];
    match n.op
    case Transpose(order) => |n.inputs| == 1 && |n.shapes| == 1 && InRange(order) && |s.OrderOf(n.inputs[0])| == |order|
    case Unary(_) => |n.inputs| == 1 && |n.shapes| == 1
    case Binary(_) => |n.inputs| == 2 && |n.shapes| == 1
    case Pad(begin, end, _) => |n.inputs| == 2 && |n.shapes| == 1 && |begin| == |end| == |s.OrderOf(n.inputs[0])|
    case Concat(axis) => |n.inputs| > 0 && |n.shapes| == 1 && axis < |s.OrderOf(n.inputs[0])|
    case _ => true
  }

  lemma FoundRank(pb: Problem, s: State, tr: Trace, x: int, j: int)
    requires InputFound(pb, s, tr, x, j)
    ensures pb.Has(pb.g[x].inputs[j]) && |s.OrderOf(s.g[x].inputs[j])| == pb.Rank(pb.g[x].inputs[j])
  {
    hide Permute, IsPermutation;
  }

  lemma TypedOf(pb: Problem, x: int)
    requires pb.WellFormed() && x in pb.g
    ensures (forall j :: 0 <= j < |pb.g[x].inputs| ==> pb.Has(pb.g[x].inputs[j])) && pb.Typed(x)
  {
  }

  lemma ReadyFitting(pb: Problem, s: State, tr: Trace, done: set<int>, x: int)
    requires Ready(pb, s, tr, done, x)
    ensures x in s.g && Fitting(s, x)
  {
    TypedOf(pb, x);
    if |pb.g[x].inputs| > 0 {
      InputAt(pb, s, tr, done, x, 0);
      hide InputFound;
      FoundRank(pb, s, tr, x, 0);
    }
    if pb.g[x].op.Transpose? {
      TypedTranspose(pb, x);
    }
    hide Inv, InputFound, IsPermutation, Problem.WellFormed;
  }

  lemma TypedTranspose(pb: Problem, x: int)
    requires pb.WellFormed() && x in pb.g && pb.g[x].op.Transpose?
    ensures InRange(pb.g[x].op.order)
  {
    assert pb.Typed(x);
  }

  // ---------- how a step is going to end ----------

  lemma BinaryVerdictAt(pb: Problem, s: State, tr: Trace, done: set<int>, x: int)
    requires Ready(pb, s, tr, done, x) && pb.g[x].op.Binary?
    ensures x in s.g && |s.g[x].inputs| == 2 && |s.g[x].shapes| == 1 && s.g[x].shapes == pb.g[x].shapes
    ensures |pb.g[x].inputs| == 2 && FoundOf(s, s.g[x].inputs[0]) == pb.found(pb.g[x].inputs[0])
         && FoundOf(s, s.g[x].inputs[1]) == pb.found(pb.g[x].inputs[1])
    ensures VerdictAt(pb.g, pb.found, x)
         == BinaryJudged(FoundOf(s, s.g[x].inputs[0]), FoundOf(s, s.g[x].inputs[1]),
              ShapeBefore(pb.g, pb.g[x].inputs[0]), ShapeBefore(pb.g, pb.g[x].inputs[1]), s.g[x].shapes[0])
  {
    hide Ready, Problem.WellFormed, Inv, ForeseenAt, BinaryJudged, FoundOf, ShapeBefore;
    ReadyFacts(pb, s, tr, done, x);
    ReadyFounds(pb, s, tr, done, x);
    BeforeBinary(pb, x);
    TwoFounds(s, pb.found, s.g[x].inputs, pb.g[x].inputs);
  }

  lemma PadVerdictAt(pb: Problem, s: State, tr: Trace, done: set<int>, x: int)
    requires Ready(pb, s, tr, done, x) && pb.g[x].op.Pad?
    ensures x in s.g && |s.g[x].inputs| == 2
    ensures VerdictAt(pb.g, pb.found, x) == if s.g[x].inputs[0].slot == 0 then Supported else OtherOutput
  {
    hide Ready, Problem.WellFormed, Inv, ForeseenAt, InputFound, PadTensor;
    ReadyFacts(pb, s, tr, done, x);
    BeforePad(pb, x);
    InputAt(pb, s, tr, done, x, 0);
    SameSlot(pb, s, tr, x, 0);
  }

  lemma SameSlot(pb: Problem, s: State, tr: Trace, x: int, j: int)
    requires InputFound(pb, s, tr, x, j)
    ensures s.g[x].inputs[j].slot == pb.g[x].inputs[j].slot
  {
    hide Permute, IsPermutation;
  }

  /** Where it was foretold that the inputs are materialized. */
  lemma PlacedAt(pb: Problem, x: int)
    requires x in pb.g && ForeseenAt(pb.g, pb.found, x) && (pb.g[x].op.Opaque? || pb.g[x].op.Reshape?)
    ensures AllPlaced(pb, x)
  {
    hide Placed;
    forall k | 0 <= k < |pb.g[x].shapes| ensures pb.found(Output(x, k)) == Placed(pb.g[x].shapes[k]) {
      var i: nat := k;
      assert pb.found(Output(x, i)) == Foresee(pb.g[x], i, Founds(pb.found, pb.g[x].inputs));
    }
  }

  lemma ConcatPlacedAt(pb: Problem, s: State, tr: Trace, done: set<int>, x: int)
    requires Ready(pb, s, tr, done, x) && pb.g[x].op.Concat? && x in s.g && |s.g[x].inputs| > 0
    requires exists j :: 0 <= j < |s.g[x].inputs| && s.OrderOf(s.g[x].inputs[j]) != s.OrderOf(s.g[x].inputs[0])
    ensures AllPlaced(pb, x)
  {
    hide Ready, Problem.WellFormed, Inv, Placed, ConcatMoved, Renewed;
    ReadyFacts(pb, s, tr, done, x);
    ReadyFounds(pb, s, tr, done, x);
    var ins := FoundsAt(s, s.g[x].inputs);
    var j :| 0 <= j < |ins| && ins[j].order != ins[0].order;
    forall k | 0 <= k < |pb.g[x].shapes| ensures pb.found(Output(x, k)) == Placed(pb.g[x].shapes[k]) {
      var i: nat := k;
      assert pb.found(Output(x, i)) == Foresee(pb.g[x], i, ins);
    }
  }

  lemma OtherVerdictAt(pb: Problem, x: int)
    requires x in pb.g && !pb.g[x].op.Binary? && !pb.g[x].op.Pad?
    ensures VerdictAt(pb.g, pb.found, x).Supported?
  {
  }

  lemma ConcatSunkStep(pb: Problem, s: State, tr: Trace, done: set<int>, x: int, s': State) returns (tr': Trace)
    requires Ready(pb, s, tr, done, x) && pb.g[x].op.Concat? && x in s.g && x < s.nextId
    requires |s.g[x].inputs| > 0 && s.g[x].op.Concat? && s.g[x].op.axis < |s.OrderOf(s.g[x].inputs[0])|
    requires var n, p := s.g[x], s.OrderOf(s.g[x].inputs[0]);
             if forall j :: 0 <= j < |n.inputs| ==> s.OrderOf(n.inputs[j]) == p
             then s' == Replaced(s, x, MovedConcat(s, n, p), p)
             else s' == NodeMaterialized(s, x)
    ensures Inv(pb, s', tr', done + {x}, done + {x})
  {
    hide Inv, Ready;
    var p := s.OrderOf(s.g[x].inputs[0]);
    if forall j :: 0 <= j < |s.g[x].inputs| ==> s.OrderOf(s.g[x].inputs[j]) == p {
      tr' := ConcatStep(pb, s, tr, done, x, p);
    } else {
      ConcatPlacedAt(pb, s, tr, done, x);
      tr' := MaterializeStep(pb, s, tr, done, x);
    }
  }

  // ---------- which transposes a step leaves ----------

  /** A binary operation that is sunk as it should reads a new transpose where one is wanted. */
  lemma BinarySunkTidy(pb: Problem, s: State, done: set<int>, x: int, s': State, status: Status)
    requires Next(pb, s, done, x) && s.g[x].op.Binary? && x != s.nextId && |s.g[x].inputs| == 2 && |s.g[x].shapes| == 1
    requires s.g[x].inputs[0] in s.reorders && s.g[x].inputs[1] in s.reorders
    requires BinarySunk(s, s', x, status) && (status.Supported? || status.Extended?)
    ensures Tidy(pb, s', done + {x}, done + {x})
  {
    hide InputClean, InputForetold, BinaryPropagated, BinaryConverted, Default, ConvertedTwice, Tidy;
    var left, right := s.g[x].inputs[0], s.g[x].inputs[1];
    var p, q := s.OrderOf(left), s.OrderOf(right);
    if Alike(p, q) {
      PropagatedTidy(pb, s, done, x, PickedOf(s, x));
    } else if IsDefault(p) {
      ConvertedTidy(pb, s, done, x, 0, left, right);
    } else {
      ConvertedTidy(pb, s, done, x, 1, right, left);
    }
  }

  lemma ConcatSunkTidy(pb: Problem, s: State, tr: Trace, done: set<int>, x: int, s': State)
    requires Ready(pb, s, tr, done, x) && Next(pb, s, done, x) && s.g[x].op.Concat? && x < s.nextId
    requires |s.g[x].inputs| > 0 && s.g[x].op.axis < |s.OrderOf(s.g[x].inputs[0])|
    requires var n, p := s.g[x], s.OrderOf(s.g[x].inputs[0]);
             if forall j :: 0 <= j < |n.inputs| ==> s.OrderOf(n.inputs[j]) == p
             then s' == Replaced(s, x, MovedConcat(s, n, p), p)
             else s' == NodeMaterialized(s, x)
    ensures Tidy(pb, s', done + {x}, done + {x})
  {
    hide Ready, Tidy, NodeMaterialized, Replaced, InputClean;
    var p := s.OrderOf(s.g[x].inputs[0]);
    if forall j :: 0 <= j < |s.g[x].inputs| ==> s.OrderOf(s.g[x].inputs[j]) == p {
      ConcatTidy(pb, s, done, x, p);
    } else {
      var i :| 0 <= i < |s.g[x].inputs| && s.OrderOf(s.g[x].inputs[i]) != p;
      assert InputForetold(pb, s, x, 0) && InputForetold(pb, s, x, i);
      UnequalWants(pb, x, i);
      MaterializeTidy(pb, s, tr, done, x);
    }
  }

  lemma UnequalWants(pb: Problem, x: int, i: int)
    requires x in pb.g && pb.g[x].op.Concat? && 0 <= i < |pb.g[x].inputs|
    requires pb.found(pb.g[x].inputs[i]).order != pb.found(pb.g[x].inputs[0]).order
    ensures WantsMoved(pb, x)
  {
    hide Default;
    forall j | 0 <= j < |pb.g[x].inputs|
      ensures var p := pb.found(pb.g[x].inputs[j]).order; Wanted(pb.g, pb.found, x, j) <==> p != Default(|p|)
    {
      var p := pb.found(pb.g[x].inputs[j]).order;
      assert p != pb.found(pb.g[x].inputs[0]).order || p != pb.found(pb.g[x].inputs[i]).order;
    }
  }

  lemma PlacedWants(pb: Problem, x: int)
    requires pb.WellFormed() && x in pb.g && (pb.g[x].op.Opaque? || pb.g[x].op.Reshape?)
    ensures WantsMoved(pb, x)
  {
    assert pb.Typed(x);
  }

  lemma NoneTaken(all: set<int>)
    ensures all - all == {}
  {
  }

  lemma OneTaken(all: set<int>, rest: set<int>, t: int)
    requires t in rest && rest <= all
    ensures all - (rest - {t}) == all - rest + {t}
  {
  }

  // ---------- whole runs ----------

  function Start(f: Graph, next: int): State {
    State(f, next, map[], {})
  }

  ghost function NoTrace(): Trace {
    Trace(map[], 0, map[], map[])
  }

  lemma StartInv(pb: Problem, next: int)
    requires forall x :: x in pb.g ==> x < next
    ensures Inv(pb, Start(pb.g, next), NoTrace(), {}, {})
  {
  }

  lemma MoreBegun(pb: Problem, s: State, tr: Trace, done: set<int>, begun: set<int>, begun': set<int>)
    requires Inv(pb, s, tr, done, begun) && begun <= begun'
    ensures Inv(pb, s, tr, done, begun')
  {
    hide Waiting, CurDomain, AllCorrespond, AllSettled, PendingMarked, Fresh, AllOpaqueKept;
  }

  lemma ReadyNext(pb: Problem, s: State, tr: Trace, order: seq<int>, i: nat)
    requires pb.WellFormed() && Ordered(pb.g, order) && pb.found == Foretelling(pb.g, order)
    requires i < |order| && Inv(pb, s, tr, Done(order, i), Done(order, i))
    ensures Ready(pb, s, tr, Done(order, i), order[i]) && Done(order, i + 1) == Done(order, i) + {order[i]}
  {
    var done, x := Done(order, i), order[i];
    assert x in order && x !in done;
    assert Waiting(pb, s, tr, x);
    ForetellingForesees(pb.g, order, i);
    hide Foretelling, ForeseenAt;
    MoreBegun(pb, s, tr, done, done, done + {x});
    SameMembers(Done(order, i + 1), done + {x});
  }

  lemma TroubleInFragment(g: Graph, order: seq<int>)
    requires Ordered(g, order)
    ensures FirstTrouble(g, Foretelling(g, order), order, 0).Supported? <==> InFragment(g, order)
  {
    hide VerdictAt, Foretelling;
    NoTrouble(g, Foretelling(g, order), order, 0);
    forall x | x in g ensures exists i :: 0 <= i < |order| && order[i] == x {
      assert x in order;
    }
  }

  lemma NodesThere(g: Graph, order: seq<int>)
    requires Ordered(g, order)
    ensures forall i :: 0 <= i < |order| ==> order[i] in g
  {
    forall i | 0 <= i < |order| ensures order[i] in g {
      assert order[i] in order;
    }
  }

  lemma NodesDone(g: Graph, order: seq<int>)
    requires Ordered(g, order)
    ensures forall x :: x in g ==> x in Done(order, |order|)
  {
    forall x | x in g ensures x in Done(order, |order|) {
      assert x in order;
    }
  }

  lemma AllDone(pb: Problem, s: State, tr: Trace, order: seq<int>)
    requires Ordered(pb.g, order) && Inv(pb, s, tr, Done(order, |order|), Done(order, |order|))
    ensures PurgeInv(pb, s, tr, {})
  {
    hide Settled, OpaqueKept;
    forall x | x in pb.g && pb.g[x].op.Opaque? ensures OpaqueKept(pb, s, tr, x) {
      assert x in order && x in Done(order, |order|);
    }
    forall x | x in tr.level ensures NoneOf(s, x, {}) {
      SettledThere(pb.env, s, tr, x);
    }
  }

  lemma SettledThere(env: Semantics, s: State, tr: Trace, x: int)
    requires Settled(env, s, tr, x)
    ensures x in s.g
  {
    hide Eval;
  }

  /** However the graph is evaluated, every opaque node sees and gives the tensors it did before the pass. */
  ghost predicate MeaningPreserved(pb: Problem, g: Graph) {
    forall live: set<int>, w: Output -> Tensor, x: int ::
      Solves(pb.env, g, live, w) && x in live && x in pb.g && pb.g[x].op.Opaque? ==> MeaningKept(pb, g, w, x)
  }

  /** The graph can be evaluated, and the evaluation reaches every opaque node. */
  ghost predicate Evaluable(pb: Problem, g: Graph) {
    exists live: set<int>, w: Output -> Tensor ::
      Solves(pb.env, g, live, w) && forall x :: x in pb.g && pb.g[x].op.Opaque? ==> x in live
  }

  lemma PurgedPreserved(pb: Problem, s: State, tr: Trace)
    requires PurgeInv(pb, s, tr, s.toDelete)
    ensures MeaningPreserved(pb, s.g) && Evaluable(pb, s.g)
  {
    hide PurgeInv, Solves, MeaningKept;
    forall live: set<int>, w: Output -> Tensor, x: int | Solves(pb.env, s.g, live, w) && x in live && x in pb.g
        && pb.g[x].op.Opaque?
      ensures MeaningKept(pb, s.g, w, x)
    {
      PurgedMeaning(pb, s, tr, live, w, x);
    }
    PurgedSolvable(pb, s, tr);
  }

  // ---------- the pass ----------

  class Pass {
    var g: Graph
    var nextId: int
    var reorders: map<Output, int>
    var toDelete: set<int>

    function St(): State
      reads this
    {
      State(g, nextId, reorders, toDelete)
    }

    constructor (f: Graph, next: int)
      ensures St() == State(f, next, map[], {})
    {
      g, nextId, reorders, toDelete := f, next, map[], {};
    }

    method MakeNode(n: Node) returns (id: int)
      modifies this`g, this`nextId
      ensures St() == AddNode(old(St()), n) && id == old(nextId)
    {
      id := nextId;
      g, nextId := g[id := n], nextId + 1;
    }

    method MakeTranspose(arg: Output, order: Order) returns (id: int)
      modifies this`g, this`nextId
      ensures St() == AddNode(old(St()), TransposeNode(old(St()), arg, order)) && id == old(nextId)
    {
      id := MakeNode(TransposeNode(St(), arg, order));
    }

    method WriteTransposeMap(target: Output, transpose: int)
      modifies this`reorders
      ensures St() == Pend(old(St()), target, transpose)
    {
      reorders := reorders[target := transpose];
    }

    method MarkTransposeForDeletion(transpose: int)
      modifies this`toDelete
      ensures St() == Mark(old(St()), transpose)
    {
      toDelete := toDelete + {transpose};
    }

    /** Whoever uses the output of x uses that of y. */
    method ReplaceNode(x: int, y: int)
      modifies this`g
      ensures St() == Rewired(old(St()), x, y)
    {
      g := map z | z in g :: g[z].(inputs := RedirectAll(g[z].inputs, x, y));
    }

    method ReplaceSourceOutput(x: int, j: nat, source: Output)
      requires x in g && j < |g[x].inputs|
      modifies this`g
      ensures St() == SetInput(old(St()), x, j, source)
    {
      g := g[x := g[x].(inputs := g[x].inputs[j := source])];
    }

    /** A transpose of the given order between the node of input j, its first output, and x. */
    method InsertTranspose(x: int, order: Order, j: nat)
      requires x in g && x != nextId && j < |g[x].inputs|
      modifies this`g, this`nextId
      ensures St() == Materialized(old(St()), x, j, Output(old(g[x].inputs[j].node), 0), order)
    {
      var t := MakeTranspose(Output(g[x].inputs[j].node, 0), order);
      ReplaceSourceOutput(x, j, Output(t, 0));
    }

    method MaterializeInput(x: int, j: nat)
      requires ExecutableFrom(St(), x, j) && j < |g[x].inputs|
      modifies this
      ensures St() == InputMaterialized(old(St()), x, j)
    {
      var arg := g[x].inputs[j];
      PendingPermutation(St(), arg);
      var transpose := reorders[arg];
      var order := g[transpose].op.order;
      MarkTransposeForDeletion(transpose);
      if order != Default(RankOf(St(), arg)) {
        InsertTranspose(x, order, j);
      }
    }

    method MaterializeShapes(x: int)
      requires Executable(St(), x)
      modifies this
      ensures St() == NodeMaterialized(old(St()), x)
    {
      hide Pending, InputMaterialized;
      ghost var start := St();
      var outputs := |g[x].shapes|;
      for k := 0 to outputs
        invariant St() == DefaultsPended(start, x, k)
        invariant Executable(St(), x) && g[x] == start.g[x]
      {
        DefaultPendedExecutable(St(), x, k);
        var order := Default(RankOf(St(), Output(x, k)));
        var t := MakeTranspose(Output(x, k), order);
        WriteTransposeMap(Output(x, k), t);
      }
      ghost var mid := St();
      for j := 0 to |g[x].inputs|
        invariant x in mid.g && x < mid.nextId && |mid.g[x].inputs| == |start.g[x].inputs|
        invariant j <= |mid.g[x].inputs| && St() == InputsMaterialized(mid, x, j)
        invariant ExecutableFrom(St(), x, j) && |g[x].inputs| == |mid.g[x].inputs|
      {
        InputMaterializedExecutable(St(), x, j);
        MaterializeInput(x, j);
      }
    }

    /** The order of the new transpose is the combination of the pending one and that of x. */
    method SinkTranspose(x: int)
      requires Executable(St(), x) && g[x].op.Transpose? && |g[x].inputs| == 1 && InRange(g[x].op.order)
      requires |St().OrderOf(g[x].inputs[0])| == |g[x].op.order|
      modifies this
      ensures InRange(old(g[x].op.order))
      ensures St() == TransposeSunk(old(St()), x, Apply(old(St().OrderOf(g[x].inputs[0])), old(g[x].op.order)))
    {
      var transposeIn := g[x].inputs[0];
      PendingPermutation(St(), transposeIn);
      var origTranspose := reorders[transposeIn];
      var combined := CombineTransposes(g[origTranspose].op.order, g[x].op.order);
      var newTranspose := MakeTranspose(transposeIn, combined);
      MarkTransposeForDeletion(origTranspose);
      ReplaceNode(x, newTranspose);
      MarkTransposeForDeletion(newTranspose);
      WriteTransposeMap(Output(newTranspose, 0), newTranspose);
    }

    method SinkUnary(x: int)
      requires Executable(St(), x) && |g[x].inputs| == 1
      modifies this`reorders
      ensures St() == Pend(old(St()), Output(x, 0), old(reorders[g[x].inputs[0]]))
    {
      PendingPermutation(St(), g[x].inputs[0]);
      var argTranspose := reorders[g[x].inputs[0]];
      WriteTransposeMap(Output(x, 0), argTranspose);
    }

    method MakeReshape(arg: Output, shape: Shape) returns (id: int)
      modifies this`g, this`nextId
      ensures St() == AddNode(old(St()), Node(Reshape(shape), [arg], [shape])) && id == old(nextId)
    {
      id := MakeNode(Node(Reshape(shape), [arg], [shape]));
    }

    /** Input j of x is made to match the output `right`. */
    method ConvertBinaryToDefaultOrder(x: int, j: nat, right: Output) returns (status: Status)
      requires x in g && x != nextId && j < |g[x].inputs| && Pending(St(), right)
      modifies this
      ensures Converted(old(St()), St(), x, j, right, old(RankOf(St(), g[x].inputs[j])), |old(St().OrderOf(right))|,
                status)
    {
      PendingPermutation(St(), right);
      var left := g[x].inputs[j];
      var rightT := reorders[right];
      var permToDef := PermutationToDefaultOrder(g[rightT].op.order);
      var leftShape := ShapeOf(St(), left);
      if |leftShape| > |permToDef| {
        return Refused;
      }
      var newNode: int;
      if |leftShape| < |permToDef| {
        var newShape := Reordered(Extend(leftShape, |permToDef|), permToDef);
        newNode := MakeReshape(left, newShape);
      } else {
        newNode := MakeTranspose(left, permToDef);
      }
      ReplaceSourceOutput(x, j, Output(newNode, 0));
      MarkTransposeForDeletion(rightT);
      WriteTransposeMap(Output(x, 0), rightT);
      status := if Matchable(|leftShape|, |permToDef|) then Supported else Extended;
    }

    /** One of the two pending transposes moves to the output, and both are marked. */
    method PropagateBinary(x: int) returns (status: Status)
      requires Executable(St(), x) && |g[x].inputs| == 2 && |g[x].shapes| == 1
      modifies this`reorders, this`toDelete
      ensures old(g[x].inputs[0]) in old(reorders) && old(g[x].inputs[1]) in old(reorders)
      ensures St() == BinaryPropagated(old(St()), x, PickedOf(old(St()), x))
      ensures var s := old(St());
              var picked := Picked(FoundOf(s, s.g[x].inputs[0]), FoundOf(s, s.g[x].inputs[1]), s.g[x].shapes[0]);
              status == if |picked.order| == |s.g[x].shapes[0]| then Supported else WrongRank
    {
      var left, right := g[x].inputs[0], g[x].inputs[1];
      PendingPermutation(St(), left);
      PendingPermutation(St(), right);
      var leftT, rightT := reorders[left], reorders[right];
      var newTranspose := if g[x].shapes[0] == ShapeOf(St(), left) then leftT else rightT;
      WriteTransposeMap(Output(x, 0), newTranspose);
      MarkTransposeForDeletion(leftT);
      MarkTransposeForDeletion(rightT);
      status := if |g[newTranspose].op.order| == |g[x].shapes[0]| then Supported else WrongRank;
    }

    method SinkBinary(x: int) returns (status: Status)
      requires Executable(St(), x) && |g[x].inputs| == 2 && |g[x].shapes| == 1
      modifies this
      ensures BinarySunk(old(St()), St(), x, status)
    {
      ghost var start := St();
      var left, right := g[x].inputs[0], g[x].inputs[1];
      PendingPermutation(St(), left);
      PendingPermutation(St(), right);
      var leftOrder, rightOrder := g[reorders[left]].op.order, g[reorders[right]].op.order;
      var leftMismatch := leftOrder != Default(RankOf(St(), left));
      var rightMismatch := rightOrder != Default(RankOf(St(), right));
      if leftOrder == rightOrder || (!leftMismatch && !rightMismatch) {
        status := PropagateBinary(x);
      } else {
        status := Supported;
        if rightMismatch {
          status := ConvertBinaryToDefaultOrder(x, 0, right);
        }
        if leftMismatch && !status.Refused? {
          if rightMismatch {
            ConvertedPending(start, x, left, right);
          }
          status := ConvertBinaryToDefaultOrder(x, 1, left);
          if rightMismatch && !status.Refused? {
            status := TwoOrders;
          }
        }
      }
    }

    /** A pad with the amounts moved takes the place of x, in front of a new transpose of the same order. */
    method SinkPad(x: int) returns (status: Status)
      requires Executable(St(), x) && g[x].op.Pad? && Fitting(St(), x)
      modifies this
      ensures var n, p := old(g[x]), old(St().OrderOf(g[x].inputs[0]));
              && InRange(Inverse(p)) && St() == Replaced(old(St()), x, MovedPad(old(St()), n, p), p)
              && status == if n.inputs[0].slot == 0 then Supported else OtherOutput
    {
      var nIn := g[x].inputs[0];
      PendingPermutation(St(), nIn);
      var order := g[reorders[nIn]].op.order;
      var defOrder := PermutationToDefaultOrder(order);
      var padBegin := ApplyPermutation(g[x].op.begin, defOrder);
      var padEnd := ApplyPermutation(g[x].op.end, defOrder);
      // the shape the pad should see
      var inputShape := Reordered(PendingShape(St(), nIn), defOrder);
      var newPad := MakeNode(Node(Pad(padBegin, padEnd, g[x].op.mode), [Output(nIn.node, 0), g[x].inputs[1]],
        [PadShape(inputShape, padBegin, padEnd)]));
      ReplaceNode(x, newPad);
      var newTranspose := MakeTranspose(Output(newPad, 0), order);
      WriteTransposeMap(Output(newPad, 0), newTranspose);
      status := if nIn.slot == 0 then Supported else OtherOutput;
    }

    /** Concatenation moves through equal orders; other inputs are materialized. */
    method SinkConcat(x: int)
      requires Executable(St(), x) && g[x].op.Concat? && Fitting(St(), x)
      modifies this
      ensures var n, p := old(g[x]), old(St().OrderOf(g[x].inputs[0]));
              if forall j :: 0 <= j < |n.inputs| ==> old(St()).OrderOf(n.inputs[j]) == p
              then St() == Replaced(old(St()), x, MovedConcat(old(St()), n, p), p)
              else St() == NodeMaterialized(old(St()), x)
    {
      hide ConcatMoved, Pendings, FoundsAt, NodeMaterialized, IsPermutation, Pending;
      ghost var start := St();
      var n := g[x];
      PendingPermutation(St(), n.inputs[0]);
      var order := g[reorders[n.inputs[0]]].op.order;
      var i, same := 1, true;
      while i < |n.inputs| && same
        invariant St() == start && 1 <= i <= |n.inputs|
        invariant forall j :: 0 <= j < i && (same || j < i - 1) ==> St().OrderOf(n.inputs[j]) == order
        invariant !same ==> St().OrderOf(n.inputs[i - 1]) != order
      {
        PendingPermutation(St(), n.inputs[i]);
        same := g[reorders[n.inputs[i]]].op.order == order;
        i := i + 1;
      }
      if !same {
        MaterializeShapes(x);
        return;
      }
      var newAxis := order[n.op.axis];
      // the shape of a concatenation of what the inputs should be
      var newShape := ConcatMoved(Pendings(FoundsAt(St(), n.inputs)), order, n.op.axis);
      var newConcat := MakeNode(Node(Concat(newAxis), n.inputs, [newShape]));
      ReplaceNode(x, newConcat);
      var newTranspose := MakeTranspose(Output(newConcat, 0), order);
      WriteTransposeMap(Output(newConcat, 0), newTranspose);
    }

    /** Whoever uses the transpose uses its input. */
    method DeleteTranspose(transpose: int)
      requires transpose in g && |g[transpose].inputs| > 0
      modifies this`g
      ensures St() == Purged(old(St()), transpose)
    {
      var source := g[transpose].inputs[0];
      g := map z | z in g :: g[z].(inputs := Bypass(g[z].inputs, transpose, source));
    }

    /**
     One node of the first loop; the trace is only there for the proof, and the graph f before the pass to judge
     whether a reshape does harm.
     */
    method Step(ghost pb: Problem, ghost tr: Trace, ghost done: set<int>, f: Graph, x: int)
      returns (status: Status, ghost tr': Trace)
      requires Ready(pb, St(), tr, done, x) && f == pb.g && Tidy(pb, St(), done, done)
      modifies this
      ensures x in pb.g && status == VerdictAt(pb.g, pb.found, x)
      ensures status.Supported? ==> Inv(pb, St(), tr', done + {x}, done + {x})
      ensures status.Supported? ==> Tidy(pb, St(), done + {x}, done + {x})
    {
      hide Inv, Ready, VerdictAt, AllPlaced, BinaryVerdict, Pending, Problem.WellFormed, ForeseenAt, ReshapesOne, Next,
           Tidy, WantsMoved, TransposeSunk, NodeMaterialized, Replaced, BinarySunk, Pend, IsPermutation;
      ghost var start := St();
      ReadyIsNext(pb, start, tr, done, x);
      NextPending(pb, start, done, x);
      ReadyExecutable(pb, start, tr, done, x);
      ReadyFitting(pb, start, tr, done, x);
      ReadyFacts(pb, start, tr, done, x);
      status := Supported;
      match g[x].op {
        case Transpose(_) =>
          OtherVerdictAt(pb, x);
          SinkTranspose(x);
          tr' := TransposeStep(pb, start, tr, done, x);
          TransposeTidy(pb, start, done, x, Apply(start.OrderOf(start.g[x].inputs[0]), start.g[x].op.order));
        case Unary(_) =>
          OtherVerdictAt(pb, x);
          SinkUnary(x);
          tr' := UnaryStep(pb, start, tr, done, x);
          UnaryTidy(pb, start, done, x);
        case Binary(_) =>
          BinaryVerdictAt(pb, start, tr, done, x);
          var left, right := g[x].inputs[0], g[x].inputs[1];
          var harmless := ReshapesOne(FoundOf(St(), left), FoundOf(St(), right),
            ShapeBefore(f, f[x].inputs[0]), ShapeBefore(f, f[x].inputs[1]));
          var ended := SinkBinary(x);
          status := if ended.Extended? && harmless then Supported else ended;
          tr' := tr;
          if status.Supported? {
            tr' := BinarySunkStep(pb, start, tr, done, x, St(), ended);
            BinarySunkTidy(pb, start, done, x, St(), ended);
          }
        case Pad(_, _, _) =>
          PadVerdictAt(pb, start, tr, done, x);
          status := SinkPad(x);
          tr' := tr;
          if status.Supported? {
            tr' := PadStep(pb, start, tr, done, x, start.g[x].inputs[0], start.OrderOf(start.g[x].inputs[0]));
            PadTidy(pb, start, done, x, start.OrderOf(start.g[x].inputs[0]));
          }
        case Concat(_) =>
          OtherVerdictAt(pb, x);
          SinkConcat(x);
          tr' := ConcatSunkStep(pb, start, tr, done, x, St());
          ConcatSunkTidy(pb, start, tr, done, x, St());
        case _ =>
          OtherVerdictAt(pb, x);
          PlacedAt(pb, x);
          PlacedWants(pb, x);
          MaterializeShapes(x);
          tr' := MaterializeStep(pb, start, tr, done, x);
          MaterializeTidy(pb, start, tr, done, x);
      }
    }

    method PurgeTransposes(ghost pb: Problem, ghost tr: Trace)
      requires PurgeInv(pb, St(), tr, {}) && Residual(pb, St(), {})
      modifies this`g
      ensures PurgeInv(pb, St(), tr, toDelete) && Residual(pb, St(), toDelete)
    {
      hide PurgeInv, Residual, Purged;
      var rest := toDelete;
      NoneTaken(toDelete);
      while rest != {}
        invariant toDelete == old(toDelete) && rest <= toDelete
        invariant PurgeInv(pb, St(), tr, toDelete - rest) && Residual(pb, St(), toDelete - rest)
        decreases |rest|
      {
        ghost var some := SomeMember(rest);
        var t :| t in rest;
        PurgeStep(pb, St(), tr, toDelete - rest, t);
        ResidualStep(pb, St(), toDelete - rest, t);
        OneTaken(toDelete, rest, t);
        DeleteTranspose(t);
        rest := rest - {t};
      }
      assert toDelete - rest == toDelete;
    }

    /**
     The whole pass over the nodes of the graph in a topological order, up to a step that may lose the meaning.
     Whether there is one, and of which kind the first one is, can be read off the graph. If there is none, the
     meaning is preserved, and transposes are left only where one is wanted.
     */
    method RunOnFunction(ghost pb: Problem, order: seq<int>) returns (status: Status)
      requires pb.WellFormed() && Ordered(pb.g, order) && pb.found == Foretelling(pb.g, order)
      requires St() == Start(pb.g, nextId) && forall x :: x in pb.g ==> x < nextId
      modifies this
      ensures status == FirstTrouble(pb.g, Foretelling(pb.g, order), order, 0)
      ensures status.Supported? <==> InFragment(pb.g, order)
      ensures InFragment(pb.g, order) ==> MeaningPreserved(pb, g) && Evaluable(pb, g)
      ensures InFragment(pb.g, order) ==> OnlyWanted(pb.g, Foretelling(pb.g, order), g)
      // who still reads a transpose
      ensures InFragment(pb.g, order) ==>
                forall z, j :: z in g && 0 <= j < |g[z].inputs| && TransposeAt(g, g[z].inputs[j].node) ==>
                  && z in pb.g && g[z].inputs[j].node !in pb.g
                  && (pb.g[z].op.Opaque? || pb.g[z].op.Concat? || pb.g[z].op.Binary?)
      // when nobody does
      ensures InFragment(pb.g, order)
              && (forall x, j :: x in pb.g && 0 <= j < |pb.g[x].inputs| ==>
                    var p := Foretelling(pb.g, order)(pb.g[x].inputs[j]).order;
                    && (pb.g[x].op.Opaque? ==> p == Default(|p|))
                    && (pb.g[x].op.Concat? || pb.g[x].op.Binary? ==>
                          p == Foretelling(pb.g, order)(pb.g[x].inputs[0]).order)) ==>
                forall z, j :: z in g && 0 <= j < |g[z].inputs| ==> !TransposeAt(g, g[z].inputs[j].node)
    {
      hide Inv, Ready, PurgeInv, Problem.WellFormed, MeaningPreserved, Evaluable, Ordered, InFragment, Foretelling,
           VerdictAt, FirstTrouble, Tidy, Residual, OnlyWanted;
      StartInv(pb, nextId);
      StartTidy(pb, nextId);
      TroubleInFragment(pb.g, order);
      NodesThere(pb.g, order);
      assert Done(order, 0) == {};
      ghost var tr := NoTrace();
      var f := g;
      status := Supported;
      for i := 0 to |order|
        invariant status.Supported? && Inv(pb, St(), tr, Done(order, i), Done(order, i))
        invariant Tidy(pb, St(), Done(order, i), Done(order, i))
        invariant FirstTrouble(pb.g, pb.found, order, i) == FirstTrouble(pb.g, pb.found, order, 0)
      {
        ReadyNext(pb, St(), tr, order, i);
        TroubleStep(pb.g, pb.found, order, i);
        status, tr := Step(pb, tr, Done(order, i), f, order[i]);
        if !status.Supported? {
          return;
        }
      }
      NoneLeft(pb.g, pb.found, order);
      AllDone(pb, St(), tr, order);
      NodesDone(pb.g, order);
      TidyResidual(pb, St(), Done(order, |order|));
      PurgeTransposes(pb, tr);
      PurgedPreserved(pb, St(), tr);
      ResidualPurged(pb, St());
      ReadBy(pb.g, Foretelling(pb.g, order), g);
      NoneWanted(pb.g, Foretelling(pb.g, order), g);
    }
  }
}
