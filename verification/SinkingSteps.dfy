/** What every step of the pass does to the values: each operation commutes with the transpose held pending. */
module SinkingSteps {
  import opened TensorAlgebra
  import opened Sinking
  import opened Foresight
  import R = Reshaping

  /** Node x is next: its inputs are processed, it is not. */
  ghost predicate Ready(pb: Problem, s: State, tr: Trace, done: set<int>, x: int) {
    && pb.WellFormed() && Inv(pb, s, tr, done, done + {x})
    && x in pb.g && x !in done && Waiting(pb, s, tr, x) && ForeseenAt(pb.g, pb.found, x)
    && forall j :: 0 <= j < |pb.g[x].inputs| ==> pb.g[x].inputs[j].node in done
  }

  lemma ReadyFacts(pb: Problem, s: State, tr: Trace, done: set<int>, x: int)
    requires Ready(pb, s, tr, done, x)
    ensures pb.WellFormed() && Inv(pb, s, tr, done, done + {x}) && x in pb.g && x !in done
    ensures x in s.g && x !in tr.level && x !in s.toDelete && SameKind(s.g[x], pb.g[x])
    ensures ForeseenAt(pb.g, pb.found, x)
  {
    hide Inv, Problem.WellFormed, ForeseenAt;
  }

  /** Input j of x is found at an output with a pending transpose. */
  ghost predicate InputFound(pb: Problem, s: State, tr: Trace, x: int, j: int) {
    && x in pb.g && x in s.g && 0 <= j < |pb.g[x].inputs| == |s.g[x].inputs|
    && var o, c := pb.g[x].inputs[j], s.g[x].inputs[j];
    && pb.Has(o) && s.HasOrder(c) && PendingUsable(pb, s, tr, s.reorders[c])
    && c in tr.now && tr.now[c].WellFormed()
    && c.node in s.g && 0 <= c.slot < |s.g[c.node].shapes|
    && var p := s.OrderOf(c);
    && IsPermutation(p) && |p| == pb.Rank(o) == |tr.now[c].shape| == |s.g[c.node].shapes[c.slot]|
    && pb.before(o) == Permute(tr.now[c], p)
    && (c.slot != 0 ==> p == Default(|p|))
    && c.slot == o.slot && FoundOf(s, c) == pb.found(o) && Steady(pb.found(o), pb.before(o).shape)
  }

  /** A transpose that may be pending for another output, too. */
  ghost predicate PendingUsable(pb: Problem, s: State, tr: Trace, t: int) {
    t in s.g && s.g[t].op.Transpose? && |s.g[t].inputs| == 1 && t !in pb.g && (t in tr.level ==> t in s.toDelete)
  }

  lemma CorrespondsFound(pb: Problem, s: State, tr: Trace, x: int, j: int)
    requires x in pb.g && x in s.g && 0 <= j < |pb.g[x].inputs| == |s.g[x].inputs|
    requires var o := pb.g[x].inputs[j]; Corresponds(pb, s, tr, o) && tr.cur[o] == s.g[x].inputs[j]
    requires PendingMarked(s, tr) && Fresh(pb, s)
    ensures InputFound(pb, s, tr, x, j)
  {
    hide Permute, IsPermutation;
  }

  lemma InputAt(pb: Problem, s: State, tr: Trace, done: set<int>, x: int, j: int)
    requires Ready(pb, s, tr, done, x) && 0 <= j < |pb.g[x].inputs|
    ensures InputFound(pb, s, tr, x, j)
  {
    hide Corresponds, InputFound, PendingMarked, Fresh;
    assert pb.Has(pb.g[x].inputs[j]) && pb.g[x].inputs[j] in tr.cur;
    CorrespondsFound(pb, s, tr, x, j);
  }

  lemma FoundValue(pb: Problem, s: State, tr: Trace, x: int, j: int, c: Output, p: Order)
    requires InputFound(pb, s, tr, x, j) && c == s.g[x].inputs[j] && p == s.OrderOf(c)
    ensures c in tr.now && s.HasOrder(c) && IsPermutation(p) && tr.now[c].WellFormed()
    ensures pb.Has(pb.g[x].inputs[j]) && |p| == |tr.now[c].shape| == pb.Rank(pb.g[x].inputs[j])
    ensures pb.before(pb.g[x].inputs[j]) == Permute(tr.now[c], p)
  {
    hide Permute, IsPermutation;
  }

  /** The node's outputs are not where anything is found yet. */
  lemma OwnOutputFree(pb: Problem, s: State, tr: Trace, done: set<int>, begun: set<int>, x: int)
    requires Inv(pb, s, tr, done, begun) && x !in tr.level
    ensures forall o :: o in tr.cur ==> tr.cur[o].node != x
    ensures forall c :: c in tr.now ==> c.node != x
  {
    forall o | o in tr.cur ensures tr.cur[o].node != x {
      assert Corresponds(pb, s, tr, o);
    }
  }

  // ---------- the original values ----------

  lemma BeforeEval(pb: Problem, x: int)
    requires pb.WellFormed() && x in pb.g && |pb.g[x].shapes| == 1
    ensures pb.before(Output(x, 0)) == Eval(pb.env, pb.g[x].op, pb.Values(pb.g[x].inputs), 0)
    ensures pb.before(Output(x, 0)).WellFormed() && pb.before(Output(x, 0)).shape == pb.g[x].shapes[0]
  {
    hide Eval;
    assert pb.Has(Output(x, 0));
  }

  lemma BeforeUnary(pb: Problem, x: int)
    requires pb.WellFormed() && x in pb.g && pb.g[x].op.Unary?
    ensures |pb.g[x].inputs| == 1 && |pb.g[x].shapes| == 1 && pb.Has(pb.g[x].inputs[0])
    ensures |pb.g[x].shapes[0]| == pb.Rank(pb.g[x].inputs[0])
    ensures pb.before(Output(x, 0)) == Map(pb.env.unary(pb.g[x].op.name), pb.before(pb.g[x].inputs[0]))
  {
    assert pb.Typed(x);
    BeforeEval(pb, x);
  }

  lemma BeforeTranspose(pb: Problem, x: int)
    requires pb.WellFormed() && x in pb.g && pb.g[x].op.Transpose?
    ensures |pb.g[x].inputs| == 1 && |pb.g[x].shapes| == 1 && pb.Has(pb.g[x].inputs[0])
    ensures var q, v := pb.g[x].op.order, pb.before(pb.g[x].inputs[0]);
            IsPermutation(q) && |q| == |pb.g[x].shapes[0]| == pb.Rank(pb.g[x].inputs[0]) == |v.shape|
                && pb.before(Output(x, 0)) == Permute(v, q)
  {
    hide Permute, IsPermutation;
    assert pb.Typed(x);
    BeforeEval(pb, x);
  }

  // ---------- what was foretold ----------

  /** What is held against the given outputs. */
  function FoundsAt(s: State, inputs: seq<Output>): (r: seq<Found>)
    ensures |r| == |inputs| && forall j :: 0 <= j < |inputs| ==> r[j] == FoundOf(s, inputs[j])
  {
    seq(|inputs|, j requires 0 <= j < |inputs| => FoundOf(s, inputs[j]))
  }

  /** What is held against the inputs is what was foretold of them. */
  lemma FoundsForetold(pb: Problem, s: State, tr: Trace, x: int)
    requires x in pb.g && x in s.g && |s.g[x].inputs| == |pb.g[x].inputs|
    requires forall j :: 0 <= j < |pb.g[x].inputs| ==> InputFound(pb, s, tr, x, j)
    ensures FoundsAt(s, s.g[x].inputs) == Founds(pb.found, pb.g[x].inputs)
    ensures forall j :: 0 <= j < |pb.g[x].inputs| ==>
              Steady(pb.found(pb.g[x].inputs[j]), pb.before(pb.g[x].inputs[j]).shape)
  {
    hide Permute, IsPermutation, FoundOf;
    forall j | 0 <= j < |s.g[x].inputs|
      ensures FoundsAt(s, s.g[x].inputs)[j] == Founds(pb.found, pb.g[x].inputs)[j]
      ensures Steady(pb.found(pb.g[x].inputs[j]), pb.before(pb.g[x].inputs[j]).shape)
    {
      assert InputFound(pb, s, tr, x, j);
    }
  }

  /** Node x is typed as its kind demands, and what is held against its inputs was foretold. */
  lemma ReadyFounds(pb: Problem, s: State, tr: Trace, done: set<int>, x: int)
    requires Ready(pb, s, tr, done, x)
    ensures x in s.g && SameKind(s.g[x], pb.g[x]) && ForeseenAt(pb.g, pb.found, x)
    ensures FoundsAt(s, s.g[x].inputs) == Founds(pb.found, pb.g[x].inputs)
    ensures forall j :: 0 <= j < |pb.g[x].inputs| ==>
              Steady(pb.found(pb.g[x].inputs[j]), pb.before(pb.g[x].inputs[j]).shape)
  {
    hide InputFound, Inv, ForeseenAt, Problem.WellFormed;
    ReadyFacts(pb, s, tr, done, x);
    forall j | 0 <= j < |pb.g[x].inputs| ensures InputFound(pb, s, tr, x, j) {
      InputAt(pb, s, tr, done, x, j);
    }
    FoundsForetold(pb, s, tr, x);
  }

  /** At most one axis has only one order. */
  lemma SmallOrder(s: seq<nat>, p: Order)
    requires |s| <= 1 && |s| == |p| && IsPermutation(p)
    ensures Reordered(s, p) == s && Unmoved(s, p) == s && p == Default(|p|)
  {
    InverseIsPermutation(p);
    assert |p| == 1 ==> p[0] == 0 && Inverse(p)[0] == 0;
  }

  // ---------- finishing a single-output node ----------

  /** The pending order at c undoes what separates `value` from the original value. */
  ghost predicate Explains(pb: Problem, s: State, x: int, c: Output, value: Tensor) {
    && x in pb.g && |pb.g[x].shapes| == 1
    && s.HasOrder(c)
    && var p := s.OrderOf(c);
    && IsPermutation(p) && |p| == |pb.g[x].shapes[0]|
    && value.WellFormed() && |value.shape| == |p|
    && pb.before(Output(x, 0)) == Permute(value, p)
  }

  /** What is held against the output at c is what was foretold of the output of x. */
  ghost predicate Noted(pb: Problem, s: State, x: int, c: Output) {
    && FoundOf(s, c) == pb.found(Output(x, 0))
    && Steady(pb.found(Output(x, 0)), pb.before(Output(x, 0)).shape)
  }

  lemma ExplainsCorresponds(pb: Problem, s: State, tr: Trace, x: int, y: int, value: Tensor)
    requires Explains(pb, s, x, Output(y, 0), value) && Noted(pb, s, x, Output(y, 0))
    requires Output(y, 0) in tr.now && tr.now[Output(y, 0)] == value
    requires y in s.g && |s.g[y].shapes| == 1 && |s.g[y].shapes[0]| == |pb.g[x].shapes[0]|
    ensures Corresponds(pb, s, FoundAt(tr, x, y, 1), Output(x, 0))
  {
    hide Permute, IsPermutation, FoundOf, Steady;
    FoundAtCur(tr, x, y, 1);
  }

  lemma StayInPlace(pb: Problem, s: State, tr: Trace, done: set<int>, x: int, value: Tensor) returns (tr': Trace)
    requires Inv(pb, s, tr, done, done + {x}) && x in pb.g && x !in done && !pb.g[x].op.Opaque?
    requires ReadyToSettle(pb.env, s, tr, x, [value])
    requires forall c :: c in s.reorders ==> s.reorders[c] != x
    requires x in s.g && s.g[x].shapes == pb.g[x].shapes && Explains(pb, s, x, Output(x, 0), value)
    requires Noted(pb, s, x, Output(x, 0))
    ensures Inv(pb, s, tr', done + {x}, done + {x})
  {
    hide Inv, ReadyToSettle, Corresponds, Settle, FoundAt, IsPermutation, Permute, Noted;
    var settled := Settle(tr, x, [value]);
    SettleAt(tr, x, [value]);
    SettleKeeps(pb, s, tr, done, done + {x}, x, [value]);
    ExplainsCorresponds(pb, s, settled, x, x, value);
    FinishKeeps(pb, s, settled, done, done + {x}, x);
    tr' := FoundAt(settled, x, x, 1);
  }

  /** Node y, just settled, takes the place of x. */
  lemma TakePlace(pb: Problem, s: State, tr: Trace, done: set<int>, x: int, y: int) returns (tr': Trace)
    requires pb.WellFormed() && Inv(pb, s, tr, done, done + {x}) && x in pb.g && x !in done && x !in tr.level
    requires !pb.g[x].op.Opaque?
    requires Output(y, 0) in tr.now && Explains(pb, s, x, Output(y, 0), tr.now[Output(y, 0)])
    requires Noted(pb, s, x, Output(y, 0))
    requires y in s.g && |s.g[y].shapes| == 1 && |s.g[y].shapes[0]| == |pb.g[x].shapes[0]|
    ensures Inv(pb, Rewired(s, x, y), tr', done + {x}, done + {x})
  {
    hide Inv, Corresponds, Permute, FoundAt, Rewired, IsPermutation, Noted;
    ExplainsCorresponds(pb, s, tr, x, y, tr.now[Output(y, 0)]);
    RewireKeeps(pb, s, tr, done, done + {x}, x, y);
    tr' := FoundAt(tr, x, y, 1);
  }

  // ---------- unary operations ----------

  lemma UnaryExplains(pb: Problem, s: State, tr: Trace, x: int, t: int)
    requires pb.WellFormed() && x in pb.g && pb.g[x].op.Unary? && InputFound(pb, s, tr, x, 0)
    requires t == s.reorders[s.g[x].inputs[0]]
    ensures Explains(pb, Pend(s, Output(x, 0), t), x, Output(x, 0),
              Map(pb.env.unary(pb.g[x].op.name), tr.now[s.g[x].inputs[0]]))
  {
    hide Map, Permute, IsPermutation;
    BeforeUnary(pb, x);
    MapPermute(pb.env.unary(pb.g[x].op.name), tr.now[s.g[x].inputs[0]], s.OrderOf(s.g[x].inputs[0]));
  }

  /** What was foretold of an elementwise operation. */
  lemma UnaryForeseen(pb: Problem, x: int)
    requires x in pb.g && ForeseenAt(pb.g, pb.found, x) && pb.g[x].op.Unary?
    requires |pb.g[x].inputs| == 1 && |pb.g[x].shapes| == 1
    ensures var source := pb.found(pb.g[x].inputs[0]);
            pb.found(Output(x, 0)) == Found(source.order, pb.g[x].shapes[0], source.pending)
  {
    assert Founds(pb.found, pb.g[x].inputs)[0] == pb.found(pb.g[x].inputs[0]);
    assert pb.found(Output(x, 0)) == Foresee(pb.g[x], 0, Founds(pb.found, pb.g[x].inputs));
  }

  lemma UnaryShape(pb: Problem, x: int)
    requires pb.WellFormed() && x in pb.g && pb.g[x].op.Unary?
    ensures |pb.g[x].inputs| == 1 && |pb.g[x].shapes| == 1
    ensures pb.before(Output(x, 0)).shape == pb.before(pb.g[x].inputs[0]).shape == pb.g[x].shapes[0]
  {
    BeforeUnary(pb, x);
    BeforeEval(pb, x);
    hide Map, Problem.WellFormed;
  }

  lemma UnaryNoted(pb: Problem, s: State, tr: Trace, done: set<int>, x: int, t: int)
    requires Ready(pb, s, tr, done, x) && pb.g[x].op.Unary? && x in s.g && |s.g[x].inputs| == 1
    requires s.HasOrder(s.g[x].inputs[0]) && t == s.reorders[s.g[x].inputs[0]]
    ensures Noted(pb, Pend(s, Output(x, 0), t), x, Output(x, 0))
  {
    hide Ready, Inv, Problem.WellFormed, ForeseenAt;
    ReadyFacts(pb, s, tr, done, x);
    ReadyFounds(pb, s, tr, done, x);
    UnaryShape(pb, x);
    UnaryForeseen(pb, x);
    assert FoundsAt(s, s.g[x].inputs)[0] == Founds(pb.found, pb.g[x].inputs)[0];
  }

  lemma UnarySettles(pb: Problem, s: State, tr: Trace, x: int)
    requires pb.WellFormed() && x in pb.g && pb.g[x].op.Unary? && InputFound(pb, s, tr, x, 0) && Waiting(pb, s, tr, x)
    ensures ReadyToSettle(pb.env, s, tr, x, [Map(pb.env.unary(pb.g[x].op.name), tr.now[s.g[x].inputs[0]])])
  {
    hide Map, InputFound, Problem.WellFormed;
    FoundUsable(pb, s, tr, x, 0);
    BeforeUnary(pb, x);
    SettlesUnary(pb.env, s, tr, x);
  }

  lemma SettlesUnary(env: Semantics, s: State, tr: Trace, x: int)
    requires x in s.g && s.g[x].op.Unary? && |s.g[x].inputs| == 1 && |s.g[x].shapes| == 1
    requires x !in tr.level && x !in s.toDelete && s.g[x].inputs[0] in tr.now
    ensures ReadyToSettle(env, s, tr, x, [Map(env.unary(s.g[x].op.name), tr.now[s.g[x].inputs[0]])])
  {
    hide Map;
  }

  lemma ReadyPends(pb: Problem, s: State, tr: Trace, x: int, c: Output, t: int, values: seq<Tensor>)
    requires ReadyToSettle(pb.env, s, tr, x, values)
    ensures ReadyToSettle(pb.env, Pend(s, c, t), tr, x, values)
  {
    hide Eval;
  }

  lemma UnaryStep(pb: Problem, s: State, tr: Trace, done: set<int>, x: int) returns (tr': Trace)
    requires Ready(pb, s, tr, done, x) && pb.g[x].op.Unary?
    ensures InputFound(pb, s, tr, x, 0)
    ensures Inv(pb, Pend(s, Output(x, 0), s.reorders[s.g[x].inputs[0]]), tr', done + {x}, done + {x})
  {
    InputAt(pb, s, tr, done, x, 0);
    OwnOutputFree(pb, s, tr, done, done + {x}, x);
    hide Permute, Map, Inv, Eval, IsPermutation, ReadyToSettle, Explains;
    var c := s.g[x].inputs[0];
    var t := s.reorders[c];
    var value := Map(pb.env.unary(pb.g[x].op.name), tr.now[c]);
    UnaryExplains(pb, s, tr, x, t);
    UnaryNoted(pb, s, tr, done, x, t);
    UnarySettles(pb, s, tr, x);
    ReadyPends(pb, s, tr, x, Output(x, 0), t, [value]);
    PendNew(pb, s, tr, done, done + {x}, Output(x, 0), t);
    PendingNotOriginal(pb, Pend(s, Output(x, 0), t), tr, done, done + {x}, x);
    tr' := StayInPlace(pb, Pend(s, Output(x, 0), t), tr, done, x, value);
  }

  lemma PendingNotOriginal(pb: Problem, s: State, tr: Trace, done: set<int>, begun: set<int>, x: int)
    requires Inv(pb, s, tr, done, begun) && x in pb.g
    ensures forall c :: c in s.reorders ==> s.reorders[c] != x
  {
  }

  // ---------- transposes ----------

  lemma TransposeValue(pb: Problem, s: State, tr: Trace, x: int)
    requires pb.WellFormed() && x in pb.g && pb.g[x].op.Transpose? && InputFound(pb, s, tr, x, 0)
    ensures var c := s.g[x].inputs[0]; var p, q := s.OrderOf(c), pb.g[x].op.order;
            && IsPermutation(p) && IsPermutation(q) && |p| == |q| == |tr.now[c].shape| == |pb.g[x].shapes[0]|
                 && IsPermutation(Apply(p, q))
            && pb.before(Output(x, 0)) == Permute(tr.now[c], Apply(p, q))
  {
    hide Permute, IsPermutation, Apply;
    BeforeTranspose(pb, x);
    PermuteTwice(tr.now[s.g[x].inputs[0]], s.OrderOf(s.g[x].inputs[0]), pb.g[x].op.order);
  }

  lemma TransposeExplains(pb: Problem, s: State, x: int, y: int, r: Order, value: Tensor)
    requires x in pb.g && |pb.g[x].shapes| == 1 && IsPermutation(r) && value.WellFormed()
    requires |value.shape| == |r| == |pb.g[x].shapes[0]|
    requires pb.before(Output(x, 0)) == Permute(value, r)
    requires Output(y, 0) in s.reorders && s.reorders[Output(y, 0)] in s.g
    requires s.g[s.reorders[Output(y, 0)]].op == Transpose(r)
    ensures Explains(pb, s, x, Output(y, 0), value)
  {
    hide Permute, IsPermutation;
  }

  /** A transpose of order r over c, bypassed and pending for its own output. */
  function Bypassed(s: State, c: Output, r: Order): State {
    var y := s.nextId;
    Pend(Mark(AddNode(s, TransposeNode(s, c, r)), y), Output(y, 0), y)
  }

  lemma AddBypassed(pb: Problem, s: State, tr: Trace, done: set<int>, begun: set<int>, c: Output, r: Order)
    returns (tr': Trace)
    requires Inv(pb, s, tr, done, begun) && c in tr.now
    ensures Inv(pb, Bypassed(s, c, r), tr', done, begun)
    ensures Output(s.nextId, 0) in tr'.now && tr'.now[Output(s.nextId, 0)] == tr.now[c]
    ensures forall x :: x in tr'.level ==> x in tr.level || x == s.nextId
  {
    NewIdUnused(pb, s, tr, done, begun);
    hide Inv, Settle, NewNodeFits;
    var y, n := s.nextId, TransposeNode(s, c, r);
    BypassFits(pb.env, tr, c, n);
    AddSettled(pb, s, tr, done, begun, n, true, tr.now[c]);
    tr' := Settle(tr, y, [tr.now[c]]);
    SettleAt(tr, y, [tr.now[c]]);
    SettleLevel(tr, y, [tr.now[c]]);
    PendNew(pb, Added(s, n, true), tr', done, begun, Output(y, 0), y);
  }

  lemma BypassFits(env: Semantics, tr: Trace, c: Output, n: Node)
    requires c in tr.now && n.op.Transpose? && n.inputs == [c] && |n.shapes| == 1
    ensures NewNodeFits(env, tr, n, true, tr.now[c])
  {
    hide Eval;
  }

  lemma SettleLevel(tr: Trace, x: int, values: seq<Tensor>)
    ensures var tr' := Settle(tr, x, values);
            tr'.cur == tr.cur && forall y :: y in tr'.level <==> y in tr.level || y == x
  {
  }

  /** Sinking the transpose x: its order is combined with the pending one. */
  function TransposeSunk(s: State, x: int, combined: Order): State
    requires x in s.g && |s.g[x].inputs| == 1 && s.g[x].inputs[0] in s.reorders
  {
    var c := s.g[x].inputs[0];
    Rewired(Bypassed(Mark(s, s.reorders[c]), c, combined), x, s.nextId)
  }

  lemma BypassedNode(s: State, c: Output, r: Order)
    ensures var s', y := Bypassed(s, c, r), s.nextId;
            y in s'.g && s'.g[y] == TransposeNode(s, c, r) && Output(y, 0) in s'.reorders
                && s'.reorders[Output(y, 0)] == y
  {
  }

  lemma BypassedFound(s: State, t: int, c: Output, r: Order)
    ensures var shape := Reordered(ShapeOf(s, c), r);
            FoundOf(Bypassed(Mark(s, t), c, r), Output(s.nextId, 0)) == Found(r, shape, shape)
  {
    hide Reordered;
    BypassedNode(Mark(s, t), c, r);
  }

  lemma ReorderedOrder(p: Order, q: Order)
    requires |p| == |q| && IsPermutation(q)
    ensures InRange(q) && Reordered(p, q) == Apply(p, q)
  {
  }

  /** What was foretold of a transpose. */
  lemma TransposeForeseen(pb: Problem, x: int)
    requires x in pb.g && ForeseenAt(pb.g, pb.found, x) && pb.g[x].op.Transpose?
    requires |pb.g[x].inputs| == 1 && |pb.g[x].shapes| == 1
    ensures var source := pb.found(pb.g[x].inputs[0]);
            var r := Reordered(source.order, pb.g[x].op.order);
            var shape := Reordered(source.shape, r);
            pb.found(Output(x, 0)) == Found(r, shape, shape)
  {
    hide Reordered;
    assert Founds(pb.found, pb.g[x].inputs)[0] == pb.found(pb.g[x].inputs[0]);
    assert pb.found(Output(x, 0)) == Foresee(pb.g[x], 0, Founds(pb.found, pb.g[x].inputs));
  }

  lemma TransposeSteady(f: Found, v: Tensor, q: Order, r: Order)
    requires Steady(f, v.shape) && IsPermutation(q) && IsPermutation(r) && |q| == |r| == |v.shape|
    ensures var shape := Reordered(f.shape, r); Steady(Found(r, shape, shape), Permute(v, q).shape)
  {
    ReorderedOrder(v.shape, q);
    if |v.shape| <= 1 {
      SmallOrder(v.shape, r);
      SmallOrder(v.shape, q);
    }
    hide Permute, IsPermutation, Reordered;
  }

  lemma TransposeNoted(pb: Problem, s: State, tr: Trace, done: set<int>, x: int, c: Output, r: Order)
    requires Ready(pb, s, tr, done, x) && pb.g[x].op.Transpose? && x in s.g && |s.g[x].inputs| == 1
    requires c == s.g[x].inputs[0] && s.HasOrder(c)
    requires IsPermutation(s.OrderOf(c)) && IsPermutation(pb.g[x].op.order)
    requires |s.OrderOf(c)| == |pb.g[x].op.order| && r == Apply(s.OrderOf(c), pb.g[x].op.order) && IsPermutation(r)
    ensures Noted(pb, Bypassed(Mark(s, s.reorders[c]), c, r), x, Output(s.nextId, 0))
  {
    ReorderedOrder(s.OrderOf(c), pb.g[x].op.order);
    hide Ready, Inv, Permute, IsPermutation, Problem.WellFormed, ForeseenAt, Steady, Bypassed, Reordered,
        State.HasOrder;
    ReadyFacts(pb, s, tr, done, x);
    ReadyFounds(pb, s, tr, done, x);
    BeforeTranspose(pb, x);
    BypassedFound(s, s.reorders[c], c, r);
    TransposeForeseen(pb, x);
    assert FoundsAt(s, s.g[x].inputs)[0] == Founds(pb.found, pb.g[x].inputs)[0];
    TransposeSteady(pb.found(pb.g[x].inputs[0]), pb.before(pb.g[x].inputs[0]), pb.g[x].op.order, r);
  }

  lemma TransposeStep(pb: Problem, s: State, tr: Trace, done: set<int>, x: int) returns (tr': Trace)
    requires Ready(pb, s, tr, done, x) && pb.g[x].op.Transpose?
    ensures InputFound(pb, s, tr, x, 0) && |s.g[x].inputs| == 1
    ensures var p, q := s.OrderOf(s.g[x].inputs[0]), pb.g[x].op.order;
            IsPermutation(p) && IsPermutation(q) && |p| == |q|
            && Inv(pb, TransposeSunk(s, x, Apply(p, q)), tr', done + {x}, done + {x})
  {
    InputAt(pb, s, tr, done, x, 0);
    BeforeTranspose(pb, x);
    TransposeValue(pb, s, tr, x);
    NewIdUnused(pb, s, tr, done, done + {x});
    hide Permute, IsPermutation, Inv, Explains, Rewired, Apply, Bypassed;
    var c, y := s.g[x].inputs[0], s.nextId;
    var r := Apply(s.OrderOf(c), pb.g[x].op.order);
    var marked := Mark(s, s.reorders[c]);
    MarkPending(pb, s, tr, done, done + {x}, c);
    var settled := AddBypassed(pb, marked, tr, done, done + {x}, c, r);
    BypassedNode(marked, c, r);
    TransposeExplains(pb, Bypassed(marked, c, r), x, y, r, tr.now[c]);
    TransposeNoted(pb, s, tr, done, x, c, r);
    tr' := TakePlace(pb, Bypassed(marked, c, r), settled, done, x, y);
  }

  // ---------- binary operations ----------

  lemma BeforeBinary(pb: Problem, x: int)
    requires pb.WellFormed() && x in pb.g && pb.g[x].op.Binary?
    ensures |pb.g[x].inputs| == 2 && |pb.g[x].shapes| == 1 && pb.Has(pb.g[x].inputs[0]) && pb.Has(pb.g[x].inputs[1])
    ensures |pb.g[x].shapes[0]| == Max(pb.Rank(pb.g[x].inputs[0]), pb.Rank(pb.g[x].inputs[1]))
    ensures pb.before(Output(x, 0))
              == Zip(pb.env.binary(pb.g[x].op.name), pb.before(pb.g[x].inputs[0]), pb.before(pb.g[x].inputs[1]))
  {
    hide Zip;
    assert pb.Typed(x);
    BeforeEval(pb, x);
  }

  lemma BinarySettles(env: Semantics, s: State, tr: Trace, x: int)
    requires x in s.g && s.g[x].op.Binary? && |s.g[x].inputs| == 2 && |s.g[x].shapes| == 1
    requires x !in tr.level && x !in s.toDelete && s.g[x].inputs[0] in tr.now && s.g[x].inputs[1] in tr.now
    ensures ReadyToSettle(env, s, tr, x,
              [Zip(env.binary(s.g[x].op.name), tr.now[s.g[x].inputs[0]], tr.now[s.g[x].inputs[1]])])
  {
    hide Zip;
  }

  /** Equal orders move out of a binary operation, and so do default ones. */
  lemma ZipMovesOut(f: (Element, Element) -> Element, a: Tensor, b: Tensor, p: Order, q: Order, r: Order)
    requires a.WellFormed() && b.WellFormed() && IsPermutation(p) && IsPermutation(q)
    requires |p| == |a.shape| && |q| == |b.shape|
    requires (p == q && r == p) || (p == Default(|p|) && q == Default(|q|) && r == Default(Max(|p|, |q|)))
    ensures IsPermutation(r) && |r| == Max(|p|, |q|)
    ensures Zip(f, Permute(a, p), Permute(b, q)) == Permute(Zip(f, a, b), r)
  {
    hide Zip, Permute, IsPermutation;
    if p == q && r == p {
      ZipPermute(f, a, b, p);
    } else {
      PermuteDefault(a, |p|);
      PermuteDefault(b, |q|);
      PermuteDefault(Zip(f, a, b), |r|);
    }
  }

  /** What an argument in default order becomes to match an argument of order q: widened and transposed. */
  ghost function Matched(left: Tensor, q: Order): (r: Tensor)
    requires |left.shape| <= |q| && IsPermutation(Inverse(q))
    ensures |r.shape| == |q| && r.WellFormed()
  {
    Permute(R.Widened(left, |q|), Inverse(q))
  }

  /** The argument in default order is matched to what the other argument's order undoes. */
  lemma ZipConverts(f: (Element, Element) -> Element, a: Tensor, b: Tensor, q: Order)
    requires a.WellFormed() && b.WellFormed() && IsPermutation(q) && |a.shape| <= |q| == |b.shape|
    ensures IsPermutation(Inverse(q)) && InRange(Inverse(q))
    ensures Zip(f, a, Permute(b, q)) == Permute(Zip(f, Matched(a, q), b), q)
    ensures Zip(f, Permute(b, q), a) == Permute(Zip(f, b, Matched(a, q)), q)
  {
    InverseIsPermutation(q);
    hide Zip, Permute, IsPermutation, R.Widened;
    R.KeptByTranspose(f, a, b, q);
  }

  lemma ExplainedBy(pb: Problem, s: State, x: int, y: int, t: int, p: Order, value: Tensor)
    requires x in pb.g && |pb.g[x].shapes| == 1 && IsPermutation(p) && |p| == |pb.g[x].shapes[0]| == |value.shape|
    requires value.WellFormed()
    requires t in s.g && s.g[t].op == Transpose(p) && Output(y, 0) in s.reorders && s.reorders[Output(y, 0)] == t
    requires pb.before(Output(x, 0)) == Permute(value, p)
    ensures Explains(pb, s, x, Output(y, 0), value)
  {
    hide Permute, IsPermutation;
  }

  /** Pending transpose t moves to the output of x, and both inputs' are marked. */
  function BinaryPropagated(s: State, x: int, t: int): State
    requires x in s.g && |s.g[x].inputs| == 2 && s.g[x].inputs[0] in s.reorders && s.g[x].inputs[1] in s.reorders
  {
    Mark(Mark(Pend(s, Output(x, 0), t), s.reorders[s.g[x].inputs[0]]), s.reorders[s.g[x].inputs[1]])
  }

  lemma BinaryMarks(pb: Problem, s: State, tr: Trace, done: set<int>, x: int, t: int)
    requires Inv(pb, Pend(s, Output(x, 0), t), tr, done, done + {x}) && x in pb.g && x !in s.toDelete
    requires x in s.g && |s.g[x].inputs| == 2 && s.g[x].inputs[0] in s.reorders && s.g[x].inputs[1] in s.reorders
    requires s.g[x].inputs[0].node != x && s.g[x].inputs[1].node != x
    ensures Inv(pb, BinaryPropagated(s, x, t), tr, done, done + {x})
    ensures forall c :: c in BinaryPropagated(s, x, t).reorders ==> BinaryPropagated(s, x, t).reorders[c] != x
    ensures x !in BinaryPropagated(s, x, t).toDelete
  {
    hide Inv;
    var pended := Pend(s, Output(x, 0), t);
    PendingNotOriginal(pb, pended, tr, done, done + {x}, x);
    MarkPending(pb, pended, tr, done, done + {x}, s.g[x].inputs[0]);
    MarkPending(pb, Mark(pended, s.reorders[s.g[x].inputs[0]]), tr, done, done + {x}, s.g[x].inputs[1]);
  }

  /** Broadcasting vectors gives the shape of one of them. */
  lemma SmallBroadcast(s: Shape, t: Shape)
    requires |s| <= 1 && |t| <= 1
    ensures BroadcastShape(s, t) == s || BroadcastShape(s, t) == t
  {
    var b := BroadcastShape(s, t);
    if |s| == 1 && (|t| == 0 || s[0] != 1) {
      assert b == s;
    } else {
      assert b == t;
    }
  }

  /** The transpose that sink_binary takes of two alike ones: by comparing cached shapes. */
  function PickedOf(s: State, x: int): int
    requires x in s.g && |s.g[x].inputs| == 2 && |s.g[x].shapes| == 1
    requires s.g[x].inputs[0] in s.reorders && s.g[x].inputs[1] in s.reorders
  {
    if ShapeOf(s, s.g[x].inputs[0]) == s.g[x].shapes[0] then s.reorders[s.g[x].inputs[0]]
    else s.reorders[s.g[x].inputs[1]]
  }

  lemma BinaryBeforeShape(pb: Problem, x: int)
    requires pb.WellFormed() && x in pb.g && pb.g[x].op.Binary?
    ensures |pb.g[x].inputs| == 2 && |pb.g[x].shapes| == 1
    ensures pb.before(Output(x, 0)).shape == pb.g[x].shapes[0]
         == BroadcastShape(pb.before(pb.g[x].inputs[0]).shape, pb.before(pb.g[x].inputs[1]).shape)
  {
    BeforeBinary(pb, x);
    BeforeEval(pb, x);
    hide Zip, Problem.WellFormed, Eval, BroadcastShape;
  }

  lemma PickedSteady(left: Found, right: Found, l: Shape, r: Shape)
    requires Steady(left, l) && Steady(right, r) && |BroadcastShape(l, r)| <= 1
    ensures Picked(left, right, BroadcastShape(l, r)).pending == BroadcastShape(l, r)
  {
    SmallBroadcast(l, r);
  }

  /** What was foretold of a binary operation. */
  lemma BinaryForeseen(pb: Problem, x: int)
    requires x in pb.g && ForeseenAt(pb.g, pb.found, x) && pb.g[x].op.Binary?
    requires |pb.g[x].inputs| == 2 && |pb.g[x].shapes| == 1
    ensures var shape := pb.g[x].shapes[0];
            var source := BinarySource(pb.found(pb.g[x].inputs[0]), pb.found(pb.g[x].inputs[1]), shape);
            pb.found(Output(x, 0)) == Found(source.order, shape, source.pending)
  {
    hide BinarySource;
  }

  lemma PropagatedFound(s: State, x: int)
    requires x in s.g && |s.g[x].inputs| == 2 && |s.g[x].shapes| == 1
    requires s.HasOrder(s.g[x].inputs[0]) && s.HasOrder(s.g[x].inputs[1])
    ensures var picked := Picked(FoundOf(s, s.g[x].inputs[0]), FoundOf(s, s.g[x].inputs[1]), s.g[x].shapes[0]);
            FoundOf(BinaryPropagated(s, x, PickedOf(s, x)), Output(x, 0))
              == Found(picked.order, s.g[x].shapes[0], picked.pending)
  {
  }

  lemma TwoFounds(s: State, found: Output -> Found, inputs: seq<Output>, originals: seq<Output>)
    requires |inputs| == |originals| == 2 && FoundsAt(s, inputs) == Founds(found, originals)
    ensures FoundOf(s, inputs[0]) == found(originals[0]) && FoundOf(s, inputs[1]) == found(originals[1])
  {
    hide FoundOf;
    assert FoundsAt(s, inputs)[0] == Founds(found, originals)[0];
    assert FoundsAt(s, inputs)[1] == Founds(found, originals)[1];
  }

  lemma PropagateNoted(pb: Problem, s: State, tr: Trace, done: set<int>, x: int)
    requires Ready(pb, s, tr, done, x) && pb.g[x].op.Binary? && x in s.g && |s.g[x].inputs| == 2
    requires |s.g[x].shapes| == 1 && s.HasOrder(s.g[x].inputs[0]) && s.HasOrder(s.g[x].inputs[1])
    requires Alike(s.OrderOf(s.g[x].inputs[0]), s.OrderOf(s.g[x].inputs[1]))
    ensures Noted(pb, BinaryPropagated(s, x, PickedOf(s, x)), x, Output(x, 0))
  {
    hide Ready, Inv, Problem.WellFormed, Alike, Steady, BroadcastShape, ForeseenAt, BinaryPropagated, PickedOf;
    ReadyFacts(pb, s, tr, done, x);
    ReadyFounds(pb, s, tr, done, x);
    BinaryBeforeShape(pb, x);
    TwoFounds(s, pb.found, s.g[x].inputs, pb.g[x].inputs);
    BinaryForeseen(pb, x);
    PropagatedFound(s, x);
    PropagateSteady(pb.found(Output(x, 0)), pb.found(pb.g[x].inputs[0]), pb.found(pb.g[x].inputs[1]),
      pb.before(pb.g[x].inputs[0]).shape, pb.before(pb.g[x].inputs[1]).shape);
  }

  lemma PropagateSteady(f: Found, left: Found, right: Found, l: Shape, r: Shape)
    requires f.shape == BroadcastShape(l, r) && f.pending == Picked(left, right, f.shape).pending
    requires Steady(left, l) && Steady(right, r)
    ensures Steady(f, BroadcastShape(l, r))
  {
    if |BroadcastShape(l, r)| <= 1 {
      PickedSteady(left, right, l, r);
    }
  }

  lemma BinaryPropagateStep(pb: Problem, s: State, tr: Trace, done: set<int>, x: int, t: int) returns (tr': Trace)
    requires Ready(pb, s, tr, done, x) && pb.g[x].op.Binary?
    requires |s.g[x].inputs| == 2 && s.g[x].inputs[0] in s.reorders && s.g[x].inputs[1] in s.reorders
    requires |pb.g[x].shapes| == 1 && |s.g[x].shapes| == 1 && t == PickedOf(s, x)
    requires t in s.g && s.g[t].op.Transpose? && |s.g[t].op.order| == |pb.g[x].shapes[0]|
    requires Alike(s.OrderOf(s.g[x].inputs[0]), s.OrderOf(s.g[x].inputs[1]))
    ensures Inv(pb, BinaryPropagated(s, x, t), tr', done + {x}, done + {x})
  {
    BeforeBinary(pb, x);
    InputAt(pb, s, tr, done, x, 0);
    InputAt(pb, s, tr, done, x, 1);
    OwnOutputFree(pb, s, tr, done, done + {x}, x);
    FoundUsable(pb, s, tr, x, 0);
    FoundUsable(pb, s, tr, x, 1);
    PropagateNoted(pb, s, tr, done, x);
    hide Permute, Zip, Inv, IsPermutation, ReadyToSettle, Explains, Noted;
    var l, r := s.g[x].inputs[0], s.g[x].inputs[1];
    var p, q := s.OrderOf(l), s.OrderOf(r);
    var f := pb.env.binary(pb.g[x].op.name);
    var value := Zip(f, tr.now[l], tr.now[r]);
    ZipMovesOut(f, tr.now[l], tr.now[r], p, q, s.g[t].op.order);
    PendNew(pb, s, tr, done, done + {x}, Output(x, 0), t);
    BinaryMarks(pb, s, tr, done, x, t);
    BinarySettles(pb.env, BinaryPropagated(s, x, t), tr, x);
    ExplainedBy(pb, BinaryPropagated(s, x, t), x, x, t, s.g[t].op.order, value);
    tr' := StayInPlace(pb, BinaryPropagated(s, x, t), tr, done, x, value);
  }

  /** The node that makes `left` match order q: a reshape if it has fewer axes, a transpose otherwise. */
  function Matching(s: State, left: Output, q: Order): Node {
    if RankOf(s, left) < |q| then Node(Reshape(Target(ShapeOf(s, left), q)), [left], [Target(ShapeOf(s, left), q)])
    else TransposeNode(s, left, Inverse(q))
  }

  /** The shape an input of the given cached shape is reshaped to, in front of an argument of order q. */
  function Target(shape: Shape, q: Order): Shape {
    Reordered(Extend(shape, |q|), Inverse(q))
  }

  /** Output c may be made to match order q: by a transpose, or by a reshape that does what one would do. */
  ghost predicate MatchableAt(s: State, tr: Trace, c: Output, q: Order) {
    && c in tr.now && tr.now[c].WellFormed() && RankOf(s, c) == |tr.now[c].shape|
    && (RankOf(s, c) == |q| || (RankOf(s, c) < |q| && ShapeOf(s, c) == tr.now[c].shape
        && R.MovesInOrder(tr.now[c].shape, q)))
  }

  lemma MatchableRank(s: State, tr: Trace, c: Output, q: Order)
    requires MatchableAt(s, tr, c, q)
    ensures c in tr.now && tr.now[c].WellFormed() && |tr.now[c].shape| <= |q|
  {
  }

  /** A new node becomes input j of the node x being processed. */
  function Inserted(s: State, x: int, j: nat, n: Node): State
    requires x in s.g && x != s.nextId && j < |s.g[x].inputs|
  {
    SetInput(AddNode(s, n), x, j, Output(s.nextId, 0))
  }

  /** Input j is made to match the output `right`, whose pending transpose moves to the output of x. */
  function BinaryConverted(s: State, x: int, j: nat, right: Output): State
    requires x in s.g && x != s.nextId && j < |s.g[x].inputs| && right in s.reorders
  {
    var t := s.reorders[right];
    Pend(Mark(Inserted(s, x, j, Matching(s, s.g[x].inputs[j], s.OrderOf(right))), t), Output(x, 0), t)
  }

  lemma TransposeFits(env: Semantics, s: State, tr: Trace, c: Output, p: Order)
    requires c in tr.now && IsPermutation(p) && |p| == |tr.now[c].shape|
    ensures NewNodeFits(env, tr, TransposeNode(s, c, p), false, Permute(tr.now[c], p))
  {
    hide Permute, IsPermutation;
  }

  lemma ReshapeFits(env: Semantics, tr: Trace, c: Output, t: Shape)
    requires c in tr.now
    ensures NewNodeFits(env, tr, Node(Reshape(t), [c], [t]), false, R.Reshaped(tr.now[c], t))
  {
    hide R.Reshaped;
  }

  /**
   The inserted node computes the matched argument: a transpose always, a reshape if the long axes keep their
   order.
   */
  lemma MatchingFits(env: Semantics, s: State, tr: Trace, c: Output, q: Order)
    requires MatchableAt(s, tr, c, q)
    requires IsPermutation(Inverse(q)) && InRange(Inverse(q))
    ensures NewNodeFits(env, tr, Matching(s, c, q), false, Matched(tr.now[c], q))
  {
    hide Permute, IsPermutation, R.Widened, R.Reshaped, Inverse, NewNodeFits, TransposeNode, R.KeepsOrder;
    if RankOf(s, c) < |q| {
      R.InOrderReshaped(tr.now[c], q);
      ReshapeFits(env, tr, c, Target(ShapeOf(s, c), q));
    } else {
      R.WidenedSame(tr.now[c]);
      TransposeFits(env, s, tr, c, Inverse(q));
    }
  }

  /** A transpose of c becomes input j of the node x being processed. */
  function Materialized(s: State, x: int, j: nat, c: Output, p: Order): State
    requires x in s.g && x != s.nextId && j < |s.g[x].inputs|
  {
    Inserted(s, x, j, TransposeNode(s, c, p))
  }

  /** What is known after a new node of the given value has become an input. */
  ghost predicate Grown(s: State, tr: Trace, tr': Trace, value: Tensor) {
    && tr'.cur == tr.cur && (forall y :: y in tr'.level <==> y in tr.level || y == s.nextId)
    && Output(s.nextId, 0) in tr'.now && tr'.now[Output(s.nextId, 0)] == value
    && forall o :: o in tr.now && o.node != s.nextId ==> o in tr'.now && tr'.now[o] == tr.now[o]
  }

  lemma InsertKeeps(pb: Problem, s: State, tr: Trace, done: set<int>, begun: set<int>, x: int, j: nat, n: Node,
                    value: Tensor) returns (tr': Trace)
    requires Inv(pb, s, tr, done, begun) && x in begun && x in pb.g && x !in tr.level && x in s.g
    requires x != s.nextId && j < |s.g[x].inputs| && NewNodeFits(pb.env, tr, n, false, value)
    ensures Inv(pb, Inserted(s, x, j, n), tr', done, begun) && Grown(s, tr, tr', value)
  {
    hide Inv, Settle, NewNodeFits;
    AddSettled(pb, s, tr, done, begun, n, false, value);
    tr' := Settle(tr, s.nextId, [value]);
    SettleAt(tr, s.nextId, [value]);
    SettleLevel(tr, s.nextId, [value]);
    SetInputKeeps(pb, AddNode(s, n), tr', done, begun, x, j, Output(s.nextId, 0));
  }

  lemma MaterializeKeeps(pb: Problem, s: State, tr: Trace, done: set<int>, begun: set<int>, x: int, j: nat, c: Output,
                         p: Order)
    returns (tr': Trace)
    requires Inv(pb, s, tr, done, begun) && x in begun && x in pb.g && x !in tr.level && x in s.g && x != s.nextId
    requires j < |s.g[x].inputs|
    requires c in tr.now && IsPermutation(p) && |p| == |tr.now[c].shape|
    ensures Inv(pb, Materialized(s, x, j, c, p), tr', done, begun)
    ensures tr'.cur == tr.cur && forall y :: y in tr'.level <==> y in tr.level || y == s.nextId
    ensures Output(s.nextId, 0) in tr'.now && tr'.now[Output(s.nextId, 0)] == Permute(tr.now[c], p)
    ensures forall o :: o in tr.now && o.node != s.nextId ==> o in tr'.now && tr'.now[o] == tr.now[o]
  {
    hide Inv, NewNodeFits, Permute, IsPermutation, Inserted;
    TransposeFits(pb.env, s, tr, c, p);
    tr' := InsertKeeps(pb, s, tr, done, begun, x, j, TransposeNode(s, c, p), Permute(tr.now[c], p));
  }

  /** What is left to do after the new node has become an input. */
  lemma ConvertedPends(pb: Problem, s: State, tr: Trace, done: set<int>, x: int, right: Output)
    requires Inv(pb, s, tr, done, done + {x}) && x in pb.g && x in s.g && right in s.reorders && right.node != x
    requires PendingUsable(pb, s, tr, s.reorders[right]) && forall o :: o in tr.cur ==> tr.cur[o].node != x
    ensures var s' := Pend(Mark(s, s.reorders[right]), Output(x, 0), s.reorders[right]);
            Inv(pb, s', tr, done, done + {x}) && forall c :: c in s'.reorders ==> s'.reorders[c] != x
  {
    hide Inv;
    var t := s.reorders[right];
    MarkPending(pb, s, tr, done, done + {x}, right);
    PendNew(pb, Mark(s, t), tr, done, done + {x}, Output(x, 0), t);
    PendingNotOriginal(pb, Pend(Mark(s, t), Output(x, 0), t), tr, done, done + {x}, x);
  }

  lemma ConvertedKeeps(pb: Problem, s: State, tr: Trace, done: set<int>, x: int, j: nat, left: Output, right: Output)
    returns (tr': Trace)
    requires Inv(pb, s, tr, done, done + {x}) && x in pb.g && x in s.g && x !in tr.level
    requires j < |s.g[x].inputs| && left == s.g[x].inputs[j] && left in tr.now
    requires right in tr.now && right in s.reorders && right.node != x && right.node != s.nextId
    requires PendingUsable(pb, s, tr, s.reorders[right]) && s.reorders[right] != s.nextId
    requires IsPermutation(s.OrderOf(right)) && MatchableAt(s, tr, left, s.OrderOf(right))
    requires x != s.nextId && forall o :: o in tr.cur ==> tr.cur[o].node != x
    ensures Inv(pb, BinaryConverted(s, x, j, right), tr', done, done + {x}) && x !in tr'.level
    ensures forall c :: c in BinaryConverted(s, x, j, right).reorders ==>
              BinaryConverted(s, x, j, right).reorders[c] != x
    ensures right in tr'.now && tr'.now[right] == tr.now[right]
    ensures IsPermutation(Inverse(s.OrderOf(right))) && Output(s.nextId, 0) in tr'.now
    ensures tr'.now[Output(s.nextId, 0)] == Matched(tr.now[left], s.OrderOf(right))
  {
    var q := s.OrderOf(right);
    InverseIsPermutation(q);
    MatchableRank(s, tr, left, q);
    hide Matched, Inv, IsPermutation, NewNodeFits, Matching, RankOf, Inverse, MatchableAt;
    MatchingFits(pb.env, s, tr, left, q);
    tr' := InsertKeeps(pb, s, tr, done, done + {x}, x, j, Matching(s, left, q), Matched(tr.now[left], q));
    ConvertedPends(pb, Inserted(s, x, j, Matching(s, left, q)), tr', done, x, right);
  }

  /** What x computes when input j is `left` and the other is `right`. */
  ghost function ConvertedValue(f: (Element, Element) -> Element, j: nat, left: Tensor, right: Tensor): (r: Tensor)
    ensures r.WellFormed() && |r.shape| == Max(|left.shape|, |right.shape|)
  {
    if j == 0 then Zip(f, left, right) else Zip(f, right, left)
  }

  /** Order q explains what x computes after `left` has been made to match `right`. */
  ghost predicate ConversionFits(pb: Problem, x: int, j: nat, left: Tensor, right: Tensor, q: Order) {
    && x in pb.g && pb.g[x].op.Binary? && |pb.g[x].shapes| == 1
    && IsPermutation(q) && IsPermutation(Inverse(q)) && left.WellFormed()
    && |left.shape| <= |q| == |pb.g[x].shapes[0]| == |right.shape|
    && pb.before(Output(x, 0)) == Permute(ConvertedValue(pb.env.binary(pb.g[x].op.name), j, Matched(left, q), right), q)
  }

  /** Input j of x, in default order of rank l, may be made to match order q, as can be told before the pass. */
  ghost predicate Harmless(pb: Problem, x: int, j: nat, l: nat, q: Order)
    requires x in pb.g && j < |pb.g[x].inputs|
  {
    var o := pb.g[x].inputs[j];
    l == |q| || (l < |q| && (l <= 1 || Reshapes(pb.found(o), pb.before(o).shape, q)))
  }

  lemma FoundShape(pb: Problem, s: State, tr: Trace, x: int, j: int)
    requires InputFound(pb, s, tr, x, j)
    ensures ShapeOf(s, s.g[x].inputs[j]) == pb.found(pb.g[x].inputs[j]).shape
    ensures Steady(pb.found(pb.g[x].inputs[j]), pb.before(pb.g[x].inputs[j]).shape)
    ensures RankOf(s, s.g[x].inputs[j]) == |s.OrderOf(s.g[x].inputs[j])|
  {
    hide Permute, IsPermutation;
  }

  lemma FoundMatchable(pb: Problem, s: State, tr: Trace, x: int, j: nat, left: Output, l: nat, q: Order)
    requires InputFound(pb, s, tr, x, j) && left == s.g[x].inputs[j] && s.OrderOf(left) == Default(l)
    requires Harmless(pb, x, j, l, q) && IsPermutation(Inverse(q)) && InRange(Inverse(q))
    ensures MatchableAt(s, tr, left, q) && |tr.now[left].shape| == l
  {
    hide InputFound, Permute, IsPermutation, Inverse, Default, R.MovesInOrder;
    FoundValue(pb, s, tr, x, j, left, Default(l));
    FoundShape(pb, s, tr, x, j);
    PermuteDefault(tr.now[left], l);
    if l <= 1 && l < |q| {
      R.VectorInOrder(tr.now[left].shape, q);
    }
  }

  lemma ConvertedBefore(pb: Problem, s: State, tr: Trace, x: int, j: nat, left: Output, right: Output, l: nat, q: Order)
    requires pb.WellFormed() && x in pb.g && pb.g[x].op.Binary? && j < 2 && |pb.g[x].inputs| == 2
    requires InputFound(pb, s, tr, x, j) && InputFound(pb, s, tr, x, 1 - j) && left == s.g[x].inputs[j]
    requires right == s.g[x].inputs[1 - j] && s.OrderOf(left) == Default(l) && s.OrderOf(right) == q
    requires Harmless(pb, x, j, l, q)
    ensures left in tr.now && right in tr.now && MatchableAt(s, tr, left, q)
    ensures ConversionFits(pb, x, j, tr.now[left], tr.now[right], q)
  {
    hide InputFound, Permute, Zip, IsPermutation, Inverse, Problem.WellFormed, Default, Matched, RankOf, MatchableAt,
         Reshapes;
    FoundValue(pb, s, tr, x, j, left, Default(l));
    FoundValue(pb, s, tr, x, 1 - j, right, q);
    BeforeBinary(pb, x);
    PermuteDefault(tr.now[left], l);
    ZipConverts(pb.env.binary(pb.g[x].op.name), tr.now[left], tr.now[right], q);
    FoundMatchable(pb, s, tr, x, j, left, l, q);
  }

  lemma ConvertedSettles(env: Semantics, s: State, tr: Trace, x: int, j: nat, right: Output)
    requires x in s.g && s.g[x].op.Binary? && |s.g[x].inputs| == 2 && |s.g[x].shapes| == 1 && x != s.nextId
    requires j < 2 && right == s.g[x].inputs[1 - j] && right in s.reorders && s.reorders[right] != x
    requires x !in tr.level && x !in s.toDelete && Output(s.nextId, 0) in tr.now && right in tr.now
    ensures ReadyToSettle(env, BinaryConverted(s, x, j, right), tr, x,
                          [ConvertedValue(env.binary(s.g[x].op.name), j, tr.now[Output(s.nextId, 0)], tr.now[right])])
  {
    hide Zip, ReadyToSettle;
    BinarySettles(env, BinaryConverted(s, x, j, right), tr, x);
  }

  lemma ConvertedExplains(pb: Problem, s: State, x: int, j: nat, right: Output, q: Order, left: Tensor, other: Tensor,
                          value: Tensor)
    requires x in s.g && x != s.nextId && j < |s.g[x].inputs| && s.HasOrder(right)
    requires s.reorders[right] != x && s.reorders[right] != s.nextId && s.OrderOf(right) == q
    requires ConversionFits(pb, x, j, left, other, q)
    requires value == ConvertedValue(pb.env.binary(pb.g[x].op.name), j, Matched(left, q), other)
    ensures Explains(pb, BinaryConverted(s, x, j, right), x, Output(x, 0), value)
  {
    hide Permute, IsPermutation, ConvertedValue, Inverse, Matched;
  }

  lemma ConvertedNode(s: State, x: int, j: nat, right: Output)
    requires x in s.g && x != s.nextId && j < |s.g[x].inputs| && right in s.reorders
    ensures x in BinaryConverted(s, x, j, right).g && BinaryConverted(s, x, j, right).g[x].shapes == s.g[x].shapes
  {
    hide Matching;
  }

  /** What has to be known before input j of x is converted. */
  ghost predicate Convertible(pb: Problem, s: State, tr: Trace, x: int, j: nat, left: Output, right: Output, q: Order) {
    && x in s.g && x !in tr.level && x !in s.toDelete && x != s.nextId && |s.g[x].inputs| == 2 && j < 2
    && x in pb.g && s.g[x].op == pb.g[x].op && s.g[x].shapes == pb.g[x].shapes
    && left == s.g[x].inputs[j] && right == s.g[x].inputs[1 - j] && left in tr.now && right in tr.now
    && s.HasOrder(right) && s.OrderOf(right) == q && PendingUsable(pb, s, tr, s.reorders[right])
    && s.reorders[right] != x && s.reorders[right] != s.nextId && right.node != x && right.node != s.nextId
    && MatchableAt(s, tr, left, q)
    && ConversionFits(pb, x, j, tr.now[left], tr.now[right], q)
  }

  /** An output that is settled, with a pending transpose that may be used again. */
  ghost predicate Usable(pb: Problem, s: State, tr: Trace, c: Output) {
    c in tr.now && s.HasOrder(c) && PendingUsable(pb, s, tr, s.reorders[c])
  }

  lemma FoundUsable(pb: Problem, s: State, tr: Trace, x: int, j: int)
    requires InputFound(pb, s, tr, x, j)
    ensures Usable(pb, s, tr, s.g[x].inputs[j])
  {
    hide Permute, IsPermutation;
  }

  lemma UsableElsewhere(pb: Problem, s: State, tr: Trace, done: set<int>, begun: set<int>, x: int, c: Output)
    requires Inv(pb, s, tr, done, begun) && Usable(pb, s, tr, c) && x !in tr.level && x in pb.g
    ensures c.node != x && c.node != s.nextId && s.reorders[c] != x && s.reorders[c] != s.nextId
  {
    NewIdUnused(pb, s, tr, done, begun);
    OwnOutputFree(pb, s, tr, done, begun, x);
    NowOnlySettled(pb, s, tr, done, begun);
    hide Inv;
  }

  lemma NowOnlySettled(pb: Problem, s: State, tr: Trace, done: set<int>, begun: set<int>)
    requires Inv(pb, s, tr, done, begun)
    ensures forall c :: c in tr.now ==> c.node in tr.level
  {
  }

  lemma ReadyConvertible(pb: Problem, s: State, tr: Trace, done: set<int>, x: int, j: nat, left: Output, right: Output,
                         l: nat, q: Order)
    requires Ready(pb, s, tr, done, x) && pb.g[x].op.Binary? && j < 2 && |s.g[x].inputs| == 2 && x != s.nextId
    requires left == s.g[x].inputs[j] && right == s.g[x].inputs[1 - j] && s.OrderOf(right) == q
    requires s.OrderOf(left) == Default(l) && |pb.g[x].inputs| == 2 && Harmless(pb, x, j, l, q)
    ensures Convertible(pb, s, tr, x, j, left, right, q)
  {
    hide Ready, Inv, Problem.WellFormed, Default, ConversionFits, InputFound, Usable, PendingUsable, MatchableAt,
        Harmless;
    ReadyFacts(pb, s, tr, done, x);
    InputAt(pb, s, tr, done, x, j);
    InputAt(pb, s, tr, done, x, 1 - j);
    FoundUsable(pb, s, tr, x, j);
    FoundUsable(pb, s, tr, x, 1 - j);
    UsableMeans(pb, s, tr, right);
    UsableElsewhere(pb, s, tr, done, done + {x}, x, right);
    hide RankOf;
    ConvertedBefore(pb, s, tr, x, j, left, right, l, q);
  }

  lemma UsableMeans(pb: Problem, s: State, tr: Trace, c: Output)
    requires Usable(pb, s, tr, c)
    ensures c in tr.now && s.HasOrder(c) && c in s.reorders && PendingUsable(pb, s, tr, s.reorders[c])
  {
  }

  lemma ConvertedDone(pb: Problem, s: State, tr: Trace, tr1: Trace, done: set<int>, x: int, j: nat, left: Output,
                      right: Output, q: Order)
    returns (tr': Trace)
    requires Convertible(pb, s, tr, x, j, left, right, q) && x !in done && x !in tr1.level
    requires Inv(pb, BinaryConverted(s, x, j, right), tr1, done, done + {x})
    requires forall c :: c in BinaryConverted(s, x, j, right).reorders ==>
               BinaryConverted(s, x, j, right).reorders[c] != x
    requires right in tr1.now && tr1.now[right] == tr.now[right]
    requires Output(s.nextId, 0) in tr1.now && |tr.now[left].shape| <= |q| && IsPermutation(Inverse(q))
    requires tr1.now[Output(s.nextId, 0)] == Matched(tr.now[left], q)
    requires Noted(pb, BinaryConverted(s, x, j, right), x, Output(x, 0))
    ensures Inv(pb, BinaryConverted(s, x, j, right), tr', done + {x}, done + {x})
  {
    hide Permute, Inv, IsPermutation, ReadyToSettle, Explains, BinaryConverted, ConvertedValue, Inverse, ConversionFits,
         Matched, Noted;
    ConversionMeans(pb, x, j, tr.now[left], tr.now[right], q);
    var value := ConvertedValue(pb.env.binary(pb.g[x].op.name), j, tr1.now[Output(s.nextId, 0)], tr1.now[right]);
    ConvertedSettles(pb.env, s, tr1, x, j, right);
    ConvertedExplains(pb, s, x, j, right, q, tr.now[left], tr.now[right], value);
    ConvertedNode(s, x, j, right);
    tr' := StayInPlace(pb, BinaryConverted(s, x, j, right), tr1, done, x, value);
  }

  lemma ConversionMeans(pb: Problem, x: int, j: nat, left: Tensor, right: Tensor, q: Order)
    requires ConversionFits(pb, x, j, left, right, q)
    ensures pb.g[x].op.Binary? && |pb.g[x].shapes| == 1 && IsPermutation(q) && |left.shape| <= |q| && left.WellFormed()
    ensures |q| == |pb.g[x].shapes[0]|
  {
    hide Permute, IsPermutation;
  }

  lemma ConvertedFound(s: State, x: int, j: nat, right: Output)
    requires x in s.g && x != s.nextId && j < |s.g[x].inputs| && s.HasOrder(right) && |s.g[x].shapes| == 1
    requires s.reorders[right] != s.nextId
    ensures FoundOf(BinaryConverted(s, x, j, right), Output(x, 0))
         == Found(s.OrderOf(right), s.g[x].shapes[0], PendingShape(s, right))
  {
    hide Matching;
  }

  /** The input that is not in default order is the source of the result's pending transpose. */
  lemma ConvertSource(left: Found, right: Found, shape: Shape)
    requires IsDefault(left.order) != IsDefault(right.order)
    ensures BinarySource(left, right, shape) == if IsDefault(left.order) then right else left
  {
  }

  lemma MovingIsLarge(q: Order)
    requires IsPermutation(q) && !IsDefault(q)
    ensures |q| > 1
  {
    if |q| <= 1 {
      SmallOrder(q, q);
    }
  }

  lemma DefaultIs(p: Order, l: nat)
    requires p == Default(l)
    ensures IsDefault(p) && |p| == l
  {
  }

  lemma ConvertNoted(pb: Problem, s: State, tr: Trace, done: set<int>, x: int, j: nat, left: Output, right: Output,
                     l: nat, q: Order)
    requires Ready(pb, s, tr, done, x) && pb.g[x].op.Binary? && j < 2 && x in s.g && |s.g[x].inputs| == 2
    requires x != s.nextId && left == s.g[x].inputs[j] && right == s.g[x].inputs[1 - j] && right in s.reorders
    requires s.OrderOf(left) == Default(l) && s.OrderOf(right) == q && !IsDefault(q) && s.HasOrder(right)
    requires s.reorders[right] != s.nextId && |pb.g[x].shapes| == 1 && |q| == |pb.g[x].shapes[0]| && IsPermutation(q)
    ensures Noted(pb, BinaryConverted(s, x, j, right), x, Output(x, 0))
  {
    hide Ready, Inv, Problem.WellFormed, Steady, BroadcastShape, IsPermutation, Default, ForeseenAt, BinaryConverted,
         BinarySource, IsDefault, Waiting;
    ReadyFacts(pb, s, tr, done, x);
    ReadyFounds(pb, s, tr, done, x);
    MovingIsLarge(q);
    DefaultIs(s.OrderOf(left), l);
    BinaryBeforeShape(pb, x);
    TwoFounds(s, pb.found, s.g[x].inputs, pb.g[x].inputs);
    BinaryForeseen(pb, x);
    ConvertedFound(s, x, j, right);
    ConvertSource(pb.found(pb.g[x].inputs[0]), pb.found(pb.g[x].inputs[1]), pb.g[x].shapes[0]);
    LargeSteady(pb.found(Output(x, 0)), pb.before(Output(x, 0)).shape);
  }

  lemma LargeSteady(f: Found, shape: Shape)
    ensures |shape| > 1 ==> Steady(f, shape)
  {
  }

  /** Converting the input in default order, of rank l, for an argument of order q. */
  lemma BinaryConvertStep(pb: Problem, s: State, tr: Trace, done: set<int>, x: int, j: nat, left: Output, right: Output,
                          l: nat, q: Order) returns (tr': Trace)
    requires Ready(pb, s, tr, done, x) && pb.g[x].op.Binary? && j < 2 && |s.g[x].inputs| == 2 && x != s.nextId
    requires left == s.g[x].inputs[j] && right == s.g[x].inputs[1 - j] && right in s.reorders && s.OrderOf(right) == q
    requires s.OrderOf(left) == Default(l) && |pb.g[x].inputs| == 2 && Harmless(pb, x, j, l, q) && !IsDefault(q)
    ensures Inv(pb, BinaryConverted(s, x, j, right), tr', done + {x}, done + {x})
  {
    hide Permute, Inv, IsPermutation, Problem.WellFormed, BinaryConverted, ConversionFits, Default, Inverse, Waiting,
         RankOf, Matched, Noted, Harmless, MatchableAt;
    ReadyConvertible(pb, s, tr, done, x, j, left, right, l, q);
    OwnOutputFree(pb, s, tr, done, done + {x}, x);
    ConversionMeans(pb, x, j, tr.now[left], tr.now[right], q);
    ConvertNoted(pb, s, tr, done, x, j, left, right, l, q);
    var tr1 := ConvertedKeeps(pb, s, tr, done, x, j, left, right);
    tr' := ConvertedDone(pb, s, tr, tr1, done, x, j, left, right, q);
  }

  // ---------- replacing a node by a new one ----------

  /** A new node n takes the place of x, with a new transpose of order p pending for its output. */
  function Replaced(s: State, x: int, n: Node, p: Order): State {
    var y := s.nextId;
    var rewired := Rewired(AddNode(s, n), x, y);
    Pend(AddNode(rewired, TransposeNode(AddNode(s, n), Output(y, 0), p)), Output(y, 0), y + 1)
  }

  /** The same, with the pending transpose in place before the rewiring. */
  function PendedFirst(s: State, n: Node, p: Order): State {
    var y := s.nextId;
    Pend(AddNode(AddNode(s, n), TransposeNode(AddNode(s, n), Output(y, 0), p)), Output(y, 0), y + 1)
  }

  lemma RewireCommutes(s: State, x: int, n: Node, p: Order)
    requires x != s.nextId
    ensures Rewired(PendedFirst(s, n, p), x, s.nextId) == Replaced(s, x, n, p)
  {
    var y := s.nextId;
    var a, b := Rewired(PendedFirst(s, n, p), x, y), Replaced(s, x, n, p);
    assert RedirectAll([Output(y, 0)], x, y) == [Output(y, 0)];
    assert a.g == b.g;
  }

  /** The new node computes the value that order p turns into the original one. */
  ghost predicate ReplacementFits(pb: Problem, tr: Trace, x: int, n: Node, p: Order) {
    && x in pb.g && |pb.g[x].shapes| == 1 && |n.shapes| == 1 && |n.shapes[0]| == |pb.g[x].shapes[0]|
    && AllKnown(tr.now, n.inputs)
    && var value := Eval(pb.env, n.op, Args(tr.now, n.inputs), 0);
    && IsPermutation(p) && |p| == |pb.g[x].shapes[0]| == |value.shape| && value.WellFormed()
    && pb.before(Output(x, 0)) == Permute(value, p)
  }

  lemma ReplacementNew(pb: Problem, tr: Trace, x: int, n: Node, p: Order)
    requires ReplacementFits(pb, tr, x, n, p)
    ensures AllKnown(tr.now, n.inputs) && |n.shapes| == 1
    ensures NewNodeFits(pb.env, tr, n, false, Eval(pb.env, n.op, Args(tr.now, n.inputs), 0))
  {
    hide Eval, Permute, IsPermutation;
  }

  lemma ReplacementExplains(pb: Problem, s: State, tr: Trace, x: int, n: Node, p: Order)
    requires ReplacementFits(pb, tr, x, n, p)
    ensures AllKnown(tr.now, n.inputs)
    ensures Explains(pb, PendedFirst(s, n, p), x, Output(s.nextId, 0), Eval(pb.env, n.op, Args(tr.now, n.inputs), 0))
  {
    hide Eval, Permute, IsPermutation;
  }

  lemma PendedFirstKeeps(pb: Problem, s: State, tr: Trace, done: set<int>, begun: set<int>, n: Node, p: Order)
    requires Inv(pb, AddNode(s, n), tr, done, begun) && forall o :: o in tr.cur ==> tr.cur[o].node != s.nextId
    requires s.nextId + 1 !in tr.level && s.nextId + 1 !in pb.g
    ensures Inv(pb, PendedFirst(s, n, p), tr, done, begun)
  {
    hide Inv;
    var y := s.nextId;
    var t := TransposeNode(AddNode(s, n), Output(y, 0), p);
    AddDangling(pb, AddNode(s, n), tr, done, begun, t);
    PendNew(pb, AddNode(AddNode(s, n), t), tr, done, begun, Output(y, 0), y + 1);
  }

  /** What is held against a node that has taken the place of another. */
  lemma RenewedFound(s: State, n: Node, p: Order)
    requires |n.shapes| == 1
    ensures FoundOf(PendedFirst(s, n, p), Output(s.nextId, 0)) == Renewed(n.shapes[0], p)
  {
  }

  lemma ReplaceStep(pb: Problem, s: State, tr: Trace, done: set<int>, x: int, n: Node, p: Order) returns (tr': Trace)
    requires pb.WellFormed() && Inv(pb, s, tr, done, done + {x}) && x in pb.g && x !in done && x !in tr.level
    requires !pb.g[x].op.Opaque?
    requires ReplacementFits(pb, tr, x, n, p) && Noted(pb, PendedFirst(s, n, p), x, Output(s.nextId, 0))
    ensures Inv(pb, Replaced(s, x, n, p), tr', done + {x}, done + {x})
  {
    NewIdUnused(pb, s, tr, done, done + {x});
    hide Inv, Eval, Permute, IsPermutation, Explains, NewNodeFits, Settle, Rewired, Problem.WellFormed, ReplacementFits,
         Noted;
    ReplacementNew(pb, tr, x, n, p);
    ReplacementExplains(pb, s, tr, x, n, p);
    var y, value := s.nextId, Eval(pb.env, n.op, Args(tr.now, n.inputs), 0);
    AddSettled(pb, s, tr, done, done + {x}, n, false, value);
    var settled := Settle(tr, y, [value]);
    SettleAt(tr, y, [value]);
    SettleLevel(tr, y, [value]);
    NewIdUnused(pb, AddNode(s, n), settled, done, done + {x});
    PendedFirstKeeps(pb, s, settled, done, done + {x}, n, p);
    RewireCommutes(s, x, n, p);
    RanksFit(pb, tr, x, n, p);
    tr' := TakePlace(pb, PendedFirst(s, n, p), settled, done, x, y);
  }

  lemma FitsRank(pb: Problem, tr: Trace, x: int, n: Node, p: Order)
    requires ReplacementFits(pb, tr, x, n, p)
    ensures |pb.g[x].shapes| == 1 && |p| == |pb.g[x].shapes[0]| && IsPermutation(p)
  {
    hide Eval, Permute, IsPermutation;
  }

  lemma RanksFit(pb: Problem, tr: Trace, x: int, n: Node, p: Order)
    requires ReplacementFits(pb, tr, x, n, p)
    ensures |pb.g[x].shapes| == 1 && |n.shapes| == 1 && |n.shapes[0]| == |pb.g[x].shapes[0]|
  {
    hide Eval, Permute, IsPermutation;
  }

  // ---------- padding ----------

  /** The pad whose amounts are moved back by p; it reads the first output of c's node, whatever the slot of c. */
  function MovedPad(s: State, n: Node, p: Order): Node
    requires n.op.Pad? && |n.inputs| == 2 && |n.op.begin| == |n.op.end| == |p| && InRange(Inverse(p))
  {
    Node(Pad(Apply(n.op.begin, Inverse(p)), Apply(n.op.end, Inverse(p)), n.op.mode),
        [Output(n.inputs[0].node, 0), n.inputs[1]],
        [PadMoved(n.op.begin, n.op.end, PendingShape(s, n.inputs[0]), p)])
  }

  lemma BeforePad(pb: Problem, x: int)
    requires pb.WellFormed() && x in pb.g && pb.g[x].op.Pad?
    ensures |pb.g[x].inputs| == 2 && |pb.g[x].shapes| == 1 && pb.Has(pb.g[x].inputs[0]) && pb.Has(pb.g[x].inputs[1])
    ensures var n, v := pb.g[x], pb.before(pb.g[x].inputs[0]);
            && |n.op.begin| == |n.op.end| == |v.shape| == |n.shapes[0]| == pb.Rank(n.inputs[0])
                 && pb.Rank(n.inputs[1]) == 0
            && pb.before(Output(x, 0)) == PadTensor(n.op.mode, v, n.op.begin, n.op.end, pb.before(n.inputs[1]).Get([]))
  {
    hide PadTensor;
    assert pb.Typed(x);
    BeforeEval(pb, x);
  }

  lemma FillingSame(pb: Problem, s: State, tr: Trace, x: int)
    requires InputFound(pb, s, tr, x, 1) && pb.Rank(pb.g[x].inputs[1]) == 0
    ensures s.g[x].inputs[1] in tr.now && tr.now[s.g[x].inputs[1]] == pb.before(pb.g[x].inputs[1])
  {
    hide Permute, IsPermutation;
    var c := s.g[x].inputs[1];
    assert s.OrderOf(c) == Default(0);
    PermuteDefault(tr.now[c], 0);
  }

  lemma EvalPad(env: Semantics, begin: seq<int>, end: seq<int>, mode: PadMode, args: seq<Tensor>)
    requires |args| == 2 && |args[0].shape| == |begin| == |end|
    ensures Eval(env, Pad(begin, end, mode), args, 0) == PadTensor(mode, args[0], begin, end, args[1].Get([]))
  {
    hide PadTensor;
  }

  lemma PadMoves(mode: PadMode, v: Tensor, begin: seq<int>, end: seq<int>, filling: Element, p: Order)
    requires v.WellFormed() && IsPermutation(p) && |p| == |v.shape| == |begin| == |end|
    ensures IsPermutation(Inverse(p)) && InRange(Inverse(p))
    ensures var inner := PadTensor(mode, v, Apply(begin, Inverse(p)), Apply(end, Inverse(p)), filling);
            |inner.shape| == |p| && inner.WellFormed()
                && PadTensor(mode, Permute(v, p), begin, end, filling) == Permute(inner, p)
  {
    InverseIsPermutation(p);
    hide PadTensor, Permute;
    PadPermute(mode, v, begin, end, filling, p);
  }

  lemma PadFits(pb: Problem, s: State, tr: Trace, x: int, c: Output, p: Order)
    requires pb.WellFormed() && x in pb.g && pb.g[x].op.Pad? && |pb.g[x].inputs| == 2
    requires InputFound(pb, s, tr, x, 0) && InputFound(pb, s, tr, x, 1)
    requires s.g[x].op == pb.g[x].op && c == s.g[x].inputs[0] && c.slot == 0 && p == s.OrderOf(c)
    ensures |s.g[x].op.begin| == |s.g[x].op.end| == |p| && InRange(Inverse(p))
    ensures ReplacementFits(pb, tr, x, MovedPad(s, s.g[x], p), p)
  {
    hide PadTensor, Permute, IsPermutation, Eval, Apply, Inverse, Problem.WellFormed;
    BeforePad(pb, x);
    FillingSame(pb, s, tr, x);
    var n, v, w := s.g[x], tr.now[c], tr.now[s.g[x].inputs[1]];
    PadMoves(n.op.mode, v, n.op.begin, n.op.end, w.Get([]), p);
    assert Args(tr.now, [c, n.inputs[1]]) == [v, w];
    EvalPad(pb.env, Apply(n.op.begin, Inverse(p)), Apply(n.op.end, Inverse(p)), n.op.mode, [v, w]);
  }

  lemma PadSteady(begin: seq<int>, end: seq<int>, pending: Shape, p: Order)
    requires IsPermutation(p) && |begin| == |end| == |p| == |pending| <= 1
    ensures PadMoved(begin, end, pending, p) == PadShape(pending, begin, end)
  {
    SmallOrder(pending, p);
    InverseIsPermutation(p);
    hide IsPermutation;
    assert |p| == 1 ==> Inverse(p)[0] == 0;
    assert Apply(begin, Inverse(p)) == begin && Apply(end, Inverse(p)) == end;
  }

  lemma PadNoted(pb: Problem, s: State, tr: Trace, done: set<int>, x: int, p: Order)
    requires Ready(pb, s, tr, done, x) && pb.g[x].op.Pad? && x in s.g && |s.g[x].inputs| == 2
    requires p == s.OrderOf(s.g[x].inputs[0]) && IsPermutation(p) && s.g[x].op == pb.g[x].op
    requires |s.g[x].op.begin| == |s.g[x].op.end| == |p| && InRange(Inverse(p))
    ensures Noted(pb, PendedFirst(s, MovedPad(s, s.g[x], p), p), x, Output(s.nextId, 0))
  {
    hide Ready, Inv, Problem.WellFormed, Eval, PadTensor;
    ReadyFounds(pb, s, tr, done, x);
    ReadyFacts(pb, s, tr, done, x);
    BeforePad(pb, x);
    RenewedFound(s, MovedPad(s, s.g[x], p), p);
    var n, ins := pb.g[x], FoundsAt(s, s.g[x].inputs);
    assert ins[0] == pb.found(n.inputs[0]);
    var shape := PadMoved(n.op.begin, n.op.end, ins[0].pending, p);
    assert pb.found(Output(x, 0)) == Renewed(shape, p);
    if |p| <= 1 {
      PadSteady(n.op.begin, n.op.end, ins[0].pending, p);
      SmallOrder(shape, p);
    }
  }

  /** Sinking the pad x whose data input is the first output of its node. */
  lemma PadStep(pb: Problem, s: State, tr: Trace, done: set<int>, x: int, c: Output, p: Order) returns (tr': Trace)
    requires Ready(pb, s, tr, done, x) && pb.g[x].op.Pad? && |s.g[x].inputs| == 2
    requires c == s.g[x].inputs[0] && c.slot == 0 && p == s.OrderOf(c)
    ensures |s.g[x].op.begin| == |s.g[x].op.end| == |p| && InRange(Inverse(p))
    ensures Inv(pb, Replaced(s, x, MovedPad(s, s.g[x], p), p), tr', done + {x}, done + {x})
  {
    hide Inv, InputFound, ReplacementFits, Problem.WellFormed, MovedPad, Replaced, Noted, PendedFirst;
    InputAt(pb, s, tr, done, x, 0);
    InputAt(pb, s, tr, done, x, 1);
    PadFits(pb, s, tr, x, c, p);
    FoundValue(pb, s, tr, x, 0, c, p);
    PadNoted(pb, s, tr, done, x, p);
    tr' := ReplaceStep(pb, s, tr, done, x, MovedPad(s, s.g[x], p), p);
  }

  // ---------- concatenation ----------

  /** The concatenation along the axis moved back by p. */
  function MovedConcat(s: State, n: Node, p: Order): Node
    requires n.op.Concat? && n.op.axis < |p|
  {
    Node(Concat(p[n.op.axis]), n.inputs, [ConcatMoved(Pendings(FoundsAt(s, n.inputs)), p, n.op.axis)])
  }

  lemma BeforeConcat(pb: Problem, x: int)
    requires pb.WellFormed() && x in pb.g && pb.g[x].op.Concat?
    ensures |pb.g[x].inputs| > 0 && |pb.g[x].shapes| == 1
    ensures forall j :: 0 <= j < |pb.g[x].inputs| ==>
        pb.Has(pb.g[x].inputs[j]) && pb.Rank(pb.g[x].inputs[j]) == pb.Rank(pb.g[x].inputs[0])
    ensures var n, vs := pb.g[x], pb.Values(pb.g[x].inputs);
            n.op.axis < |vs[0].shape| == pb.Rank(n.inputs[0]) && pb.before(Output(x, 0)) == ConcatTensor(vs, n.op.axis)
    ensures pb.Rank(pb.g[x].inputs[0]) == |pb.g[x].shapes[0]|
  {
    TypedConcat(pb, x);
    BeforeEval(pb, x);
    hide ConcatTensor, Problem.WellFormed, Problem.Typed;
    var vs := pb.Values(pb.g[x].inputs);
    assert vs[0] == pb.before(pb.g[x].inputs[0]);
    EvalConcat(pb.env, pb.g[x].op.axis, vs);
  }

  lemma TypedConcat(pb: Problem, x: int)
    requires pb.WellFormed() && x in pb.g && pb.g[x].op.Concat?
    ensures |pb.g[x].inputs| > 0 && |pb.g[x].shapes| == 1
    ensures forall j :: 0 <= j < |pb.g[x].inputs| ==>
        pb.Has(pb.g[x].inputs[j]) && pb.Rank(pb.g[x].inputs[j]) == pb.Rank(pb.g[x].inputs[0])
    ensures pb.g[x].op.axis < pb.Rank(pb.g[x].inputs[0]) == |pb.before(pb.g[x].inputs[0]).shape|
  {
    hide Eval;
    assert pb.Typed(x);
  }

  lemma ConcatMoves(vs: seq<Tensor>, us: seq<Tensor>, p: Order, axis: nat)
    requires vs != [] && |us| == |vs| && IsPermutation(p) && AllRank(vs, |p|) && axis < |p|
    requires forall j :: 0 <= j < |vs| ==> us[j] == Permute(vs[j], p)
    ensures p[axis] < |p| && us[0].shape == Apply(vs[0].shape, p)
    ensures ConcatTensor(us, axis) == Permute(ConcatTensor(vs, p[axis]), p)
  {
    hide ConcatTensor, Permute;
    ConcatPermute(vs, p, axis);
    assert us == PermuteAll(vs, p);
  }

  lemma EvalConcat(env: Semantics, axis: nat, args: seq<Tensor>)
    requires |args| > 0 && axis < |args[0].shape|
    ensures Eval(env, Concat(axis), args, 0) == ConcatTensor(args, axis)
  {
    hide ConcatTensor;
  }

  /** All inputs of x are found with the same pending order. */
  ghost predicate SameOrders(pb: Problem, s: State, tr: Trace, x: int, p: Order) {
    && x in pb.g && x in s.g && |s.g[x].inputs| == |pb.g[x].inputs|
    && forall j :: 0 <= j < |s.g[x].inputs| ==> s.OrderOf(s.g[x].inputs[j]) == p && InputFound(pb, s, tr, x, j)
  }

  lemma SameOrdersValues(pb: Problem, s: State, tr: Trace, x: int, p: Order)
    requires SameOrders(pb, s, tr, x, p) && |s.g[x].inputs| > 0
    ensures AllKnown(tr.now, s.g[x].inputs) && AllRank(Args(tr.now, s.g[x].inputs), |p|) && IsPermutation(p)
    ensures pb.Has(pb.g[x].inputs[0]) && pb.Rank(pb.g[x].inputs[0]) == |p|
    ensures forall j :: 0 <= j < |s.g[x].inputs| ==>
              pb.before(pb.g[x].inputs[j]) == Permute(Args(tr.now, s.g[x].inputs)[j], p)
  {
    hide Permute, IsPermutation;
    assert InputFound(pb, s, tr, x, 0);
  }

  lemma ConcatFits(pb: Problem, s: State, tr: Trace, x: int, p: Order)
    requires pb.WellFormed() && x in pb.g && pb.g[x].op.Concat? && SameOrders(pb, s, tr, x, p)
    requires s.g[x].op == pb.g[x].op
    ensures s.g[x].op.axis < |p| && ReplacementFits(pb, tr, x, MovedConcat(s, s.g[x], p), p)
  {
    hide ConcatTensor, Permute, IsPermutation, Eval, Apply, SameOrders, Problem.WellFormed;
    BeforeConcat(pb, x);
    assert x in s.g && |s.g[x].inputs| == |pb.g[x].inputs| by { SameOrdersNode(pb, s, tr, x, p); }
    SameOrdersValues(pb, s, tr, x, p);
    var n, vs := s.g[x], Args(tr.now, s.g[x].inputs);
    ConcatMoves(vs, pb.Values(pb.g[x].inputs), p, n.op.axis);
    EvalConcat(pb.env, p[n.op.axis], vs);
  }

  lemma SameOrdersNode(pb: Problem, s: State, tr: Trace, x: int, p: Order)
    requires SameOrders(pb, s, tr, x, p)
    ensures x in s.g && x in pb.g && |s.g[x].inputs| == |pb.g[x].inputs|
  {
    hide InputFound;
  }

  /** The lengths add up as those of the tensors do. */
  lemma {:induction false} LengthsTotal(pendings: seq<Shape>, vs: seq<Tensor>, p: Order, axis: nat)
    requires |pendings| == |vs| && IsPermutation(p) && |p| == 1
    requires forall j :: 0 <= j < |vs| ==> |vs[j].shape| == 1 && pendings[j] == vs[j].shape
    ensures Lengths(pendings, p, axis) == Total(vs, axis)
  {
    if vs != [] {
      SmallOrder(pendings[0], p);
      LengthsTotal(pendings[1..], vs[1..], p, axis);
    }
  }

  lemma ConcatSteady(pendings: seq<Shape>, vs: seq<Tensor>, p: Order, axis: nat)
    requires vs != [] && |pendings| == |vs| && IsPermutation(p) && axis < |p| == 1
    requires forall j :: 0 <= j < |vs| ==> |vs[j].shape| == 1 && pendings[j] == vs[j].shape
    ensures ConcatMoved(pendings, p, axis) == vs[0].shape[axis := Total(vs, axis)]
  {
    SmallOrder(pendings[0], p);
    LengthsTotal(pendings, vs, p, axis);
  }

  /** What was foretold of a concatenation whose inputs have one order. */
  lemma ConcatForeseen(pb: Problem, x: int, ins: seq<Found>, p: Order)
    requires x in pb.g && ForeseenAt(pb.g, pb.found, x) && pb.g[x].op.Concat? && |pb.g[x].shapes| == 1
    requires ins == Founds(pb.found, pb.g[x].inputs) && ins != [] && SameOrder(ins, p)
    ensures pb.found(Output(x, 0)) == Renewed(ConcatMoved(Pendings(ins), p, pb.g[x].op.axis), p)
  {
    hide ConcatMoved, Renewed;
    assert ins[0].order == p;
  }

  lemma ConcatShape(pb: Problem, x: int)
    requires pb.WellFormed() && x in pb.g && pb.g[x].op.Concat?
    ensures |pb.g[x].inputs| > 0 && |pb.g[x].shapes| == 1
    ensures var vs := pb.Values(pb.g[x].inputs);
            && (forall j :: 0 <= j < |vs| ==> |vs[j].shape| == |vs[0].shape|)
            && pb.g[x].op.axis < |vs[0].shape| == |pb.g[x].shapes[0]|
            && pb.before(Output(x, 0)).shape == vs[0].shape[pb.g[x].op.axis := Total(vs, pb.g[x].op.axis)]
  {
    BeforeConcat(pb, x);
    ValuesRanked(pb, x);
    hide ConcatTensor, Problem.WellFormed, Problem.Typed;
  }

  lemma ValuesRanked(pb: Problem, x: int)
    requires pb.WellFormed() && x in pb.g
    ensures forall j :: 0 <= j < |pb.g[x].inputs| ==>
              pb.Has(pb.g[x].inputs[j]) && |pb.before(pb.g[x].inputs[j]).shape| == pb.Rank(pb.g[x].inputs[j])
  {
    hide Eval;
  }

  lemma PendingsSteady(pb: Problem, inputs: seq<Output>, ins: seq<Found>)
    requires ins == Founds(pb.found, inputs)
    requires forall j :: 0 <= j < |inputs| ==> Steady(pb.found(inputs[j]), pb.before(inputs[j]).shape)
    ensures forall j :: 0 <= j < |inputs| && |pb.before(inputs[j]).shape| <= 1 ==>
              Pendings(ins)[j] == pb.before(inputs[j]).shape
  {
  }

  lemma OrdersForetold(pb: Problem, s: State, x: int, p: Order)
    requires x in pb.g && x in s.g && FoundsAt(s, s.g[x].inputs) == Founds(pb.found, pb.g[x].inputs)
    requires forall j :: 0 <= j < |s.g[x].inputs| ==> s.OrderOf(s.g[x].inputs[j]) == p
    ensures SameOrder(FoundsAt(s, s.g[x].inputs), p)
  {
  }

  lemma ConcatNoted(pb: Problem, s: State, tr: Trace, done: set<int>, x: int, p: Order)
    requires Ready(pb, s, tr, done, x) && pb.g[x].op.Concat? && x in s.g && s.g[x].op == pb.g[x].op
    requires IsPermutation(p) && s.g[x].op.axis < |p| && |pb.g[x].shapes| == 1 && |p| == |pb.g[x].shapes[0]|
    requires forall j :: 0 <= j < |s.g[x].inputs| ==> s.OrderOf(s.g[x].inputs[j]) == p
    ensures Noted(pb, PendedFirst(s, MovedConcat(s, s.g[x], p), p), x, Output(s.nextId, 0))
  {
    hide Ready, Inv, Problem.WellFormed, ForeseenAt, ConcatMoved, FoundOf, Renewed, PendedFirst, IsPermutation, Steady;
    ReadyFacts(pb, s, tr, done, x);
    ReadyFounds(pb, s, tr, done, x);
    ConcatShape(pb, x);
    OrdersForetold(pb, s, x, p);
    var n, ins := pb.g[x], FoundsAt(s, s.g[x].inputs);
    ConcatForeseen(pb, x, ins, p);
    RenewedFound(s, MovedConcat(s, s.g[x], p), p);
    if |p| <= 1 {
      PendingsSteady(pb, pb.g[x].inputs, ins);
      ConcatSteady(Pendings(ins), pb.Values(n.inputs), p, n.op.axis);
    }
    RenewedSteady(ConcatMoved(Pendings(ins), p, n.op.axis), p, pb.before(Output(x, 0)).shape);
  }

  lemma RenewedSteady(shape: Shape, p: Order, before: Shape)
    requires IsPermutation(p) && |p| == |before| && (|before| <= 1 ==> shape == before)
    ensures Steady(Renewed(shape, p), before)
  {
    if |before| <= 1 {
      SmallOrder(shape, p);
    }
  }

  lemma ConcatStep(pb: Problem, s: State, tr: Trace, done: set<int>, x: int, p: Order) returns (tr': Trace)
    requires Ready(pb, s, tr, done, x) && pb.g[x].op.Concat?
    requires forall j :: 0 <= j < |s.g[x].inputs| ==> s.OrderOf(s.g[x].inputs[j]) == p
    ensures s.g[x].op.axis < |p|
    ensures Inv(pb, Replaced(s, x, MovedConcat(s, s.g[x], p), p), tr', done + {x}, done + {x})
  {
    hide Inv, InputFound, ReplacementFits, Problem.WellFormed, MovedConcat, Replaced, Noted, PendedFirst;
    forall j | 0 <= j < |s.g[x].inputs| ensures InputFound(pb, s, tr, x, j) {
      InputAt(pb, s, tr, done, x, j);
    }
    ConcatFits(pb, s, tr, x, p);
    FitsRank(pb, tr, x, MovedConcat(s, s.g[x], p), p);
    ConcatNoted(pb, s, tr, done, x, p);
    tr' := ReplaceStep(pb, s, tr, done, x, MovedConcat(s, s.g[x], p), p);
  }
}
