/** Materializing pending transposes in front of an operation that cannot carry them. */
module Materializing {
  import opened TensorAlgebra
  import opened Sinking
  import opened Foresight
  import opened SinkingSteps

  // ---------- what materializing does to the state ----------

  /** A new transpose of default order is pending for output k of x. */
  function DefaultPended(s: State, x: int, k: nat): State {
    Pend(AddNode(s, TransposeNode(s, Output(x, k), Default(RankOf(s, Output(x, k))))), Output(x, k), s.nextId)
  }

  /** The same for the first k outputs. */
  function DefaultsPended(s: State, x: int, k: nat): State {
    if k == 0 then s else DefaultPended(DefaultsPended(s, x, k - 1), x, k - 1)
  }

  /** The pending transpose of input j is marked, and put in place unless its order is the default one. */
  function InputMaterialized(s: State, x: int, j: nat): (r: State)
    requires x in s.g && x < s.nextId && j < |s.g[x].inputs|
    ensures x in r.g && x < r.nextId && |r.g[x].inputs| == |s.g[x].inputs|
  {
    var c := s.g[x].inputs[j];
    if c !in s.reorders then s
    else
      var marked := Mark(s, s.reorders[c]);
      if s.OrderOf(c) == Default(RankOf(s, c)) then marked
          else Materialized(marked, x, j, Output(c.node, 0), s.OrderOf(c))
  }

  /** The same for the first j inputs. */
  function InputsMaterialized(s: State, x: int, j: nat): (r: State)
    requires x in s.g && x < s.nextId && j <= |s.g[x].inputs|
    ensures x in r.g && x < r.nextId && |r.g[x].inputs| == |s.g[x].inputs|
  {
    if j == 0 then s else InputMaterialized(InputsMaterialized(s, x, j - 1), x, j - 1)
  }

  /** The defaults are pending and node x is as it was. */
  lemma {:induction false} DefaultsPendedNode(s: State, x: int, k: nat)
    requires x in s.g && x < s.nextId
    ensures var r := DefaultsPended(s, x, k); x in r.g && x < r.nextId && r.g[x] == s.g[x] && r.toDelete == s.toDelete
  {
    if k > 0 {
      DefaultsPendedNode(s, x, k - 1);
    }
  }

  function NodeMaterialized(s: State, x: int): State
    requires x in s.g && x < s.nextId
  {
    DefaultsPendedNode(s, x, |s.g[x].shapes|);
    InputsMaterialized(DefaultsPended(s, x, |s.g[x].shapes|), x, |s.g[x].inputs|)
  }

  // ---------- what stays known meanwhile ----------

  ghost predicate Extends(s: State, tr: Trace, s': State, tr': Trace, x: int) {
    && (forall z :: z in s.g ==> z in s'.g && SameKind(s.g[z], s'.g[z]))
    && (forall c: Output :: c in s.reorders && c.node != x ==> c in s'.reorders && s'.reorders[c] == s.reorders[c])
    && (forall c :: c in tr.now ==> c in tr'.now && tr'.now[c] == tr.now[c])
  }

  lemma FoundLater(pb: Problem, s: State, tr: Trace, s': State, tr': Trace, x: int, j: int)
    requires InputFound(pb, s, tr, x, j) && Extends(s, tr, s', tr', x) && PendingMarked(s', tr') && Fresh(pb, s')
    requires s.g[x].inputs[j].node != x && s'.g[x].inputs[j] == s.g[x].inputs[j]
    ensures InputFound(pb, s', tr', x, j)
  {
    hide Permute, IsPermutation;
    var c := s.g[x].inputs[j];
    assert s'.reorders[c] == s.reorders[c] && s'.OrderOf(c) == s.OrderOf(c);
  }

  /** The first k outputs of x have default transposes pending. */
  ghost predicate DefaultsAt(s: State, x: int, k: nat) {
    && x in s.g && k <= |s.g[x].shapes|
    && forall i :: 0 <= i < k ==> s.HasOrder(Output(x, i)) && FoundOf(s, Output(x, i)) == Placed(s.g[x].shapes[i])
  }

  // ---------- the outputs ----------

  lemma DefaultPendedKeeps(pb: Problem, s: State, tr: Trace, done: set<int>, x: int, k: nat)
    requires Inv(pb, s, tr, done, done + {x}) && x in s.g && x in pb.g && x !in tr.level
    requires DefaultsAt(s, x, k) && k < |s.g[x].shapes|
    ensures Inv(pb, DefaultPended(s, x, k), tr, done, done + {x}) && DefaultsAt(DefaultPended(s, x, k), x, k + 1)
    ensures Extends(s, tr, DefaultPended(s, x, k), tr, x)
  {
    NewIdUnused(pb, s, tr, done, done + {x});
    OwnOutputFree(pb, s, tr, done, done + {x}, x);
    hide Inv, Default;
    var n := TransposeNode(s, Output(x, k), Default(RankOf(s, Output(x, k))));
    AddDangling(pb, s, tr, done, done + {x}, n);
    PendNew(pb, AddNode(s, n), tr, done, done + {x}, Output(x, k), s.nextId);
    DefaultPendedPlaces(s, x, k);
  }

  lemma DefaultOrdered(s: Shape)
    ensures Reordered(s, Default(|s|)) == s
  {
  }

  lemma DefaultPendedPlaces(s: State, x: int, k: nat)
    requires x in s.g && x < s.nextId && (forall z :: z in s.g ==> z < s.nextId) && DefaultsAt(s, x, k)
    requires k < |s.g[x].shapes|
    ensures DefaultsAt(DefaultPended(s, x, k), x, k + 1)
  {
    hide Default, Reordered;
    DefaultOrdered(s.g[x].shapes[k]);
    var s' := DefaultPended(s, x, k);
    forall i | 0 <= i < k + 1
      ensures s'.HasOrder(Output(x, i)) && FoundOf(s', Output(x, i)) == Placed(s'.g[x].shapes[i])
    {
      assert i < k ==> s.HasOrder(Output(x, i)) && FoundOf(s, Output(x, i)) == Placed(s.g[x].shapes[i]);
    }
  }

  lemma {:induction false} DefaultsPendedKeep(pb: Problem, s: State, tr: Trace, done: set<int>, x: int, k: nat)
    requires Inv(pb, s, tr, done, done + {x}) && x in s.g && x in pb.g && x !in tr.level && k <= |s.g[x].shapes|
    ensures var r := DefaultsPended(s, x, k);
            Inv(pb, r, tr, done, done + {x}) && DefaultsAt(r, x, k) && Extends(s, tr, r, tr, x)
  {
    hide Inv, DefaultPended;
    if k > 0 {
      BelowNext(pb, s, tr, done, done + {x});
      DefaultsPendedNode(s, x, k - 1);
      DefaultsPendedKeep(pb, s, tr, done, x, k - 1);
      DefaultPendedKeeps(pb, DefaultsPended(s, x, k - 1), tr, done, x, k - 1);
    }
  }

  lemma BelowNext(pb: Problem, s: State, tr: Trace, done: set<int>, begun: set<int>)
    requires Inv(pb, s, tr, done, begun)
    ensures forall x :: x in s.g ==> x < s.nextId
  {
    hide CurDomain, AllCorrespond, AllWaiting, AllSettled, AllOpaqueKept, PendingMarked;
  }

  // ---------- the inputs ----------

  /** Inputs before j have the original values, those from j on wait with their pending transposes. */
  ghost predicate Progress(pb: Problem, s: State, tr: Trace, done: set<int>, x: int, j: nat) {
    && Inv(pb, s, tr, done, done + {x}) && x in s.g && DefaultsAt(s, x, |s.g[x].shapes|)
    && x in pb.g && x !in done && x !in tr.level && x !in s.toDelete && x < s.nextId && SameKind(pb.g[x], s.g[x])
    && j <= |s.g[x].inputs|
    && (forall i :: 0 <= i < j ==> InputRestored(pb, s, tr, x, i))
    && (forall i :: j <= i < |s.g[x].inputs| ==> InputFound(pb, s, tr, x, i) && s.g[x].inputs[i].node != x)
  }

  ghost predicate InputRestored(pb: Problem, s: State, tr: Trace, x: int, i: int) {
    && x in pb.g && x in s.g && 0 <= i < |s.g[x].inputs| == |pb.g[x].inputs|
    && s.g[x].inputs[i] in tr.now && tr.now[s.g[x].inputs[i]] == pb.before(pb.g[x].inputs[i])
  }

  /** The state and trace after dealing with input j. */
  ghost predicate InputDone(pb: Problem, s: State, tr: Trace, s': State, tr': Trace, done: set<int>, x: int, j: nat) {
    && Inv(pb, s', tr', done, done + {x}) && Extends(s, tr, s', tr', x)
    && x in s.g && x in s'.g && s'.nextId >= s.nextId && x !in tr'.level && x !in s'.toDelete
    && j < |s.g[x].inputs| == |s'.g[x].inputs|
    && (forall i :: 0 <= i < |s.g[x].inputs| && i != j ==> s'.g[x].inputs[i] == s.g[x].inputs[i])
    && (forall c :: c in s.reorders ==> c in s'.reorders && s'.reorders[c] == s.reorders[c])
    && InputRestored(pb, s', tr', x, j)
  }

  lemma DefaultsLater(s: State, tr: Trace, s': State, tr': Trace, x: int)
    requires x in s.g && DefaultsAt(s, x, |s.g[x].shapes|) && Extends(s, tr, s', tr', x)
    requires forall c :: c in s.reorders ==> c in s'.reorders && s'.reorders[c] == s.reorders[c]
    ensures x in s'.g && s'.g[x].shapes == s.g[x].shapes && DefaultsAt(s', x, |s'.g[x].shapes|)
  {
    hide Default;
    forall i | 0 <= i < |s.g[x].shapes|
      ensures s'.HasOrder(Output(x, i)) && FoundOf(s', Output(x, i)) == Placed(s'.g[x].shapes[i])
    {
      assert s.HasOrder(Output(x, i)) && FoundOf(s, Output(x, i)) == Placed(s.g[x].shapes[i]);
    }
  }

  lemma InvMarks(pb: Problem, s: State, tr: Trace, done: set<int>, begun: set<int>)
    requires Inv(pb, s, tr, done, begun)
    ensures PendingMarked(s, tr) && Fresh(pb, s) && forall z :: z in s.g ==> z < s.nextId
  {
    hide CurDomain, AllCorrespond, AllWaiting, AllSettled, AllOpaqueKept, PendingMarked;
  }

  lemma ProgressMade(pb: Problem, s: State, tr: Trace, s': State, tr': Trace, done: set<int>, x: int, j: nat)
    requires Progress(pb, s, tr, done, x, j) && InputDone(pb, s, tr, s', tr', done, x, j)
    ensures Progress(pb, s', tr', done, x, j + 1)
  {
    hide Inv, InputFound, Default, PendingMarked, Fresh, DefaultsAt;
    InvMarks(pb, s', tr', done, done + {x});
    DefaultsLater(s, tr, s', tr', x);
    forall i | 0 <= i < j + 1 ensures InputRestored(pb, s', tr', x, i) {
      assert i < j ==> InputRestored(pb, s, tr, x, i);
    }
    forall i | j + 1 <= i < |s'.g[x].inputs| ensures InputFound(pb, s', tr', x, i) && s'.g[x].inputs[i].node != x {
      FoundLater(pb, s, tr, s', tr', x, i);
    }
  }

  lemma InputFoundIs(pb: Problem, s: State, tr: Trace, x: int, j: nat, c: Output, p: Order)
    requires InputFound(pb, s, tr, x, j) && c == s.g[x].inputs[j] && p == s.OrderOf(c)
    ensures c in tr.now && c in s.reorders && RankOf(s, c) == |p| && IsPermutation(p) && |p| == |tr.now[c].shape|
    ensures pb.before(pb.g[x].inputs[j]) == Permute(tr.now[c], p)
    ensures p == Default(|p|) ==> pb.before(pb.g[x].inputs[j]) == tr.now[c]
    ensures p != Default(|p|) ==> c == Output(c.node, 0)
  {
    hide Permute, IsPermutation;
    if p == Default(|p|) {
      PermuteDefault(tr.now[c], |p|);
    }
  }

  lemma InputPassed(pb: Problem, s: State, tr: Trace, done: set<int>, x: int, j: nat, c: Output)
    requires Inv(pb, s, tr, done, done + {x}) && x in s.g && x in pb.g && x !in tr.level && x !in s.toDelete
    requires j < |s.g[x].inputs| == |pb.g[x].inputs| && c == s.g[x].inputs[j] && c in s.reorders && s.reorders[c] != x
    requires c in tr.now && pb.before(pb.g[x].inputs[j]) == tr.now[c]
    ensures InputDone(pb, s, tr, Mark(s, s.reorders[c]), tr, done, x, j)
  {
    hide Inv;
    MarkPending(pb, s, tr, done, done + {x}, c);
  }

  lemma MaterializedNode(s: State, x: int, j: nat, c: Output, p: Order)
    requires x in s.g && x < s.nextId && s.nextId !in s.g && j < |s.g[x].inputs|
    ensures var s' := Materialized(s, x, j, c, p);
            && s'.nextId == s.nextId + 1 && s'.reorders == s.reorders && s'.toDelete == s.toDelete
            && x in s'.g && s'.g[x] == s.g[x].(inputs := s.g[x].inputs[j := Output(s.nextId, 0)])
            && forall z :: z in s.g && z != x ==> z in s'.g && s'.g[z] == s.g[z]
  {
  }

  lemma ReplacedInput(pb: Problem, s: State, tr: Trace, tr': Trace, done: set<int>, x: int, j: nat, c: Output, p: Order)
    requires x in s.g && x in pb.g && x < s.nextId && s.nextId !in s.g && j < |s.g[x].inputs| == |pb.g[x].inputs|
    requires c in s.reorders
    requires Inv(pb, Materialized(Mark(s, s.reorders[c]), x, j, c, p), tr', done, done + {x})
    requires x !in tr'.level && x !in s.toDelete && s.reorders[c] != x
    requires forall o :: o in tr.now ==> o in tr'.now && tr'.now[o] == tr.now[o]
    requires Output(s.nextId, 0) in tr'.now && tr'.now[Output(s.nextId, 0)] == pb.before(pb.g[x].inputs[j])
    ensures InputDone(pb, s, tr, Materialized(Mark(s, s.reorders[c]), x, j, c, p), tr', done, x, j)
  {
    hide Inv, Materialized;
    MaterializedNode(Mark(s, s.reorders[c]), x, j, c, p);
  }

  lemma InputReplaced(pb: Problem, s: State, tr: Trace, done: set<int>, x: int, j: nat, c: Output, p: Order)
    returns (tr': Trace)
    requires Inv(pb, s, tr, done, done + {x}) && x in s.g && x in pb.g && x !in tr.level && x !in s.toDelete
    requires x < s.nextId
    requires j < |s.g[x].inputs| == |pb.g[x].inputs| && c == s.g[x].inputs[j] && c in s.reorders && s.reorders[c] != x
    requires c in tr.now && IsPermutation(p) && |p| == |tr.now[c].shape|
    requires pb.before(pb.g[x].inputs[j]) == Permute(tr.now[c], p)
    ensures InputDone(pb, s, tr, Materialized(Mark(s, s.reorders[c]), x, j, c, p), tr', done, x, j)
  {
    NewIdUnused(pb, s, tr, done, done + {x});
    NowOnlySettled(pb, s, tr, done, done + {x});
    hide Inv, Permute, IsPermutation, Materialized, InputDone;
    MarkPending(pb, s, tr, done, done + {x}, c);
    tr' := MaterializeKeeps(pb, Mark(s, s.reorders[c]), tr, done, done + {x}, x, j, c, p);
    ReplacedInput(pb, s, tr, tr', done, x, j, c, p);
  }

  lemma InputStep(pb: Problem, s: State, tr: Trace, done: set<int>, x: int, j: nat) returns (tr': Trace)
    requires Progress(pb, s, tr, done, x, j) && x in s.g && x < s.nextId && j < |s.g[x].inputs|
    ensures Progress(pb, InputMaterialized(s, x, j), tr', done, x, j + 1)
  {
    PendingNotOriginal(pb, s, tr, done, done + {x}, x);
    hide Inv, Permute, IsPermutation, InputFound, Default, InputDone, Materialized, DefaultsAt, InputRestored;
    var c := s.g[x].inputs[j];
    var p := s.OrderOf(c);
    InputFoundIs(pb, s, tr, x, j, c, p);
    if p == Default(|p|) {
      tr' := tr;
      InputPassed(pb, s, tr, done, x, j, c);
    } else {
      tr' := InputReplaced(pb, s, tr, done, x, j, c, p);
    }
    ProgressMade(pb, s, tr, InputMaterialized(s, x, j), tr', done, x, j);
  }

  lemma {:induction false} InputsStep(pb: Problem, s: State, tr: Trace, done: set<int>, x: int, j: nat)
    returns (tr': Trace)
    requires Progress(pb, s, tr, done, x, 0) && x in s.g && x < s.nextId && j <= |s.g[x].inputs|
    ensures Progress(pb, InputsMaterialized(s, x, j), tr', done, x, j)
  {
    hide Progress, InputMaterialized;
    tr' := tr;
    if j > 0 {
      tr' := InputsStep(pb, s, tr, done, x, j - 1);
      tr' := InputStep(pb, InputsMaterialized(s, x, j - 1), tr', done, x, j - 1);
    }
  }

  // ---------- the node itself ----------

  /** The original values of the outputs of x. */
  ghost function BeforeAt(pb: Problem, x: int): (r: seq<Tensor>)
    requires x in pb.g
    ensures |r| == |pb.g[x].shapes| && forall k :: 0 <= k < |r| ==> r[k] == pb.before(Output(x, k))
  {
    seq(|pb.g[x].shapes|, k requires 0 <= k < |pb.g[x].shapes| => pb.before(Output(x, k)))
  }

  ghost predicate AllRestored(pb: Problem, s: State, tr: Trace, x: int) {
    && x in pb.g && x in s.g && SameKind(pb.g[x], s.g[x])
    && forall i :: 0 <= i < |s.g[x].inputs| ==> InputRestored(pb, s, tr, x, i)
  }

  lemma RestoredSettles(pb: Problem, s: State, tr: Trace, x: int)
    requires pb.WellFormed() && AllRestored(pb, s, tr, x) && x !in tr.level && x !in s.toDelete
    ensures ReadyToSettle(pb.env, s, tr, x, BeforeAt(pb, x))
  {
    hide Eval;
    forall i | 0 <= i < |s.g[x].inputs|
      ensures s.g[x].inputs[i] in tr.now && tr.now[s.g[x].inputs[i]] == pb.before(pb.g[x].inputs[i])
    {
      assert InputRestored(pb, s, tr, x, i);
    }
    assert Args(tr.now, s.g[x].inputs) == pb.Values(pb.g[x].inputs);
    forall k | 0 <= k < |pb.g[x].shapes|
      ensures pb.before(Output(x, k)) == Eval(pb.env, pb.g[x].op, pb.Values(pb.g[x].inputs), k)
    {
      assert pb.Has(Output(x, k));
    }
  }

  lemma RestoredCorresponds(pb: Problem, s: State, tr: Trace, x: int, k: nat)
    requires pb.WellFormed() && x in pb.g && x in s.g && SameKind(pb.g[x], s.g[x]) && DefaultsAt(s, x, |s.g[x].shapes|)
    requires k < |s.g[x].shapes|
    requires Output(x, k) in tr.now && tr.now[Output(x, k)] == pb.before(Output(x, k))
    requires pb.found(Output(x, k)) == Placed(pb.g[x].shapes[k])
    ensures Corresponds(pb, s, FoundAt(tr, x, x, |pb.g[x].shapes|), Output(x, k))
  {
    FoundAtCur(tr, x, x, |pb.g[x].shapes|);
    assert pb.Has(Output(x, k));
    hide Permute, IsPermutation, FoundAt, Default;
    assert s.HasOrder(Output(x, k)) && FoundOf(s, Output(x, k)) == Placed(s.g[x].shapes[k]);
    PermuteDefault(pb.before(Output(x, k)), |s.g[x].shapes[k]|);
    FoundAtKeeps(tr, x, x, |pb.g[x].shapes|);
  }

  lemma RestoredOpaque(pb: Problem, s: State, tr: Trace, x: int)
    requires AllRestored(pb, s, tr, x) && x !in s.toDelete && pb.g[x].op == s.g[x].op
    requires forall o :: o in tr.now ==> o.node != x
    ensures OpaqueKept(pb, s, Settle(tr, x, BeforeAt(pb, x)), x)
  {
    SettleAt(tr, x, BeforeAt(pb, x));
    forall i | 0 <= i < |s.g[x].inputs|
      ensures s.g[x].inputs[i] in tr.now && tr.now[s.g[x].inputs[i]] == pb.before(pb.g[x].inputs[i])
    {
      assert InputRestored(pb, s, tr, x, i);
    }
  }

  /** It was foretold that node x stays in its place, with default transposes pending. */
  ghost predicate AllPlaced(pb: Problem, x: int) {
    x in pb.g && forall k :: 0 <= k < |pb.g[x].shapes| ==> pb.found(Output(x, k)) == Placed(pb.g[x].shapes[k])
  }

  lemma RestoredDone(pb: Problem, s: State, tr: Trace, done: set<int>, x: int) returns (tr': Trace)
    requires pb.WellFormed() && x in s.g && Progress(pb, s, tr, done, x, |s.g[x].inputs|)
    requires AllPlaced(pb, x)
    ensures Inv(pb, s, tr', done + {x}, done + {x})
  {
    OwnOutputFree(pb, s, tr, done, done + {x}, x);
    PendingNotOriginal(pb, s, tr, done, done + {x}, x);
    hide Inv, Settle, InputRestored, ReadyToSettle, Problem.WellFormed, OpaqueKept, Corresponds, DefaultsAt, FoundAt;
    var values := BeforeAt(pb, x);
    RestoredSettles(pb, s, tr, x);
    RestoredOpaque(pb, s, tr, x);
    SettleKeeps(pb, s, tr, done, done + {x}, x, values);
    var settled := Settle(tr, x, values);
    SettleAt(tr, x, values);
    forall k | 0 <= k < |pb.g[x].shapes|
      ensures Corresponds(pb, s, FoundAt(settled, x, x, |pb.g[x].shapes|), Output(x, k))
    {
      RestoredCorresponds(pb, s, settled, x, k);
    }
    FinishKeeps(pb, s, settled, done, done + {x}, x);
    tr' := FoundAt(settled, x, x, |pb.g[x].shapes|);
  }

  lemma ReadyProgress(pb: Problem, s: State, tr: Trace, done: set<int>, x: int)
    requires Ready(pb, s, tr, done, x) && x in s.g && x < s.nextId
    ensures x in DefaultsPended(s, x, |s.g[x].shapes|).g && DefaultsPended(s, x, |s.g[x].shapes|).g[x] == s.g[x]
    ensures x < DefaultsPended(s, x, |s.g[x].shapes|).nextId
    ensures Progress(pb, DefaultsPended(s, x, |s.g[x].shapes|), tr, done, x, 0)
  {
    hide InputFound, DefaultsAt, DefaultsPended, Problem.WellFormed, Extends;
    OwnOutputFree(pb, s, tr, done, done + {x}, x);
    DefaultsPendedNode(s, x, |s.g[x].shapes|);
    DefaultsPendedKeep(pb, s, tr, done, x, |s.g[x].shapes|);
    var r := DefaultsPended(s, x, |s.g[x].shapes|);
    assert PendingMarked(r, tr) && Fresh(pb, r);
    hide Inv, PendingMarked, Fresh;
    forall i | 0 <= i < |r.g[x].inputs| ensures InputFound(pb, r, tr, x, i) && r.g[x].inputs[i].node != x {
      InputAt(pb, s, tr, done, x, i);
      FoundUsable(pb, s, tr, x, i);
      FoundLater(pb, s, tr, r, tr, x, i);
    }
  }

  /** Materializing the inputs of x gives it its original inputs, hence its original outputs. */
  lemma MaterializeStep(pb: Problem, s: State, tr: Trace, done: set<int>, x: int) returns (tr': Trace)
    requires Ready(pb, s, tr, done, x) && x in s.g && x < s.nextId && AllPlaced(pb, x)
    ensures Inv(pb, NodeMaterialized(s, x), tr', done + {x}, done + {x})
  {
    ReadyProgress(pb, s, tr, done, x);
    hide Inv, Progress, DefaultsPended, InputsMaterialized;
    var r := DefaultsPended(s, x, |s.g[x].shapes|);
    tr' := InputsStep(pb, r, tr, done, x, |s.g[x].inputs|);
    tr' := RestoredDone(pb, InputsMaterialized(r, x, |s.g[x].inputs|), tr', done, x);
  }
}
