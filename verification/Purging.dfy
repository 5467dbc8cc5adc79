/** Bypassing the marked transposes, and what the graph computes afterwards. */
module Purging {
  import opened TensorAlgebra
  import opened Sinking

  /** Whoever uses the output of t uses the input of t. */
  function Bypass(inputs: seq<Output>, t: int, o: Output): (r: seq<Output>)
    ensures |r| == |inputs|
    ensures forall j :: 0 <= j < |inputs| ==> r[j] == if inputs[j] == Output(t, 0) then o else inputs[j]
  {
    seq(|inputs|, j requires 0 <= j < |inputs| => if inputs[j] == Output(t, 0) then o else inputs[j])
  }

  function Purged(s: State, t: int): State
    requires t in s.g && |s.g[t].inputs| > 0
  {
    s.(g := map z | z in s.g :: s.g[z].(inputs := Bypass(s.g[z].inputs, t, s.g[t].inputs[0])))
  }

  /** Marked nodes can be bypassed; opaque nodes keep their place, and see and give the values they did. */
  ghost predicate PurgeInv(pb: Problem, s: State, tr: Trace, purged: set<int>) {
    && AllSettled(pb.env, s, tr)
    && (forall t :: t in s.toDelete ==> t in s.g && s.g[t].op.Transpose? && |s.g[t].inputs| == 1)
    && (forall x :: x in pb.g && pb.g[x].op.Opaque? ==> OpaqueKept(pb, s, tr, x))
    && (forall x :: x in tr.level ==> NoneOf(s, x, purged))
  }

  ghost predicate NoneOf(s: State, x: int, purged: set<int>) {
    x in s.g && forall j :: 0 <= j < |s.g[x].inputs| ==> s.g[x].inputs[j].node !in purged
  }

  lemma SettledInput(env: Semantics, s: State, tr: Trace, x: int, j: int)
    requires AllSettled(env, s, tr) && x in tr.level && x in s.g && 0 <= j < |s.g[x].inputs|
    ensures var o := s.g[x].inputs[j];
            o in tr.now && o.node in tr.level && tr.level[o.node] < tr.level[x] && o.node in s.g
                && 0 <= o.slot < |s.g[o.node].shapes|
  {
    hide Eval;
    assert Settled(env, s, tr, x);
  }

  /** A bypassed transpose is worth what its input is worth, and has one output. */
  lemma BypassedValue(env: Semantics, s: State, tr: Trace, t: int)
    requires AllSettled(env, s, tr) && t in tr.level && t in s.toDelete
    ensures t in s.g && |s.g[t].inputs| == 1 && |s.g[t].shapes| == 1
    ensures Output(t, 0) in tr.now && s.g[t].inputs[0] in tr.now && tr.now[Output(t, 0)] == tr.now[s.g[t].inputs[0]]
  {
    hide Eval;
    assert Settled(env, s, tr, t);
  }

  /** What a settled node sees after the purge of t. */
  lemma PurgedInput(env: Semantics, s: State, tr: Trace, purged: set<int>, t: int, x: int, j: int)
    requires AllSettled(env, s, tr) && t in s.toDelete && t in s.g && |s.g[t].inputs| == 1
    requires x in tr.level && x in s.g && 0 <= j < |s.g[x].inputs|
    requires forall y :: y in tr.level ==> NoneOf(s, y, purged)
    ensures var o, o' := s.g[x].inputs[j], Purged(s, t).g[x].inputs[j];
            && o in tr.now && o' in tr.now && tr.now[o'] == tr.now[o]
            && o'.node in tr.level && tr.level[o'.node] < tr.level[x] && o'.node != t && o'.node !in purged
  {
    SettledInput(env, s, tr, x, j);
    var o := s.g[x].inputs[j];
    assert NoneOf(s, x, purged);
    if o.node == t {
      hide AllSettled;
      BypassedValue(env, s, tr, t);
      SettledInput(env, s, tr, t, 0);
      assert NoneOf(s, t, purged);
      assert o == Output(t, 0);
    }
  }

  ghost predicate SameValues(s: State, s': State, tr: Trace, x: int) {
    && x in s.g && x in s'.g && SameKind(s.g[x], s'.g[x])
    && AllKnown(tr.now, s.g[x].inputs) && AllKnown(tr.now, s'.g[x].inputs)
    && Args(tr.now, s'.g[x].inputs) == Args(tr.now, s.g[x].inputs)
    && forall j :: 0 <= j < |s'.g[x].inputs| ==>
         s'.g[x].inputs[j].node in tr.level && (x in tr.level ==> tr.level[s'.g[x].inputs[j].node] < tr.level[x])
  }

  lemma PurgedSameValues(env: Semantics, s: State, tr: Trace, purged: set<int>, t: int, x: int)
    requires AllSettled(env, s, tr) && t in s.toDelete && t in s.g && |s.g[t].inputs| == 1 && x in tr.level
    requires forall y :: y in tr.level ==> NoneOf(s, y, purged)
    ensures SameValues(s, Purged(s, t), tr, x) && NoneOf(Purged(s, t), x, purged + {t})
  {
    assert NoneOf(s, x, purged);
    var s' := Purged(s, t);
    hide AllSettled, Purged;
    assert x in s'.g && SameKind(s.g[x], s'.g[x]) by { PurgedKind(s, t, x); }
    forall j | 0 <= j < |s.g[x].inputs|
      ensures var o, o' := s.g[x].inputs[j], s'.g[x].inputs[j];
            && o in tr.now && o' in tr.now && tr.now[o'] == tr.now[o]
            && o'.node in tr.level && tr.level[o'.node] < tr.level[x] && o'.node != t && o'.node !in purged
    {
      PurgedInput(env, s, tr, purged, t, x, j);
    }
    assert Args(tr.now, s'.g[x].inputs) == Args(tr.now, s.g[x].inputs);
  }

  lemma PurgedKind(s: State, t: int, x: int)
    requires t in s.g && |s.g[t].inputs| > 0 && x in s.g
    ensures x in Purged(s, t).g && SameKind(s.g[x], Purged(s, t).g[x])
  {
  }

  lemma SettledPurged(env: Semantics, s: State, s': State, tr: Trace, x: int)
    requires Settled(env, s, tr, x) && SameValues(s, s', tr, x) && s'.toDelete == s.toDelete
    ensures Settled(env, s', tr, x)
  {
    hide Eval;
    assert |s.g[x].inputs| > 0 ==> Args(tr.now, s'.g[x].inputs)[0] == Args(tr.now, s.g[x].inputs)[0];
  }

  lemma OpaquePurged(pb: Problem, s: State, s': State, tr: Trace, x: int)
    requires OpaqueKept(pb, s, tr, x) && SameValues(s, s', tr, x) && s'.toDelete == s.toDelete
    ensures OpaqueKept(pb, s', tr, x)
  {
    forall j | 0 <= j < |s.g[x].inputs| ensures tr.now[s'.g[x].inputs[j]] == pb.before(pb.g[x].inputs[j]) {
      assert Args(tr.now, s'.g[x].inputs)[j] == Args(tr.now, s.g[x].inputs)[j];
    }
  }

  /** Purging one marked transpose. */
  lemma PurgeStep(pb: Problem, s: State, tr: Trace, purged: set<int>, t: int)
    requires PurgeInv(pb, s, tr, purged) && t in s.toDelete
    ensures PurgeInv(pb, Purged(s, t), tr, purged + {t})
  {
    var s' := Purged(s, t);
    forall x | x in s.g ensures x in s'.g && SameKind(s.g[x], s'.g[x]) {
      PurgedKind(s, t, x);
    }
    hide Purged, SameValues, Settled, OpaqueKept, NoneOf;
    forall x | x in tr.level
      ensures SameValues(s, s', tr, x) && NoneOf(s', x, purged + {t}) && Settled(pb.env, s', tr, x)
    {
      PurgedSameValues(pb.env, s, tr, purged, t, x);
      SettledPurged(pb.env, s, s', tr, x);
    }
    forall x | x in pb.g && pb.g[x].op.Opaque? ensures OpaqueKept(pb, s', tr, x) {
      OpaqueSettled(pb, s, tr, x);
      OpaquePurged(pb, s, s', tr, x);
    }
  }

  lemma OpaqueSettled(pb: Problem, s: State, tr: Trace, x: int)
    requires OpaqueKept(pb, s, tr, x)
    ensures x in tr.level && x !in s.toDelete
  {
  }

  // ---------- what the final graph computes ----------

  ghost function Seen(w: Output -> Tensor, inputs: seq<Output>): (r: seq<Tensor>)
    ensures |r| == |inputs| && forall j :: 0 <= j < |inputs| ==> r[j] == w(inputs[j])
  {
    seq(|inputs|, j requires 0 <= j < |inputs| => w(inputs[j]))
  }

  /** w gives every output of the nodes in `live`, a set closed under inputs, the value its operation computes. */
  ghost predicate Solves(env: Semantics, g: Graph, live: set<int>, w: Output -> Tensor) {
    && (forall x, j :: x in live && x in g && 0 <= j < |g[x].inputs| ==> g[x].inputs[j].node in live)
    && (forall x, k :: x in live && x in g && 0 <= k < |g[x].shapes| ==>
         w(Output(x, k)) == Eval(env, g[x].op, Seen(w, g[x].inputs), k))
  }

  /** Opaque node x sees and gives under w what it did before the pass. */
  ghost predicate MeaningKept(pb: Problem, g: Graph, w: Output -> Tensor, x: int) {
    && x in pb.g && x in g && g[x].op == pb.g[x].op && |g[x].inputs| == |pb.g[x].inputs|
         && g[x].shapes == pb.g[x].shapes
    && (forall j :: 0 <= j < |g[x].inputs| ==> w(g[x].inputs[j]) == pb.before(pb.g[x].inputs[j]))
    && (forall k :: 0 <= k < |g[x].shapes| ==> w(Output(x, k)) == pb.before(Output(x, k)))
  }

  lemma {:induction false} SolutionIsNow(pb: Problem, s: State, tr: Trace, live: set<int>, w: Output -> Tensor, x: int)
    requires PurgeInv(pb, s, tr, s.toDelete) && Solves(pb.env, s.g, live, w)
    requires x in live && x in tr.level && x !in s.toDelete
    ensures x in s.g
    ensures forall k :: 0 <= k < |s.g[x].shapes| ==> Output(x, k) in tr.now && w(Output(x, k)) == tr.now[Output(x, k)]
    decreases tr.level[x]
  {
    assert Settled(pb.env, s, tr, x) && NoneOf(s, x, s.toDelete);
    hide Eval;
    forall j | 0 <= j < |s.g[x].inputs| ensures w(s.g[x].inputs[j]) == tr.now[s.g[x].inputs[j]] {
      var o := s.g[x].inputs[j];
      SettledInput(pb.env, s, tr, x, j);
      SolutionIsNow(pb, s, tr, live, w, o.node);
      assert o == Output(o.node, o.slot);
    }
    assert Seen(w, s.g[x].inputs) == Args(tr.now, s.g[x].inputs);
  }

  /** However the purged graph is evaluated, opaque nodes mean what they did. */
  lemma PurgedMeaning(pb: Problem, s: State, tr: Trace, live: set<int>, w: Output -> Tensor, x: int)
    requires PurgeInv(pb, s, tr, s.toDelete) && Solves(pb.env, s.g, live, w) && x in live && x in pb.g
    requires pb.g[x].op.Opaque?
    ensures MeaningKept(pb, s.g, w, x)
  {
    assert OpaqueKept(pb, s, tr, x) && NoneOf(s, x, s.toDelete);
    hide Eval;
    SolutionIsNow(pb, s, tr, live, w, x);
    forall j | 0 <= j < |s.g[x].inputs| ensures w(s.g[x].inputs[j]) == pb.before(pb.g[x].inputs[j]) {
      var o := s.g[x].inputs[j];
      SettledInput(pb.env, s, tr, x, j);
      SolutionIsNow(pb, s, tr, live, w, o.node);
      assert o == Output(o.node, o.slot);
    }
  }

  ghost function Live(s: State, tr: Trace): set<int> {
    set x | x in tr.level && x !in s.toDelete
  }

  ghost function NowOf(tr: Trace): Output -> Tensor {
    (o: Output) => if o in tr.now then tr.now[o] else Meaningless()
  }

  /** Such an evaluation exists, and reaches every opaque node. */
  lemma PurgedSolvable(pb: Problem, s: State, tr: Trace)
    requires PurgeInv(pb, s, tr, s.toDelete)
    ensures Solves(pb.env, s.g, Live(s, tr), NowOf(tr))
    ensures forall x :: x in pb.g && pb.g[x].op.Opaque? ==> x in Live(s, tr)
  {
    hide Eval;
    var live, w := Live(s, tr), NowOf(tr);
    forall x, j | x in live && x in s.g && 0 <= j < |s.g[x].inputs| ensures s.g[x].inputs[j].node in live {
      assert NoneOf(s, x, s.toDelete);
      SettledInput(pb.env, s, tr, x, j);
    }
    forall x, k | x in live && x in s.g && 0 <= k < |s.g[x].shapes|
      ensures w(Output(x, k)) == Eval(pb.env, s.g[x].op, Seen(w, s.g[x].inputs), k)
    {
      assert Settled(pb.env, s, tr, x);
      assert Seen(w, s.g[x].inputs) == Args(tr.now, s.g[x].inputs);
    }
    forall x | x in pb.g && pb.g[x].op.Opaque? ensures x in live {
      OpaqueSettled(pb, s, tr, x);
    }
  }
}
