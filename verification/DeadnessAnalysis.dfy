/** The deadness analysis: an abstract interpretation of liveness over the nodes in reverse post order. */
module DeadnessAnalysis {
  import opened Predicates
  import opened Deadness
  import opened Printing
  import opened Ties
  import opened Mismatches
  import opened Sets

  /** The common code of conjunction and disjunction. */
  method MakeAndOrImpl(operands: seq<Predicate>, isAnd: bool, h: Hash) returns (p: Predicate)
    ensures p == MakeAndOr(operands, isAnd, h)
    ensures isAnd ==> forall a: Assignment :: Holds(p, a) <==> forall q :: q in operands ==> Holds(q, a)
    ensures !isAnd ==> forall a: Assignment :: Holds(p, a) <==> exists q :: q in operands && Holds(q, a)
  {
    forall a: Assignment {
      MakeAndOrMeans(operands, isAnd, h, a);
    }
    var simplified := Simplify(operands, isAnd);
    if |simplified| == 1 {
      return simplified[0];
    }
    var complementary := HasComplement(simplified);
    if complementary {
      return if isAnd then FALSE else TRUE;
    }
    return Join(SortByHash(simplified, h), isAnd);
  }

  /** Removes repetitions and inlines the operands of inner formulas of the same kind. */
  method Simplify(operands: seq<Predicate>, isAnd: bool) returns (simplified: seq<Predicate>)
    ensures simplified == Flatten(operands, isAnd, {})
  {
    var seen: set<Predicate> := {};
    simplified := [];
    for i := 0 to |operands|
      invariant simplified + Flatten(operands[i..], isAnd, seen) == Flatten(operands, isAnd, {})
    {
      FlattenStep(operands, i, isAnd, seen, simplified);
      var op := operands[i];
      if op in seen {
        continue;
      }
      seen := seen + {op};
      if OfKind(op, isAnd) {
        simplified, seen := Inline(op.operands, simplified, seen);
      } else {
        simplified := simplified + [op];
      }
    }
  }

  lemma FlattenStep(s: seq<Predicate>, i: nat, isAnd: bool, seen: set<Predicate>, before: seq<Predicate>)
    requires i < |s|
    ensures before + Flatten(s[i..], isAnd, seen) ==
            if s[i] in seen then before + Flatten(s[i + 1..], isAnd, seen)
            else if OfKind(s[i], isAnd) then
              before + FirstNew(s[i].operands, seen + {s[i]})
                  + Flatten(s[i + 1..], isAnd, seen + {s[i]} + Members(s[i].operands))
            else before + [s[i]] + Flatten(s[i + 1..], isAnd, seen + {s[i]})
  {
    assert s[i..][0] == s[i] && s[i..][1..] == s[i + 1..];
    var inner := if OfKind(s[i], isAnd) then FirstNew(s[i].operands, seen + {s[i]}) else [s[i]];
    var rest := Flatten(s[i + 1..], isAnd, if OfKind(s[i], isAnd) then seen + {s[i]} + Members(s[i].operands)
        else seen + {s[i]});
    assert before + (inner + rest) == before + inner + rest;
  }

  /** Appends the operands not seen before. */
  method Inline(operands: seq<Predicate>, before: seq<Predicate>, known: set<Predicate>)
    returns (simplified: seq<Predicate>, seen: set<Predicate>)
    ensures simplified == before + FirstNew(operands, known)
    ensures seen == known + Members(operands)
  {
    simplified, seen := before, known;
    for i := 0 to |operands|
      invariant seen == known + Members(operands[..i])
      invariant simplified + FirstNew(operands[i..], seen) == before + FirstNew(operands, known)
    {
      FirstNewStep(operands, i, known, seen, simplified);
      var op := operands[i];
      if op !in seen {
        seen := seen + {op};
        simplified := simplified + [op];
      }
    }
    assert operands[..|operands|] == operands;
  }

  lemma FirstNewStep(s: seq<Predicate>, i: nat, known: set<Predicate>, seen: set<Predicate>, before: seq<Predicate>)
    requires i < |s| && seen == known + Members(s[..i])
    ensures known + Members(s[..i + 1]) == seen + {s[i]} && (s[i] in seen ==> seen + {s[i]} == seen)
    ensures before + FirstNew(s[i..], seen) ==
            if s[i] in seen then before + FirstNew(s[i + 1..], seen)
            else before + [s[i]] + FirstNew(s[i + 1..], seen + {s[i]})
  {
    assert s[..i + 1] == s[..i] + [s[i]];
    assert s[i..][0] == s[i] && s[i..][1..] == s[i + 1..];
    var rest := FirstNew(s[i + 1..], seen + {s[i]});
    assert before + ([s[i]] + rest) == before + [s[i]] + rest;
  }

  /** Whether an operand occurs together with its negation. */
  method HasComplement(ops: seq<Predicate>) returns (found: bool)
    ensures found <==> exists q :: q in ops && Not(q) in ops
  {
    var negated: set<Predicate> := {};
    for i := 0 to |ops|
      invariant forall q :: q in negated <==> Not(q) in ops[..i]
    {
      assert ops[..i + 1] == ops[..i] + [ops[i]];
      if ops[i].Not? {
        negated := negated + {ops[i].operand};
      }
    }
    assert ops[..|ops|] == ops;
    for i := 0 to |ops|
      invariant forall j :: 0 <= j < i ==> ops[j] !in negated
    {
      if ops[i] in negated {
        return true;
      }
    }
    return false;
  }

  datatype Status =
    | OK
    | CheckFailed     // a lookup or an insertion that must succeed does not
    | NoSuchInput     // a Switch without condition

  class Analysis {
    const g: Graph
    const h: Hash
    var predicateMap: PredicateMap
    ghost var done: set<int>

    ghost predicate Valid()
      reads this
    {
      Analysed(g, h, done, predicateMap) && MapTied(predicateMap, h) && Rooted(g, predicateMap)
    }

    constructor (g: Graph, h: Hash)
      ensures this.g == g && this.h == h && done == {} && predicateMap == map[]
      ensures Valid()
    {
      this.g, this.h := g, h;
      predicateMap, done := map[], {};
    }

    /** Records the predicate of one output; there must be none yet. */
    method SetPred(v: int, slot: int, p: Predicate) returns (ok: bool)
      modifies this`predicateMap
      ensures ok <==> (v, slot) !in old(predicateMap)
      ensures predicateMap == if ok then old(predicateMap)[(v, slot) := p] else old(predicateMap)
    {
      ok := (v, slot) !in predicateMap;
      if ok {
        predicateMap := predicateMap[(v, slot) := p];
      }
    }

    /** Collects the predicates of the selected edges into node v. */
    method GetIncomingPreds(v: int, kind: EdgeKind) returns (ok: bool, preds: seq<Predicate>)
      requires v in g
      ensures ok <==> Known(g[v].inEdges, kind, predicateMap)
      ensures ok ==> preds == Incoming(g[v].inEdges, kind, predicateMap)
      // these are the predicates of all edges, of those from outputs, or of the control edges
      ensures ok && kind.DataAndControl? ==> forall p :: p in preds <==>
                exists e :: e in g[v].inEdges && (e.src, e.slot) in predicateMap && predicateMap[(e.src, e.slot)] == p
      ensures ok && kind.DataOnly? ==> forall p :: p in preds <==>
                exists e :: e in g[v].inEdges && e.slot != CONTROL_SLOT && (e.src, e.slot) in predicateMap
                            && predicateMap[(e.src, e.slot)] == p
      ensures ok && kind.ControlOnly? ==> forall p :: p in preds <==>
                exists e :: e in g[v].inEdges && e.slot == CONTROL_SLOT && (e.src, e.slot) in predicateMap
                            && predicateMap[(e.src, e.slot)] == p
    {
      var edges := g[v].inEdges;
      preds := [];
      for i := 0 to |edges|
        invariant Known(edges[..i], kind, predicateMap) && preds == Incoming(edges[..i], kind, predicateMap)
      {
        assert edges[..i + 1] == edges[..i] + [edges[i]];
        if Selected(edges[i], kind) {
          if edges[i].Tensor() !in predicateMap {
            assert edges[i] in edges;
            return false, [];
          }
          preds := preds + [predicateMap[edges[i].Tensor()]];
        }
        assert Known(edges[..i + 1], kind, predicateMap);
        IncomingStep(edges, i, kind, predicateMap);
      }
      assert edges[..|edges|] == edges;
      ok := true;
    }

    /** What a handler has to achieve for node v. */
    twostate predicate Handled(v: int, st: Status)
      requires v in g
      reads this
    {
      && (st == OK ==> InputsKnown(g, g[v], old(predicateMap)) && (v, CONTROL_SLOT) !in old(predicateMap))
      && (st == OK ==> (g[v].kind.Switch? ==> InputEdge(g[v].inEdges, 1).Some?))
      && (st == OK ==> Extends(g, v, old(predicateMap), h, predicateMap))
      && (st == NoSuchInput ==> g[v].kind.Switch? && InputEdge(g[v].inEdges, 1).None?)
      && (st == CheckFailed ==> !InputsKnown(g, g[v], old(predicateMap)) || exists k :: (v, k) in old(predicateMap))
    }

    method HandleSwitch(v: int) returns (st: Status)
      requires v in g && g[v].kind.Switch?
      modifies this`predicateMap
      ensures Handled(v, st)
      ensures st == OK ==> forall k, a: Assignment :: HasOutput(g[v].kind, k) ==> MeansAt(g, predicateMap, v, k, a)
    {
      var known, inputs := GetIncomingPreds(v, DataAndControl);
      if !known {
        return CheckFailed;
      }
      var condition := InputEdge(g[v].inEdges, 1);
      if condition.None? {
        return NoSuchInput;
      }
      var trueSwitch := Symbol(condition.value.Tensor(), true);
      var falseSwitch := Not(trueSwitch);
      ghost var m := predicateMap;
      var p0 := MakeAndOrImpl(inputs + [falseSwitch], true, h);
      var p1 := MakeAndOrImpl(inputs + [trueSwitch], true, h);
      var pc := MakeAndOrImpl(inputs, true, h);
      var ok := SetThree(v, p0, p1, pc);
      SwitchSlots(g, v, m, h);
      if ok {
        SwitchExtends(g, v, m, h, p0, p1, pc);
        HandledMeans(g, v, m, h, predicateMap);
      }
      st := if ok then OK else CheckFailed;
    }

    /** The predicates of the outputs 0, 1 and control. */
    method SetThree(v: int, p0: Predicate, p1: Predicate, pc: Predicate) returns (ok: bool)
      modifies this`predicateMap
      ensures ok ==> predicateMap == old(predicateMap)[(v, 0) := p0][(v, 1) := p1][(v, CONTROL_SLOT) := pc]
      ensures ok <==> forall k :: k in {0, 1, CONTROL_SLOT} ==> (v, k) !in old(predicateMap)
    {
      var ok0 := SetPred(v, 0, p0);
      if !ok0 {
        return false;
      }
      var ok1 := SetPred(v, 1, p1);
      if !ok1 {
        return false;
      }
      ok := SetPred(v, CONTROL_SLOT, pc);
    }

    method HandleMerge(v: int) returns (st: Status)
      requires v in g && g[v].kind.Merge?
      modifies this`predicateMap
      ensures Handled(v, st)
      ensures st == OK ==> forall k, a: Assignment :: HasOutput(g[v].kind, k) ==> MeansAt(g, predicateMap, v, k, a)
    {
      var p: Predicate;
      if HasBackedge(g, g[v]) {
        p := Symbol((v, 0), false);
      } else {
        var known, inputs := GetIncomingPreds(v, DataOnly);
        if !known {
          return CheckFailed;
        }
        p := MakeAndOrImpl(inputs, false, h);
      }
      ghost var m := predicateMap;
      var ok := SetThree(v, p, p, p);
      if ok {
        UniformExtends(g, v, m, h, p, predicateMap);
        HandledMeans(g, v, m, h, predicateMap);
      }
      st := if ok then OK else CheckFailed;
    }

    method HandleControlTrigger(v: int) returns (st: Status)
      requires v in g && g[v].kind.ControlTrigger?
      modifies this`predicateMap
      ensures Handled(v, st)
      ensures st == OK ==> forall k, a: Assignment :: HasOutput(g[v].kind, k) ==> MeansAt(g, predicateMap, v, k, a)
    {
      ghost var m := predicateMap;
      var p := MakeAndOrImpl([], true, h);
      var ok := SetPred(v, CONTROL_SLOT, p);
      if ok {
        UniformExtends(g, v, m, h, p, predicateMap);
        HandledMeans(g, v, m, h, predicateMap);
      }
      st := if ok then OK else CheckFailed;
    }

    method HandleRecv(v: int) returns (st: Status)
      requires v in g && g[v].kind.Recv?
      modifies this`predicateMap
      ensures Handled(v, st)
      ensures st == OK ==> forall k, a: Assignment :: HasOutput(g[v].kind, k) ==> MeansAt(g, predicateMap, v, k, a)
    {
      var known, inputs := GetIncomingPreds(v, DataAndControl);
      if !known {
        return CheckFailed;
      }
      ghost var m := predicateMap;
      var p := MakeAndOrImpl(inputs + [Symbol((v, 0), false)], true, h);
      var ok := SetPred(v, 0, p);
      if ok {
        ok := SetPred(v, CONTROL_SLOT, p);
      }
      if ok {
        UniformExtends(g, v, m, h, p, predicateMap);
        HandledMeans(g, v, m, h, predicateMap);
      }
      st := if ok then OK else CheckFailed;
    }

    method HandleGeneric(v: int) returns (st: Status)
      requires v in g && g[v].kind.Generic?
      modifies this`predicateMap
      ensures Handled(v, st)
      ensures st == OK ==> forall k, a: Assignment :: HasOutput(g[v].kind, k) ==> MeansAt(g, predicateMap, v, k, a)
    {
      var known, inputs := GetIncomingPreds(v, DataAndControl);
      if !known {
        return CheckFailed;
      }
      ghost var m := predicateMap;
      var p := MakeAndOrImpl(inputs, true, h);
      var ok := SetOutputs(v, g[v].kind.outputs, p);
      if ok {
        ok := SetPred(v, CONTROL_SLOT, p);
      }
      if ok {
        UniformExtends(g, v, m, h, p, predicateMap);
        HandledMeans(g, v, m, h, predicateMap);
      }
      st := if ok then OK else CheckFailed;
    }

    /** One predicate for the outputs 0..n-1. */
    method SetOutputs(v: int, n: nat, p: Predicate) returns (ok: bool)
      modifies this`predicateMap
      ensures ok ==> forall t :: t in predicateMap <==> t in old(predicateMap) || (t.0 == v && 0 <= t.1 < n)
      ensures ok ==> forall t :: t in predicateMap ==> predicateMap[t] == if t in old(predicateMap)
                then old(predicateMap)[t] else p
      ensures ok <==> forall k :: 0 <= k < n ==> (v, k) !in old(predicateMap)
    {
      for i := 0 to n
        invariant forall k :: 0 <= k < i ==> (v, k) !in old(predicateMap)
        invariant forall t :: t in predicateMap <==> t in old(predicateMap) || (t.0 == v && 0 <= t.1 < i)
        invariant forall t :: t in predicateMap ==> predicateMap[t] == if t in old(predicateMap)
                    then old(predicateMap)[t] else p
      {
        var set' := SetPred(v, i, p);
        if !set' {
          return false;
        }
      }
      return true;
    }

    method Handle(v: int) returns (st: Status)
      requires v in g
      modifies this`predicateMap
      ensures Handled(v, st)
    {
      hide MeansAt;
      match g[v].kind
      case Switch => st := HandleSwitch(v);
      case Merge => st := HandleMerge(v);
      case ControlTrigger => st := HandleControlTrigger(v);
      case Recv => st := HandleRecv(v);
      case Generic(_) => st := HandleGeneric(v);
    }

    /**
     Gives every node of the order its predicates. They are right about every execution, whatever the
     order; on an order that respects the edges no check fails.
     */
    method Populate(rpo: seq<int>) returns (st: Status)
      requires Valid() && done == {}
      requires forall v :: v in rpo ==> v in g
      modifies this
      ensures st == OK ==> Valid() && done == Elems(rpo)
      ensures st == OK ==> forall v, k :: v in rpo ==> ((v, k) in predicateMap <==> HasOutput(g[v].kind, k))
      ensures st == OK ==> forall live, truth, t :: Execution(g, live, truth) && t in predicateMap ==>
                (live(t) <==> Holds(predicateMap[t], Meaning(live, truth)))
      ensures st == OK ==> forall v, k, a: Assignment :: v in rpo && HasOutput(g[v].kind, k) ==>
                MeansAt(g, predicateMap, v, k, a)
      ensures Ordered(g, rpo) ==> st != CheckFailed
      ensures st == NoSuchInput ==> exists v :: v in rpo && g[v].kind.Switch? && InputEdge(g[v].inEdges, 1).None?
    {
      st := OK;
      for i := 0 to |rpo|
        invariant st == OK && Valid() && done == Elems(rpo[..i])
      {
        var v := rpo[i];
        assert v in rpo;
        ElemsAppend(rpo[..i], v);
        assert rpo[..i + 1] == rpo[..i] + [v];
        if Ordered(g, rpo) {
          OrderGivesInputs(g, h, rpo, i, predicateMap);
        }
        st := Step(v);
        if st != OK {
          return;
        }
      }
      assert rpo[..|rpo|] == rpo;
      AnalysedMeans(g, h, done, predicateMap);
      OutputsAre(g, h, rpo, predicateMap);
      OutputsMean(g, h, rpo, predicateMap);
    }

    /** One node of the loop. */
    method Step(v: int) returns (st: Status)
      requires Valid() && v in g
      modifies this
      ensures st == OK ==> Valid() && done == old(done) + {v}
      ensures v !in old(done) && InputsKnown(g, g[v], old(predicateMap)) ==> st != CheckFailed
      ensures st == NoSuchInput ==> g[v].kind.Switch? && InputEdge(g[v].inEdges, 1).None?
    {
      ghost var m := predicateMap;
      st := Handle(v);
      if st == OK {
        assert SlotOf(g[v], CONTROL_SLOT);
        AnalysedStep(g, h, done, m, v, predicateMap);
        TiedStep(g, v, m, h, predicateMap);
        RootedStep(g, v, m, h, predicateMap);
        done := done + {v};
      }
    }

    // ---------- queries ----------

    /**
     Whether two inputs have different predicates. If not, the inputs are live together or dead together
     in every execution.
     */
    method HasInputsWithMismatchingDeadness(v: int) returns (r: bool)
      requires Valid() && v in g && !g[v].kind.Merge?
      requires Known(g[v].inEdges, DataAndControl, predicateMap)
      ensures r <==> InputsDiffer(g[v], predicateMap)
      ensures !r ==> InputsAgree(g, g[v])
    {
      hide Analysed, Sound, Uniform, InputsAgree;
      AnalysedMeans(g, h, done, predicateMap);
      var edges := g[v].inEdges;
      var pred: Option<Predicate> := None;
      for i := 0 to |edges|
        invariant i == 0 ==> pred == None
        invariant i > 0 ==> pred.Some?
        invariant forall j :: 0 <= j < i ==> pred == Some(predicateMap[edges[j].Tensor()])
      {
        assert edges[i] in edges && Selected(edges[i], DataAndControl);
        var p := predicateMap[edges[i].Tensor()];
        if pred.Some? && pred.value != p {
          assert edges[i - 1] in edges && Selected(edges[i - 1], DataAndControl);
          return true;
        }
        pred := Some(p);
      }
      r := false;
      EqualPredicatesAgree(g, g[v], predicateMap);
    }

    /** The outgoing edges of node v start at outputs the analysis knows. */
    ghost predicate OutputsKnown(v: int)
      requires v in g
      reads this
    {
      forall j :: 0 <= j < |g[v].outSlots| ==> (v, g[v].outSlots[j]) in predicateMap
    }

    /**
     The predicate of a node as a string, `before` if it has no outgoing edge. Only a Switch, which is a
     control flow operation, could have outputs that differ.
     */
    method GetNodePredicate(v: int, before: string, name: TensorId -> string) returns (ok: bool, s: string)
      requires Valid() && v in g && OutputsKnown(v)
      ensures g[v].controlFlow ==> ok && s == "#control_flow"
      ensures ok <==> g[v].controlFlow || SameOutputs(v)
      ensures !g[v].kind.Switch? ==> ok
      ensures ok && !g[v].controlFlow ==> if g[v].outSlots == [] then s == before
                                          else s == ToString(predicateMap[(v, g[v].outSlots[0])], name)
    {
      hide Analysed, Sound, Uniform;
      AnalysedMeans(g, h, done, predicateMap);
      OutputsSame(v);
      if g[v].controlFlow {
        return true, "#control_flow";
      }
      var slots := g[v].outSlots;
      var pred: Option<Predicate> := None;
      for i := 0 to |slots|
        invariant i == 0 ==> pred == None
        invariant i > 0 ==> pred.Some?
        invariant forall j :: 0 <= j < i ==> pred == Some(predicateMap[(v, slots[j])])
      {
        var p := predicateMap[(v, slots[i])];
        if pred.Some? && pred.value != p {
          ghost var j := i - 1;
          assert predicateMap[(v, slots[j])] != p;
          return false, before;
        }
        pred := Some(p);
      }
      return true, if pred.Some? then ToString(pred.value, name) else before;
    }

    /** All outgoing edges of v carry one predicate. */
    ghost predicate SameOutputs(v: int)
      requires v in g && OutputsKnown(v)
      reads this
    {
      forall j, k :: 0 <= j < k < |g[v].outSlots| ==>
        predicateMap[(v, g[v].outSlots[j])] == predicateMap[(v, g[v].outSlots[k])]
    }

    /** The outgoing edges of any node but a Switch carry one predicate. */
    lemma OutputsSame(v: int)
      requires v in g && OutputsKnown(v) && Uniform(g, predicateMap)
      ensures !g[v].kind.Switch? ==> SameOutputs(v)
    {
    }

    /** The strings of GetNodePredicate tell the predicates of the graph apart. */
    lemma StringsIdentify(t: TensorId, u: TensorId, name: TensorId -> string)
      requires Valid() && FaithfulNames(name) && t in predicateMap && u in predicateMap
      ensures ToString(predicateMap[t], name) == ToString(predicateMap[u], name) <==> predicateMap[t] == predicateMap[u]
    {
      hide Sound, Uniform, Computed, Rooted, FaithfulNames, ToString;
      PredicatesPrintApart(predicateMap, h, name, t, u);
    }

    /** A node whose predicate prints as True is live in every execution. */
    lemma TrueNodesAreLive(v: int, k: int, live: Liveness, truth: Liveness, name: TensorId -> string)
      requires Valid() && v in g && (v, k) in predicateMap && PlainNames(name)
      requires ToString(predicateMap[(v, k)], name) == "#true"
      requires Execution(g, live, truth)
      ensures live((v, k))
    {
      PrintsTrue(predicateMap[(v, k)], name);
      assert Tells(predicateMap, live, truth);
    }
  }

  /** The outputs of a node of this kind, the control output included. */
  predicate HasOutput(kind: Kind, k: int) {
    || k == CONTROL_SLOT
    || match kind
       case Switch => k == 0 || k == 1
       case Merge => k == 0 || k == 1
       case ControlTrigger => false
       case Recv => k == 0
       case Generic(n) => 0 <= k < n
  }

  lemma OutputsAre(g: Graph, h: Hash, rpo: seq<int>, m: PredicateMap)
    requires Analysed(g, h, Elems(rpo), m) && forall v :: v in rpo ==> v in g
    ensures forall v, k :: v in rpo ==> ((v, k) in m <==> HasOutput(g[v].kind, k))
  {
    hide Sound, MapNormal, Uniform, Computed;
  }

  lemma HandledMeans(g: Graph, v: int, m: PredicateMap, h: Hash, after: PredicateMap)
    requires v in g && Handleable(g, v, m) && Extends(g, v, m, h, after)
    requires forall k :: HasOutput(g[v].kind, k) ==> (v, k) !in m
    ensures forall k, a: Assignment :: HasOutput(g[v].kind, k) ==> MeansAt(g, after, v, k, a)
  {
    hide Extends, MeansAt, Handleable;
    forall k, a: Assignment | HasOutput(g[v].kind, k) ensures MeansAt(g, after, v, k, a) {
      ExtendsMeans(g, v, m, h, after, k, a);
    }
  }

  lemma OutputsMean(g: Graph, h: Hash, rpo: seq<int>, m: PredicateMap)
    requires Analysed(g, h, Elems(rpo), m) && forall v :: v in rpo ==> v in g
    ensures forall v, k, a: Assignment :: v in rpo && HasOutput(g[v].kind, k) ==> MeansAt(g, m, v, k, a)
  {
    hide Sound, MapNormal, Uniform, Computed, MeansAt;
    forall v, k, a: Assignment | v in rpo && HasOutput(g[v].kind, k) ensures MeansAt(g, m, v, k, a) {
      AnalysedMeansAt(g, h, Elems(rpo), m, v, k, a);
    }
  }

  lemma AnalysedMeans(g: Graph, h: Hash, done: set<int>, m: PredicateMap)
    requires Analysed(g, h, done, m)
    ensures Sound(g, m) && Uniform(g, m)
  {
    hide Computed, MapNormal;
  }

  /** Any node but a Switch: one predicate for all its slots. */
  lemma UniformExtends(g: Graph, v: int, m: PredicateMap, h: Hash, p: Predicate, after: PredicateMap)
    requires v in g && !g[v].kind.Switch? && InputsKnown(g, g[v], m)
    requires p == SlotPredicate(g, v, CONTROL_SLOT, m, h)
    requires forall t :: t in after <==> t in m || (t.0 == v && SlotOf(g[v], t.1))
    requires forall t :: t in after ==> after[t] == if t in m then m[t] else p
    ensures Extends(g, v, m, h, after)
  {
  }

  lemma SwitchSlots(g: Graph, v: int, m: PredicateMap, h: Hash)
    requires v in g && g[v].kind.Switch? && InputsKnown(g, g[v], m) && InputEdge(g[v].inEdges, 1).Some?
    ensures var inputs := Incoming(g[v].inEdges, DataAndControl, m);
            var symbol := Symbol(InputEdge(g[v].inEdges, 1).value.Tensor(), true);
            && SlotPredicate(g, v, 0, m, h) == MakeAndOr(inputs + [Not(symbol)], true, h)
            && SlotPredicate(g, v, 1, m, h) == MakeAndOr(inputs + [symbol], true, h)
            && SlotPredicate(g, v, CONTROL_SLOT, m, h) == MakeAndOr(inputs, true, h)
  {
    var inputs := Incoming(g[v].inEdges, DataAndControl, m);
    assert inputs + [] == inputs;
  }

  lemma SwitchExtends(g: Graph, v: int, m: PredicateMap, h: Hash, p0: Predicate, p1: Predicate, pc: Predicate)
    requires v in g && g[v].kind.Switch? && InputsKnown(g, g[v], m) && InputEdge(g[v].inEdges, 1).Some?
    requires forall k :: k in {0, 1, CONTROL_SLOT} ==> (v, k) !in m
    requires p0 == SlotPredicate(g, v, 0, m, h) && p1 == SlotPredicate(g, v, 1, m, h)
    requires pc == SlotPredicate(g, v, CONTROL_SLOT, m, h)
    ensures Extends(g, v, m, h, m[(v, 0) := p0][(v, 1) := p1][(v, CONTROL_SLOT) := pc])
  {
    hide SlotPredicate, InputsKnown, InputEdge;
    assert forall k :: SlotOf(g[v], k) <==> k in {0, 1, CONTROL_SLOT};
  }

  /** The analysis of the graph with the absorbing Merge does report the inputs of node 4, although they agree. */
  method ReportedInVain(h: Hash) returns (reported: bool)
    ensures reported && InputsAgree(Absorbing(), Absorbing()[4])
  {
    hide SlotPredicate, InputsAgree, InputsDiffer, Sound, Uniform, Computed, MapTied, Rooted;
    var a := new Analysis(Absorbing(), h);
    AbsorbingOrdered();
    var st := a.Populate([0, 1, 2, 3, 4]);
    assert Elems([0, 1, 2, 3, 4]) == Absorbing().Keys;
    EquivalentYetDifferent(h, a.predicateMap);
    reported := a.HasInputsWithMismatchingDeadness(4);
  }
}
