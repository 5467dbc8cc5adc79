/**
 How exact the comparison of predicates is. It is never wrong about inputs it takes to agree. It is right
 about those it reports too, as long as the predicates are conjunctions of symbols; with disjunctions it
 may report inputs that agree in every execution.
 */
module Mismatches {
  import opened Predicates
  import opened Deadness
  import opened Ties
  import opened Executions
  import opened Sets

  predicate IsLiteral(q: Predicate) {
    q.Symbol? || q.Not?
  }

  /** A conjunction of symbols and negated symbols, or False. */
  predicate LiteralsOnly(p: Predicate) {
    p == FALSE || forall q :: q in Conj(p) ==> IsLiteral(q)
  }

  /** The analysis of all nodes of a graph in a proper order. */
  ghost predicate Finished(g: Graph, h: Hash, order: seq<int>, m: PredicateMap) {
    && Ordered(g, order) && (forall v :: v in g ==> v in order)
    && Analysed(g, h, g.Keys, m) && MapTied(m, h) && Rooted(g, m)
  }

  // ---------- conjunctions and their members ----------

  lemma HoldsConj(p: Predicate, a: Assignment)
    ensures Holds(p, a) <==> AllAre(Conj(p), a, true)
  {
    if p.And? {
      JoinHolds(p.operands, true, a);
    } else {
      assert p in Conj(p);
    }
  }

  lemma ConjGathers(s: seq<Predicate>, h: Hash)
    requires AllNormal(s, h) && MakeAndOr(s, true, h) != FALSE
    ensures Gathers(s, Conj(MakeAndOr(s, true, h)))
  {
    hide Normal, Complementary;
    var flat, r := Flatten(s, true, {}), MakeAndOr(s, true, h);
    FlattenNormal(s, true, {}, h);
    assert flat != [] ==> flat[0] in flat;
    forall q ensures q in Conj(r) <==> exists p :: p in s && q in Conj(p) {
      TiedMember(s, h, q);
    }
  }

  /** A disjunction that is none after simplification is one of its operands, or True. */
  lemma DisjunctionOfOne(s: seq<Predicate>, h: Hash)
    requires AllNormal(s, h)
    ensures MakeAndOr(s, false, h).Or? || MakeAndOr(s, false, h) == TRUE || MakeAndOr(s, false, h) in s
  {
    hide Complementary, Normal, Flatten, FirstNew;
    var flat := Flatten(s, false, {});
    if |flat| == 1 {
      var f := flat[0];
      FlattenMembers(s, false, {}, h, f);
      var p :| p in s && (if OfKind(p, false) then f in p.operands else f == p);
      if p.Or? {
        OtherOperand(p, h, f);
        var f' :| f' in p.operands && f' != f;
        FlattenMembers(s, false, {}, h, f');
      }
    }
  }

  lemma OtherOperand(p: Predicate, h: Hash, f: Predicate)
    requires p.Or? && Normal(p, h) && f in p.operands
    ensures exists f' :: f' in p.operands && f' != f
  {
    var ops := p.operands;
    assert ops[0] in ops && ops[1] in ops && ops[0] != ops[1];
  }

  // ---------- an execution in which given literals hold ----------

  /** Literals that can all hold. */
  ghost predicate Consistent(ps: seq<Predicate>, m: PredicateMap) {
    && Closed(ps, m) && !Complementary(ps)
    && forall q :: q in ps ==> IsLiteral(q)
  }

  ghost function ArrivalsOf(ps: seq<Predicate>): Arrivals {
    (v: int) => Symbol((v, 0), false) in ps
  }

  /** True is what has to be, and the tensors in `more`. */
  ghost function TruthOfAll(ps: seq<Predicate>, more: set<TensorId>): Liveness {
    (t: TensorId) => Symbol(t, true) in ps || t in more
  }

  ghost predicate Realises(g: Graph, live: Liveness, ps: seq<Predicate>, more: set<TensorId>) {
    && Execution(g, live, TruthOfAll(ps, more)) && Chosen(g, live, ArrivalsOf(ps))
    && forall t :: t in more ==> Not(Symbol(t, true)) !in ps
  }

  ghost predicate LiveWhere(ps: seq<Predicate>, m: PredicateMap, live: Liveness, t: TensorId)
    requires t in m
  {
    Includes(ps, Conj(m[t])) ==> live(t)
  }

  /** Where the literals cover a conjunction, they cover its operands. */
  lemma InputsCovered(g: Graph, edges: seq<InEdge>, extra: seq<Predicate>, m: PredicateMap, h: Hash,
                      ps: seq<Predicate>, live: Liveness)
    requires Known(edges, DataAndControl, m) && AllNormal(Incoming(edges, DataAndControl, m) + extra, h)
    requires Includes(ps, Conj(MakeAndOr(Incoming(edges, DataAndControl, m) + extra, true, h)))
    requires forall q :: q in ps ==> IsLiteral(q)
    requires forall e :: e in edges ==> e.Tensor() in m && LiveWhere(ps, m, live, e.Tensor())
    ensures AllLive(edges, DataAndControl, live) && forall q :: q in extra && IsLiteral(q) ==> q in ps
  {
    hide MakeAndOr, Normal;
    var inputs := Incoming(edges, DataAndControl, m);
    var s := inputs + extra;
    var r := MakeAndOr(s, true, h);
    assert r == FALSE ==> FALSE in Conj(r) && FALSE in ps;
    ConjGathers(s, h);
    forall e | e in edges ensures live(e.Tensor()) {
      assert Selected(e, DataAndControl) && m[e.Tensor()] in inputs;
      GathersAll(s, Conj(r), m[e.Tensor()]);
    }
    forall q | q in extra && IsLiteral(q) ensures q in ps {
      GathersAll(s, Conj(r), q);
      assert q in Conj(q);
    }
  }

  /** A tensor whose conjunction is covered is live if that is so of the inputs of its node. */
  lemma SlotCovered(g: Graph, h: Hash, m: PredicateMap, v: int, k: int, ps: seq<Predicate>, more: set<TensorId>,
                    live: Liveness)
    requires v in g && SlotOf(g[v], k) && Handleable(g, v, m) && MapNormal(m, h)
    requires Consistent(ps, m) && Realises(g, live, ps, more) && Tells(m, live, TruthOfAll(ps, more))
    requires (v, k) in m && m[(v, k)] == SlotPredicate(g, v, k, m, h) && Includes(ps, Conj(m[(v, k)]))
    requires InputsWhere(g, v, m, ps, live)
    ensures live((v, k))
  {
    hide MakeAndOr, Closed, Complementary, Conj, Includes, AllLive, AnyLive, LiveWhere, IsLiteral, Tells, Incoming,
        Known;
    assert Follows(g, live, TruthOfAll(ps, more), v);
    ExecutorRules(g, live, TruthOfAll(ps, more), v);
    match g[v].kind
    case Switch =>
      SwitchCovered(g, h, m, v, k, ps, more, live);
    case Merge =>
      if HasBackedge(g, g[v]) {
        LoopCovered(g, h, m, v, k, ps, more, live);
      } else {
        MergeCovered(g, h, m, v, k, ps, more, live);
      }
    case ControlTrigger =>
    case Recv =>
      RecvCovered(g, h, m, v, k, ps, more, live);
    case Generic(_) =>
      var inputs := Incoming(g[v].inEdges, DataAndControl, m);
      IncomingNormal(g[v].inEdges, DataAndControl, m, h);
      assert inputs + [] == inputs;
      InputsCovered(g, g[v].inEdges, [], m, h, ps, live);
  }

  ghost predicate InputsWhere(g: Graph, v: int, m: PredicateMap, ps: seq<Predicate>, live: Liveness)
    requires v in g
  {
    LookedAt(g, g[v]).Some? ==>
      forall e :: e in g[v].inEdges && Selected(e, LookedAt(g, g[v]).value) ==>
        e.Tensor() in m && LiveWhere(ps, m, live, e.Tensor())
  }

  lemma IncomingNormal(edges: seq<InEdge>, kind: EdgeKind, m: PredicateMap, h: Hash)
    requires Known(edges, kind, m) && MapNormal(m, h)
    ensures AllNormal(Incoming(edges, kind, m), h)
  {
    hide Normal;
  }

  lemma AllSelected(g: Graph, v: int, m: PredicateMap, ps: seq<Predicate>, live: Liveness)
    requires v in g && LookedAt(g, g[v]) == Some(DataAndControl) && InputsWhere(g, v, m, ps, live)
    ensures forall e :: e in g[v].inEdges ==> e.Tensor() in m && LiveWhere(ps, m, live, e.Tensor())
  {
    forall e | e in g[v].inEdges ensures e.Tensor() in m && LiveWhere(ps, m, live, e.Tensor()) {
      assert Selected(e, DataAndControl);
    }
  }

  lemma SwitchCovered(g: Graph, h: Hash, m: PredicateMap, v: int, k: int, ps: seq<Predicate>, more: set<TensorId>,
                      live: Liveness)
    requires v in g && g[v].kind.Switch? && SlotOf(g[v], k) && Handleable(g, v, m) && MapNormal(m, h)
    requires Consistent(ps, m) && Realises(g, live, ps, more)
    requires Includes(ps, Conj(SlotPredicate(g, v, k, m, h))) && InputsWhere(g, v, m, ps, live)
    ensures live((v, k))
  {
    hide MakeAndOr, Closed, Complementary, Conj, Includes, AllLive, AnyLive, LiveWhere, Incoming, Known, InputsWhere;
    var edges := g[v].inEdges;
    var t := InputEdge(edges, 1).value.Tensor();
    var extra := if k == 0 then [Not(Symbol(t, true))] else if k == 1 then [Symbol(t, true)] else [];
    IncomingNormal(edges, DataAndControl, m, h);
    LiteralsNormal(Incoming(edges, DataAndControl, m), extra, h);
    AllSelected(g, v, m, ps, live);
    InputsCovered(g, edges, extra, m, h, ps, live);
    assert Follows(g, live, TruthOfAll(ps, more), v);
    ExecutorRules(g, live, TruthOfAll(ps, more), v);
    if k == 0 {
      assert extra[0] in ps;
      NotBoth(ps, Symbol(t, true));
    } else if k == 1 {
      assert extra[0] in ps;
    }
  }

  lemma NotBoth(ps: seq<Predicate>, q: Predicate)
    requires !Complementary(ps) && Not(q) in ps
    ensures q !in ps
  {
  }

  lemma RecvCovered(g: Graph, h: Hash, m: PredicateMap, v: int, k: int, ps: seq<Predicate>, more: set<TensorId>,
                    live: Liveness)
    requires v in g && g[v].kind.Recv? && SlotOf(g[v], k) && Handleable(g, v, m) && MapNormal(m, h)
    requires Consistent(ps, m) && Realises(g, live, ps, more)
    requires Includes(ps, Conj(SlotPredicate(g, v, k, m, h))) && InputsWhere(g, v, m, ps, live)
    ensures live((v, k))
  {
    hide MakeAndOr, Closed, Complementary, Conj, Includes, AllLive, AnyLive, LiveWhere, Incoming, Known, InputsWhere;
    var edges, own := g[v].inEdges, Symbol((v, 0), false);
    IncomingNormal(edges, DataAndControl, m, h);
    LiteralsNormal(Incoming(edges, DataAndControl, m), [own], h);
    AllSelected(g, v, m, ps, live);
    InputsCovered(g, edges, [own], m, h, ps, live);
    assert own in [own] && own in ps;
    assert Follows(g, live, TruthOfAll(ps, more), v);
    ExecutorRules(g, live, TruthOfAll(ps, more), v);
    assert ArrivalsOf(ps)(v);
    assert Primitive(g, v);
  }

  lemma LoopCovered(g: Graph, h: Hash, m: PredicateMap, v: int, k: int, ps: seq<Predicate>, more: set<TensorId>,
                    live: Liveness)
    requires v in g && g[v].kind.Merge? && HasBackedge(g, g[v]) && SlotOf(g[v], k) && Handleable(g, v, m)
    requires Realises(g, live, ps, more) && Includes(ps, Conj(SlotPredicate(g, v, k, m, h)))
    ensures live((v, k))
  {
    hide AllLive, AnyLive;
    assert Symbol((v, 0), false) in ps;
    assert Follows(g, live, TruthOfAll(ps, more), v);
    ExecutorRules(g, live, TruthOfAll(ps, more), v);
    assert ArrivalsOf(ps)(v);
    assert Primitive(g, v);
  }

  lemma MergeCovered(g: Graph, h: Hash, m: PredicateMap, v: int, k: int, ps: seq<Predicate>, more: set<TensorId>,
                     live: Liveness)
    requires v in g && g[v].kind.Merge? && !HasBackedge(g, g[v]) && SlotOf(g[v], k) && Handleable(g, v, m)
    requires MapNormal(m, h) && Tells(m, live, TruthOfAll(ps, more))
    requires Consistent(ps, m) && Realises(g, live, ps, more)
    requires (v, k) in m && m[(v, k)] == SlotPredicate(g, v, k, m, h) && Includes(ps, Conj(m[(v, k)]))
    requires InputsWhere(g, v, m, ps, live)
    ensures live((v, k))
  {
    hide MakeAndOr, Closed, Complementary, AllLive, Normal;
    var edges, r := g[v].inEdges, m[(v, k)];
    var inputs := Incoming(edges, DataOnly, m);
    IncomingNormal(edges, DataOnly, m, h);
    DisjunctionOfOne(inputs, h);
    assert r.Or? ==> r in Conj(r) && r in ps;
    if r in inputs {
      var e :| e in edges && Selected(e, DataOnly) && m[e.Tensor()] == r;
      assert LiveWhere(ps, m, live, e.Tensor());
      assert Follows(g, live, TruthOfAll(ps, more), v);
      ExecutorRules(g, live, TruthOfAll(ps, more), v);
    } else {
      HoldsConj(TRUE, Meaning(live, TruthOfAll(ps, more)));
    }
  }

  /** Every tensor whose conjunction is covered by the literals is live. */
  lemma {:induction false} CoveredIsLive(g: Graph, h: Hash, order: seq<int>, m: PredicateMap, n: nat,
                                         ps: seq<Predicate>, more: set<TensorId>, live: Liveness)
    requires Finished(g, h, order, m) && n <= |order| && Consistent(ps, m) && Realises(g, live, ps, more)
    ensures forall t :: t in m && t.0 in order[..n] ==> LiveWhere(ps, m, live, t)
  {
    hide LiveWhere, Consistent, Realises, Computed, Sound, MapNormal, Uniform, MapTied, Rooted;
    if n > 0 {
      CoveredIsLive(g, h, order, m, n - 1, ps, more, live);
      assert order[..n] == order[..n - 1] + [order[n - 1]];
      forall t | t in m && t.0 == order[n - 1] ensures LiveWhere(ps, m, live, t) {
        InputsEarlier(g, h, order, m, n - 1, ps, live);
        OneCovered(g, h, order, m, t, ps, more, live);
      }
    }
  }

  lemma InputsEarlier(g: Graph, h: Hash, order: seq<int>, m: PredicateMap, i: nat, ps: seq<Predicate>, live: Liveness)
    requires Finished(g, h, order, m) && i < |order|
    requires forall t :: t in m && t.0 in order[..i] ==> LiveWhere(ps, m, live, t)
    ensures InputsWhere(g, order[i], m, ps, live)
  {
    hide LiveWhere, Computed, Sound, MapNormal, Uniform, MapTied, Rooted;
    var node := g[order[i]];
    if LookedAt(g, node).Some? {
      forall e | e in node.inEdges && Selected(e, LookedAt(g, node).value)
        ensures e.Tensor() in m && LiveWhere(ps, m, live, e.Tensor())
      {
        assert !FromNextIteration(g, e);
        assert e.src in order[..i];
      }
    }
  }

  lemma OneCovered(g: Graph, h: Hash, order: seq<int>, m: PredicateMap, t: TensorId,
                   ps: seq<Predicate>, more: set<TensorId>, live: Liveness)
    requires Finished(g, h, order, m) && t in m && Consistent(ps, m) && Realises(g, live, ps, more)
    requires t.0 in g && InputsWhere(g, t.0, m, ps, live)
    ensures LiveWhere(ps, m, live, t)
  {
    hide Includes, Conj, SlotPredicate, Consistent, MapNormal, Uniform, MapTied, Rooted, Ordered, Tells, Handleable;
    assert t == (t.0, t.1);
    assert Computed(g, h, g.Keys, m) && SlotOf(g[t.0], t.1);
    assert Tells(m, live, TruthOfAll(ps, more));
    if Includes(ps, Conj(m[t])) {
      SlotCovered(g, h, m, t.0, t.1, ps, more, live);
    }
  }

  lemma InOrder(g: Graph, order: seq<int>, v: int)
    requires v in g && forall w :: w in g ==> w in order
    ensures v in order[..|order|]
  {
    assert order[..|order|] == order;
  }

  lemma WhereLive(ps: seq<Predicate>, m: PredicateMap, live: Liveness, t: TensorId)
    requires t in m && LiveWhere(ps, m, live, t) && Includes(ps, Conj(m[t]))
    ensures live(t)
  {
  }

  lemma CoveredLive(g: Graph, h: Hash, order: seq<int>, m: PredicateMap, ps: seq<Predicate>, more: set<TensorId>,
                    live: Liveness, t: TensorId)
    requires Finished(g, h, order, m) && Consistent(ps, m) && Realises(g, live, ps, more)
    requires t in m && Includes(ps, Conj(m[t]))
    ensures live(t)
  {
    hide Consistent, Realises, Includes, Conj, Computed, Sound, MapNormal, Uniform, MapTied, Rooted, Ordered;
    CoveredIsLive(g, h, order, m, |order|, ps, more, live);
    InOrder(g, order, t.0);
    assert LiveWhere(ps, m, live, t);
    WhereLive(ps, m, live, t);
  }

  /** All the literals hold. */
  lemma LiteralHolds(g: Graph, h: Hash, order: seq<int>, m: PredicateMap, ps: seq<Predicate>, more: set<TensorId>,
                     live: Liveness, q: Predicate)
    requires Finished(g, h, order, m) && Consistent(ps, m) && Realises(g, live, ps, more) && q in ps
    ensures Holds(q, Meaning(live, TruthOfAll(ps, more)))
  {
    hide Finished, Includes, Conj, Execution, Chosen;
    if q.Not? {
      var t :| TruthOf(q, t);
      NotBoth(ps, Symbol(t, true));
    } else {
      assert TruthOf(q, q.tensor) || q == Symbol(q.tensor, false);
      CoveredLive(g, h, order, m, ps, more, live, q.tensor);
    }
  }

  /** There is an execution in which given consistent literals hold. */
  lemma Realisation(g: Graph, h: Hash, order: seq<int>, m: PredicateMap, ps: seq<Predicate>, more: set<TensorId>)
    returns (live: Liveness)
    requires Finished(g, h, order, m) && Consistent(ps, m) && forall t :: t in more ==> Not(Symbol(t, true)) !in ps
    ensures Realises(g, live, ps, more)
  {
    hide Analysed, Execution, Chosen, Consistent, MapTied, Rooted;
    live := ExecutionExists(g, order, ArrivalsOf(ps), TruthOfAll(ps, more));
  }

  // ---------- conjunctions that differ come apart ----------

  lemma ConjConsistent(g: Graph, h: Hash, order: seq<int>, m: PredicateMap, t: TensorId)
    requires Finished(g, h, order, m) && t in m && LiteralsOnly(m[t]) && m[t] != FALSE
    ensures Consistent(Conj(m[t]), m)
  {
    hide Sound, Computed, Uniform, Rooted, Ordered;
    ConjTied(m[t], m, h);
    assert Normal(m[t], h);
  }

  lemma BothClosed(ps: seq<Predicate>, qs: seq<Predicate>, m: PredicateMap)
    requires Closed(ps, m) && Closed(qs, m)
    ensures Closed(ps + qs, m)
  {
    hide Conj;
    forall q, t | q in ps + qs && TruthOf(q, t) ensures t in m && Includes(ps + qs, Conj(m[t])) {
      assert q in ps || q in qs;
    }
    forall t | Symbol(t, false) in ps + qs
      ensures t in m && Symbol(t, false) in Conj(m[t]) && Includes(ps + qs, Conj(m[t]))
    {
      assert Symbol(t, false) in ps || Symbol(t, false) in qs;
    }
  }

  /** Adding the conditions under which s is live to literals that have all their positive members. */
  lemma AddedConsistent(g: Graph, h: Hash, order: seq<int>, m: PredicateMap, ps: seq<Predicate>, qs: seq<Predicate>,
                        s: TensorId)
    requires Finished(g, h, order, m) && Consistent(ps, m) && Consistent(qs, m)
    requires Not(Symbol(s, true)) in qs && Not(Symbol(s, true)) !in ps
    requires forall q :: q in qs && q.Symbol? ==> q in ps
    requires forall q :: q in ps ==> Not(q) !in qs
    ensures s in m && Consistent(ps + Conj(m[s]), m) && Not(Symbol(s, true)) !in ps + Conj(m[s])
  {
    hide Sound, Computed, Uniform, Ordered, MapNormal, AllTied, Conj;
    var l := Not(Symbol(s, true));
    assert l in qs && TruthOf(l, s);
    var cs := Conj(m[s]);
    assert Includes(qs, cs);
    ConjTied(m[s], m, h);
    BothClosed(ps, cs, m);
    forall q | q in cs ensures q in qs && !TruthOf(q, s) {
    }
    forall q | q in ps + cs ensures IsLiteral(q) {
      assert q in ps || q in qs;
    }
    forall q | q in ps + cs ensures Not(q) !in ps + cs {
      if q.Symbol? {
        assert q in ps && Not(q) !in ps && Not(q) !in qs;
      } else {
        assert forall u :: !TruthOf(Not(q), u);
      }
    }
  }

  /** A literal of qs that is none of ps, and how to make it fail: a symbol, or what ps contradicts, if possible. */
  lemma Missing(m: PredicateMap, ps: seq<Predicate>, qs: seq<Predicate>) returns (l: Predicate)
    requires Consistent(ps, m) && Consistent(qs, m) && exists q :: q in qs && q !in ps
    ensures l in qs && (l.Symbol? || (l.Not? && l.operand.Symbol? && l.operand.mustBeTrue))
    ensures l.Symbol? ==> l !in ps
    ensures l.Not? && l.operand !in ps ==>
              l !in ps && (forall q :: q in qs && q.Symbol? ==> q in ps) && (forall q :: q in ps ==> Not(q) !in qs)
  {
    hide Conj, Includes, Complementary;
    if q :| q in qs && q.Symbol? && q !in ps {
      l := q;
    } else if q :| q in ps && Not(q) in qs {
      l := Not(q);
      assert exists t :: TruthOf(l, t);
    } else {
      l :| l in qs && l !in ps;
      assert l.Not? && exists t :: TruthOf(l, t);
    }
  }

  ghost predicate Falsified(m: PredicateMap, ps: seq<Predicate>, more: set<TensorId>, l: Predicate) {
    && (l.Symbol? ==> l !in ps && more == {})
    && (l.Not? && l.operand !in ps ==>
          l.operand.Symbol? && l.operand.tensor in more && l.operand.tensor in m
              && Includes(ps, Conj(m[l.operand.tensor])))
  }

  lemma LiteralFails(g: Graph, h: Hash, order: seq<int>, m: PredicateMap, ps: seq<Predicate>, more: set<TensorId>,
                     live: Liveness, qs: seq<Predicate>, l: Predicate)
    requires Finished(g, h, order, m) && Consistent(ps, m) && Realises(g, live, ps, more)
    requires Consistent(qs, m) && l in qs && Falsified(m, ps, more, l)
    ensures !Holds(l, Meaning(live, TruthOfAll(ps, more)))
  {
    hide Execution, Ordered, Analysed, MapTied, Conj, Includes, AllLive;
    match l
    case Symbol(s, b) =>
      if !b {
        assert Primitive(g, s.0) && s == (s.0, 0);
      }
    case Not(x) =>
      if x in ps {
        LiteralHolds(g, h, order, m, ps, more, live, x);
      } else {
        CoveredLive(g, h, order, m, ps, more, live, x.tensor);
      }
    case And(_) =>
    case Or(_) =>
  }

  lemma TellsHere(g: Graph, h: Hash, order: seq<int>, m: PredicateMap, live: Liveness, truth: Liveness, t: TensorId)
    requires Finished(g, h, order, m) && Execution(g, live, truth) && t in m
    ensures live(t) <==> Holds(m[t], Meaning(live, truth))
  {
    hide Execution, Computed, Uniform, MapNormal, MapTied, Rooted, Ordered;
    assert Tells(m, live, truth);
  }

  /** If a literal of u is none of t, an execution has t live and u dead. */
  lemma ComeApart(g: Graph, h: Hash, order: seq<int>, m: PredicateMap, t: TensorId, u: TensorId)
    returns (live: Liveness, truth: Liveness)
    requires Finished(g, h, order, m) && t in m && u in m
    requires LiteralsOnly(m[t]) && LiteralsOnly(m[u]) && m[t] != FALSE && m[u] != FALSE
    requires exists q :: q in Conj(m[u]) && q !in Conj(m[t])
    ensures Execution(g, live, truth) && live(t) && !live(u)
  {
    hide Finished, Consistent, Realises, LiteralsOnly, Conj;
    var ps, qs := Conj(m[t]), Conj(m[u]);
    var more: set<TensorId> := {};
    ConjConsistent(g, h, order, m, t);
    ConjConsistent(g, h, order, m, u);
    var l := Missing(m, ps, qs);
    if l.Not? && l.operand !in ps {
      var s := l.operand.tensor;
      AddedConsistent(g, h, order, m, ps, qs, s);
      ps, more := ps + Conj(m[s]), {s};
    }
    live := Realisation(g, h, order, m, ps, more);
    truth := TruthOfAll(ps, more);
    CoveredLive(g, h, order, m, ps, more, live, t);
    LiteralFails(g, h, order, m, ps, more, live, qs, l);
    HoldsConj(m[u], Meaning(live, truth));
    ExecutionOf(g, live, ps, more);
    TellsHere(g, h, order, m, live, truth, u);
  }

  lemma ExecutionOf(g: Graph, live: Liveness, ps: seq<Predicate>, more: set<TensorId>)
    requires Realises(g, live, ps, more)
    ensures Execution(g, live, TruthOfAll(ps, more))
  {
  }

  /** A predicate other than False that is made of literals is live in some execution. */
  lemma SomewhereLive(g: Graph, h: Hash, order: seq<int>, m: PredicateMap, t: TensorId)
    returns (live: Liveness, truth: Liveness)
    requires Finished(g, h, order, m) && t in m && LiteralsOnly(m[t]) && m[t] != FALSE
    ensures Execution(g, live, truth) && live(t)
  {
    hide Finished, Consistent, Realises, LiteralsOnly, Conj;
    var ps := Conj(m[t]);
    ConjConsistent(g, h, order, m, t);
    live := Realisation(g, h, order, m, ps, {});
    truth := TruthOfAll(ps, {});
    CoveredLive(g, h, order, m, ps, {}, live, t);
    ExecutionOf(g, live, ps, {});
  }

  /** Conjunctions of the same literals are equal, where hashes tell the literals apart. */
  lemma SameConj(p: Predicate, q: Predicate, h: Hash)
    requires Normal(p, h) && Normal(q, h) && HashSeparates(Conj(p) + Conj(q), h)
    requires forall l :: l in Conj(p) <==> l in Conj(q)
    ensures p == q
  {
    ConjSorted(p, h);
    ConjSorted(q, h);
    forall l, l' | l in Conj(p) && l' in Conj(p) && h(l) == h(l') ensures l == l' {
      assert l in Conj(p) + Conj(q) && l' in Conj(p) + Conj(q);
    }
    SortedUnique(Conj(p), Conj(q), h);
  }

  lemma ConjSorted(p: Predicate, h: Hash)
    requires Normal(p, h)
    ensures SortedByHash(Conj(p), h) && Distinct(Conj(p)) && (p.And? <==> |Conj(p)| != 1)
  {
  }

  ghost predicate LiveTogether(g: Graph, t: TensorId, u: TensorId) {
    forall live, truth :: Execution(g, live, truth) ==> (live(t) <==> live(u))
  }

  /**
   Where predicates are conjunctions of literals told apart by their hashes, comparing them is exact: they
   are equal precisely if their tensors are live together in every execution.
   */
  lemma EqualIffTogether(g: Graph, h: Hash, order: seq<int>, m: PredicateMap, t: TensorId, u: TensorId)
    requires Finished(g, h, order, m) && t in m && u in m && LiteralsOnly(m[t]) && LiteralsOnly(m[u])
    requires HashSeparates(Conj(m[t]) + Conj(m[u]), h)
    ensures LiveTogether(g, t, u) <==> m[t] == m[u]
  {
    hide Finished, LiteralsOnly, Execution, HashSeparates, Conj, Normal;
    if m[t] == m[u] {
      forall live, truth | Execution(g, live, truth) ensures live(t) <==> live(u) {
        TellsHere(g, h, order, m, live, truth, t);
        TellsHere(g, h, order, m, live, truth, u);
      }
    } else {
      var live, truth := Apart(g, h, order, m, t, u);
      assert live(t) != live(u);
    }
  }

  lemma Apart(g: Graph, h: Hash, order: seq<int>, m: PredicateMap, t: TensorId, u: TensorId)
    returns (live: Liveness, truth: Liveness)
    requires Finished(g, h, order, m) && t in m && u in m && LiteralsOnly(m[t]) && LiteralsOnly(m[u])
    requires HashSeparates(Conj(m[t]) + Conj(m[u]), h) && m[t] != m[u]
    ensures Execution(g, live, truth) && live(t) != live(u)
  {
    hide LiteralsOnly, Execution, HashSeparates, Conj, Normal, Ordered, Computed, Sound, Uniform, MapTied, Rooted;
    if m[t] == FALSE {
      live, truth := SomewhereLive(g, h, order, m, u);
      TellsHere(g, h, order, m, live, truth, t);
    } else if m[u] == FALSE {
      live, truth := SomewhereLive(g, h, order, m, t);
      TellsHere(g, h, order, m, live, truth, u);
    } else if exists q :: q in Conj(m[u]) && q !in Conj(m[t]) {
      live, truth := ComeApart(g, h, order, m, t, u);
    } else if exists q :: q in Conj(m[t]) && q !in Conj(m[u]) {
      live, truth := ComeApart(g, h, order, m, u, t);
    } else {
      SameConj(m[t], m[u], h);
      assert false;
    }
  }

  // ---------- the query ----------

  /** The predicates of the inputs are conjunctions of literals that the hash tells apart. */
  ghost predicate PlainInputs(node: Node, m: PredicateMap, h: Hash) {
    && Known(node.inEdges, DataAndControl, m)
    && forall e, f :: e in node.inEdges && f in node.inEdges ==>
         && e.Tensor() in m && f.Tensor() in m && LiteralsOnly(m[e.Tensor()])
         && HashSeparates(Conj(m[e.Tensor()]) + Conj(m[f.Tensor()]), h)
  }

  /** On such inputs a mismatch is reported exactly if in some execution one input is live and another dead. */
  lemma MismatchExact(g: Graph, h: Hash, order: seq<int>, m: PredicateMap, v: int)
    requires Finished(g, h, order, m) && v in g && PlainInputs(g[v], m, h)
    ensures InputsAgree(g, g[v]) <==> !InputsDiffer(g[v], m)
  {
    hide Finished, LiteralsOnly, Execution, HashSeparates, Conj;
    forall e, f | e in g[v].inEdges && f in g[v].inEdges
      ensures LiveTogether(g, e.Tensor(), f.Tensor()) <==> m[e.Tensor()] == m[f.Tensor()]
    {
      EqualIffTogether(g, h, order, m, e.Tensor(), f.Tensor());
    }
    if InputsAgree(g, g[v]) {
      forall e, f | e in g[v].inEdges && f in g[v].inEdges ensures LiveTogether(g, e.Tensor(), f.Tensor()) {
      }
    }
  }

  // ---------- which graphs have such inputs ----------

  /** Whatever the predicates of the given nodes are computed from is among them. */
  ghost predicate Upstream(g: Graph, up: set<int>) {
    forall v, e :: v in up && v in g && e in g[v].inEdges && Reads(g, v, e) ==> e.src in up
  }

  /** The handler of node v looks up the predicate behind the edge. */
  predicate Reads(g: Graph, v: int, e: InEdge)
    requires v in g
  {
    LookedAt(g, g[v]).Some? && Selected(e, LookedAt(g, g[v]).value)
  }

  /** Some execution has the tensor live. */
  ghost predicate Possible(g: Graph, t: TensorId) {
    exists live, truth :: Execution(g, live, truth) && live(t)
  }

  /** Outside loops, a Merge among the given nodes has nothing to choose from: its data inputs are live together. */
  ghost predicate NoChoice(g: Graph, up: set<int>) {
    forall v, e, f :: v in up && v in g && g[v].kind.Merge? && !HasBackedge(g, g[v])
                      && e in g[v].inEdges && f in g[v].inEdges && Selected(e, DataOnly) && Selected(f, DataOnly) ==>
      LiveTogether(g, e.Tensor(), f.Tensor())
  }

  predicate TensorOf(g: Graph, t: TensorId) {
    t.0 in g && SlotOf(g[t.0], t.1)
  }

  /** The liveness or the truth of a tensor of the graph, or its falsehood. */
  predicate LiteralOf(g: Graph, q: Predicate) {
    (q.Symbol? && TensorOf(g, q.tensor)) || (q.Not? && q.operand.Symbol? && TensorOf(g, q.operand.tensor))
  }

  /** A conjunction of such literals. */
  predicate LiteralsOf(g: Graph, p: Predicate) {
    p != FALSE && forall q :: q in Conj(p) ==> LiteralOf(g, q)
  }

  /** No two literals about the graph have the same hash. */
  ghost predicate HashTells(g: Graph, h: Hash) {
    forall p, q :: LiteralOf(g, p) && LiteralOf(g, q) && h(p) == h(q) ==> p == q
  }

  ghost predicate MapOf(g: Graph, m: PredicateMap) {
    forall t :: t in m ==> TensorOf(g, t)
  }

  lemma FinishedMap(g: Graph, h: Hash, order: seq<int>, m: PredicateMap)
    requires Finished(g, h, order, m)
    ensures MapOf(g, m)
  {
    hide Ordered, Computed, Sound, Uniform, MapTied, Rooted, MapNormal;
    forall t | t in m ensures TensorOf(g, t) {
      assert t == (t.0, t.1);
    }
  }

  lemma PlainLiterals(g: Graph, p: Predicate)
    requires LiteralsOf(g, p)
    ensures LiteralsOnly(p) && p != FALSE
  {
  }

  lemma PossibleIsTrue(g: Graph, h: Hash, order: seq<int>, m: PredicateMap, t: TensorId)
    requires Finished(g, h, order, m) && t in m && Possible(g, t)
    ensures m[t] != FALSE
  {
    hide Finished, Execution;
    var live, truth :| Execution(g, live, truth) && live(t);
    TellsHere(g, h, order, m, live, truth, t);
  }

  lemma LiteralsSeparate(g: Graph, h: Hash, p: Predicate, q: Predicate)
    requires HashTells(g, h) && LiteralsOf(g, p) && LiteralsOf(g, q)
    ensures HashSeparates(Conj(p) + Conj(q), h)
  {
    forall l, l' | l in Conj(p) + Conj(q) && l' in Conj(p) + Conj(q) && h(l) == h(l') ensures l == l' {
      assert LiteralOf(g, l) && LiteralOf(g, l');
    }
  }

  /** Of operands that are literals the factory makes a conjunction of literals. */
  lemma ConjunctionLiterals(g: Graph, s: seq<Predicate>, h: Hash)
    requires AllNormal(s, h) && MakeAndOr(s, true, h) != FALSE
    requires forall p :: p in s ==> LiteralsOf(g, p)
    ensures LiteralsOf(g, MakeAndOr(s, true, h))
  {
    hide Normal, MakeAndOr;
    var r := MakeAndOr(s, true, h);
    ConjGathers(s, h);
    forall q | q in Conj(r) ensures LiteralOf(g, q) {
      var p :| p in s && q in Conj(p);
    }
  }

  /** A disjunction of one formula, repeated, is that formula. */
  lemma DisjunctionSame(s: seq<Predicate>, h: Hash, p: Predicate)
    requires AllNormal(s, h) && s != [] && (forall q :: q in s ==> q == p) && !p.Or?
    ensures MakeAndOr(s, false, h) == p
  {
    hide Normal, Flatten, Complementary;
    var flat := Flatten(s, false, {});
    assert s[0] in s;
    FlattenNormal(s, false, {}, h);
    forall q ensures q in flat <==> q == p {
      FlattenMembers(s, false, {}, h, q);
      assert FlatMember(s, false, q) <==> q == p by {
        if q == p {
          assert p in s && !OfKind(p, false);
        }
      }
    }
    OnlyOne(flat, p);
  }

  lemma NoOperands(h: Hash)
    ensures MakeAndOr([], false, h) == FALSE
  {
  }

  lemma FirstTwoDiffer(s: seq<Predicate>)
    requires Distinct(s)
    ensures |s| > 1 ==> s[0] != s[1]
  {
  }

  lemma OnlyOne(s: seq<Predicate>, p: Predicate)
    requires Distinct(s) && forall q :: q in s <==> q == p
    ensures s == [p]
  {
    assert p in s;
    forall i | 0 <= i < |s| ensures s[i] == p {
      assert s[i] in s;
    }
    FirstTwoDiffer(s);
  }

  ghost predicate LiteralInputs(g: Graph, v: int, m: PredicateMap)
    requires v in g
  {
    forall e :: e in g[v].inEdges && Reads(g, v, e) ==>
      e.Tensor() in m && LiteralsOf(g, m[e.Tensor()])
  }

  lemma IncomingLiterals(g: Graph, edges: seq<InEdge>, kind: EdgeKind, m: PredicateMap)
    requires Known(edges, kind, m)
    requires forall e :: e in edges && Selected(e, kind) ==> LiteralsOf(g, m[e.Tensor()])
    ensures forall p :: p in Incoming(edges, kind, m) ==> LiteralsOf(g, p)
  {
    forall p | p in Incoming(edges, kind, m) ensures LiteralsOf(g, p) {
      var e :| e in edges && Selected(e, kind) && m[e.Tensor()] == p;
    }
  }

  /** The data inputs all have the same predicate. */
  ghost predicate SameData(edges: seq<InEdge>, m: PredicateMap) {
    forall e, f :: e in edges && f in edges && DataIn(e, m) && DataIn(f, m) ==> m[e.Tensor()] == m[f.Tensor()]
  }

  predicate DataIn(e: InEdge, m: PredicateMap) {
    Selected(e, DataOnly) && e.Tensor() in m
  }

  /** A node over literals makes literals, unless it has to choose between different ones. */
  lemma SlotLiterals(g: Graph, h: Hash, m: PredicateMap, v: int, k: int)
    requires v in g && SlotOf(g[v], k) && Handleable(g, v, m) && MapNormal(m, h) && LiteralInputs(g, v, m)
    requires MapOf(g, m)
    requires SlotPredicate(g, v, k, m, h) != FALSE
    requires g[v].kind.Merge? && !HasBackedge(g, g[v]) ==> SameData(g[v].inEdges, m)
    ensures LiteralsOf(g, SlotPredicate(g, v, k, m, h))
  {
    hide MakeAndOr, Normal, LiteralsOf;
    var edges := g[v].inEdges;
    match g[v].kind
    case Switch =>
      ExtraLiterals(g, h, m, v, k);
    case Merge =>
      if HasBackedge(g, g[v]) {
        LiteralIs(g, Symbol((v, 0), false));
      } else {
        MergeLiterals(g, h, m, v, k);
      }
    case ControlTrigger =>
      LiteralIs(g, TRUE);
      NormalIsFixed(TRUE, true, h);
    case Recv =>
      ExtraLiterals(g, h, m, v, k);
    case Generic(_) =>
      IncomingNormal(edges, DataAndControl, m, h);
      IncomingLiterals(g, edges, DataAndControl, m);
      ConjunctionLiterals(g, Incoming(edges, DataAndControl, m), h);
  }

  lemma LiteralIs(g: Graph, p: Predicate)
    requires LiteralOf(g, p) || p == TRUE
    ensures LiteralsOf(g, p)
  {
  }

  /** A Switch or a receiving node adds a literal. */
  lemma ExtraLiterals(g: Graph, h: Hash, m: PredicateMap, v: int, k: int)
    requires v in g && SlotOf(g[v], k) && Handleable(g, v, m) && MapNormal(m, h) && LiteralInputs(g, v, m)
    requires MapOf(g, m)
    requires g[v].kind.Switch? || g[v].kind.Recv?
    requires SlotPredicate(g, v, k, m, h) != FALSE
    ensures LiteralsOf(g, SlotPredicate(g, v, k, m, h))
  {
    hide MakeAndOr, Normal, LiteralsOf;
    var edges := g[v].inEdges;
    var inputs := Incoming(edges, DataAndControl, m);
    var extra :=
      if g[v].kind.Recv? then [Symbol((v, 0), false)]
      else
        var t := InputEdge(edges, 1).value.Tensor();
        if k == 0 then [Not(Symbol(t, true))] else if k == 1 then [Symbol(t, true)] else [];
    IncomingNormal(edges, DataAndControl, m, h);
    LiteralsNormal(inputs, extra, h);
    IncomingLiterals(g, edges, DataAndControl, m);
    forall p | p in inputs + extra ensures LiteralsOf(g, p) {
      if p in extra {
        LiteralIs(g, p);
      }
    }
    ConjunctionLiterals(g, inputs + extra, h);
  }

  lemma MergeLiterals(g: Graph, h: Hash, m: PredicateMap, v: int, k: int)
    requires v in g && g[v].kind.Merge? && !HasBackedge(g, g[v]) && SlotOf(g[v], k) && Handleable(g, v, m)
    requires MapNormal(m, h) && LiteralInputs(g, v, m) && SlotPredicate(g, v, k, m, h) != FALSE
    requires SameData(g[v].inEdges, m)
    ensures LiteralsOf(g, SlotPredicate(g, v, k, m, h))
  {
    hide Normal, Flatten, Complementary;
    var inputs := Incoming(g[v].inEdges, DataOnly, m);
    IncomingNormal(g[v].inEdges, DataOnly, m, h);
    IncomingLiterals(g, g[v].inEdges, DataOnly, m);
    if inputs == [] {
      NoOperands(h);
    } else {
      var p := inputs[0];
      assert p in inputs;
      assert p.Or? ==> p in Conj(p);
      forall q | q in inputs ensures q == p {
        var e :| e in g[v].inEdges && Selected(e, DataOnly) && m[e.Tensor()] == p;
        var f :| f in g[v].inEdges && Selected(f, DataOnly) && m[f.Tensor()] == q;
        assert DataIn(e, m) && DataIn(f, m);
      }
      DisjunctionSame(inputs, h, p);
    }
  }

  /** Upstream of nodes that choose, and where everything may be live, the predicates are made of literals. */
  lemma {:induction false} UpstreamLiterals(g: Graph, h: Hash, order: seq<int>, m: PredicateMap, up: set<int>, n: nat)
    requires Finished(g, h, order, m) && n <= |order| && HashTells(g, h) && Upstream(g, up) && NoChoice(g, up)
    requires forall t :: t in m && t.0 in up ==> Possible(g, t)
    ensures forall t :: t in m && t.0 in up && t.0 in order[..n] ==> LiteralsOf(g, m[t])
  {
    hide Finished, LiteralsOf, Possible, NoChoice, Upstream, HashTells;
    if n > 0 {
      UpstreamLiterals(g, h, order, m, up, n - 1);
      assert order[..n] == order[..n - 1] + [order[n - 1]];
      forall t | t in m && t.0 in up && t.0 == order[n - 1] ensures LiteralsOf(g, m[t]) {
        PossibleIsTrue(g, h, order, m, t);
        OneUpstream(g, h, order, m, up, n - 1, t);
      }
    }
  }

  lemma OneUpstream(g: Graph, h: Hash, order: seq<int>, m: PredicateMap, up: set<int>, i: nat, t: TensorId)
    requires Finished(g, h, order, m) && i < |order| && t.0 == order[i] && t in m && t.0 in up && m[t] != FALSE
    requires HashTells(g, h) && Upstream(g, up) && NoChoice(g, up)
    requires forall u :: u in m && u.0 in up && u.0 in order[..i] ==> LiteralsOf(g, m[u])
    ensures LiteralsOf(g, m[t])
  {
    hide LiteralsOf, Sound, Uniform, MapTied, Rooted, MapNormal, Handleable, SlotPredicate, HashTells, LiveTogether;
    var v := t.0;
    assert t == (v, t.1) && v in g && SlotOf(g[v], t.1);
    assert Computed(g, h, g.Keys, m);
    SourcesUpstream(g, h, order, m, up, i);
    FinishedMap(g, h, order, m);
    if g[v].kind.Merge? && !HasBackedge(g, g[v]) {
      forall e, f | e in g[v].inEdges && f in g[v].inEdges && DataIn(e, m) && DataIn(f, m)
        ensures m[e.Tensor()] == m[f.Tensor()]
      {
        LiteralsSeparate(g, h, m[e.Tensor()], m[f.Tensor()]);
        PlainLiterals(g, m[e.Tensor()]);
        PlainLiterals(g, m[f.Tensor()]);
        EqualIffTogether(g, h, order, m, e.Tensor(), f.Tensor());
      }
    }
    SlotLiterals(g, h, m, v, t.1);
  }

  lemma SourcesUpstream(g: Graph, h: Hash, order: seq<int>, m: PredicateMap, up: set<int>, i: nat)
    requires Finished(g, h, order, m) && i < |order| && order[i] in up && order[i] in g && Upstream(g, up)
    requires forall u :: u in m && u.0 in up && u.0 in order[..i] ==> LiteralsOf(g, m[u])
    ensures LiteralInputs(g, order[i], m)
  {
    hide LiteralsOf, Sound, Uniform, MapTied, Rooted, MapNormal, Computed;
    forall e | e in g[order[i]].inEdges && Reads(g, order[i], e)
      ensures e.Tensor() in m && LiteralsOf(g, m[e.Tensor()])
    {
      assert !FromNextIteration(g, e);
      assert e.src in order[..i];
    }
  }

  /**
   So on a graph, no predicates given: where upstream of node v every tensor is live in some execution and no
   Merge outside a loop has data inputs that may differ in liveness, a mismatch is reported exactly if there is one.
   */
  lemma MismatchExactUpstream(g: Graph, h: Hash, order: seq<int>, m: PredicateMap, v: int, up: set<int>)
    requires Finished(g, h, order, m) && v in g && Known(g[v].inEdges, DataAndControl, m)
    requires HashTells(g, h) && Upstream(g, up) && NoChoice(g, up) && forall e :: e in g[v].inEdges ==> e.src in up
    requires forall t :: t in m && t.0 in up ==> Possible(g, t)
    ensures InputsAgree(g, g[v]) <==> !InputsDiffer(g[v], m)
  {
    hide Finished, LiteralsOf, Possible, NoChoice, Upstream, HashTells, HashSeparates, InputsAgree, InputsDiffer;
    UpstreamLiterals(g, h, order, m, up, |order|);
    forall e | e in g[v].inEdges
      ensures e.Tensor() in m && LiteralsOf(g, m[e.Tensor()])
    {
      assert Selected(e, DataAndControl);
      TensorInOrder(g, h, order, m, e.Tensor());
    }
    forall e, f | e in g[v].inEdges && f in g[v].inEdges
      ensures LiteralsOnly(m[e.Tensor()]) && HashSeparates(Conj(m[e.Tensor()]) + Conj(m[f.Tensor()]), h)
    {
      PlainLiterals(g, m[e.Tensor()]);
      LiteralsSeparate(g, h, m[e.Tensor()], m[f.Tensor()]);
    }
    MismatchExact(g, h, order, m, v);
  }

  lemma TensorInOrder(g: Graph, h: Hash, order: seq<int>, m: PredicateMap, t: TensorId)
    requires Finished(g, h, order, m) && t in m
    ensures t.0 in order[..|order|]
  {
    hide Computed, Sound, MapNormal, Uniform, MapTied, Rooted, Ordered;
    assert t.0 in g;
    InOrder(g, order, t.0);
  }

  // ---------- a report too many ----------

  /**
   Two received tensors, a node reading both, a Merge of the first and that node, a reader of the first and
   the Merge.
   */
  function Absorbing(): Graph {
    map[0 := Node(Recv, false, false, [], [0]),
        1 := Node(Recv, false, false, [], [0]),
        2 := Node(Generic(1), false, false, [InEdge(0, 0, 0), InEdge(1, 0, 1)], [0]),
        3 := Node(Merge, false, false, [InEdge(0, 0, 0), InEdge(2, 0, 1)], [0]),
        4 := Node(Generic(1), false, false, [InEdge(0, 0, 0), InEdge(3, 0, 1)], [])]
  }

  /** The factory keeps two different operands of another kind that are no complements. */
  lemma TwoOperands(p: Predicate, q: Predicate, isAnd: bool, h: Hash)
    requires p != q && !p.Not? && !q.Not? && !OfKind(p, isAnd) && !OfKind(q, isAnd)
    ensures OfKind(MakeAndOr([p, q], isAnd, h), isAnd)
  {
    FlattenOfFlat([p, q], isAnd, {});
  }

  lemma ReceivedPredicate(g: Graph, h: Hash, m: PredicateMap, v: int)
    requires Computed(g, h, g.Keys, m) && v in g && g[v].kind.Recv? && g[v].inEdges == []
    ensures (v, 0) in m && m[(v, 0)] == Symbol((v, 0), false)
  {
    hide MakeAndOr;
    assert SlotOf(g[v], 0);
    assert Incoming(g[v].inEdges, DataAndControl, m) + [Symbol((v, 0), false)] == [Symbol((v, 0), false)];
    NormalIsFixed(Symbol((v, 0), false), true, h);
  }

  lemma IncomingTwo(e: InEdge, f: InEdge, kind: EdgeKind, m: PredicateMap)
    requires Known([e, f], kind, m) && Selected(e, kind) && Selected(f, kind)
    ensures e.Tensor() in m && f.Tensor() in m
    ensures Incoming([e, f], kind, m) == [m[e.Tensor()], m[f.Tensor()]]
  {
    assert e in [e, f] && f in [e, f];
    assert [e, f][1..] == [f] && [f][1..] == [];
    assert Incoming([f], kind, m) == [m[f.Tensor()]];
  }

  lemma JoinedPredicate(g: Graph, h: Hash, m: PredicateMap)
    requires g == Absorbing() && Computed(g, h, g.Keys, m)
    ensures (0, 0) in m && m[(0, 0)] == Symbol((0, 0), false) && (2, 0) in m && m[(2, 0)].And?
  {
    hide MakeAndOr, Incoming;
    ReceivedPredicate(g, h, m, 0);
    ReceivedPredicate(g, h, m, 1);
    assert SlotOf(g[2], 0) && Handleable(g, 2, m);
    IncomingTwo(InEdge(0, 0, 0), InEdge(1, 0, 1), DataAndControl, m);
    TwoOperands(m[(0, 0)], m[(1, 0)], true, h);
  }

  lemma MergedPredicate(g: Graph, h: Hash, m: PredicateMap)
    requires g == Absorbing() && Computed(g, h, g.Keys, m)
    ensures (0, 0) in m && m[(0, 0)] == Symbol((0, 0), false) && (3, 0) in m && m[(3, 0)].Or?
  {
    hide MakeAndOr, Incoming;
    JoinedPredicate(g, h, m);
    assert SlotOf(g[3], 0) && Handleable(g, 3, m);
    assert !HasBackedge(g, g[3]);
    IncomingTwo(InEdge(0, 0, 0), InEdge(2, 0, 1), DataOnly, m);
    TwoOperands(m[(0, 0)], m[(2, 0)], false, h);
  }

  /** The Merge is live exactly if the first tensor is. */
  lemma AbsorbingAgrees(live: Liveness, truth: Liveness)
    requires Execution(Absorbing(), live, truth)
    ensures live((3, 0)) <==> live((0, 0))
  {
    var g := Absorbing();
    assert Follows(g, live, truth, 2) && Follows(g, live, truth, 3);
    ExecutorRules(g, live, truth, 2);
    ExecutorRules(g, live, truth, 3);
    var e, f := InEdge(0, 0, 0), InEdge(2, 0, 1);
    assert !HasBackedge(g, g[3]);
    assert e in g[2].inEdges && Selected(e, DataAndControl) && SlotOf(g[2], 0);
    assert e in g[3].inEdges && Selected(e, DataOnly);
    assert live((0, 0)) ==> live(e.Tensor());
    if live((3, 0)) {
      var d :| d in g[3].inEdges && Selected(d, DataOnly) && live(d.Tensor());
      assert d == e || d == f;
    }
  }

  /**
   Comparing predicates errs on the safe side: whatever the hash, the inputs of node 4 are reported as
   mismatching although they are live together in every execution.
   */
  lemma EquivalentYetDifferent(h: Hash, m: PredicateMap)
    requires Analysed(Absorbing(), h, Absorbing().Keys, m)
    ensures Ordered(Absorbing(), [0, 1, 2, 3, 4]) && Known(Absorbing()[4].inEdges, DataAndControl, m)
    ensures InputsDiffer(Absorbing()[4], m) && InputsAgree(Absorbing(), Absorbing()[4])
  {
    hide SlotPredicate, Sound, MapNormal, Uniform, Follows;
    var g := Absorbing();
    MergedPredicate(g, h, m);
    var e, f := InEdge(0, 0, 0), InEdge(3, 0, 1);
    assert g[4].inEdges == [e, f];
    assert e in g[4].inEdges && f in g[4].inEdges;
    assert InputsDiffer(g[4], m);
    forall live, truth, d, d' | Execution(g, live, truth) && d in g[4].inEdges && d' in g[4].inEdges
      ensures live(d.Tensor()) <==> live(d'.Tensor())
    {
      AbsorbingAgrees(live, truth);
      assert (d == e || d == f) && (d' == e || d' == f);
    }
    AbsorbingOrdered();
  }

  lemma AbsorbingOrdered()
    ensures Ordered(Absorbing(), [0, 1, 2, 3, 4])
  {
    var g, order := Absorbing(), [0, 1, 2, 3, 4];
    assert forall i :: 0 <= i < |order| ==> order[i] == i;
    forall i, e | 0 <= i < |order| && e in g[i].inEdges
      ensures 0 <= e.src < i && !FromNextIteration(g, e) && SlotOf(g[e.src], e.slot)
    {
    }
    forall i, j | 0 <= j < i <= |order| ensures j in order[..i] {
      assert order[..i][j] == j;
    }
  }
}
