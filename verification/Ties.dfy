/**
 How the symbols of one analysed graph hang together: wherever a symbol occurs in a conjunction, so do the
 conditions under which its tensor is live. Therefore printing tells the predicates of a graph apart.
 */
module Ties {
  import opened Predicates
  import opened Deadness
  import opened Printing
  import opened Sets

  /** The operands of a conjunction; any other formula is a conjunction of itself. */
  function Conj(p: Predicate): seq<Predicate> {
    if p.And? then p.operands else [p]
  }

  ghost predicate Includes(ops: seq<Predicate>, part: seq<Predicate>) {
    forall q :: q in part ==> q in ops
  }

  /** A symbol that stands for truth, or its negation. */
  predicate TruthOf(q: Predicate, t: TensorId) {
    q == Symbol(t, true) || q == Not(Symbol(t, true))
  }

  /** Liveness comes before truth exactly if its hash is no larger. */
  ghost predicate Placed(ops: seq<Predicate>, h: Hash) {
    forall i, j, t :: 0 <= i < |ops| && 0 <= j < |ops| && ops[i] == Symbol(t, false) && ops[j] == Symbol(t, true) ==>
      (i < j <==> h(Symbol(t, false)) <= h(Symbol(t, true)))
  }

  /** The symbols of a conjunction come with what makes their tensors live. */
  ghost predicate Closed(ops: seq<Predicate>, m: PredicateMap) {
    && (forall q, t :: q in ops && TruthOf(q, t) ==> t in m && Includes(ops, Conj(m[t])))
    && (forall t :: Symbol(t, false) in ops ==> t in m && Symbol(t, false) in Conj(m[t]) && Includes(ops, Conj(m[t])))
    && (forall q :: q in ops && q.Not? ==> exists t :: TruthOf(q, t))
  }

  ghost predicate Tied(ops: seq<Predicate>, m: PredicateMap, h: Hash) {
    Closed(ops, m) && Placed(ops, h)
  }

  /** Every conjunction in p, and every other formula as a conjunction of itself. */
  ghost predicate AllTied(p: Predicate, m: PredicateMap, h: Hash) {
    match p
    case And(ops) => Tied(ops, m, h) && forall i :: 0 <= i < |ops| && ops[i].Or? ==> AllTied(ops[i], m, h)
    case Or(ops) => forall i :: 0 <= i < |ops| ==> AllTied(ops[i], m, h)
    case Not(_) => Tied([p], m, h)
    case Symbol(_, _) => Tied([p], m, h)
  }

  lemma ConjTied(p: Predicate, m: PredicateMap, h: Hash)
    requires AllTied(p, m, h)
    ensures Tied(Conj(p), m, h) && forall q :: q in Conj(p) && q.Or? ==> AllTied(q, m, h)
  {
    if p.And? {
      forall q | q in p.operands && q.Or? ensures AllTied(q, m, h) {
        var i :| 0 <= i < |p.operands| && p.operands[i] == q;
      }
    }
  }

  // ---------- the order of operands ----------

  /** Every occurrence of t comes after one of f. */
  ghost predicate Precedes(s: seq<Predicate>, f: Predicate, t: Predicate) {
    forall j :: 0 <= j < |s| && s[j] == t ==> f in s[..j]
  }

  lemma PrecedesAppend(s: seq<Predicate>, u: seq<Predicate>, f: Predicate, t: Predicate)
    requires Precedes(s, f, t) && (Precedes(u, f, t) || f in s)
    ensures Precedes(s + u, f, t)
  {
    forall j | 0 <= j < |s + u| && (s + u)[j] == t ensures f in (s + u)[..j] {
      if j < |s| {
        assert (s + u)[..j] == s[..j];
      } else {
        assert (s + u)[..j] == s + u[..j - |s|];
      }
    }
  }

  lemma PrecedesTail(s: seq<Predicate>, f: Predicate, t: Predicate)
    requires s != [] && Precedes(s, f, t) && s[0] != f
    ensures s[0] != t && Precedes(s[1..], f, t)
  {
    assert s[..0] == [];
    forall j | 0 <= j < |s[1..]| && s[1..][j] == t ensures f in s[1..][..j] {
      assert s[j + 1] == t && s[..j + 1] == [s[0]] + s[1..][..j];
    }
  }

  lemma PrecedesCons(x: Predicate, s: seq<Predicate>, f: Predicate, t: Predicate)
    requires x != t && (x == f || Precedes(s, f, t))
    ensures Precedes([x] + s, f, t)
  {
    PrecedesAppend([x], s, f, t);
  }

  lemma {:induction false} FirstNewPrecedes(s: seq<Predicate>, seen: set<Predicate>, f: Predicate, t: Predicate)
    requires Precedes(s, f, t) && f !in seen && f != t
    ensures Precedes(FirstNew(s, seen), f, t)
  {
    if s != [] && s[0] == f {
      PrecedesCons(f, FirstNew(s[1..], seen + {f}), f, t);
    } else if s != [] {
      PrecedesTail(s, f, t);
      FirstNewPrecedes(s[1..], if s[0] in seen then seen else seen + {s[0]}, f, t);
      if s[0] !in seen {
        PrecedesCons(s[0], FirstNew(s[1..], seen + {s[0]}), f, t);
      }
    }
  }

  /** What the operands must satisfy for t to come after f once they are flattened. */
  ghost predicate Fed(s: seq<Predicate>, seen: set<Predicate>, f: Predicate, t: Predicate) {
    && (forall p :: p in s && p.And? ==> Precedes(p.operands, f, t))
    && (forall k :: 0 <= k < |s| && s[k] == t ==> f in seen || exists i :: 0 <= i < k && f in Conj(s[i]))
  }

  /** Whatever has been seen, its operands have been seen. */
  ghost predicate SeenThrough(seen: set<Predicate>) {
    forall p :: p in seen && p.And? ==> Members(p.operands) <= seen
  }

  lemma FedTail(s: seq<Predicate>, seen: set<Predicate>, seen': set<Predicate>, f: Predicate, t: Predicate)
    requires s != [] && Fed(s, seen, f, t) && seen <= seen' && (f in Conj(s[0]) ==> f in seen')
    ensures Fed(s[1..], seen', f, t)
  {
    assert s == [s[0]] + s[1..];
    forall k | 0 <= k < |s[1..]| && s[1..][k] == t
      ensures f in seen' || exists i :: 0 <= i < k && f in Conj(s[1..][i])
    {
      assert s[k + 1] == t;
      if f !in seen' {
        var i :| 0 <= i < k + 1 && f in Conj(s[i]);
        assert f in Conj(s[1..][i - 1]);
      }
    }
  }

  lemma {:induction false} FlattenPrecedes(s: seq<Predicate>, seen: set<Predicate>, f: Predicate, t: Predicate, h: Hash)
    requires AllNormal(s, h) && f.Symbol? && t.Symbol? && f != t && f !in seen && t !in seen
    requires Fed(s, seen, f, t) && SeenThrough(seen)
    ensures Precedes(Flatten(s, true, seen), f, t)
    decreases s, 1
  {
    if s != [] {
      assert s[0] in s;
      if s[0] in seen {
        FedTail(s, seen, seen, f, t);
        FlattenPrecedes(s[1..], seen, f, t, h);
      } else if s[0].And? {
        FlattenConjunction(s, seen, f, t, h);
      } else if s[0] == f {
        PrecedesCons(f, Flatten(s[1..], true, seen + {f}), f, t);
      } else {
        assert s[0] != t;
        FedTail(s, seen, seen + {s[0]}, f, t);
        FlattenPrecedes(s[1..], seen + {s[0]}, f, t, h);
        PrecedesCons(s[0], Flatten(s[1..], true, seen + {s[0]}), f, t);
      }
    }
  }

  lemma {:induction false} FlattenConjunction(s: seq<Predicate>, seen: set<Predicate>, f: Predicate, t: Predicate,
                                              h: Hash)
    requires s != [] && s[0].And? && s[0] !in seen
    requires AllNormal(s, h) && f.Symbol? && t.Symbol? && f != t && f !in seen && t !in seen
    requires Fed(s, seen, f, t) && SeenThrough(seen)
    ensures Precedes(Flatten(s, true, seen), f, t)
    decreases s, 0
  {
    assert s[0] in s;
    var ops := s[0].operands;
    var seen' := seen + {s[0]} + Members(ops);
    var inner, rest := FirstNew(ops, seen + {s[0]}), Flatten(s[1..], true, seen');
    FirstNewPrecedes(ops, seen + {s[0]}, f, t);
    if f in ops {
      assert f in inner;
    } else {
      NoneBefore(ops, f, t);
      forall p | p in ops ensures !p.And? {
        NormalMember(s[0], h, p);
      }
      FedTail(s, seen, seen', f, t);
      FlattenPrecedes(s[1..], seen', f, t, h);
    }
    PrecedesAppend(inner, rest, f, t);
  }

  lemma NoneBefore(s: seq<Predicate>, f: Predicate, t: Predicate)
    requires Precedes(s, f, t) && f !in s
    ensures t !in s
  {
    forall j | 0 <= j < |s| ensures s[j] != t {
      assert f !in s[..j];
    }
  }

  lemma {:induction false} InsertPrecedes(f: Predicate, s: seq<Predicate>, t: Predicate, h: Hash)
    requires f != t && h(f) <= h(t)
    ensures Precedes(InsertByHash(f, s, h), f, t)
  {
    if s == [] || h(f) <= h(s[0]) {
      PrecedesCons(f, s, f, t);
    } else {
      InsertPrecedes(f, s[1..], t, h);
      PrecedesCons(s[0], InsertByHash(f, s[1..], h), f, t);
    }
  }

  lemma {:induction false} InsertKeepsPreceding(x: Predicate, s: seq<Predicate>, f: Predicate, t: Predicate, h: Hash)
    requires f != t && x != t && Precedes(s, f, t)
    ensures Precedes(InsertByHash(x, s, h), f, t)
  {
    if s == [] || h(x) <= h(s[0]) {
      PrecedesCons(x, s, f, t);
    } else if s[0] == f {
      PrecedesCons(f, InsertByHash(x, s[1..], h), f, t);
    } else {
      PrecedesTail(s, f, t);
      InsertKeepsPreceding(x, s[1..], f, t, h);
      PrecedesCons(s[0], InsertByHash(x, s[1..], h), f, t);
    }
  }

  /** The sort is stable: what comes first and has no larger hash stays first. */
  lemma {:induction false} SortPrecedes(s: seq<Predicate>, f: Predicate, t: Predicate, h: Hash)
    requires f != t && h(f) <= h(t) && Precedes(s, f, t)
    ensures Precedes(SortByHash(s, h), f, t)
  {
    if s != [] && s[0] == f {
      InsertPrecedes(f, SortByHash(s[1..], h), t, h);
    } else if s != [] {
      PrecedesTail(s, f, t);
      SortPrecedes(s[1..], f, t, h);
      InsertKeepsPreceding(s[0], SortByHash(s[1..], h), f, t, h);
    }
  }

  /** In a sorted list without repetition, liveness is where its hash says. */
  lemma SortedPlaced(s: seq<Predicate>, h: Hash)
    requires Distinct(s) && SortedByHash(s, h)
    requires forall t :: Symbol(t, false) in s && h(Symbol(t, false)) <= h(Symbol(t, true)) ==>
               Precedes(s, Symbol(t, false), Symbol(t, true))
    ensures Placed(s, h)
  {
    forall i, j, t | 0 <= i < |s| && 0 <= j < |s| && s[i] == Symbol(t, false) && s[j] == Symbol(t, true)
      ensures i < j <==> h(Symbol(t, false)) <= h(Symbol(t, true))
    {
      if h(Symbol(t, false)) <= h(Symbol(t, true)) {
        assert Symbol(t, false) in s[..j];
        var k :| 0 <= k < j && s[k] == Symbol(t, false);
      }
    }
  }

  // ---------- what the factory makes of tied formulas ----------

  lemma TiedMember(s: seq<Predicate>, h: Hash, q: Predicate)
    requires AllNormal(s, h)
    ensures q in Flatten(s, true, {}) <==> exists p :: p in s && q in Conj(p)
  {
    FlattenMembers(s, true, {}, h, q);
    if q in Flatten(s, true, {}) {
      var p :| p in s && (if OfKind(p, true) then q in p.operands else q == p);
      assert q in Conj(p);
    }
    if p :| p in s && q in Conj(p) {
      assert if OfKind(p, true) then q in p.operands else q == p;
      assert FlatMember(s, true, q);
    }
  }

  /**
   The literal a node adds to the predicates of its inputs: the condition of a Switch, whose own predicate
   is among the inputs, or the symbol of a node that has just been given the predicate r.
   */
  ghost predicate Admissible(inputs: seq<Predicate>, q: Predicate, m: PredicateMap, r: Predicate) {
    || (exists t :: TruthOf(q, t) && t in m && m[t] in inputs)
    || (exists t :: q == Symbol(t, false) && t in m && m[t] == r && forall p :: p in inputs ==>
        Symbol(t, true) !in Conj(p))
  }

  ghost predicate TiedInputs(inputs: seq<Predicate>, m: PredicateMap, h: Hash) {
    forall p :: p in inputs ==> AllTied(p, m, h)
  }

  /** Where the members of a conjunction come from. */
  ghost predicate Gathers(s: seq<Predicate>, ops: seq<Predicate>) {
    forall q :: q in ops <==> exists p :: p in s && q in Conj(p)
  }

  lemma GathersAll(s: seq<Predicate>, ops: seq<Predicate>, p: Predicate)
    requires Gathers(s, ops) && p in s
    ensures Includes(ops, Conj(p))
  {
  }

  lemma InputClosed(inputs: seq<Predicate>, p: Predicate, m: PredicateMap, h: Hash, q: Predicate, t: TensorId)
    requires TiedInputs(inputs, m, h) && p in inputs && q in Conj(p)
    ensures TruthOf(q, t) ==> t in m && Includes(Conj(p), Conj(m[t]))
    ensures q == Symbol(t, false) ==> t in m && q in Conj(m[t]) && Includes(Conj(p), Conj(m[t]))
    ensures q.Not? ==> exists u :: TruthOf(q, u)
    ensures q.Or? ==> AllTied(q, m, h)
  {
    ConjTied(p, m, h);
  }

  lemma GatheredClosed(inputs: seq<Predicate>, extra: seq<Predicate>, ops: seq<Predicate>, m: PredicateMap, h: Hash,
                       r: Predicate)
    requires TiedInputs(inputs, m, h) && |extra| <= 1 && Gathers(inputs + extra, ops)
    requires extra != [] ==> Admissible(inputs, extra[0], m, r) && Conj(r) == ops
    ensures Closed(ops, m)
  {
    hide AllTied, Conj, Gathers, Admissible;
    forall q, t | q in ops && TruthOf(q, t) ensures t in m && Includes(ops, Conj(m[t])) {
      GatheredMember(inputs, extra, ops, m, h, r, q, t);
    }
    forall t | Symbol(t, false) in ops ensures t in m && Symbol(t, false) in Conj(m[t]) && Includes(ops, Conj(m[t])) {
      GatheredMember(inputs, extra, ops, m, h, r, Symbol(t, false), t);
    }
    forall q | q in ops && q.Not? ensures exists t :: TruthOf(q, t) {
      GatheredMember(inputs, extra, ops, m, h, r, q, (0, 0));
    }
  }

  lemma GatheredMember(inputs: seq<Predicate>, extra: seq<Predicate>, ops: seq<Predicate>, m: PredicateMap, h: Hash,
                       r: Predicate, q: Predicate, t: TensorId)
    requires TiedInputs(inputs, m, h) && |extra| <= 1 && Gathers(inputs + extra, ops) && q in ops
    requires extra != [] ==> Admissible(inputs, extra[0], m, r) && Conj(r) == ops
    ensures TruthOf(q, t) ==> t in m && Includes(ops, Conj(m[t]))
    ensures q == Symbol(t, false) ==> t in m && q in Conj(m[t]) && Includes(ops, Conj(m[t]))
    ensures q.Not? ==> exists u :: TruthOf(q, u)
  {
    hide AllTied, Conj, Gathers, Admissible;
    var s := inputs + extra;
    var p := Origin(s, ops, q);
    GathersAll(s, ops, p);
    if p in inputs {
      InputClosed(inputs, p, m, h, q, t);
    } else {
      ExtraClosed(inputs, extra, ops, m, r, q, t);
    }
  }

  lemma Origin(s: seq<Predicate>, ops: seq<Predicate>, q: Predicate) returns (p: Predicate)
    requires Gathers(s, ops) && q in ops
    ensures p in s && q in Conj(p)
  {
    p :| p in s && q in Conj(p);
  }

  lemma ExtraClosed(inputs: seq<Predicate>, extra: seq<Predicate>, ops: seq<Predicate>, m: PredicateMap, r: Predicate,
                    q: Predicate, t: TensorId)
    requires |extra| == 1 && Gathers(inputs + extra, ops) && Admissible(inputs, extra[0], m, r) && Conj(r) == ops
    requires q in Conj(extra[0]) && q in ops
    ensures TruthOf(q, t) ==> t in m && Includes(ops, Conj(m[t]))
    ensures q == Symbol(t, false) ==> t in m && q in Conj(m[t]) && Includes(ops, Conj(m[t]))
    ensures q.Not? ==> exists u :: TruthOf(q, u)
  {
    assert q == extra[0];
    if TruthOf(q, t) {
      assert t in m && m[t] in inputs;
      GathersAll(inputs + extra, ops, m[t]);
    }
  }

  /** If liveness comes from the inputs, it comes before truth in the flattened operands. */
  lemma GatheredPrecedes(inputs: seq<Predicate>, extra: seq<Predicate>, m: PredicateMap, h: Hash, r: Predicate,
                         t: TensorId)
    requires AllNormal(inputs + extra, h) && TiedInputs(inputs, m, h) && |extra| <= 1
    requires extra != [] ==> Admissible(inputs, extra[0], m, r)
    requires Symbol(t, false) in Flatten(inputs + extra, true, {}) && h(Symbol(t, false)) <= h(Symbol(t, true))
    ensures Precedes(Flatten(inputs + extra, true, {}), Symbol(t, false), Symbol(t, true))
  {
    hide AllTied, Flatten;
    var s, f, u := inputs + extra, Symbol(t, false), Symbol(t, true);
    TiedMember(s, h, f);
    TiedMember(s, h, u);
    var p :| p in s && f in Conj(p);
    if p in inputs {
      InputClosed(inputs, p, m, h, f, t);
      InputsFeed(inputs, extra, m, h, r, t);
      FlattenPrecedes(s, {}, f, u, h);
    } else {
      assert f == extra[0];
      assert forall p :: p in inputs ==> u !in Conj(p);
    }
  }

  lemma InputsFeed(inputs: seq<Predicate>, extra: seq<Predicate>, m: PredicateMap, h: Hash, r: Predicate, t: TensorId)
    requires TiedInputs(inputs, m, h) && |extra| <= 1 && h(Symbol(t, false)) <= h(Symbol(t, true))
    requires extra != [] ==> Admissible(inputs, extra[0], m, r)
    requires t in m && Symbol(t, false) in Conj(m[t])
    ensures Fed(inputs + extra, {}, Symbol(t, false), Symbol(t, true))
  {
    hide AllTied, Includes;
    var s, f, u := inputs + extra, Symbol(t, false), Symbol(t, true);
    forall p | p in s && p.And? ensures Precedes(p.operands, f, u) {
      InputPrecedes(inputs, p, m, h, t);
    }
    forall k | 0 <= k < |s| && s[k] == u ensures exists i :: 0 <= i < k && f in Conj(s[i]) {
      if k < |inputs| {
        NotTruthAlone(inputs, m, h, t);
      } else {
        assert m[t] in inputs;
        var i :| 0 <= i < |inputs| && inputs[i] == m[t];
        assert s[i] == m[t];
      }
    }
  }

  lemma NotTruthAlone(inputs: seq<Predicate>, m: PredicateMap, h: Hash, t: TensorId)
    requires TiedInputs(inputs, m, h) && t in m && Symbol(t, false) in Conj(m[t])
    ensures Symbol(t, true) !in inputs
  {
    if Symbol(t, true) in inputs {
      InputClosed(inputs, Symbol(t, true), m, h, Symbol(t, true), t);
    }
  }

  lemma InputPrecedes(inputs: seq<Predicate>, p: Predicate, m: PredicateMap, h: Hash, t: TensorId)
    requires TiedInputs(inputs, m, h) && p in inputs && p.And? && h(Symbol(t, false)) <= h(Symbol(t, true))
    requires t in m && Symbol(t, false) in Conj(m[t])
    ensures Precedes(p.operands, Symbol(t, false), Symbol(t, true))
  {
    var ops := p.operands;
    assert Tied(ops, m, h);
    forall j | 0 <= j < |ops| && ops[j] == Symbol(t, true) ensures Symbol(t, false) in ops[..j] {
      assert TruthOf(ops[j], t) && ops[j] in ops;
      assert Includes(ops, Conj(m[t]));
      var i :| 0 <= i < |ops| && ops[i] == Symbol(t, false);
      assert i < j;
      assert ops[..j][i] == Symbol(t, false);
    }
  }

  /** The predicate a node makes of tied inputs is tied. */
  lemma ConjunctionTied(inputs: seq<Predicate>, extra: seq<Predicate>, m: PredicateMap, h: Hash)
    requires AllNormal(inputs + extra, h) && TiedInputs(inputs, m, h) && |extra| <= 1
    requires extra != [] ==> Admissible(inputs, extra[0], m, MakeAndOr(inputs + extra, true, h))
    ensures AllTied(MakeAndOr(inputs + extra, true, h), m, h)
  {
    hide AllTied, Flatten, Closed, Placed, Complementary, Admissible;
    var s := inputs + extra;
    var flat, r := Flatten(s, true, {}), MakeAndOr(s, true, h);
    FlattenNormal(s, true, {}, h);
    if |flat| != 1 && Complementary(flat) {
      FalseTied(m, h);
    } else {
      var ops := if |flat| == 1 then flat else SortByHash(flat, h);
      assert flat != [] ==> flat[0] in flat;
      assert Conj(r) == ops;
      forall q ensures q in ops <==> exists p :: p in s && q in Conj(p) {
        TiedMember(s, h, q);
      }
      GatheredClosed(inputs, extra, ops, m, h, r);
      if |flat| == 1 {
        OnePlaced(flat, h);
      } else {
        SortSorted(flat, h);
        SortDistinct(flat, h);
        forall t | Symbol(t, false) in ops && h(Symbol(t, false)) <= h(Symbol(t, true))
          ensures Precedes(ops, Symbol(t, false), Symbol(t, true))
        {
          GatheredPrecedes(inputs, extra, m, h, r, t);
          SortPrecedes(flat, Symbol(t, false), Symbol(t, true), h);
        }
        SortedPlaced(ops, h);
      }
      forall q | q in ops && q.Or? ensures AllTied(q, m, h) {
        GatheredOr(inputs, extra, ops, m, h, r, q);
      }
      TiedFromConj(r, m, h);
    }
  }

  lemma FalseTied(m: PredicateMap, h: Hash)
    ensures AllTied(FALSE, m, h) && AllTied(TRUE, m, h)
  {
  }

  lemma OnePlaced(ops: seq<Predicate>, h: Hash)
    requires |ops| == 1
    ensures Placed(ops, h)
  {
  }

  lemma GatheredOr(inputs: seq<Predicate>, extra: seq<Predicate>, ops: seq<Predicate>, m: PredicateMap, h: Hash,
                   r: Predicate, q: Predicate)
    requires TiedInputs(inputs, m, h) && |extra| <= 1 && Gathers(inputs + extra, ops) && q in ops && q.Or?
    requires extra != [] ==> Admissible(inputs, extra[0], m, r)
    ensures AllTied(q, m, h)
  {
    hide AllTied;
    var p := Origin(inputs + extra, ops, q);
    if p in inputs {
      InputClosed(inputs, p, m, h, q, (0, 0));
    }
  }

  lemma TiedFromConj(p: Predicate, m: PredicateMap, h: Hash)
    requires Tied(Conj(p), m, h) && forall q :: q in Conj(p) && q.Or? ==> AllTied(q, m, h)
    ensures AllTied(p, m, h)
  {
    if p.Or? {
      assert p in Conj(p);
    }
  }

  lemma DisjunctionTied(inputs: seq<Predicate>, m: PredicateMap, h: Hash)
    requires AllNormal(inputs, h) && TiedInputs(inputs, m, h)
    ensures AllTied(MakeAndOr(inputs, false, h), m, h)
  {
    hide Flatten, Complementary;
    var flat := Flatten(inputs, false, {});
    forall q | q in flat ensures AllTied(q, m, h) {
      FlattenMembers(inputs, false, {}, h, q);
      var p :| p in inputs && (if OfKind(p, false) then q in p.operands else q == p);
      if p.Or? {
        var i :| 0 <= i < |p.operands| && p.operands[i] == q;
      }
    }
    if |flat| == 1 {
      assert flat[0] in flat;
    } else if Complementary(flat) {
      FalseTied(m, h);
    } else {
      var ops := SortByHash(flat, h);
      forall i | 0 <= i < |ops| ensures AllTied(ops[i], m, h) {
        assert ops[i] in flat;
      }
    }
  }

  // ---------- the analysis ----------

  ghost predicate MapTied(m: PredicateMap, h: Hash) {
    forall t :: t in m ==> AllTied(m[t], m, h)
  }

  ghost predicate Submap(m: PredicateMap, after: PredicateMap) {
    forall t :: t in m ==> t in after && after[t] == m[t]
  }

  lemma {:induction false} StaysTied(p: Predicate, m: PredicateMap, h: Hash, after: PredicateMap)
    requires AllTied(p, m, h) && Submap(m, after)
    ensures AllTied(p, after, h)
  {
    match p
    case And(ops) =>
      forall i | 0 <= i < |ops| && ops[i].Or? ensures AllTied(ops[i], after, h) {
        StaysTied(ops[i], m, h, after);
      }
    case Or(ops) =>
      forall i | 0 <= i < |ops| ensures AllTied(ops[i], after, h) {
        StaysTied(ops[i], m, h, after);
      }
    case Not(_) =>
    case Symbol(_, _) =>
  }

  /** A tensor without predicate does not occur in the predicates there are. */
  lemma NotYet(p: Predicate, m: PredicateMap, h: Hash, t: TensorId)
    requires AllTied(p, m, h) && t !in m
    ensures NotAbout(Conj(p), t)
  {
    hide AllTied, Conj;
    ConjTied(p, m, h);
  }

  ghost predicate NotAbout(ops: seq<Predicate>, t: TensorId) {
    Symbol(t, false) !in ops && forall q :: q in ops ==> !TruthOf(q, t)
  }

  lemma IncomingTied(edges: seq<InEdge>, kind: EdgeKind, m: PredicateMap, h: Hash, after: PredicateMap)
    requires Known(edges, kind, m) && MapTied(m, h) && MapNormal(m, h) && Submap(m, after)
    ensures TiedInputs(Incoming(edges, kind, m), after, h) && AllNormal(Incoming(edges, kind, m), h)
  {
    forall p | p in Incoming(edges, kind, m) ensures AllTied(p, after, h) && Normal(p, h) {
      var e :| e in edges && Selected(e, kind) && m[e.Tensor()] == p;
      StaysTied(p, m, h, after);
    }
  }

  /** The nodes whose liveness does not follow from that of their inputs. */
  predicate Primitive(g: Graph, v: int) {
    v in g && (g[v].kind.Recv? || (g[v].kind.Merge? && HasBackedge(g, g[v])))
  }

  /** The predicate of a node whose liveness follows from that of its inputs. */
  lemma DerivedTied(g: Graph, v: int, k: int, m: PredicateMap, h: Hash, after: PredicateMap)
    requires v in g && Handleable(g, v, m) && SlotOf(g[v], k) && MapTied(m, h) && MapNormal(m, h)
    requires Submap(m, after) && !Primitive(g, v)
    ensures AllTied(SlotPredicate(g, v, k, m, h), after, h)
  {
    hide AllTied, Known, Incoming, MakeAndOr;
    var edges := g[v].inEdges;
    match g[v].kind
    case Switch =>
      SwitchTied(g, v, k, m, h, after);
    case Merge =>
      IncomingTied(edges, DataOnly, m, h, after);
      DisjunctionTied(Incoming(edges, DataOnly, m), after, h);
    case ControlTrigger =>
      NothingTied(after, h);
    case Generic(_) =>
      var inputs := Incoming(edges, DataAndControl, m);
      IncomingTied(edges, DataAndControl, m, h, after);
      assert inputs + [] == inputs;
      ConjunctionTied(inputs, [], after, h);
  }

  /** The predicates of one node more are tied. */
  lemma SlotTied(g: Graph, v: int, k: int, m: PredicateMap, h: Hash, after: PredicateMap)
    requires v in g && Handleable(g, v, m) && SlotOf(g[v], k) && MapTied(m, h) && MapNormal(m, h)
    requires Extends(g, v, m, h, after) && forall j :: (v, j) !in m
    ensures AllTied(SlotPredicate(g, v, k, m, h), after, h)
  {
    hide AllTied, Known, Incoming, MakeAndOr;
    if !Primitive(g, v) {
      DerivedTied(g, v, k, m, h, after);
    } else if g[v].kind.Recv? {
      RecvTied(g, v, k, m, h, after);
    } else {
      assert after[(v, 0)] == Symbol((v, 0), false);
      AloneTied((v, 0), after, h);
    }
  }

  lemma LiteralsNormal(inputs: seq<Predicate>, extra: seq<Predicate>, h: Hash)
    requires AllNormal(inputs, h)
    requires forall q :: q in extra ==> q.Symbol? || (q.Not? && q.operand.Symbol?)
    ensures AllNormal(inputs + extra, h)
  {
    forall q | q in inputs + extra ensures Normal(q, h) {
      assert q in inputs || q in extra;
    }
  }

  lemma NothingTied(m: PredicateMap, h: Hash)
    ensures AllTied(MakeAndOr([], true, h), m, h)
  {
    FalseTied(m, h);
  }

  lemma AloneTied(t: TensorId, m: PredicateMap, h: Hash)
    requires t in m && m[t] == Symbol(t, false)
    ensures AllTied(Symbol(t, false), m, h)
  {
  }

  lemma SwitchTied(g: Graph, v: int, k: int, m: PredicateMap, h: Hash, after: PredicateMap)
    requires v in g && g[v].kind.Switch? && Handleable(g, v, m) && SlotOf(g[v], k) && MapTied(m, h) && MapNormal(m, h)
    requires Submap(m, after)
    ensures AllTied(SlotPredicate(g, v, k, m, h), after, h)
  {
    hide AllTied, MakeAndOr, MapTied;
    var edges := g[v].inEdges;
    var inputs, condition := Incoming(edges, DataAndControl, m), InputEdge(edges, 1).value;
    var t := condition.Tensor();
    var extra := if k == 0 then [Not(Symbol(t, true))] else if k == 1 then [Symbol(t, true)] else [];
    assert Selected(condition, DataAndControl);
    assert m[t] in inputs;
    IncomingTied(edges, DataAndControl, m, h, after);
    hide Incoming, Known;
    assert extra != [] ==> TruthOf(extra[0], t);
    LiteralsNormal(inputs, extra, h);
    ConjunctionTied(inputs, extra, after, h);
  }

  lemma RecvTied(g: Graph, v: int, k: int, m: PredicateMap, h: Hash, after: PredicateMap)
    requires v in g && g[v].kind.Recv? && Handleable(g, v, m) && SlotOf(g[v], k) && MapTied(m, h) && MapNormal(m, h)
    requires Extends(g, v, m, h, after) && (v, 0) !in m
    ensures AllTied(SlotPredicate(g, v, k, m, h), after, h)
  {
    hide AllTied, MakeAndOr;
    var inputs := Incoming(g[v].inEdges, DataAndControl, m);
    IncomingTied(g[v].inEdges, DataAndControl, m, h, after);
    forall p | p in inputs ensures Symbol((v, 0), true) !in Conj(p) {
      var e :| e in g[v].inEdges && Selected(e, DataAndControl) && m[e.Tensor()] == p;
      assert e.Tensor() in m;
      NotYet(p, m, h, (v, 0));
    }
    hide Incoming;
    assert SlotOf(g[v], 0);
    LiteralsNormal(inputs, [Symbol((v, 0), false)], h);
    ConjunctionTied(inputs, [Symbol((v, 0), false)], after, h);
  }

  lemma TiedStep(g: Graph, v: int, m: PredicateMap, h: Hash, after: PredicateMap)
    requires v in g && Handleable(g, v, m) && MapTied(m, h) && MapNormal(m, h)
    requires Extends(g, v, m, h, after) && forall j :: (v, j) !in m
    ensures MapTied(after, h)
  {
    hide AllTied, SlotPredicate, Handleable;
    forall t | t in after ensures AllTied(after[t], after, h) {
      if t in m {
        StaysTied(m[t], m, h, after);
      } else {
        SlotTied(g, v, t.1, m, h, after);
      }
    }
  }

  /** No predicate speaks of its own tensor, but for the symbols of primitive nodes. */
  ghost predicate Rooted(g: Graph, m: PredicateMap) {
    forall t :: t in m ==>
      && (forall q :: q in Conj(m[t]) ==> !TruthOf(q, t))
      && (Symbol(t, false) in Conj(m[t]) ==> Primitive(g, t.0) && t.1 == 0)
  }

  lemma RootedStep(g: Graph, v: int, m: PredicateMap, h: Hash, after: PredicateMap)
    requires v in g && Handleable(g, v, m) && MapTied(m, h) && MapNormal(m, h) && Rooted(g, m)
    requires Extends(g, v, m, h, after) && forall j :: (v, j) !in m
    ensures Rooted(g, after)
  {
    hide AllTied, SlotPredicate, Handleable, MapTied, MapNormal, Conj, Primitive;
    forall t | t in after
      ensures forall q :: q in Conj(after[t]) ==> !TruthOf(q, t)
      ensures Symbol(t, false) in Conj(after[t]) ==> Primitive(g, t.0) && t.1 == 0
    {
      if t !in m {
        SlotRooted(g, v, t.1, m, h);
      }
    }
  }

  lemma SlotRooted(g: Graph, v: int, k: int, m: PredicateMap, h: Hash)
    requires v in g && Handleable(g, v, m) && SlotOf(g[v], k) && MapTied(m, h) && MapNormal(m, h)
    requires forall j :: (v, j) !in m
    ensures forall q :: q in Conj(SlotPredicate(g, v, k, m, h)) ==> !TruthOf(q, (v, k))
    ensures Symbol((v, k), false) in Conj(SlotPredicate(g, v, k, m, h)) ==> Primitive(g, v) && k == 0
  {
    hide AllTied, Known, Incoming, MakeAndOr, MapTied, MapNormal;
    if !Primitive(g, v) {
      DerivedTied(g, v, k, m, h, m);
      NotYet(SlotPredicate(g, v, k, m, h), m, h, (v, k));
    } else if g[v].kind.Recv? {
      RecvRooted(g, v, k, m, h);
    }
  }

  lemma RecvRooted(g: Graph, v: int, k: int, m: PredicateMap, h: Hash)
    requires v in g && g[v].kind.Recv? && Handleable(g, v, m) && SlotOf(g[v], k) && MapTied(m, h) && MapNormal(m, h)
    requires (v, k) !in m
    ensures forall q :: q in Conj(SlotPredicate(g, v, k, m, h)) ==> !TruthOf(q, (v, k))
    ensures Symbol((v, k), false) in Conj(SlotPredicate(g, v, k, m, h)) ==> k == 0
  {
    hide AllTied, Flatten, Complementary;
    var inputs, own := Incoming(g[v].inEdges, DataAndControl, m), Symbol((v, 0), false);
    IncomingTied(g[v].inEdges, DataAndControl, m, h, m);
    LiteralsNormal(inputs, [own], h);
    forall q | q in Conj(SlotPredicate(g, v, k, m, h))
      ensures q == own || (!TruthOf(q, (v, k)) && q != Symbol((v, k), false))
    {
      if q != FALSE {
        var p := ConjMember(inputs + [own], h, q);
        if p in inputs {
          NotYet(p, m, h, (v, k));
        }
      }
    }
  }

  /** The members of a conjunction the factory makes come from its operands. */
  lemma ConjMember(s: seq<Predicate>, h: Hash, q: Predicate) returns (p: Predicate)
    requires AllNormal(s, h) && q in Conj(MakeAndOr(s, true, h)) && q != FALSE
    ensures p in s && q in Conj(p)
  {
    hide Normal, Complementary;
    var flat := Flatten(s, true, {});
    FlattenNormal(s, true, {}, h);
    assert flat != [] ==> flat[0] in flat;
    assert q in flat;
    TiedMember(s, h, q);
    p :| p in s && q in Conj(p);
  }

  // ---------- printing tells the predicates of a graph apart ----------

  lemma ErasedSize(p: Predicate, q: Predicate)
    requires Erase(p) == Erase(q) && (p.And? || p.Or?)
    ensures (q.And? <==> p.And?) && (q.Or? <==> p.Or?) && |q.operands| == |p.operands|
  {
    hide Normal, AllTied;
    assert |Erase(p).operands| == |Erase(q).operands|;
  }

  lemma ErasedOperand(p: Predicate, q: Predicate, i: nat)
    requires Erase(p) == Erase(q) && (p.And? || p.Or?) && i < |p.operands|
    ensures (q.And? <==> p.And?) && (q.Or? <==> p.Or?) && |q.operands| == |p.operands|
    ensures p.operands[i] in p.operands && q.operands[i] in q.operands
    ensures Erase(p.operands[i]) == Erase(q.operands[i])
  {
    assert Erase(p).operands[i] == Erase(q).operands[i];
  }

  /** Two lists of operands that print alike. */
  ghost predicate Alike(ps: seq<Predicate>, qs: seq<Predicate>, m: PredicateMap, h: Hash) {
    && Tied(ps, m, h) && Tied(qs, m, h) && Distinct(ps) && Distinct(qs)
    && |ps| == |qs| && forall k :: 0 <= k < |ps| ==> Erase(ps[k]) == Erase(qs[k])
  }

  lemma OtherPlace(ps: seq<Predicate>, qs: seq<Predicate>, m: PredicateMap, h: Hash, i: nat, t: TensorId)
    returns (j: nat)
    requires Alike(ps, qs, m, h) && i < |ps| && ps[i] == Symbol(t, false) && qs[i] == Symbol(t, true)
    ensures j < |ps| && qs[j] == Symbol(t, false) && ps[j] == Symbol(t, true)
  {
    hide Placed;
    assert ps[i] in ps && qs[i] in qs && TruthOf(qs[i], t);
    assert Includes(qs, Conj(m[t])) && Symbol(t, false) in Conj(m[t]);
    j :| 0 <= j < |qs| && qs[j] == Symbol(t, false);
    assert Erase(ps[j]) == Erase(qs[j]);
  }

  /** Liveness in one list and truth in the other would stand at two places, in opposite orders. */
  lemma SymbolsApart(ps: seq<Predicate>, qs: seq<Predicate>, m: PredicateMap, h: Hash, i: nat, t: TensorId)
    requires Alike(ps, qs, m, h) && i < |ps|
    ensures !(ps[i] == Symbol(t, false) && qs[i] == Symbol(t, true))
  {
    if ps[i] == Symbol(t, false) && qs[i] == Symbol(t, true) {
      var j := OtherPlace(ps, qs, m, h, i, t);
    }
  }

  lemma LiteralsAlike(ps: seq<Predicate>, qs: seq<Predicate>, m: PredicateMap, h: Hash, i: nat)
    requires Alike(ps, qs, m, h) && i < |ps| && (ps[i].Symbol? || ps[i].Not?)
    ensures ps[i] == qs[i]
  {
    assert ps[i] in ps && qs[i] in qs && Erase(ps[i]) == Erase(qs[i]);
    if ps[i].Not? {
      var t :| TruthOf(ps[i], t);
      var u :| TruthOf(qs[i], u);
      assert Erase(ps[i].operand) == Erase(qs[i].operand);
    } else {
      SymbolsApart(ps, qs, m, h, i, ps[i].tensor);
      SymbolsApart(qs, ps, m, h, i, ps[i].tensor);
    }
  }

  /** Tied formulas that print alike are equal. */
  lemma {:induction false} ErasedApart(p: Predicate, q: Predicate, m: PredicateMap, h: Hash)
    requires AllTied(p, m, h) && AllTied(q, m, h) && Normal(p, h) && Normal(q, h) && Erase(p) == Erase(q)
    ensures p == q
  {
    match p
    case Symbol(_, _) =>
      LiteralsAlike([p], [q], m, h, 0);
    case Not(_) =>
      LiteralsAlike([p], [q], m, h, 0);
    case Or(ops) =>
      ErasedSize(p, q);
      forall i | 0 <= i < |ops| ensures ops[i] == q.operands[i] {
        ErasedOperand(p, q, i);
        ErasedApart(ops[i], q.operands[i], m, h);
      }
    case And(ops) =>
      ErasedSize(p, q);
      forall i | 0 <= i < |ops| ensures ops[i] == q.operands[i] {
        ErasedOperand(p, q, i);
        if ops[i].Or? {
          ErasedApart(ops[i], q.operands[i], m, h);
        } else {
          forall k | 0 <= k < |ops| ensures Erase(ops[k]) == Erase(q.operands[k]) {
            ErasedOperand(p, q, k);
          }
          LiteralsAlike(ops, q.operands, m, h, i);
        }
      }
  }

  /**
   Within one analysed graph printing identifies the predicates, whatever the hash: two of them print
   alike exactly if they are equal.
   */
  lemma PredicatesPrintApart(m: PredicateMap, h: Hash, name: TensorId -> string, t: TensorId, u: TensorId)
    requires MapTied(m, h) && MapNormal(m, h) && FaithfulNames(name) && t in m && u in m
    ensures ToString(m[t], name) == ToString(m[u], name) <==> m[t] == m[u]
  {
    NormalNoSingles(m[t], h);
    NormalNoSingles(m[u], h);
    PrintsAlikeIff(m[t], m[u], name);
    if Erase(m[t]) == Erase(m[u]) {
      ErasedApart(m[t], m[u], m, h);
    }
  }
}
