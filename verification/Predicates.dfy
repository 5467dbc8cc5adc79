/** Logical formulas over the liveness and truth of tensors, and the factory that simplifies them. */
module Predicates {

  /** An output of a node: the node and the slot, -1 for the control output. */
  type TensorId = (int, int)

  datatype Predicate =
    | And(operands: seq<Predicate>)
    | Or(operands: seq<Predicate>)
    | Not(operand: Predicate)
    | Symbol(tensor: TensorId, mustBeTrue: bool)

  const TRUE: Predicate := And([])
  const FALSE: Predicate := Or([])

  /** The truth value of every symbol. */
  type Assignment = (TensorId, bool) -> bool

  ghost predicate Holds(p: Predicate, a: Assignment) {
    match p
    case And(ops) => forall i :: 0 <= i < |ops| ==> Holds(ops[i], a)
    case Or(ops) => exists i :: 0 <= i < |ops| && Holds(ops[i], a)
    case Not(q) => !Holds(q, a)
    case Symbol(t, m) => a(t, m)
  }

  /** Every member has truth value b: that decides a conjunction (b true) or a disjunction (b false). */
  ghost predicate AllAre(s: seq<Predicate>, a: Assignment, b: bool) {
    forall q :: q in s ==> Holds(q, a) == b
  }

  /** Whether p is a conjunction, or a disjunction. */
  predicate OfKind(p: Predicate, isAnd: bool) {
    if isAnd then p.And? else p.Or?
  }

  function Join(s: seq<Predicate>, isAnd: bool): Predicate {
    if isAnd then And(s) else Or(s)
  }

  lemma JoinHolds(s: seq<Predicate>, isAnd: bool, a: Assignment)
    ensures Holds(Join(s, isAnd), a) == isAnd <==> AllAre(s, a, isAnd)
  {
    if Holds(Join(s, isAnd), a) == isAnd {
      forall q | q in s ensures Holds(q, a) == isAnd {
        var i :| 0 <= i < |s| && s[i] == q;
      }
    }
  }

  /** An operand is a smaller formula, so no formula is its own operand. */
  lemma NotOwnOperand(p: Predicate)
    ensures (p.And? || p.Or?) ==> p !in p.operands
  {
  }

  // ---------- what the factory computes ----------

  /** The members of s that are not in `seen`, each once. */
  function FirstNew(s: seq<Predicate>, seen: set<Predicate>): (r: seq<Predicate>)
    ensures forall q :: q in r <==> q in s && q !in seen
  {
    if s == [] then []
    else if s[0] in seen then FirstNew(s[1..], seen)
    else [s[0]] + FirstNew(s[1..], seen + {s[0]})
  }

  function Members(s: seq<Predicate>): (r: set<Predicate>)
    ensures forall q :: q in r <==> q in s
  {
    set q | q in s
  }

  /** The operands without repetition, those of the parent's own kind replaced by their operands. */
  function Flatten(s: seq<Predicate>, isAnd: bool, seen: set<Predicate>): seq<Predicate> {
    if s == [] then []
    else if s[0] in seen then Flatten(s[1..], isAnd, seen)
    else if OfKind(s[0], isAnd) then
      FirstNew(s[0].operands, seen + {s[0]}) + Flatten(s[1..], isAnd, seen + {s[0]} + Members(s[0].operands))
    else [s[0]] + Flatten(s[1..], isAnd, seen + {s[0]})
  }

  /** Some operand and its negation are both there. */
  predicate Complementary(s: seq<Predicate>) {
    exists q :: q in s && Not(q) in s
  }

  type Hash = Predicate -> int

  function InsertByHash(p: Predicate, s: seq<Predicate>, h: Hash): (r: seq<Predicate>)
    ensures |r| == |s| + 1 && forall q :: q in r <==> q == p || q in s
  {
    if s == [] || h(p) <= h(s[0]) then [p] + s else [s[0]] + InsertByHash(p, s[1..], h)
  }

  /** Stable: members of equal hash keep their order. */
  function SortByHash(s: seq<Predicate>, h: Hash): (r: seq<Predicate>)
    ensures |r| == |s| && forall q :: q in r <==> q in s
  {
    if s == [] then [] else InsertByHash(s[0], SortByHash(s[1..], h), h)
  }

  function MakeAndOr(s: seq<Predicate>, isAnd: bool, h: Hash): Predicate {
    var flat := Flatten(s, isAnd, {});
    if |flat| == 1 then flat[0]
    else if Complementary(flat) then (if isAnd then FALSE else TRUE)
    else Join(SortByHash(flat, h), isAnd)
  }

  // ---------- meaning ----------

  /** Flattening does not change what the operands mean together, given that those seen already mean b. */
  lemma {:induction false} FlattenMeans(s: seq<Predicate>, isAnd: bool, seen: set<Predicate>, a: Assignment)
    requires forall q :: q in seen ==> Holds(q, a) == isAnd
    ensures AllAre(Flatten(s, isAnd, seen), a, isAnd) <==> AllAre(s, a, isAnd)
  {
    if s != [] {
      assert s == [s[0]] + s[1..];
      if s[0] in seen {
        FlattenMeans(s[1..], isAnd, seen, a);
      } else if OfKind(s[0], isAnd) {
        var ops := s[0].operands;
        assert s[0] == Join(ops, isAnd);
        JoinHolds(ops, isAnd, a);
        var inner := FirstNew(ops, seen + {s[0]});
        NotOwnOperand(s[0]);
        assert AllAre(inner, a, isAnd) <==> AllAre(ops, a, isAnd);
        if AllAre(ops, a, isAnd) {
          FlattenMeans(s[1..], isAnd, seen + {s[0]} + Members(ops), a);
        }
      } else if Holds(s[0], a) == isAnd {
        FlattenMeans(s[1..], isAnd, seen + {s[0]}, a);
      }
    }
  }

  /** The simplified formula holds exactly when all operands do, or when some operand does. */
  lemma MakeAndOrMeans(s: seq<Predicate>, isAnd: bool, h: Hash, a: Assignment)
    ensures Holds(MakeAndOr(s, isAnd, h), a) == isAnd <==> AllAre(s, a, isAnd)
  {
    var flat := Flatten(s, isAnd, {});
    FlattenMeans(s, isAnd, {}, a);
    if |flat| == 1 {
      assert AllAre(flat, a, isAnd) <==> Holds(flat[0], a) == isAnd;
    } else if Complementary(flat) {
      var q :| q in flat && Not(q) in flat;
      assert !AllAre(flat, a, isAnd);
    } else {
      JoinHolds(SortByHash(flat, h), isAnd, a);
    }
  }

  // ---------- the normal form ----------

  predicate Distinct(s: seq<Predicate>) {
    forall i, j :: 0 <= i < j < |s| ==> s[i] != s[j]
  }

  predicate SortedByHash(s: seq<Predicate>, h: Hash) {
    forall i, j :: 0 <= i < j < |s| ==> h(s[i]) <= h(s[j])
  }

  /**
   No single operand, no operand of the parent's kind, none twice, none with its negation, all sorted
   by hash, and the same for every operand.
   */
  ghost predicate Normal(p: Predicate, h: Hash) {
    match p
    case And(ops) => NormalOperands(ops, true, h) && forall i :: 0 <= i < |ops| ==> Normal(ops[i], h)
    case Or(ops) => NormalOperands(ops, false, h) && forall i :: 0 <= i < |ops| ==> Normal(ops[i], h)
    case Not(q) => Normal(q, h)
    case Symbol(_, _) => true
  }

  ghost predicate NormalOperands(ops: seq<Predicate>, isAnd: bool, h: Hash) {
    && |ops| != 1
    && Distinct(ops)
    && !Complementary(ops)
    && SortedByHash(ops, h)
    && forall i :: 0 <= i < |ops| ==> !OfKind(ops[i], isAnd)
  }

  ghost predicate AllNormal(s: seq<Predicate>, h: Hash) {
    forall q :: q in s ==> Normal(q, h)
  }

  lemma NormalMember(p: Predicate, h: Hash, q: Predicate)
    requires Normal(p, h) && (p.And? || p.Or?) && q in p.operands
    ensures Normal(q, h) && !OfKind(q, p.And?)
  {
    var i :| 0 <= i < |p.operands| && p.operands[i] == q;
  }

  lemma JoinNormal(ops: seq<Predicate>, isAnd: bool, h: Hash)
    requires NormalOperands(ops, isAnd, h) && AllNormal(ops, h)
    ensures Normal(Join(ops, isAnd), h)
  {
    forall i | 0 <= i < |ops| ensures Normal(ops[i], h) {
      assert ops[i] in ops;
    }
  }

  lemma {:induction false} FirstNewDistinct(s: seq<Predicate>, seen: set<Predicate>)
    ensures Distinct(FirstNew(s, seen))
  {
    if s != [] {
      FirstNewDistinct(s[1..], if s[0] in seen then seen else seen + {s[0]});
    }
  }

  lemma DistinctConcat(s: seq<Predicate>, t: seq<Predicate>)
    requires Distinct(s) && Distinct(t) && forall q :: q in s ==> q !in t
    ensures Distinct(s + t)
  {
    forall i, j | 0 <= i < j < |s + t|
      ensures (s + t)[i] != (s + t)[j]
    {
      if i < |s| <= j {
        assert s[i] in s && t[j - |s|] in t;
      }
    }
  }

  /** Flattened normal operands are normal, of other kinds, new and distinct. */
  lemma {:induction false} FlattenNormal(s: seq<Predicate>, isAnd: bool, seen: set<Predicate>, h: Hash)
    requires AllNormal(s, h)
    ensures AllNormal(Flatten(s, isAnd, seen), h) && Distinct(Flatten(s, isAnd, seen))
    ensures forall q :: q in Flatten(s, isAnd, seen) ==> q !in seen && !OfKind(q, isAnd)
  {
    if s != [] {
      if s[0] in seen {
        FlattenNormal(s[1..], isAnd, seen, h);
      } else if OfKind(s[0], isAnd) {
        var inner := FirstNew(s[0].operands, seen + {s[0]});
        var rest := Flatten(s[1..], isAnd, seen + {s[0]} + Members(s[0].operands));
        FlattenNormal(s[1..], isAnd, seen + {s[0]} + Members(s[0].operands), h);
        FirstNewDistinct(s[0].operands, seen + {s[0]});
        forall q | q in inner ensures Normal(q, h) && !OfKind(q, isAnd) {
          NormalMember(s[0], h, q);
        }
        DistinctConcat(inner, rest);
      } else {
        FlattenNormal(s[1..], isAnd, seen + {s[0]}, h);
        DistinctConcat([s[0]], Flatten(s[1..], isAnd, seen + {s[0]}));
      }
    }
  }

  lemma {:induction false} InsertSorted(p: Predicate, s: seq<Predicate>, h: Hash)
    requires SortedByHash(s, h)
    ensures SortedByHash(InsertByHash(p, s, h), h)
  {
    if s != [] && h(s[0]) < h(p) {
      InsertSorted(p, s[1..], h);
      var rest := InsertByHash(p, s[1..], h);
      forall j | 0 <= j < |rest| ensures h(s[0]) <= h(rest[j]) {
        assert rest[j] in rest;
        if rest[j] != p {
          var k :| 0 <= k < |s[1..]| && s[1..][k] == rest[j];
        }
      }
    }
  }

  lemma {:induction false} SortSorted(s: seq<Predicate>, h: Hash)
    ensures SortedByHash(SortByHash(s, h), h)
  {
    if s != [] {
      SortSorted(s[1..], h);
      InsertSorted(s[0], SortByHash(s[1..], h), h);
    }
  }

  lemma {:induction false} InsertDistinct(p: Predicate, s: seq<Predicate>, h: Hash)
    requires Distinct(s) && p !in s
    ensures Distinct(InsertByHash(p, s, h))
  {
    if s == [] || h(p) <= h(s[0]) {
      DistinctConcat([p], s);
    } else {
      InsertDistinct(p, s[1..], h);
      assert s[0] !in s[1..];
      DistinctConcat([s[0]], InsertByHash(p, s[1..], h));
    }
  }

  lemma {:induction false} SortDistinct(s: seq<Predicate>, h: Hash)
    requires Distinct(s)
    ensures Distinct(SortByHash(s, h))
  {
    if s != [] {
      SortDistinct(s[1..], h);
      assert s[0] !in s[1..];
      InsertDistinct(s[0], SortByHash(s[1..], h), h);
    }
  }

  /** From normal operands the factory makes a normal formula. */
  lemma MakeAndOrNormal(s: seq<Predicate>, isAnd: bool, h: Hash)
    requires AllNormal(s, h)
    ensures Normal(MakeAndOr(s, isAnd, h), h)
    // what this means for the operands of the result
    ensures var r := MakeAndOr(s, isAnd, h);
            r.And? || r.Or? ==>
              && |r.operands| != 1
              && (forall q :: q in r.operands ==> (if r.And? then !q.And? else !q.Or?) && Not(q) !in r.operands)
              && forall i, j :: 0 <= i < j < |r.operands| ==>
                   r.operands[i] != r.operands[j] && h(r.operands[i]) <= h(r.operands[j])
  {
    var flat := Flatten(s, isAnd, {});
    FlattenNormal(s, isAnd, {}, h);
    if |flat| == 1 {
      assert flat[0] in flat;
    } else if !Complementary(flat) {
      var sorted := SortByHash(flat, h);
      SortSorted(flat, h);
      SortDistinct(flat, h);
      forall i | 0 <= i < |sorted| ensures !OfKind(sorted[i], isAnd) {
        assert sorted[i] in flat;
      }
      JoinNormal(sorted, isAnd, h);
    }
  }

  lemma {:induction false} SortOfSorted(s: seq<Predicate>, h: Hash)
    requires SortedByHash(s, h)
    ensures SortByHash(s, h) == s
  {
    if s != [] {
      assert s == [s[0]] + s[1..];
      SortOfSorted(s[1..], h);
      if |s| > 1 {
        assert h(s[0]) <= h(s[1]);
      }
    }
  }

  lemma {:induction false} FirstNewOfDistinct(s: seq<Predicate>, seen: set<Predicate>)
    requires Distinct(s) && forall q :: q in s ==> q !in seen
    ensures FirstNew(s, seen) == s
  {
    if s != [] {
      assert s == [s[0]] + s[1..];
      assert s[0] !in s[1..];
      FirstNewOfDistinct(s[1..], seen + {s[0]});
    }
  }

  lemma {:induction false} FlattenOfFlat(s: seq<Predicate>, isAnd: bool, seen: set<Predicate>)
    requires Distinct(s) && forall q :: q in s ==> q !in seen && !OfKind(q, isAnd)
    ensures Flatten(s, isAnd, seen) == s
  {
    if s != [] {
      assert s == [s[0]] + s[1..];
      assert s[0] !in s[1..];
      FlattenOfFlat(s[1..], isAnd, seen + {s[0]});
    }
  }

  /** A normal formula is what the factory makes of it alone, and of its own operands. */
  lemma NormalIsFixed(p: Predicate, isAnd: bool, h: Hash)
    requires Normal(p, h)
    ensures MakeAndOr([p], isAnd, h) == p
    ensures OfKind(p, isAnd) ==> MakeAndOr(p.operands, isAnd, h) == p
  {
    assert Flatten([p][1..], isAnd, {p}) == [];
    if OfKind(p, isAnd) {
      NotOwnOperand(p);
      FirstNewOfDistinct(p.operands, {p});
      assert {} + {p} == {p};
      assert Flatten([p], isAnd, {}) == p.operands;
      forall q | q in p.operands ensures !OfKind(q, isAnd) {
        NormalMember(p, h, q);
      }
      FlattenOfFlat(p.operands, isAnd, {});
      SortOfSorted(p.operands, h);
    } else {
      assert {} + {p} == {p};
      assert Flatten([p], isAnd, {}) == [p];
    }
  }

  /** So applying the factory to its own result changes nothing. */
  lemma MakeAndOrIdempotent(s: seq<Predicate>, isAnd: bool, h: Hash)
    requires AllNormal(s, h)
    ensures MakeAndOr([MakeAndOr(s, isAnd, h)], isAnd, h) == MakeAndOr(s, isAnd, h)
  {
    MakeAndOrNormal(s, isAnd, h);
    NormalIsFixed(MakeAndOr(s, isAnd, h), isAnd, h);
  }

  // ---------- order of the operands ----------

  ghost predicate HashSeparates(s: seq<Predicate>, h: Hash) {
    forall p, q :: p in s && q in s && h(p) == h(q) ==> p == q
  }

  /** Two sorted lists of the same members are equal when no two members share a hash. */
  lemma {:induction false} SortedUnique(s: seq<Predicate>, t: seq<Predicate>, h: Hash)
    requires SortedByHash(s, h) && SortedByHash(t, h) && Distinct(s) && Distinct(t)
    requires HashSeparates(s, h) && forall q :: q in s <==> q in t
    ensures s == t
  {
    BothEmpty(s, t);
    if s != [] {
      assert s[0] in t;
      assert t[0] in s;
      HeadIsLeast(s, h, t[0]);
      HeadIsLeast(t, h, s[0]);
      assert s[0] == t[0];
      assert s == [s[0]] + s[1..] && t == [t[0]] + t[1..];
      assert s[0] !in s[1..] && t[0] !in t[1..];
      forall q ensures q in s[1..] <==> q in t[1..] {
        assert q in s <==> q in t;
      }
      SortedUnique(s[1..], t[1..], h);
    }
  }

  lemma BothEmpty(s: seq<Predicate>, t: seq<Predicate>)
    requires forall q :: q in s <==> q in t
    ensures s == [] <==> t == []
  {
    assert s != [] ==> s[0] in t;
    assert t != [] ==> t[0] in s;
  }

  lemma HeadIsLeast(s: seq<Predicate>, h: Hash, q: Predicate)
    requires SortedByHash(s, h) && q in s
    ensures h(s[0]) <= h(q)
  {
    var k :| 0 <= k < |s| && s[k] == q;
  }

  /** Flattening normal operands keeps exactly the operands of other kinds and the operands' operands. */
  lemma {:induction false} FlattenMembers(s: seq<Predicate>, isAnd: bool, seen: set<Predicate>, h: Hash, q: Predicate)
    requires AllNormal(s, h)
    ensures q in Flatten(s, isAnd, seen) ==> FlatMember(s, isAnd, q) && q !in seen
    ensures (forall p :: p in seen && OfKind(p, isAnd) ==> Members(p.operands) <= seen) ==>
              (FlatMember(s, isAnd, q) && q !in seen ==> q in Flatten(s, isAnd, seen))
  {
    if s != [] {
      assert s == [s[0]] + s[1..];
      var seen' := if s[0] in seen then seen
                   else if OfKind(s[0], isAnd) then seen + {s[0]} + Members(s[0].operands) else seen + {s[0]};
      FlattenMembers(s[1..], isAnd, seen', h, q);
      if OfKind(s[0], isAnd) {
        forall o | o in s[0].operands ensures !OfKind(o, isAnd) {
          NormalMember(s[0], h, o);
        }
      }
      assert FlatMember(s, isAnd, q) <==>
        FlatMember(s[1..], isAnd, q) || (if OfKind(s[0], isAnd) then q in s[0].operands else q == s[0]) by {
        FlatMemberStep(s, isAnd, q);
      }
    }
  }

  ghost predicate FlatMember(s: seq<Predicate>, isAnd: bool, q: Predicate) {
    exists p :: p in s && (if OfKind(p, isAnd) then q in p.operands else q == p)
  }

  lemma FlatMemberStep(s: seq<Predicate>, isAnd: bool, q: Predicate)
    requires s != []
    ensures FlatMember(s, isAnd, q) <==>
              FlatMember(s[1..], isAnd, q) || (if OfKind(s[0], isAnd) then q in s[0].operands else q == s[0])
  {
    assert s == [s[0]] + s[1..];
    if FlatMember(s[1..], isAnd, q) {
      var p :| p in s[1..] && (if OfKind(p, isAnd) then q in p.operands else q == p);
      assert p in s;
    }
  }

  /**
   Where the hash tells the flattened operands apart, the order and number of the operands do not
   matter: formulas made of the same set of operands are equal.
   */
  lemma MakeAndOrCanonical(s: seq<Predicate>, t: seq<Predicate>, isAnd: bool, h: Hash)
    requires AllNormal(s, h) && AllNormal(t, h)
    requires forall q :: q in s <==> q in t
    requires HashSeparates(Flatten(s, isAnd, {}), h)
    ensures MakeAndOr(s, isAnd, h) == MakeAndOr(t, isAnd, h)
  {
    var flat, flat' := Flatten(s, isAnd, {}), Flatten(t, isAnd, {});
    FlattenNormal(s, isAnd, {}, h);
    FlattenNormal(t, isAnd, {}, h);
    forall q ensures q in flat <==> q in flat' {
      FlattenMembers(s, isAnd, {}, h, q);
      FlattenMembers(t, isAnd, {}, h, q);
      assert FlatMember(s, isAnd, q) <==> FlatMember(t, isAnd, q);
    }
    SortSorted(flat, h);
    SortSorted(flat', h);
    SortDistinct(flat, h);
    SortDistinct(flat', h);
    SortedUnique(SortByHash(flat, h), SortByHash(flat', h), h);
    assert |flat| == |flat'|;
    if |flat| == 1 {
      assert flat'[0] in flat;
    }
  }

  // ---------- printing ----------

  /** The characters a tensor name may start with are none of those that start a composite formula. */
  ghost predicate PlainNames(name: TensorId -> string) {
    forall t :: name(t) != "" && name(t)[0] !in {'#', '(', '~'}
  }

  function JoinStrings(s: seq<string>, separator: string): string {
    if s == [] then "" else if |s| == 1 then s[0] else s[0] + separator + JoinStrings(s[1..], separator)
  }

  function ToString(p: Predicate, name: TensorId -> string): string {
    match p
    case And(ops) =>
      if ops == [] then "#true"
      else "(" + JoinStrings(seq(|ops|, i requires 0 <= i < |ops| => ToString(ops[i], name)), " & ") + ")"
    case Or(ops) =>
      if ops == [] then "#false"
      else "(" + JoinStrings(seq(|ops|, i requires 0 <= i < |ops| => ToString(ops[i], name)), " | ") + ")"
    case Not(q) => "~" + ToString(q, name)
    case Symbol(t, _) => name(t)
  }

  /** Operands are separated by their operator and enclosed together; the empty formulas have names. */
  lemma PrintedForms(p: Predicate, q: Predicate, t: TensorId, m: bool, name: TensorId -> string)
    ensures ToString(TRUE, name) == "#true" && ToString(FALSE, name) == "#false"
    ensures ToString(And([p, q]), name) == "(" + ToString(p, name) + " & " + ToString(q, name) + ")"
    ensures ToString(Or([p, q]), name) == "(" + ToString(p, name) + " | " + ToString(q, name) + ")"
    ensures ToString(Not(p), name) == "~" + ToString(p, name) && ToString(Symbol(t, m), name) == name(t)
  {
    var printed := [ToString(p, name), ToString(q, name)];
    assert seq(2, i requires 0 <= i < 2 => ToString([p, q][i], name)) == printed;
    assert JoinStrings(printed[1..], " & ") == printed[1] && JoinStrings(printed[1..], " | ") == printed[1];
  }

  /** Only the True predicate prints as such. */
  lemma PrintsTrue(p: Predicate, name: TensorId -> string)
    requires PlainNames(name)
    ensures ToString(p, name) == "#true" <==> p == TRUE
  {
    match p
    case And(ops) =>
      if ops != [] { assert ToString(p, name)[0] == '('; }
    case Or(ops) =>
      if ops != [] { assert ToString(p, name)[0] == '('; } else { assert "#false"[1] != "#true"[1]; }
    case Not(q) => assert ToString(p, name)[0] == '~';
    case Symbol(t, _) => assert name(t)[0] != '#';
  }

  /** Printing is not injective: it does not show whether a symbol stands for liveness or for truth. */
  lemma PrintingConfuses(t: TensorId, name: TensorId -> string)
    ensures ToString(Symbol(t, true), name) == ToString(Symbol(t, false), name)
    ensures exists a: Assignment :: Holds(Symbol(t, false), a) && !Holds(Symbol(t, true), a)
  {
    var a: Assignment := (_: TensorId, m: bool) => !m;
    assert Holds(Symbol(t, false), a) && !Holds(Symbol(t, true), a);
  }
}
