/** What a printed formula tells: everything but whether its symbols stand for liveness or for truth. */
module Printing {
  import opened Predicates

  /** The formula without the distinction between "live" and "live and true". */
  function Erase(p: Predicate): Predicate {
    match p
    case And(ops) => And(seq(|ops|, i requires 0 <= i < |ops| => Erase(ops[i])))
    case Or(ops) => Or(seq(|ops|, i requires 0 <= i < |ops| => Erase(ops[i])))
    case Not(q) => Not(Erase(q))
    case Symbol(t, _) => Symbol(t, false)
  }

  /** Different tensors have different names, and no name contains what separates names in print. */
  ghost predicate FaithfulNames(name: TensorId -> string) {
    && PlainNames(name)
    && (forall t, u :: name(t) == name(u) ==> t == u)
    && (forall t :: ' ' !in name(t) && ')' !in name(t))
  }

  /** No conjunction or disjunction of a single operand; those the factory makes have none. */
  predicate NoSingles(p: Predicate) {
    match p
    case And(ops) => |ops| != 1 && forall i :: 0 <= i < |ops| ==> NoSingles(ops[i])
    case Or(ops) => |ops| != 1 && forall i :: 0 <= i < |ops| ==> NoSingles(ops[i])
    case Not(q) => NoSingles(q)
    case Symbol(_, _) => true
  }

  lemma {:induction false} NormalNoSingles(p: Predicate, h: Hash)
    requires Normal(p, h)
    ensures NoSingles(p)
  {
    match p
    case And(ops) =>
      forall i | 0 <= i < |ops| ensures NoSingles(ops[i]) {
        NormalNoSingles(ops[i], h);
      }
    case Or(ops) =>
      forall i | 0 <= i < |ops| ensures NoSingles(ops[i]) {
        NormalNoSingles(ops[i], h);
      }
    case Not(q) => NormalNoSingles(q, h);
    case Symbol(_, _) =>
  }

  /** The operands in print, from the first to the last. */
  function JoinOps(ops: seq<Predicate>, name: TensorId -> string, separator: string): string
    requires ops != []
  {
    if |ops| == 1 then ToString(ops[0], name)
    else ToString(ops[0], name) + separator + JoinOps(ops[1..], name, separator)
  }

  lemma {:induction false} JoinIsJoin(ops: seq<Predicate>, name: TensorId -> string, separator: string)
    requires ops != []
    ensures JoinStrings(seq(|ops|, i requires 0 <= i < |ops| => ToString(ops[i], name)), separator)
              == JoinOps(ops, name, separator)
  {
    var strings := seq(|ops|, i requires 0 <= i < |ops| => ToString(ops[i], name));
    if |ops| > 1 {
      var rest := ops[1..];
      assert strings[1..] == seq(|rest|, i requires 0 <= i < |rest| => ToString(rest[i], name));
      JoinIsJoin(rest, name, separator);
    }
  }

  /** The text after a formula: nothing, or what follows an operand. */
  predicate Stops(r: string) {
    r == "" || r[0] == ' ' || r[0] == ')'
  }

  lemma NameEnds(n: string, m: string, r: string, u: string)
    requires ' ' !in n && ')' !in n && ' ' !in m && ')' !in m && Stops(r) && Stops(u) && n + r == m + u
    ensures n == m && r == u
  {
    var w := n + r;
    assert |n| < |w| ==> w[|n|] == r[0];
    assert |m| < |w| ==> w[|m|] == u[0];
    assert forall k :: 0 <= k < |n| ==> w[k] == n[k] && w[k] in n;
    assert forall k :: 0 <= k < |m| ==> w[k] == m[k] && w[k] in m;
    assert |n| == |m|;
    assert n == (n + r)[..|n|] && m == (m + u)[..|m|] && r == (n + r)[|n|..] && u == (m + u)[|m|..];
  }

  /** How a formula begins. */
  function Head(p: Predicate, name: TensorId -> string): char
    requires PlainNames(name)
  {
    match p
    case And(ops) => if ops == [] then '#' else '('
    case Or(ops) => if ops == [] then '#' else '('
    case Not(_) => '~'
    case Symbol(t, _) => name(t)[0]
  }

  lemma StartsWithHead(p: Predicate, name: TensorId -> string)
    requires PlainNames(name)
    ensures ToString(p, name) != "" && ToString(p, name)[0] == Head(p, name)
  {
  }

  predicate Separator(s: string) {
    s == " & " || s == " | "
  }

  /** The printed form of a conjunction or disjunction with operands. */
  lemma CompositeString(p: Predicate, name: TensorId -> string)
    requires (p.And? || p.Or?) && p.operands != []
    ensures ToString(p, name) == "(" + JoinOps(p.operands, name, if p.And? then " & " else " | ") + ")"
  {
    JoinIsJoin(p.operands, name, if p.And? then " & " else " | ");
  }

  lemma Strip(a: string, r: string, u: string)
    requires a + r == a + u
    ensures r == u
  {
    assert r == (a + r)[|a|..] && u == (a + u)[|a|..];
  }

  lemma Associate(a: string, b: string, c: string)
    ensures a + b + c == a + (b + c)
  {
  }

  lemma Regroup(x: string, s: string, y: string, z: string, r: string)
    ensures x + (s + y) + z + r == x + (s + (y + z + r)) && x + s + y == x + (s + y)
  {
    assert x + (s + y) + z + r == x + s + y + z + r;
    assert x + (s + (y + z + r)) == x + s + y + z + r;
  }

  lemma Reassociate(a: string, b: string, c: string, d: string)
    ensures a + b + c + d == a + (b + c + d)
  {
  }

  /** Where two printed formulas begin the same text, they are the same but for what printing drops. */
  lemma {:induction false} ReadsBack(p: Predicate, q: Predicate, r: string, u: string, name: TensorId -> string)
    requires FaithfulNames(name) && NoSingles(p) && NoSingles(q) && Stops(r) && Stops(u)
    requires ToString(p, name) + r == ToString(q, name) + u
    ensures Erase(p) == Erase(q) && r == u
    decreases p
  {
    hide ToString, Erase;
    StartsWithHead(p, name);
    StartsWithHead(q, name);
    assert Head(p, name) == (ToString(p, name) + r)[0] == (ToString(q, name) + u)[0] == Head(q, name);
    SameShape(p, q, name);
    match p
    case Symbol(t, _) =>
      SymbolReadsBack(p, q, r, u, name);
    case Not(p') =>
      NegationString(p, name);
      NegationString(q, name);
      Associate("~", ToString(p', name), r);
      Associate("~", ToString(q.operand, name), u);
      Strip("~", ToString(p', name) + r, ToString(q.operand, name) + u);
      ReadsBack(p', q.operand, r, u, name);
      ErasedNegations(p, q);
    case And(_) =>
      CompositeReadsBack(p, q, r, u, name);
    case Or(_) =>
      CompositeReadsBack(p, q, r, u, name);
  }

  /** Formulas with the same head are of one kind, but for conjunctions and disjunctions. */
  lemma SameShape(p: Predicate, q: Predicate, name: TensorId -> string)
    requires PlainNames(name) && Head(p, name) == Head(q, name)
    ensures p.Symbol? <==> q.Symbol?
    ensures p.Not? <==> q.Not?
    ensures (p.And? || p.Or?) && (q.And? || q.Or?) ==> (p.operands == [] <==> q.operands == [])
  {
  }

  lemma SymbolReadsBack(p: Predicate, q: Predicate, r: string, u: string, name: TensorId -> string)
    requires FaithfulNames(name) && p.Symbol? && q.Symbol? && Stops(r) && Stops(u)
    requires ToString(p, name) + r == ToString(q, name) + u
    ensures Erase(p) == Erase(q) && r == u
  {
    NameEnds(name(p.tensor), name(q.tensor), r, u);
  }

  lemma NegationString(p: Predicate, name: TensorId -> string)
    requires p.Not?
    ensures ToString(p, name) == "~" + ToString(p.operand, name)
  {
  }

  lemma ErasedNegations(p: Predicate, q: Predicate)
    requires p.Not? && q.Not? && Erase(p.operand) == Erase(q.operand)
    ensures Erase(p) == Erase(q)
  {
  }

  lemma ErasedOperands(p: Predicate, q: Predicate)
    requires (p.And? && q.And?) || (p.Or? && q.Or?)
    requires |p.operands| == |q.operands|
    requires forall i :: 0 <= i < |p.operands| ==> Erase(p.operands[i]) == Erase(q.operands[i])
    ensures Erase(p) == Erase(q)
  {
  }

  lemma EmptyReadsBack(p: Predicate, q: Predicate, r: string, u: string, name: TensorId -> string)
    requires (p.And? || p.Or?) && (q.And? || q.Or?) && p.operands == [] && q.operands == []
    requires ToString(p, name) + r == ToString(q, name) + u
    ensures Erase(p) == Erase(q) && r == u
  {
    assert (ToString(p, name) + r)[1] == ToString(p, name)[1] && (ToString(q, name) + u)[1] == ToString(q, name)[1];
    assert "#true"[1] == 't' && "#false"[1] == 'f';
    assert p.And? <==> q.And?;
    Strip(ToString(p, name), r, u);
  }

  lemma {:induction false} CompositeReadsBack(p: Predicate, q: Predicate, r: string, u: string,
                                              name: TensorId -> string)
    requires FaithfulNames(name) && NoSingles(p) && NoSingles(q) && Stops(r) && Stops(u)
    requires (p.And? || p.Or?) && (q.And? || q.Or?) && (p.operands == [] <==> q.operands == [])
    requires ToString(p, name) + r == ToString(q, name) + u
    ensures Erase(p) == Erase(q) && r == u
    decreases p, 0
  {
    if p.operands == [] {
      EmptyReadsBack(p, q, r, u, name);
    } else {
      hide ToString, Erase, JoinOps;
      var a, b := if p.And? then " & " else " | ", if q.And? then " & " else " | ";
      CompositeString(p, name);
      CompositeString(q, name);
      Reassociate("(", JoinOps(p.operands, name, a), ")", r);
      Reassociate("(", JoinOps(q.operands, name, b), ")", u);
      Strip("(", JoinOps(p.operands, name, a) + ")" + r, JoinOps(q.operands, name, b) + ")" + u);
      ListReadsBack(p.operands, q.operands, a, b, r, u, name);
      assert " & "[1] != " | "[1];
      ErasedOperands(p, q);
    }
  }

  /** What comes after the first of several operands. */
  function Tail(ops: seq<Predicate>, separator: string, r: string, name: TensorId -> string): string
    requires ops != []
  {
    if |ops| == 1 then ")" + r else separator + (JoinOps(ops[1..], name, separator) + ")" + r)
  }

  lemma JoinMore(ops: seq<Predicate>, separator: string, name: TensorId -> string)
    requires |ops| > 1
    ensures JoinOps(ops, name, separator) == ToString(ops[0], name) + separator + JoinOps(ops[1..], name, separator)
  {
    hide ToString;
  }

  lemma JoinTail(ops: seq<Predicate>, separator: string, r: string, name: TensorId -> string)
    requires ops != [] && Separator(separator)
    ensures JoinOps(ops, name, separator) + ")" + r == ToString(ops[0], name) + Tail(ops, separator, r, name)
    ensures Stops(Tail(ops, separator, r, name)) && Tail(ops, separator, r, name) != ""
    ensures (Tail(ops, separator, r, name)[0] == ')') <==> |ops| == 1
  {
    hide ToString;
    if |ops| > 1 {
      var x, y := ToString(ops[0], name), JoinOps(ops[1..], name, separator);
      JoinMore(ops, separator, name);
      hide JoinOps;
      Regroup(x, separator, y, ")", r);
    } else {
      assert ToString(ops[0], name) + ")" + r == ToString(ops[0], name) + (")" + r);
    }
  }

  lemma {:induction false} ListReadsBack(ps: seq<Predicate>, qs: seq<Predicate>, a: string, b: string, r: string,
                                         u: string, name: TensorId -> string)
    requires ps != [] && qs != [] && Separator(a) && Separator(b) && FaithfulNames(name)
    requires forall i :: 0 <= i < |ps| ==> NoSingles(ps[i])
    requires forall i :: 0 <= i < |qs| ==> NoSingles(qs[i])
    requires JoinOps(ps, name, a) + ")" + r == JoinOps(qs, name, b) + ")" + u
    ensures |ps| == |qs| && r == u && (|ps| > 1 ==> a == b)
    ensures forall i :: 0 <= i < |ps| ==> Erase(ps[i]) == Erase(qs[i])
    decreases ps
  {
    hide ToString, Erase, JoinOps, Tail, FaithfulNames, NoSingles;
    JoinTail(ps, a, r, name);
    JoinTail(qs, b, u, name);
    ReadsBack(ps[0], qs[0], Tail(ps, a, r, name), Tail(qs, b, u, name), name);
    if |ps| == 1 {
      TailOfOne(ps, a, r, name);
      TailOfOne(qs, b, u, name);
      Strip(")", r, u);
    } else {
      TailOfMore(ps, a, r, name);
      TailOfMore(qs, b, u, name);
      var x, y := JoinOps(ps[1..], name, a) + ")" + r, JoinOps(qs[1..], name, b) + ")" + u;
      assert (a + x)[..3] == a && (b + y)[..3] == b;
      Strip(a, x, y);
      ListReadsBack(ps[1..], qs[1..], a, b, r, u, name);
      forall i | 0 <= i < |ps| ensures Erase(ps[i]) == Erase(qs[i]) {
        if i > 0 {
          assert ps[i] == ps[1..][i - 1] && qs[i] == qs[1..][i - 1];
        }
      }
    }
  }

  lemma TailOfOne(ops: seq<Predicate>, separator: string, r: string, name: TensorId -> string)
    requires |ops| == 1
    ensures Tail(ops, separator, r, name) == ")" + r
  {
  }

  lemma TailOfMore(ops: seq<Predicate>, separator: string, r: string, name: TensorId -> string)
    requires |ops| > 1
    ensures Tail(ops, separator, r, name) == separator + (JoinOps(ops[1..], name, separator) + ")" + r)
  {
  }

  lemma {:induction false} ErasedPrint(p: Predicate, name: TensorId -> string)
    ensures ToString(Erase(p), name) == ToString(p, name)
  {
    match p
    case And(ops) =>
      forall i | 0 <= i < |ops| ensures ToString(Erase(p).operands[i], name) == ToString(ops[i], name) {
        ErasedPrint(ops[i], name);
      }
      assert seq(|ops|, i requires 0 <= i < |ops| => ToString(Erase(p).operands[i], name))
          == seq(|ops|, i requires 0 <= i < |ops| => ToString(ops[i], name));
    case Or(ops) =>
      forall i | 0 <= i < |ops| ensures ToString(Erase(p).operands[i], name) == ToString(ops[i], name) {
        ErasedPrint(ops[i], name);
      }
      assert seq(|ops|, i requires 0 <= i < |ops| => ToString(Erase(p).operands[i], name))
          == seq(|ops|, i requires 0 <= i < |ops| => ToString(ops[i], name));
    case Not(q) => ErasedPrint(q, name);
    case Symbol(_, _) =>
  }

  /**
   Two formulas made by the factory print alike exactly if they differ in nothing but what their symbols stand
   for.
   */
  lemma PrintsAlikeIff(p: Predicate, q: Predicate, name: TensorId -> string)
    requires FaithfulNames(name) && NoSingles(p) && NoSingles(q)
    ensures ToString(p, name) == ToString(q, name) <==> Erase(p) == Erase(q)
  {
    if ToString(p, name) == ToString(q, name) {
      ReadsBack(p, q, "", "", name);
    }
    if Erase(p) == Erase(q) {
      ErasedPrint(p, name);
      ErasedPrint(q, name);
    }
  }
}
